/**
 * What only other clients' trees have (app/src/core/mime.ts:44-57, 185-194,
 * 386-397): text around the parts, folded header lines, and a single part.
 */
module MimeForeign {
  import opened Common
  import opened Strings
  import opened LineText
  import opened Rfc822
  import opened Multipart
  import opened MimeTree
  import opened MimeParts
  import Base64
  import Utf8

  // ------------------------------------------------------- around the parts --

  lemma {:induction false} FreeIsOnePiece(s: string, lineStart: bool, boundary: string)
    requires Free(s, lineStart, boundary)
    ensures Pieces(s, lineStart, boundary) == [s]
  {
    if s != "" {
      FreeIsOnePiece(s[1..], EndsJsLine(s[0]), boundary);
      assert [s[0]] + s[1..] == s;
    }
  }

  lemma TreeBefore(parts: seq<string>, boundary: string, after: string)
    requires IsBoundary(boundary) && (forall p | p in parts :: Free(p, true, boundary)) && Free(after, true, boundary)
    ensures Pieces(Tree(parts, boundary, "\n" + after), true, boundary) == [""] + Sections(parts) + ["\n" + after]
  {
    FreeIsOnePiece(after, true, boundary);
    Multipart.NewlineFirst(after, false, boundary);
    assert [["\n"[0]] + after] + [after][1..] == ["\n" + after];
    PiecesOfTree(parts, boundary, "\n" + after);
  }

  lemma PreambleFirst(before: string, tree: string, boundary: string, rest: seq<string>)
    requires IsBoundary(boundary) && Free(before, true, boundary) && Pieces(tree, true, boundary) == [""] + rest
    ensures Pieces(before + ("\n" + tree), true, boundary) == [before + "\n"] + rest
  {
    var lineStart := if before == "" then true else EndsJsLine(before[|before| - 1]);
    Multipart.NewlineFirst(tree, lineStart, boundary);
    PassOver(before, true, tree, boundary);
    OntoFirst(rest);
    assert Pieces("\n" + tree, lineStart, boundary) == ["\n"] + rest;
  }

  lemma OntoFirst(rest: seq<string>)
    ensures [["\n"[0]] + ([""] + rest)[0]] + ([""] + rest)[1..] == ["\n"] + rest
  {
    assert ([""] + rest)[1..] == rest;
    assert ["\n"[0]] + "" == "\n";
  }

  lemma SectionsBetween(first: string, sections: seq<string>, last: string)
    ensures var pieces := [first] + (sections + [last]);
      |pieces| == |sections| + 2 && pieces[1..|pieces| - 1] == sections
  {
  }

  /** What stands before the first delimiter line and after the last belongs to no part. */
  lemma AroundIsDropped(before: string, parts: seq<string>, raws: seq<Raw>, boundary: string, after: string)
    requires |parts| == |raws| > 0 && (forall i | 0 <= i < |parts| :: Reads(parts[i], raws[i]))
    requires IsBoundary(boundary) && (forall p | p in parts :: Free(p, true, boundary))
    requires Free(before, true, boundary) && Free(after, true, boundary)
    requires '\r' !in before + ("\n" + Tree(parts, boundary, "\n" + after))
    ensures SplitMultipart(before + ("\n" + Tree(parts, boundary, "\n" + after)), boundary) == raws
  {
    var tail := "\n" + after;
    TreeBefore(parts, boundary, after);
    Grouped("", Sections(parts), tail);
    PreambleFirst(before, Tree(parts, boundary, tail), boundary, Sections(parts) + [tail]);
    NormalIsKept(before + ("\n" + Tree(parts, boundary, tail)));
    SectionsBetween(before + "\n", Sections(parts), tail);
    SectionsRead(parts, raws);
  }

  lemma Grouped(first: string, sections: seq<string>, last: string)
    ensures [first] + sections + [last] == [first] + (sections + [last])
  {
  }

  // -------------------------------------------------------- folded headers --

  lemma {:induction false} SkipsFolds(folds: string, rest: string)
    requires (forall c | c in folds :: IsFold(c)) && (rest == "" || !IsFold(rest[0]))
    ensures SkipFolds(folds + rest) == rest
  {
    if folds == "" {
      assert folds + rest == rest;
    } else {
      assert folds[0] in folds;
      SkipsFolds(folds[1..], rest);
      assert (folds + rest)[1..] == folds[1..] + rest;
    }
  }

  /** A line end with blanks behind it, however many, is one space. */
  lemma {:induction false} FoldIsSpace(line: string, folds: string, rest: string)
    requires OneLine(line) && folds != "" && (forall c | c in folds :: IsFold(c)) && (rest == "" || !IsFold(rest[0]))
    ensures Unfold(line + ("\n" + folds + rest)) == line + (" " + Unfold(rest))
  {
    var tail := "\n" + folds + rest;
    if line == "" {
      Empty(tail, line);
      Empty(" " + Unfold(rest), line);
      assert folds[0] in folds;
      assert tail[1..] == folds + rest;
      SkipsFolds(folds, rest);
    } else {
      FoldIsSpace(line[1..], folds, rest);
      HeadAndTail(line, tail);
      HeadAndTail(line, " " + Unfold(rest));
    }
  }

  lemma Empty(s: string, nothing: string)
    requires nothing == ""
    ensures nothing + s == s
  {
  }

  lemma HeadAndTail(s: string, t: string)
    requires s != ""
    ensures (s + t)[1..] == s[1..] + t && (s + t)[0] == s[0] && [s[0]] + (s[1..] + t) == s + t
  {
  }

  // --------------------------------------------------------- a single part --

  /** How a single part's content reads: as it is, or decoded, without the space around it. */
  function SingleBody(content: string, encoded: Option<Html>): (b: Body) {
    if encoded.None? then AsIs(JsTrim(content)) else Decoded(TrimmedUnits(encoded.value))
  }

  /** A tree that is one part has that part's text for its body; if that is markup, it is shown as such too. */
  lemma SinglePartReads(lines: seq<string>, content: string, encoded: Option<Html>, foreign: Foreign)
    requires AreHeaderLines(lines) && '\r' !in content
    requires var h := HeaderMap(lines);
      && BoundaryOf(HeaderOr(h, TYPE_KEY, "")).None?
      && Param(HeaderOr(h, TYPE_KEY, ""), "charset", 0) in {None, Some("utf-8")}
      && (match encoded
          case None => ENCODING_KEY !in h
          case Some(text) => ENCODING_KEY in h && h[ENCODING_KEY] == "base64" && StripSpaces(content) == Base64.Encode(Utf8.Encode(text)) && Utf8.WellPaired(text))
    ensures var (h, r) := (HeaderMap(lines), ParseInner(Text(lines, content), foreign));
      && r.subject == HeaderOr(h, "subject", PLACEHOLDER_SUBJECT)
      && r.body == SingleBody(content, encoded) && r.attachments == []
      && r.html == (if StartsWithI(HeaderOr(h, TYPE_KEY, ""), "text/html") then Some(SingleBody(content, encoded)) else None)
  {
    ParseOfText(lines, content);
    CharsetIsPlain();
    if encoded.Some? {
      Base64.RoundTrip(Utf8.Encode(encoded.value));
      Utf8.RoundTripExact(encoded.value);
    }
  }

  lemma CharsetIsPlain()
    ensures CharsetName("") !in SINGLE_BYTE && CharsetName("utf-8") !in SINGLE_BYTE
    ensures JsTrim(Lower("base64")) == "base64" && JsTrim(Lower("")) == ""
  {
    assert Lower("base64") == "base64" && Lower("") == "";
    assert Lower("utf-8") == "utf-8" && JsTrim("utf-8") == "utf-8" && JsTrim("") == "";
    assert CharsetName("utf-8") == "utf-8";
  }

  // ------------------------------------------------------ a folded header --

  /** A header folded over lines reads as on one, whatever the blanks it is folded with. */
  lemma FoldedHeaderReads(name: string, value: string, folds: string, more: string, content: string)
    requires IsName(name) && Letters(name) && OneLine(value) && OneLine(more) && '\r' !in name + value + folds + more + content
    requires folds != "" && (forall c | c in folds :: IsFold(c)) && more != "" && !IsJsSpace(more[0])
    ensures var raw := Parse(name + ": " + value + ("\n" + folds + more) + "\n\n" + content);
      raw.body == content && raw.headers == map[Lower(name) := JsTrim(value + " " + more)]
  {
    var line := name + ": " + value;
    var block := line + ("\n" + folds + more);
    var s := block + "\n\n" + content;
    NormalIsKept(s);
    NameLine(name, value);
    FoldedBlockEnds(line, folds, more, content);
    assert s[..|block|] == block && s[|block| + 2..] == content;
    FoldIsSpace(line, folds, more);
    UnfoldLine(more, "");
    assert more + "" == more;
    OneHeaderLine(name, value, more);
  }

  lemma NameLine(name: string, value: string)
    requires Letters(name) && OneLine(value)
    ensures OneLine(name + ": " + value)
  {
    var line := name + ": " + value;
    forall i | 0 <= i < |line| ensures line[i] != '\n' {
      if i < |name| {
        assert line[i] == name[i] && name[i] in name;
      } else if i >= |name| + 2 {
        assert line[i] == value[i - |name| - 2];
      }
    }
  }

  lemma OneHeaderLine(name: string, value: string, more: string)
    requires IsName(name) && Letters(name) && OneLine(value) && OneLine(more)
    ensures HeaderMap(Split(name + ": " + value + (" " + more))) == map[Lower(name) := JsTrim(value + " " + more)]
  {
    var line := name + ": " + (value + " " + more);
    assert name + ": " + value + (" " + more) == line;
    HeaderOfLine(name, value + " " + more);
    NameLine(name, value + " " + more);
    assert Join([line], "\n") == line;
    SplitOfJoin([line]);
    assert [line][..0] == [];
  }

  lemma FoldedBlockEnds(line: string, folds: string, more: string, content: string)
    requires OneLine(line) && OneLine(more) && folds != "" && (forall c | c in folds :: IsFold(c)) && more != ""
    ensures var block := line + ("\n" + folds + more);
      Find(block + "\n\n" + content, "\n\n") == Some(|block|)
  {
    var block := line + ("\n" + folds + more);
    var (s, n) := (block + "\n\n" + content, |block|);
    assert s[n..n + 2] == "\n\n";
    forall i: nat | i < n ensures !OccursAt(s, "\n\n", i) {
      OccursMeans(s, "\n\n", i);
      OneNewline(line, folds, more, i);
      assert s[i] == block[i] && (i + 1 < n ==> s[i + 1] == block[i + 1]);
    }
    FindIs(s, "\n\n", n);
  }

  /** The only line end in a folded line is the one folded at. */
  lemma OneNewline(line: string, folds: string, more: string, i: nat)
    requires OneLine(line) && OneLine(more) && folds != "" && (forall c | c in folds :: IsFold(c)) && more != ""
    requires i < |line + ("\n" + folds + more)|
    ensures var block := line + ("\n" + folds + more);
      block[i] == '\n' ==> i + 1 < |block| && block[i + 1] != '\n'
  {
    var block := line + ("\n" + folds + more);
    var at := |line| + 1;
    if i < |line| {
      assert block[i] == line[i];
    } else if i == |line| {
      assert block[i + 1] == folds[0] && folds[0] in folds;
    } else if i < at + |folds| {
      assert block[i] == folds[i - at] && folds[i - at] in folds;
    } else {
      assert block[i] == more[i - at - |folds|];
    }
  }
}
