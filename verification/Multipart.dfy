/** Splitting a multipart body at its delimiter lines (app/src/core/mime.ts:185-194; section 5.1.1 of RFC 2046). */
module Multipart {
  import opened Common
  import opened Strings
  import opened LineText
  import opened Rfc822

  predicate BlankToEnd(s: string) {
    s == "" || EndsJsLine(s[0]) || (IsFold(s[0]) && BlankToEnd(s[1..]))
  }

  function Blanks(s: string): (n: nat)
    ensures n <= |s|
  {
    if s != "" && IsFold(s[0]) then 1 + Blanks(s[1..]) else 0
  }

  function Mark(boundary: string): (m: string) {
    "--" + boundary
  }

  /** Length of the delimiter at the front: the boundary, closing dashes or not, blanks to the end of the line. */
  function Delimiter(s: string, boundary: string): (n: Option<nat>)
    ensures n.Some? ==> 2 <= n.value <= |s|
  {
    var mark := Mark(boundary);
    if !StartsWith(s, mark) then None
    else
      var rest := s[|mark|..];
      if StartsWith(rest, "--") && BlankToEnd(rest[2..]) then Some(|mark| + 2 + Blanks(rest[2..]))
      else if BlankToEnd(rest) then Some(|mark| + Blanks(rest))
      else None
  }

  /** The text between delimiter lines, with what comes before the first and after the last. */
  function Pieces(s: string, lineStart: bool, boundary: string): (r: seq<string>)
    ensures r != [] && forall i | 0 <= i < |r| :: |r[i]| <= |s|
    ensures |r| > 1 ==> forall i | 0 <= i < |r| :: |r[i]| + 2 <= |s|
    decreases |s|
  {
    if s == "" then [""]
    else if lineStart && Delimiter(s, boundary).Some? then [""] + Pieces(s[Delimiter(s, boundary).value..], false, boundary)
    else
      var r := Pieces(s[1..], EndsJsLine(s[0]), boundary);
      [[s[0]] + r[0]] + r[1..]
  }

  function StripNewline(s: string): (r: string)
    ensures |r| <= |s|
  {
    if s != "" && s[0] == '\n' then s[1..] else s
  }

  /** Sections that say something, read as parts. */
  function ReadSections(sections: seq<string>): (parts: seq<Raw>) {
    if sections == [] then []
    else
      var s := sections[0];
      (if JsTrim(s) == "" || s == "--" then [] else [Parse(StripNewline(s))]) + ReadSections(sections[1..])
  }

  lemma {:induction false} SectionsShrink(sections: seq<string>, bound: nat)
    requires forall s | s in sections :: |s| < bound
    ensures forall p | p in ReadSections(sections) :: |p.body| < bound
  {
    if sections != [] {
      assert sections[0] in sections;
      SectionsShrink(sections[1..], bound);
    }
  }

  /** The sections between delimiters: without the preamble and the epilogue. */
  function SplitMultipart(body: string, boundary: string): (parts: seq<Raw>)
    ensures forall p | p in parts :: |p.body| < |body|
  {
    var pieces := Pieces(NormaliseCrlf(body), true, boundary);
    if |pieces| < 3 then [] else
      var sections := pieces[1..|pieces| - 1];
      assert forall s | s in sections :: |s| < |body|;
      SectionsShrink(sections, |body|);
      ReadSections(sections)
  }

  // ---------------------------------------------------------- what is written --

  /** Parts between delimiter lines, the closing one, and what follows it. */
  function Tree(parts: seq<string>, boundary: string, tail: string): (s: string) {
    if parts == [] then Mark(boundary) + "--" + tail
    else Mark(boundary) + "\n" + parts[0] + "\n\n" + Tree(parts[1..], boundary, tail)
  }

  predicate IsBoundary(b: string) {
    b != "" && (forall c | c in b :: !EndsJsLine(c) && c != '"')
  }

  /** No line of `s` is a delimiter line. */
  predicate Free(s: string, lineStart: bool, boundary: string) {
    s != "" ==> !(lineStart && Delimiter(s, boundary).Some?) && Free(s[1..], EndsJsLine(s[0]), boundary)
  }

  lemma {:induction false} BlankSame(s: string, rest: string)
    ensures BlankToEnd(s + ("\n" + rest)) <==> BlankToEnd(s)
    ensures BlankToEnd(s) ==> Blanks(s + ("\n" + rest)) == Blanks(s)
  {
    if s == "" {
      assert s + ("\n" + rest) == "\n" + rest;
    } else {
      BlankSame(s[1..], rest);
      assert (s + ("\n" + rest))[1..] == s[1..] + ("\n" + rest);
    }
  }

  lemma PrefixSame(s: string, rest: string, pat: string)
    requires '\n' !in pat
    ensures StartsWith(s + ("\n" + rest), pat) <==> StartsWith(s, pat)
  {
    var all := s + ("\n" + rest);
    if |s| >= |pat| {
      assert all[..|pat|] == s[..|pat|];
    } else {
      assert all[|s|] == '\n';
      assert pat[|s|] in pat;
      assert |all| >= |pat| ==> all[..|pat|][|s|] == '\n';
    }
  }

  lemma MarkIsOneLine(boundary: string)
    requires IsBoundary(boundary)
    ensures '\n' !in Mark(boundary)
  {
    forall c | c in Mark(boundary) ensures c != '\n' {
      assert c == '-' || c in boundary;
    }
  }

  /** Whether a line is a delimiter does not hang on the lines after it. */
  lemma DelimiterSame(s: string, rest: string, boundary: string)
    requires IsBoundary(boundary)
    ensures Delimiter(s + ("\n" + rest), boundary).Some? <==> Delimiter(s, boundary).Some?
  {
    MarkIsOneLine(boundary);
    var mark := Mark(boundary);
    PrefixSame(s, rest, mark);
    if StartsWith(s, mark) {
      var after := s[|mark|..];
      assert (s + ("\n" + rest))[|mark|..] == after + ("\n" + rest);
      PrefixSame(after, rest, "--");
      BlankSame(after, rest);
      if StartsWith(after, "--") {
        assert (after + ("\n" + rest))[2..] == after[2..] + ("\n" + rest);
        BlankSame(after[2..], rest);
      }
    }
  }

  /** Text free of delimiter lines is passed over. */
  lemma {:induction false} PassOver(s: string, lineStart: bool, rest: string, boundary: string)
    requires IsBoundary(boundary) && Free(s, lineStart, boundary)
    ensures var r := Pieces("\n" + rest, if s == "" then lineStart else EndsJsLine(s[|s| - 1]), boundary);
      Pieces(s + ("\n" + rest), lineStart, boundary) == [s + r[0]] + r[1..]
  {
    if s == "" {
      assert s + ("\n" + rest) == "\n" + rest;
      FirstPiece("", Pieces("\n" + rest, lineStart, boundary));
    } else {
      DelimiterSame(s, rest, boundary);
      PassOver(s[1..], EndsJsLine(s[0]), rest, boundary);
      OneCharacter(s, lineStart, rest, boundary);
      FirstPiece(s, Pieces("\n" + rest, EndsJsLine(s[|s| - 1]), boundary));
    }
  }

  lemma OneCharacter(s: string, lineStart: bool, rest: string, boundary: string)
    requires s != "" && !(lineStart && Delimiter(s + ("\n" + rest), boundary).Some?)
    ensures var r := Pieces(s[1..] + ("\n" + rest), EndsJsLine(s[0]), boundary);
      Pieces(s + ("\n" + rest), lineStart, boundary) == [[s[0]] + r[0]] + r[1..]
  {
    assert (s + ("\n" + rest))[1..] == s[1..] + ("\n" + rest);
  }

  /** Text put before the first of some pieces, all at once or its first character after the rest. */
  lemma FirstPiece(s: string, r: seq<string>)
    requires r != []
    ensures s == "" ==> r == [s + r[0]] + r[1..]
    ensures s != "" ==> [[s[0]] + ([s[1..] + r[0]] + r[1..])[0]] + ([s[1..] + r[0]] + r[1..])[1..] == [s + r[0]] + r[1..]
  {
    if s != "" {
      assert [s[0]] + (s[1..] + r[0]) == s + r[0];
    } else {
      assert s + r[0] == r[0] && [r[0]] + r[1..] == r;
    }
  }

  /** A newline starts no delimiter. */
  lemma NewlineFirst(rest: string, lineStart: bool, boundary: string)
    ensures var r := Pieces(rest, true, boundary);
      Pieces("\n" + rest, lineStart, boundary) == [["\n"[0]] + r[0]] + r[1..]
  {
    var s := "\n" + rest;
    assert s[1..] == rest;
    assert !StartsWith(s, Mark(boundary)) by {
      assert Mark(boundary)[0] == '-';
      assert |s| >= |Mark(boundary)| ==> s[..|Mark(boundary)|][0] == '\n';
    }
  }

  /** The delimiter line a part begins with. */
  lemma OpeningDelimiter(rest: string, boundary: string)
    ensures Delimiter(Mark(boundary) + ("\n" + rest), boundary) == Some(|Mark(boundary)|)
  {
    var (mark, s) := (Mark(boundary), Mark(boundary) + ("\n" + rest));
    assert s[..|mark|] == mark && s[|mark|..] == "\n" + rest;
    assert !StartsWith("\n" + rest, "--") by {
      assert |"\n" + rest| >= 2 ==> ("\n" + rest)[..2][0] == '\n';
    }
  }

  lemma ClosingDelimiter(tail: string, boundary: string)
    requires tail != "" && tail[0] == '\n'
    ensures Delimiter(Mark(boundary) + "--" + tail, boundary) == Some(|Mark(boundary)| + 2)
  {
    var (mark, s) := (Mark(boundary), Mark(boundary) + "--" + tail);
    assert s[..|mark|] == mark && s[|mark|..] == "--" + tail;
    assert ("--" + tail)[..2] == "--" && ("--" + tail)[2..] == tail;
  }

  function Sections(parts: seq<string>): (r: seq<string>)
    ensures |r| == |parts| && forall i | 0 <= i < |r| :: r[i] == "\n" + parts[i] + "\n\n"
  {
    seq(|parts|, i requires 0 <= i < |parts| => "\n" + parts[i] + "\n\n")
  }

  lemma TwoNewlines(rest: string, lineStart: bool, boundary: string)
    ensures var r := Pieces(rest, true, boundary);
      Pieces("\n" + ("\n" + rest), lineStart, boundary) == ["\n" + ("\n" + r[0])] + r[1..]
  {
    NewlineFirst("\n" + rest, lineStart, boundary);
    NewlineFirst(rest, true, boundary);
  }

  lemma Regroup4(a: string, b: string)
    ensures "\n" + a + "\n\n" + b == "\n" + (a + ("\n" + ("\n" + b)))
  {
  }

  lemma PieceOfPart(part: string, rest: string, boundary: string)
    requires IsBoundary(boundary) && Free(part, true, boundary)
    ensures var r := Pieces(rest, true, boundary);
      Pieces("\n" + part + "\n\n" + rest, false, boundary) == ["\n" + part + "\n\n" + r[0]] + r[1..]
  {
    var r := Pieces(rest, true, boundary);
    var after := "\n" + rest;
    PassOver(part, true, after, boundary);
    TwoNewlines(rest, if part == "" then true else EndsJsLine(part[|part| - 1]), boundary);
    NewlineFirst(part + ("\n" + after), false, boundary);
    Regroup4(part, rest);
    Regroup4(part, r[0]);
  }

  lemma {:induction false} PiecesOfTree(parts: seq<string>, boundary: string, tail: string)
    requires IsBoundary(boundary) && tail != "" && tail[0] == '\n' && Pieces(tail, false, boundary) == [tail]
    requires forall p | p in parts :: Free(p, true, boundary)
    ensures Pieces(Tree(parts, boundary, tail), true, boundary) == [""] + Sections(parts) + [tail]
  {
    var (mark, s) := (Mark(boundary), Tree(parts, boundary, tail));
    if parts == [] {
      ClosingDelimiter(tail, boundary);
      assert s[|mark| + 2..] == tail;
      assert [""] + Sections(parts) + [tail] == [""] + [tail];
    } else {
      var rest := Tree(parts[1..], boundary, tail);
      var more := "\n" + parts[0] + "\n\n" + rest;
      assert s == mark + more;
      assert more == "\n" + (parts[0] + "\n\n" + rest);
      OpeningDelimiter(parts[0] + "\n\n" + rest, boundary);
      assert s[|mark|..] == more;
      assert parts[0] in parts;
      PieceOfPart(parts[0], rest, boundary);
      PiecesOfTree(parts[1..], boundary, tail);
      var section := "\n" + parts[0] + "\n\n";
      assert section + "" == section;
      OneMoreSection(parts, section, Sections(parts[1..]), tail);
    }
  }

  lemma OneMoreSection(parts: seq<string>, section: string, more: seq<string>, tail: string)
    requires parts != [] && section == "\n" + parts[0] + "\n\n" && more == Sections(parts[1..])
    ensures [""] + ([section] + (more + [tail])) == [""] + Sections(parts) + [tail]
    ensures ([""] + more + [tail])[0] == "" && ([""] + more + [tail])[1..] == more + [tail]
  {
    assert Sections(parts) == [section] + more;
  }

  /** Newlines alone hold no delimiter. */
  lemma Newlines(tail: string, boundary: string)
    requires tail in {"\n", "\n\n"}
    ensures Pieces(tail, false, boundary) == [tail]
  {
    NewlineFirst("", false, boundary);
    NewlineFirst("\n", false, boundary);
    NewlineFirst("", true, boundary);
    assert "\n" + "" == "\n";
    assert "\n" + "\n" == "\n\n";
  }
}
