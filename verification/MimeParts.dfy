/** The pieces of a protected tree: what header lines, wrapped data and single sections read as. */
module MimeParts {
  import opened Common
  import opened Strings
  import opened LineText
  import opened Rfc822
  import opened Multipart
  import opened MimeTree
  import Base64
  import Utf8

  // -------------------------------------------------------- what is asked --

  predicate SingleLine(s: string) {
    forall c | c in s :: !EndsJsLine(c)
  }

  /** A file as it can be attached: a name in quotes, a plain type, data no line of which is a delimiter. */
  ghost predicate Attachable(a: Attachment, boundary: string) {
    && a.name != "" && '"' !in a.name && SingleLine(a.name)
    && a.mimeType != "" && ';' !in a.mimeType && SingleLine(a.mimeType) && JsTrim(a.mimeType) == a.mimeType
    && !StartsWithI(a.mimeType, "multipart/")
    && (a.contentId.Some? ==> SingleLine(a.contentId.value))
    && (forall l | l in Wrap(StripSpaces(a.data)) :: Free(l, true, boundary))
  }

  ghost predicate Sealable(m: Inner, boundary: string, alt: string) {
    && IsBoundary(boundary) && IsBoundary(alt) && boundary[0] != alt[0]
    && OneLine(m.subject) && OneLine(m.from) && OneLine(m.to)
    && '\r' !in m.subject && '\r' !in m.from && '\r' !in m.to && '\r' !in m.body
    && Free(m.body, true, boundary)
    && (m.html.Some? ==> Free(m.body, true, alt) && Utf8.WellPaired(m.html.value))
    && forall a | a in m.attachments :: Attachable(a, boundary)
  }

  // ------------------------------------------------------------ small texts --

  lemma {:induction false} TrimNotEmpty(s: string, i: nat)
    requires i < |s| && !IsJsSpace(s[i])
    ensures JsTrim(s) != ""
  {
    StartKeeps(s, i);
    var t := JsTrimStart(s);
    var j :| 0 <= j < |t| && !IsJsSpace(t[j]);
    EndKeeps(t, j);
  }

  lemma {:induction false} StartKeeps(s: string, i: nat)
    requires i < |s| && !IsJsSpace(s[i])
    ensures exists j :: 0 <= j < |JsTrimStart(s)| && !IsJsSpace(JsTrimStart(s)[j])
  {
    if IsJsSpace(s[0]) {
      StartKeeps(s[1..], i - 1);
      var j :| 0 <= j < |JsTrimStart(s[1..])| && !IsJsSpace(JsTrimStart(s[1..])[j]);
      assert JsTrimStart(s)[j] == JsTrimStart(s[1..])[j];
    } else {
      assert JsTrimStart(s)[i] == s[i];
    }
  }

  lemma {:induction false} EndKeeps(s: string, i: nat)
    requires i < |s| && !IsJsSpace(s[i])
    ensures JsTrimEnd(s) != ""
  {
    if IsJsSpace(s[|s| - 1]) {
      EndKeeps(s[..|s| - 1], i);
    }
  }

  lemma {:induction false} StripSpaceless(s: string, tail: string)
    requires forall c | c in s :: !IsJsSpace(c)
    ensures StripSpaces(s + tail) == s + StripSpaces(tail)
  {
    if s == "" {
      assert s + tail == tail;
    } else {
      StripSpaceless(s[1..], tail);
      assert (s + tail)[1..] == s[1..] + tail;
      assert [s[0]] + (s[1..] + StripSpaces(tail)) == s + StripSpaces(tail);
    }
  }

  lemma StripNewline(rest: string)
    ensures StripSpaces("\n" + rest) == StripSpaces(rest)
  {
    assert ("\n" + rest)[1..] == rest;
    assert "" + StripSpaces(rest) == StripSpaces(rest);
  }

  /** Wrapped lines, put together and stripped, are the text again. */
  lemma {:induction false} UnwrapLines(s: string)
    requires (forall c | c in s :: !IsJsSpace(c)) && s != ""
    ensures Wrap(s) != [] && StripSpaces(Join(Wrap(s), "\n") + "\n\n") == s
  {
    if |s| <= WIDTH {
      StripSpaceless(s, "\n\n");
      StripNewline("\n");
      StripNewline("");
      assert "\n" + "\n" == "\n\n" && "\n" + "" == "\n";
    } else {
      var (line, rest) := (s[..WIDTH], s[WIDTH..]);
      UnwrapLines(rest);
      UnwrapMore(line, Wrap(rest));
      assert Wrap(s) == [line] + Wrap(rest) && line + rest == s;
    }
  }

  lemma UnwrapMore(line: string, lines: seq<string>)
    requires (forall c | c in line :: !IsJsSpace(c)) && lines != []
    ensures StripSpaces(Join([line] + lines, "\n") + "\n\n") == line + StripSpaces(Join(lines, "\n") + "\n\n")
  {
    var more := Join(lines, "\n") + "\n\n";
    assert ([line] + lines)[1..] == lines;
    assert Join([line] + lines, "\n") + "\n\n" == line + ("\n" + more);
    StripSpaceless(line, "\n" + more);
    StripNewline(more);
  }

  lemma {:induction false} StripNewlinesTwice(s: string)
    ensures StripNewlines(s + "\n\n") == StripNewlines(s)
  {
    assert (s + "\n\n")[..|s + "\n\n"| - 1] == s + "\n";
    assert (s + "\n")[..|s + "\n"| - 1] == s;
  }

  /** Text of its own kind: it holds no delimiter of this boundary. */
  lemma {:induction false} FreeJoin(a: string, b: string, lineStart: bool, boundary: string)
    requires IsBoundary(boundary) && Free(a, lineStart, boundary) && Free(b, true, boundary)
    ensures Free(a + ("\n" + b), lineStart, boundary)
  {
    var s := a + ("\n" + b);
    if a == "" {
      assert s == "\n" + b && s[1..] == b;
      DelimiterSame("", b, boundary);
      assert "" + ("\n" + b) == s;
      NotMark("", boundary);
    } else {
      DelimiterSame(a, b, boundary);
      FreeJoin(a[1..], b, EndsJsLine(a[0]), boundary);
      assert s[1..] == a[1..] + ("\n" + b);
    }
  }

  /** A text that does not start with two dashes and the boundary starts no delimiter. */
  lemma NotMark(s: string, boundary: string)
    requires IsBoundary(boundary)
    requires |s| < 3 || s[0] != '-' || s[2] != boundary[0]
    ensures Delimiter(s, boundary).None?
  {
    var mark := Mark(boundary);
    assert mark[0] == '-' && mark[2] == boundary[0];
    assert |s| >= |mark| ==> s[..|mark|][0] == s[0] && s[..|mark|][2] == s[2];
  }

  lemma {:induction false} FreeInside(s: string, boundary: string)
    requires SingleLine(s)
    ensures Free(s, false, boundary)
  {
    if s != "" {
      assert s[0] in s;
      FreeInside(s[1..], boundary);
    }
  }

  /** A line that begins otherwise is no delimiter, nor is any part of it. */
  lemma FreeLine(s: string, boundary: string)
    requires IsBoundary(boundary) && SingleLine(s) && (|s| < 3 || s[0] != '-' || s[2] != boundary[0])
    ensures Free(s, true, boundary)
  {
    NotMark(s, boundary);
    if s != "" {
      assert s[0] in s;
      FreeInside(s[1..], boundary);
    }
  }

  lemma {:induction false} FreeLines(lines: seq<string>, boundary: string)
    requires IsBoundary(boundary) && lines != [] && forall l | l in lines :: Free(l, true, boundary)
    ensures Free(Join(lines, "\n"), true, boundary)
  {
    assert lines[0] in lines;
    if |lines| > 1 {
      FreeLines(lines[1..], boundary);
      FreeJoin(lines[0], Join(lines[1..], "\n"), true, boundary);
      assert Join(lines, "\n") == lines[0] + ("\n" + Join(lines[1..], "\n"));
    }
  }

  // -------------------------------------------------------------- headers --

  lemma HeaderMapGrows(lines: seq<string>, name: string, value: string)
    requires IsName(name)
    ensures HeaderMap(lines + [HeaderLine(name, value)]) == HeaderMap(lines)[Lower(name) := JsTrim(value)]
  {
    HeaderOfLine(name, value);
    var all := lines + [HeaderLine(name, value)];
    assert all[..|all| - 1] == lines;
  }

  predicate Letters(s: string) {
    s != "" && forall c | c in s :: 'a' <= c <= 'z' || 'A' <= c <= 'Z' || c == '-'
  }

  /** Two words make a name, and lower-case word by word. */
  lemma TwoWords(a: string, b: string)
    requires Letters(a) && Letters(b)
    ensures Letters(a + b) && IsName(a + b) && IsName(a) && Lower(a + b) == Lower(a) + Lower(b)
  {
    assert forall c | c in a + b :: c in a || c in b;
  }

  lemma Words()
    ensures Letters("Content-") && Lower("Content-") == "content-"
    ensures Letters("Type") && Lower("Type") == "type"
    ensures Letters("ID") && Lower("ID") == "id"
  {
  }

  lemma MoreWords()
    ensures Letters("Transfer-") && Lower("Transfer-") == "transfer-"
    ensures Letters("Encoding") && Lower("Encoding") == "encoding"
  {
  }

  lemma DispositionWord()
    ensures Letters("Disposition") && Lower("Disposition") == "disposition"
  {
  }

  lemma Names()
    ensures IsName(TYPE) && Lower(TYPE) == TYPE_KEY
    ensures IsName(DISPOSITION) && Lower(DISPOSITION) == DISPOSITION_KEY
    ensures IsName(ENCODING) && Lower(ENCODING) == ENCODING_KEY
    ensures IsName(CONTENT_ID) && Lower(CONTENT_ID) == CONTENT_ID_KEY
  {
    Words();
    MoreWords();
    DispositionWord();
    TwoWords("Content-", "Type");
    TwoWords("Content-", "ID");
    TwoWords("Content-", "Disposition");
    TwoWords("Transfer-", "Encoding");
    TwoWords("Content-", "Transfer-" + "Encoding");
  }

  lemma EnvelopeNames()
    ensures IsName("Subject") && Lower("Subject") == "subject"
    ensures IsName("From") && Lower("From") == "from"
    ensures IsName("To") && Lower("To") == "to"
  {
    assert Letters("Subject") && Letters("From") && Letters("To");
    TwoWords("Subject", "To");
    TwoWords("From", "To");
    TwoWords("To", "To");
  }

  /** The keys are four, and none is an envelope header's. */
  lemma KeysDiffer()
    ensures TYPE_KEY != DISPOSITION_KEY && TYPE_KEY != ENCODING_KEY && DISPOSITION_KEY != ENCODING_KEY
    ensures CONTENT_ID_KEY != TYPE_KEY && CONTENT_ID_KEY != DISPOSITION_KEY && CONTENT_ID_KEY != ENCODING_KEY
    ensures "subject" != TYPE_KEY && "from" != TYPE_KEY && "to" != TYPE_KEY && "from" != "subject" && "to" != "subject"
  {
    assert |TYPE_KEY| == 12 && |DISPOSITION_KEY| == 19 && |ENCODING_KEY| == 25 && |CONTENT_ID_KEY| == 10;
    assert |"subject"| == 7 && |"from"| == 4 && |"to"| == 2;
  }

  lemma OneHeader(value: string)
    ensures HeaderMap([ContentType(value)]) == map[TYPE_KEY := JsTrim(value)]
  {
    Names();
    var none: seq<string> := [];
    HeaderMapGrows(none, TYPE, value);
    assert none + [ContentType(value)] == [ContentType(value)];
  }

  // ---------------------------------------------------------- single parts --

  /** What the section of a part is read as. */
  ghost predicate Reads(part: string, raw: Raw) {
    part != "" && !IsJsSpace(part[0]) && Parse(part + "\n\n") == raw
  }

  lemma SectionReads(part: string, raw: Raw)
    requires Reads(part, raw)
    ensures var s := "\n" + part + "\n\n";
      JsTrim(s) != "" && s != "--" && Parse(Multipart.StripNewline(s)) == raw
  {
    var s := "\n" + part + "\n\n";
    assert s[1] == part[0] && s[0] == '\n';
    TrimNotEmpty(s, 1);
    assert s[1..] == part + "\n\n";
    assert "--"[0] == '-';
  }

  lemma {:induction false} SectionsRead(parts: seq<string>, raws: seq<Raw>)
    requires |parts| == |raws| && forall i | 0 <= i < |parts| :: Reads(parts[i], raws[i])
    ensures ReadSections(Sections(parts)) == raws
  {
    if parts != [] {
      SectionsRead(parts[1..], raws[1..]);
      SectionReads(parts[0], raws[0]);
      FirstSection("\n" + parts[0] + "\n\n", raws[0], Sections(parts[1..]));
      assert Sections(parts) == ["\n" + parts[0] + "\n\n"] + Sections(parts[1..]);
      assert [raws[0]] + raws[1..] == raws;
    }
  }

  lemma FirstSection(s: string, raw: Raw, rest: seq<string>)
    requires JsTrim(s) != "" && s != "--" && Parse(Multipart.StripNewline(s)) == raw
    ensures ReadSections([s] + rest) == [raw] + ReadSections(rest)
  {
    assert ([s] + rest)[1..] == rest;
  }

  /** A tree of parts is split into what its parts read as. */
  lemma SplitTree(parts: seq<string>, raws: seq<Raw>, boundary: string, tail: string)
    requires |parts| == |raws| > 0 && forall i | 0 <= i < |parts| :: Reads(parts[i], raws[i])
    requires IsBoundary(boundary) && tail in {"\n", "\n\n"} && (forall p | p in parts :: Free(p, true, boundary))
    requires '\r' !in Tree(parts, boundary, tail)
    ensures SplitMultipart(Tree(parts, boundary, tail), boundary) == raws
  {
    Newlines(tail, boundary);
    PiecesOfTree(parts, boundary, tail);
    NormalIsKept(Tree(parts, boundary, tail));
    var pieces := [""] + Sections(parts) + [tail];
    assert pieces[1..|pieces| - 1] == Sections(parts);
    SectionsRead(parts, raws);
  }

  lemma LinesAreHeaders(lines: seq<string>)
    requires lines != [] && forall l | l in lines :: l != "" && SingleLine(l) && !IsFold(l[0])
    ensures AreHeaderLines(lines)
  {
    forall l | l in lines ensures IsHeaderLine(l) {
      forall i | 0 <= i < |l| ensures l[i] != '\n' { assert l[i] in l; }
    }
  }

  lemma HeaderLineIs(name: string, value: string)
    requires Letters(name) && SingleLine(value)
    ensures HeaderLine(name, value) != "" && SingleLine(HeaderLine(name, value)) && !IsFold(HeaderLine(name, value)[0])
    ensures HeaderLine(name, value)[0] == name[0] && !IsJsSpace(name[0])
  {
    var line := HeaderLine(name, value);
    assert name[0] in name && line[0] == name[0];
    forall c | c in line ensures !EndsJsLine(c) {
      assert c in name || c == ':' || c == ' ' || c in value;
    }
  }

  /** A part written as header lines, an empty line, and lines of content. */
  lemma EncodedPart(headers: seq<string>, chunks: seq<string>)
    requires headers != []
    ensures Join(headers + [""] + chunks, "\n") + "\n\n"
         == Text(headers, if chunks == [] then "\n" else Join(chunks, "\n") + "\n\n")
  {
    JoinAppend(headers, [""], "\n");
    var top := Join(headers, "\n");
    assert Join(headers + [""], "\n") == top + "\n" + "";
    if chunks == [] {
      assert headers + [""] + chunks == headers + [""];
      assert top + "\n" + "" + "\n\n" == top + "\n\n" + "\n";
    } else {
      JoinAppend(headers + [""], chunks, "\n");
      Regroup5(top, Join(chunks, "\n"));
    }
  }

  lemma Regroup5(a: string, b: string)
    ensures a + "\n" + "" + "\n" + b + "\n\n" == a + "\n\n" + (b + "\n\n")
  {
  }

  /** Data wrapped into a part comes out whole. */
  lemma EncodedReads(headers: seq<string>, data: string)
    requires AreHeaderLines(headers) && (forall c | c in data :: !IsJsSpace(c))
    ensures var part := Join(headers + [""] + Wrap(data), "\n");
      && Parse(part + "\n\n").headers == HeaderMap(headers)
      && StripSpaces(Parse(part + "\n\n").body) == data
  {
    var content := if Wrap(data) == [] then "\n" else Join(Wrap(data), "\n") + "\n\n";
    EncodedPart(headers, Wrap(data));
    if data == "" {
      StripNewline("");
      assert "\n" + "" == "\n";
    } else {
      UnwrapLines(data);
      SpacelessHasNoCr(data);
    }
    ParseOfText(headers, content);
  }

  lemma {:induction false} SpacelessHasNoCr(data: string)
    requires forall c | c in data :: !IsJsSpace(c)
    ensures '\r' !in Join(Wrap(data), "\n") + "\n\n"
  {
    WrapHasNoCr(data);
  }

  lemma {:induction false} WrapHasNoCr(data: string)
    requires forall c | c in data :: !IsJsSpace(c)
    ensures '\r' !in Join(Wrap(data), "\n")
  {
    if |data| > WIDTH {
      WrapHasNoCr(data[WIDTH..]);
      assert Wrap(data)[1..] == Wrap(data[WIDTH..]);
      assert forall c | c in data[..WIDTH] :: c in data;
    }
  }

  /** So the section of such a part reads as its headers and data. */
  lemma EncodedSection(headers: seq<string>, data: string) returns (raw: Raw)
    requires AreHeaderLines(headers) && headers[0] != "" && !IsJsSpace(headers[0][0]) && (forall c | c in data :: !IsJsSpace(c))
    ensures Reads(Join(headers + [""] + Wrap(data), "\n"), raw)
    ensures raw.headers == HeaderMap(headers) && StripSpaces(raw.body) == data
  {
    var part := Join(headers + [""] + Wrap(data), "\n");
    EncodedReads(headers, data);
    raw := Parse(part + "\n\n");
    FirstChar(headers, [""] + Wrap(data));
    assert headers + ([""] + Wrap(data)) == headers + [""] + Wrap(data);
  }

  lemma FirstChar(lines: seq<string>, more: seq<string>)
    requires lines != [] && lines[0] != ""
    ensures Join(lines + more, "\n") != "" && Join(lines + more, "\n")[0] == lines[0][0]
  {
    assert (lines + more)[0] == lines[0];
  }

  /** A header line and content free of delimiters make a part free of them. */
  lemma FreeText(line: string, content: string, boundary: string)
    requires IsBoundary(boundary) && line != "" && SingleLine(line) && line[0] != '-' && Free(content, true, boundary)
    ensures Free(Text([line], content), true, boundary)
  {
    FreeLine(line, boundary);
    FreeLine("", boundary);
    FreeJoin("", content, true, boundary);
    TextOfOne(line, content);
    FreeJoin(line, "\n" + content, true, boundary);
  }

  lemma TextOfOne(line: string, content: string)
    ensures "" + ("\n" + content) == "\n" + content
    ensures Text([line], content) == line + ("\n" + ("\n" + content))
  {
  }

  lemma HeaderMapOfTwo(a: string, av: string, b: string, bv: string)
    requires IsName(a) && IsName(b)
    ensures HeaderMap([HeaderLine(a, av), HeaderLine(b, bv)]) == map[Lower(a) := JsTrim(av)][Lower(b) := JsTrim(bv)]
  {
    var none: seq<string> := [];
    HeaderMapGrows(none, a, av);
    assert none + [HeaderLine(a, av)] == [HeaderLine(a, av)];
    HeaderMapGrows([HeaderLine(a, av)], b, bv);
    assert [HeaderLine(a, av)] + [HeaderLine(b, bv)] == [HeaderLine(a, av), HeaderLine(b, bv)];
  }

  /** A line as the parts here begin: with a C, on one line. */
  predicate IsContentLine(line: string) {
    line != "" && SingleLine(line) && line[0] == 'C'
  }

  lemma ContentLinesOfTwo(a: string, b: string)
    requires IsContentLine(a) && IsContentLine(b)
    ensures forall l | l in [a, b] :: IsContentLine(l)
  {
  }
}
