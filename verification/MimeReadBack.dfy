/** Parsing what was built: the round trip of the protected tree (app/src/core/mime.ts:328-414). */
module MimeReadBack {
  import opened Common
  import opened Strings
  import opened LineText
  import opened Rfc822
  import opened Multipart
  import opened MimeTree
  import opened MimeParts
  import opened MimeRoundTrip
  import opened MimeSealed
  import Base64
  import Utf8

  // ------------------------------------------------------------- body parts --

  lemma TextTypes()
    ensures StartsWithI(TEXT_PLAIN, "text/plain") && !StartsWithI(TEXT_PLAIN, "text/html")
    ensures StartsWithI(TEXT_HTML, "text/html") && !StartsWithI(TEXT_HTML, "text/plain")
    ensures !StartsWithI(TEXT_PLAIN, "multipart/") && !StartsWithI(TEXT_HTML, "multipart/")
  {
    assert TEXT_PLAIN[..10] == "text/plain" && TEXT_HTML[..9] == "text/html";
    assert Lower("text/plain") == "text/plain" && Lower("text/html") == "text/html";
    assert Lower(TEXT_PLAIN[..9])[5] == 'p' && Lower(TEXT_HTML[..10])[5] == 'h';
    assert Lower(TEXT_PLAIN[..10])[0] == 't' && Lower(TEXT_HTML[..10])[0] == 't';
  }

  predicate Without(s: string, letter: char) {
    forall c | c in s :: LowerChar(c) != letter
  }

  lemma WithoutAppend(a: string, b: string, letter: char)
    requires Without(a, letter) && Without(b, letter)
    ensures Without(a + b, letter)
  {
    assert forall c | c in a + b :: c in a || c in b;
  }

  lemma WordsWithout()
    ensures Without("; ", 'n') && Without("charset=", 'n') && Without("utf-8", 'n')
    ensures Without("text/html", 'n') && Without("text/plai", 'n')
    ensures Without("; ", 'c') && Without("text/html", 'c') && Without("text/plain", 'c')
  {
  }

  lemma NoNameIn(front: string, back: string)
    requires Without(front, 'n') && Without(back, 'n') && back != "" && back[0] == ';'
    ensures Param(front + back, "name", 0).None?
  {
    WithoutAppend(front, back, 'n');
    ParamNone(front + back, "name", 0);
  }

  lemma NoNameAfterN(front: string, back: string)
    requires Without(front, 'n') && Without(back, 'n') && back != "" && back[0] == ';'
    ensures Param(front + ("n" + back), "name", 0).None?
  {
    ParamNone(back, "name", 0);
    OneN(back);
    ParamSkips(front, "n" + back, "name", 0);
  }

  lemma PlainWord(back: string)
    ensures "text/plai" + ("n" + back) == "text/plain" + back
  {
  }

  lemma NoNameParam()
    ensures Param(TEXT_PLAIN, "name", 0).None? && Param(TEXT_HTML, "name", 0).None?
  {
    WordsWithout();
    WithoutAppend("charset=", "utf-8", 'n');
    WithoutAppend("; ", CHARSET, 'n');
    var back := "; " + CHARSET;
    NoNameIn("text/html", back);
    NoNameAfterN("text/plai", back);
    PlainWord(back);
  }

  lemma OneN(back: string)
    requires back != "" && back[0] == ';'
    ensures Param("n" + back, "name", 0) == Param(back, "name", 0)
  {
    var rest := "n" + back;
    assert rest[1..] == back && rest[1] == ';';
    assert |rest| >= 4 ==> Lower(rest[..4])[1] == ';';
    assert !StartsWithI(rest, "name");
  }

  lemma TokenValue(s: string)
    requires s != "" && (forall c | c in s :: c != ';' && !IsJsSpace(c)) && s[0] != '"'
    ensures ValueAt(s, 0) == Some(s)
  {
    TokenIs(s);
    assert s[..|s|] == s;
  }

  lemma TokenParam(name: string, value: string)
    requires name != "" && Lower(name) == name && value != "" && (forall c | c in value :: c != ';' && !IsJsSpace(c)) && value[0] != '"'
    ensures ParamAt(name + "=" + value, name, 0) == Some(value)
  {
    var s := name + "=" + value;
    assert s[..|name|] == name && s[|name|..] == "=" + value && ("=" + value)[1..] == value;
    assert value[0] in value;
    assert JsTrimStart("=" + value) == "=" + value && JsTrimStart(value) == value;
    TokenValue(value);
  }

  lemma CharsetWords()
    ensures Lower("charset") == "charset" && "charset" + "=" == "charset="
    ensures forall c | c in "utf-8" :: c != ';' && !IsJsSpace(c)
  {
  }

  lemma CharsetHere()
    ensures ParamAt(CHARSET, "charset", 0) == Some("utf-8")
  {
    CharsetWords();
    TokenParam("charset", "utf-8");
  }

  lemma HtmlCharset(tail: string)
    ensures Param("text/html" + ("; " + tail), "charset", 0) == Param(tail, "charset", 0)
  {
    WordsWithout();
    WithoutAppend("text/html", "; ", 'c');
    ParamSkips("text/html" + "; ", tail, "charset", 0);
    assert "text/html" + "; " + tail == "text/html" + ("; " + tail);
  }

  lemma Utf8Charset()
    ensures Param(TEXT_HTML, "charset", 0) == Some("utf-8")
  {
    HtmlCharset(CHARSET);
    CharsetHere();
  }

  lemma {:induction false} TokenIs(s: string)
    requires forall c | c in s :: c != ';' && !IsJsSpace(c)
    ensures TokenEnd(s) == |s|
  {
    if s != "" {
      assert s[0] in s && forall c | c in s[1..] :: c in s;
      TokenIs(s[1..]);
    }
  }

  lemma Utf8IsWide()
    ensures CharsetName("utf-8") !in SINGLE_BYTE
  {
    TrimIsKept("utf-8");
    assert Lower("utf-8") == "utf-8";
    assert CharsetName("utf-8") == "utf-8";
    assert forall n | n in SINGLE_BYTE :: n[0] != 'u';
  }

  lemma NotAFile()
    ensures !IsFile("")
  {
  }

  lemma NamelessIsNoFile(raw: Raw)
    requires DispositionOf(raw) == "" && Param(TypeOf(raw), "name", 0).None?
    ensures FileOf(raw).None?
  {
    NotAFile();
    NoFilename();
  }

  lemma NoFilename()
    ensures Param("", "filename", 0).None?
  {
    ParamNone("", "filename", 0);
  }

  lemma PlainText(body: string, charset: string, foreign: Foreign)
    ensures DecodeTransfer("", body, charset, foreign) == AsIs(body)
  {
    assert Lower("") == "" && JsTrim("") == "";
  }

  /** A body part is no attachment, and decodes to itself. */
  lemma TextRawIs(body: string, foreign: Foreign)
    ensures var raw := TextRaw(body);
      && TypeOf(raw) == TEXT_PLAIN && DispositionOf(raw) == "" && FileOf(raw).None?
      && Stripped(RawText(raw, foreign)) == AsIs(StripNewlines(body))
  {
    KeysDiffer();
    NoNameParam();
    NamelessIsNoFile(TextRaw(body));
    StripNewlinesTwice(body);
    PlainText(body + "\n\n", Or(Param(TEXT_PLAIN, "charset", 0), ""), foreign);
  }

  lemma HtmlRawIs(raw: Raw, html: Html, foreign: Foreign)
    requires IsHtmlRaw(raw, html) && Utf8.WellPaired(html)
    ensures TypeOf(raw) == TEXT_HTML && DispositionOf(raw) == "" && FileOf(raw).None?
    ensures Stripped(RawText(raw, foreign)) == Decoded(StripUnits(html))
  {
    KeysDiffer();
    NoNameParam();
    NamelessIsNoFile(raw);
    HtmlDecodes(raw, html, foreign);
  }

  lemma Base64Text(body: string, foreign: Foreign)
    ensures DecodeTransfer("base64", body, "utf-8", foreign) == Decoded(Utf8.Decode(Base64.Decode(StripSpaces(body))))
  {
    Utf8IsWide();
    assert Lower("base64") == "base64";
    TrimIsKept("base64");
    assert |"base64"| == 6 && |"quoted-printable"| == 16;
  }

  lemma HtmlDecodes(raw: Raw, html: Html, foreign: Foreign)
    requires IsHtmlRaw(raw, html) && Utf8.WellPaired(html)
    ensures RawText(raw, foreign) == Decoded(html)
  {
    KeysDiffer();
    Utf8Charset();
    Base64Text(raw.body, foreign);
    Base64.RoundTrip(Utf8.Encode(html));
    Utf8.RoundTripExact(html);
  }

  // ------------------------------------------------------------- the leaves --

  lemma {:induction false} PlainPartsStay(parts: seq<Raw>, bound: nat)
    requires forall p | p in parts :: |p.body| < bound && !StartsWithI(TypeOf(p), "multipart/")
    ensures FlattenParts(parts, bound) == parts
  {
    if parts != [] {
      assert parts[0] in parts;
      PlainPartsStay(parts[1..], bound);
      assert [parts[0]] + parts[1..] == parts;
    }
  }

  /** An alternative in front is opened; plain parts after it stay. */
  lemma OpensFirst(first: Raw, rest: seq<Raw>, alt: string, inside: seq<Raw>, bound: nat)
    requires |first.body| < bound && (forall p | p in rest :: |p.body| < bound && !StartsWithI(TypeOf(p), "multipart/"))
    requires StartsWithI(TypeOf(first), "multipart/") && BoundaryOf(TypeOf(first)) == Some(alt)
    requires SplitMultipart(first.body, alt) == inside && forall p | p in inside :: !StartsWithI(TypeOf(p), "multipart/")
    ensures FlattenParts([first] + rest, bound) == inside + rest
  {
    assert ([first] + rest)[1..] == rest;
    PlainPartsStay(rest, bound);
    PlainPartsStay(inside, |first.body|);
  }

  lemma {:induction false} NoBodyAmongFiles(parts: seq<Raw>, mimeType: string)
    requires forall p | p in parts :: IsFile(DispositionOf(p))
    ensures BodyPart(parts, mimeType).None?
  {
    if parts != [] {
      assert parts[0] in parts;
      NoBodyAmongFiles(parts[1..], mimeType);
    }
  }

  function Files(attachments: seq<Attachment>): (files: seq<File>)
    ensures |files| == |attachments|
    ensures forall i | 0 <= i < |files| :: files[i] == File(attachments[i].name, attachments[i].mimeType, StripSpaces(attachments[i].data))
  {
    seq(|attachments|, i requires 0 <= i < |attachments| =>
      File(attachments[i].name, attachments[i].mimeType, StripSpaces(attachments[i].data)))
  }

  lemma {:induction false} FilesAre(raws: seq<Raw>, attachments: seq<Attachment>)
    requires |raws| == |attachments| && forall i | 0 <= i < |raws| :: ReadsAs(raws[i], attachments[i])
    ensures FilesOf(raws) == Files(attachments)
  {
    if raws != [] {
      FilesAre(raws[1..], attachments[1..]);
      assert Files(attachments) == [Files(attachments)[0]] + Files(attachments[1..]);
    }
  }

  lemma SkipNoFile(part: Raw, rest: seq<Raw>)
    requires FileOf(part).None?
    ensures FilesOf([part] + rest) == FilesOf(rest)
  {
    assert ([part] + rest)[1..] == rest;
    assert [] + FilesOf(rest) == FilesOf(rest);
  }

  /** What the leaves of a tree come to: bodies in front, files behind. */
  lemma LeavesWithoutHtml(body: string, files: seq<Raw>, attachments: seq<Attachment>, foreign: Foreign)
    requires |files| == |attachments| && forall i | 0 <= i < |files| :: ReadsAs(files[i], attachments[i])
    ensures var leaves := [TextRaw(body)] + files;
      && BodyPart(leaves, "text/plain") == Some(TextRaw(body)) && BodyPart(leaves, "text/html").None?
      && FilesOf(leaves) == Files(attachments)
  {
    TextTypes();
    NotAFile();
    TextRawIs(body, foreign);
    AllFiles(files, attachments);
    NoBodyAmongFiles(files, "text/html");
    FilesAre(files, attachments);
    SkipNoFile(TextRaw(body), files);
    assert ([TextRaw(body)] + files)[1..] == files;
  }

  lemma AllFiles(files: seq<Raw>, attachments: seq<Attachment>)
    requires |files| == |attachments| && forall i | 0 <= i < |files| :: ReadsAs(files[i], attachments[i])
    ensures forall p | p in files :: IsFile(DispositionOf(p)) && !StartsWithI(TypeOf(p), "multipart/")
  {
    forall p | p in files ensures IsFile(DispositionOf(p)) && !StartsWithI(TypeOf(p), "multipart/") {
      var i :| 0 <= i < |files| && files[i] == p;
      assert ReadsAs(files[i], attachments[i]);
    }
  }

  lemma LeavesWithHtml(body: string, htmlRaw: Raw, html: Html, files: seq<Raw>, attachments: seq<Attachment>, foreign: Foreign)
    requires IsHtmlRaw(htmlRaw, html) && Utf8.WellPaired(html)
    requires |files| == |attachments| && forall i | 0 <= i < |files| :: ReadsAs(files[i], attachments[i])
    ensures var leaves := [TextRaw(body), htmlRaw] + files;
      && BodyPart(leaves, "text/plain") == Some(TextRaw(body)) && BodyPart(leaves, "text/html") == Some(htmlRaw)
      && FilesOf(leaves) == Files(attachments)
  {
    TextTypes();
    NotAFile();
    TextRawIs(body, foreign);
    HtmlRawIs(htmlRaw, html, foreign);
    FilesAre(files, attachments);
    SkipNoFile(htmlRaw, files);
    SkipNoFile(TextRaw(body), [htmlRaw] + files);
    assert [TextRaw(body), htmlRaw] + files == [TextRaw(body)] + ([htmlRaw] + files);
    assert ([TextRaw(body)] + ([htmlRaw] + files))[1..] == [htmlRaw] + files;
  }

  // ------------------------------------------------------------- the theorem --

  lemma ProtectedIs()
    ensures SingleLine(PROTECTED) && PROTECTED != "" && PROTECTED[|PROTECTED| - 1] == '"'
  {
    assert SingleLine("; protected-") && SingleLine("headers=\"v1\"");
    SingleAppend("; protected-", "headers=\"v1\"");
  }

  lemma MixedTypeIs(boundary: string)
    requires IsBoundary(boundary)
    ensures var v := MixedType(boundary);
      SingleLine(v) && JsTrim(v) == v && BoundaryOf(v) == Some(boundary)
  {
    var v := MixedType(boundary);
    ProtectedIs();
    NoBoundaryIn();
    ParamIs("multipart/mixed; ", "boundary", boundary, PROTECTED, 1);
    assert v[0] == 'm' && v[|v| - 1] == '"';
    TrimIsKept(v);
    BoundaryLine(boundary, PROTECTED);
    SingleAppend("multipart/mixed; ", "boundary" + "=\"" + boundary + "\"" + PROTECTED);
  }

  lemma EnvelopeLine(name: string, value: string)
    requires Letters(name) && name[0] != '-' && OneLine(value) && '\r' !in value
    ensures IsHeaderLine(HeaderLine(name, value))
  {
    var line := HeaderLine(name, value);
    assert line[0] == name[0] && name[0] in name;
    forall i | 0 <= i < |line| ensures line[i] != '\n' && line[i] != '\r' {
      assert line == name + ": " + value;
      if i < |name| {
        assert line[i] == name[i] && name[i] in name;
      } else if i >= |name| + 2 {
        assert line[i] == value[i - |name| - 2] && value[i - |name| - 2] in value;
      }
    }
  }

  lemma InnerHeadersAre(m: Inner, boundary: string, alt: string)
    requires Sealable(m, boundary, alt)
    ensures AreHeaderLines(InnerHeaders(m, boundary))
  {
    MixedTypeIs(boundary);
    TypeLine(MixedType(boundary));
    assert ContentType(MixedType(boundary)) in [ContentType(MixedType(boundary))];
    assert Letters("Subject") && Letters("From") && Letters("To");
    EnvelopeLine("Subject", m.subject);
    EnvelopeLine("From", m.from);
    EnvelopeLine("To", m.to);
    FourHeaders(ContentType(MixedType(boundary)), HeaderLine("Subject", m.subject), HeaderLine("From", m.from), HeaderLine("To", m.to));
  }

  lemma FourHeaders(a: string, b: string, c: string, d: string)
    requires IsHeaderLine(a) && IsHeaderLine(b) && IsHeaderLine(c) && IsHeaderLine(d)
    ensures AreHeaderLines([a, b, c, d])
  {
  }

  predicate HasEnvelope(h: Headers, contentType: string, subject: string) {
    TYPE_KEY in h && h[TYPE_KEY] == contentType && "subject" in h && h["subject"] == subject
  }

  lemma KeepsEnvelope(lines: seq<string>, name: string, value: string, contentType: string, subject: string)
    requires IsName(name) && Lower(name) != TYPE_KEY && Lower(name) != "subject" && HasEnvelope(HeaderMap(lines), contentType, subject)
    ensures HasEnvelope(HeaderMap(lines + [HeaderLine(name, value)]), contentType, subject)
  {
    HeaderMapGrows(lines, name, value);
  }

  lemma TwoEnvelope(contentType: string, subject: string)
    requires JsTrim(contentType) == contentType
    ensures HasEnvelope(HeaderMap([ContentType(contentType), HeaderLine("Subject", subject)]), contentType, JsTrim(subject))
  {
    Names();
    EnvelopeNames();
    KeysDiffer();
    HeaderMapOfTwo(TYPE, contentType, "Subject", subject);
  }

  lemma OtherNames()
    ensures forall name | name in {"From", "To"} :: IsName(name) && Lower(name) != TYPE_KEY && Lower(name) != "subject"
  {
    EnvelopeNames();
    KeysDiffer();
  }

  lemma InnerMap(m: Inner, boundary: string, alt: string)
    requires Sealable(m, boundary, alt)
    ensures HasEnvelope(HeaderMap(InnerHeaders(m, boundary)), MixedType(boundary), JsTrim(m.subject))
  {
    MixedTypeIs(boundary);
    var two := [ContentType(MixedType(boundary)), HeaderLine("Subject", m.subject)];
    TwoEnvelope(MixedType(boundary), m.subject);
    OtherNames();
    KeepsEnvelope(two, "From", m.from, MixedType(boundary), JsTrim(m.subject));
    var three := two + [HeaderLine("From", m.from)];
    KeepsEnvelope(three, "To", m.to, MixedType(boundary), JsTrim(m.subject));
    assert three + [HeaderLine("To", m.to)] == InnerHeaders(m, boundary);
  }

  lemma {:induction false} AttachmentsRead(attachments: seq<Attachment>, boundary: string) returns (files: seq<Raw>)
    requires IsBoundary(boundary) && forall a | a in attachments :: Attachable(a, boundary)
    ensures |files| == |attachments|
    ensures forall i | 0 <= i < |files| :: Fits(AttachmentPart(attachments[i]), files[i], boundary) && ReadsAs(files[i], attachments[i])
  {
    if attachments == [] {
      files := [];
    } else {
      assert attachments[0] in attachments;
      var first := AttachmentReads(attachments[0], boundary);
      AttachmentHasNoCr(attachments[0], boundary);
      var rest := AttachmentsRead(attachments[1..], boundary);
      files := [first] + rest;
    }
  }

  lemma BodyReads(m: Inner, boundary: string, alt: string)
    requires Sealable(m, boundary, alt)
    ensures var raw := if m.html.None? then TextRaw(m.body) else AltRaw(m.body, m.html.value, alt);
      Fits(BodyText(m, alt), raw, boundary)
  {
    if m.html.None? {
      TextReads(m.body);
      TextIsFree(m.body, boundary);
      TextPartHasNoCr(m.body);
    } else {
      AltReads(m.body, m.html.value, alt);
      AltIsFree(m.body, m.html.value, alt, boundary);
      AltTypeIs(alt);
      TypeLine(AlternativeType(alt));
      AltTreeHasNoCr(m.body, m.html.value, alt, "");
      TextHasNoCr(ContentType(AlternativeType(alt)), AltTree(m.body, m.html.value, alt, ""));
    }
  }

  /** Part by part, what a tree needs to be split into what its parts read as. */
  ghost predicate Fits(part: string, raw: Raw, boundary: string) {
    Reads(part, raw) && Free(part, true, boundary) && '\r' !in part
  }

  lemma SplitFitting(parts: seq<string>, raws: seq<Raw>, boundary: string, tail: string)
    requires IsBoundary(boundary) && tail in {"\n", "\n\n"} && |parts| == |raws| > 0
    requires forall i | 0 <= i < |parts| :: Fits(parts[i], raws[i], boundary)
    ensures '\r' !in Tree(parts, boundary, tail)
    ensures SplitMultipart(Tree(parts, boundary, tail), boundary) == raws
  {
    forall p | p in parts ensures Free(p, true, boundary) && '\r' !in p {
      var i :| 0 <= i < |parts| && parts[i] == p;
      assert Fits(parts[i], raws[i], boundary);
    }
    TreeHasNoCr(parts, boundary, tail);
    forall i | 0 <= i < |parts| ensures Reads(parts[i], raws[i]) {
      assert Fits(parts[i], raws[i], boundary);
    }
    SplitTree(parts, raws, boundary, tail);
  }

  lemma SplitBuilt(m: Inner, boundary: string, alt: string, first: Raw, files: seq<Raw>)
    requires IsBoundary(boundary) && Fits(BodyText(m, alt), first, boundary) && |files| == |m.attachments|
    requires forall i | 0 <= i < |files| :: Fits(AttachmentPart(m.attachments[i]), files[i], boundary)
    ensures '\r' !in Tree(Parts(m, alt), boundary, "\n")
    ensures SplitMultipart(Tree(Parts(m, alt), boundary, "\n"), boundary) == [first] + files
  {
    OneMoreFits(BodyText(m, alt), first, AttachmentParts(m.attachments), files, boundary);
    SplitFitting(Parts(m, alt), [first] + files, boundary, "\n");
  }

  lemma OneMoreFits(part: string, raw: Raw, parts: seq<string>, raws: seq<Raw>, boundary: string)
    requires Fits(part, raw, boundary) && |parts| == |raws| && forall i | 0 <= i < |parts| :: Fits(parts[i], raws[i], boundary)
    ensures forall i | 0 <= i < |[part] + parts| :: Fits(([part] + parts)[i], ([raw] + raws)[i], boundary)
  {
    OneMorePair((x, y) => Fits(x, y, boundary), part, raw, parts, raws);
  }

  lemma OneMorePair<A, B>(p: (A, B) -> bool, a: A, b: B, xs: seq<A>, ys: seq<B>)
    requires p(a, b) && |xs| == |ys| && forall i | 0 <= i < |xs| :: p(xs[i], ys[i])
    ensures forall i | 0 <= i < |[a] + xs| :: p(([a] + xs)[i], ([b] + ys)[i])
  {
    var (more, alike) := ([a] + xs, [b] + ys);
    forall i | 0 <= i < |more| ensures p(more[i], alike[i]) {
      if i > 0 {
        assert more[i] == xs[i - 1] && alike[i] == ys[i - 1];
      }
    }
  }

  lemma SplitAlternative(body: string, html: Html, alt: string) returns (htmlRaw: Raw)
    requires IsBoundary(alt) && '\r' !in body && Free(body, true, alt)
    ensures IsHtmlRaw(htmlRaw, html)
    ensures SplitMultipart(AltRaw(body, html, alt).body, alt) == [TextRaw(body), htmlRaw]
  {
    TextReads(body);
    TextIsFree(body, alt);
    TextPartHasNoCr(body);
    htmlRaw := HtmlReads(html);
    HtmlIsFree(html, alt);
    HtmlPartHasNoCr(html);
    SplitTwo(TextPart(body), TextRaw(body), HtmlPart(html), htmlRaw, alt);
  }

  lemma SplitTwo(a: string, ra: Raw, b: string, rb: Raw, boundary: string)
    requires IsBoundary(boundary) && Fits(a, ra, boundary) && Fits(b, rb, boundary)
    ensures SplitMultipart(Tree([a, b], boundary, "\n\n"), boundary) == [ra, rb]
  {
    SplitFitting([a, b], [ra, rb], boundary, "\n\n");
  }

  /** Parsing what was built comes down to its parts. */
  lemma ParseBuilt(m: Inner, boundary: string, alt: string, foreign: Foreign)
    requires Sealable(m, boundary, alt) && '\r' !in Tree(Parts(m, alt), boundary, "\n")
    ensures var raw := Parse(Build(m, boundary, alt));
      && raw.body == Tree(Parts(m, alt), boundary, "\n")
      && HeaderOr(raw.headers, "subject", PLACEHOLDER_SUBJECT) == JsTrim(m.subject)
      && BoundaryOf(HeaderOr(raw.headers, TYPE_KEY, "")) == Some(boundary)
  {
    BuildIsTree(m, boundary, alt);
    InnerHeadersAre(m, boundary, alt);
    InnerMap(m, boundary, alt);
    MixedTypeIs(boundary);
    ParseOfText(InnerHeaders(m, boundary), Tree(Parts(m, alt), boundary, "\n"));
  }

  lemma LeavesOf(m: Inner, boundary: string, alt: string, foreign: Foreign, parts: seq<Raw>, files: seq<Raw>, bound: nat)
    returns (leaves: seq<Raw>, htmlRaw: Raw)
    requires Sealable(m, boundary, alt)
    requires |files| == |m.attachments| && forall i | 0 <= i < |files| :: ReadsAs(files[i], m.attachments[i])
    requires parts == [if m.html.None? then TextRaw(m.body) else AltRaw(m.body, m.html.value, alt)] + files
    requires forall p | p in parts :: |p.body| < bound
    ensures leaves == FlattenParts(parts, bound)
    ensures leaves == (if m.html.None? then [TextRaw(m.body)] else [TextRaw(m.body), htmlRaw]) + files
    ensures m.html.Some? ==> IsHtmlRaw(htmlRaw, m.html.value)
  {
    AllFiles(files, m.attachments);
    assert parts[0] in parts && forall p | p in files :: p in parts;
    leaves := FlattenParts(parts, bound);
    if m.html.None? {
      htmlRaw := TextRaw("");
      TextIsPlain(m.body, foreign);
      PlainPartsStay(parts, bound);
    } else {
      htmlRaw := AltOpens(m.body, m.html.value, alt, files, bound, foreign);
    }
  }

  lemma TextIsPlain(body: string, foreign: Foreign)
    ensures !StartsWithI(TypeOf(TextRaw(body)), "multipart/")
  {
    TextTypes();
    TextRawIs(body, foreign);
  }

  lemma AltOpens(body: string, html: Html, alt: string, files: seq<Raw>, bound: nat, foreign: Foreign) returns (htmlRaw: Raw)
    requires IsBoundary(alt) && '\r' !in body && Free(body, true, alt) && Utf8.WellPaired(html)
    requires |AltRaw(body, html, alt).body| < bound
    requires forall p | p in files :: |p.body| < bound && !StartsWithI(TypeOf(p), "multipart/")
    ensures IsHtmlRaw(htmlRaw, html)
    ensures (forall p | p in [AltRaw(body, html, alt)] + files :: |p.body| < bound)
      && FlattenParts([AltRaw(body, html, alt)] + files, bound) == [TextRaw(body), htmlRaw] + files
  {
    htmlRaw := SplitAlternative(body, html, alt);
    assert !StartsWithI(TypeOf(htmlRaw), "multipart/") && !StartsWithI(TypeOf(TextRaw(body)), "multipart/") by {
      TextTypes();
      HtmlRawIs(htmlRaw, html, foreign);
      TextIsPlain(body, foreign);
    }
    AltTypeIs(alt);
    OpensFirst(AltRaw(body, html, alt), files, alt, [TextRaw(body), htmlRaw], bound);
  }

  /** What the message reads back as. */
  function ReadBack(m: Inner): (p: Parsed) {
    Parsed(JsTrim(m.subject), AsIs(StripNewlines(m.body)),
           if m.html.Some? then Some(Decoded(StripUnits(m.html.value))) else None, Files(m.attachments))
  }

  /**
   * A protected tree reads back as the trimmed subject, both bodies up to
   * trailing newlines, and every file's name, type and data, in order.
   */
  lemma SealedReadsBack(m: Inner, boundary: string, alt: string, foreign: Foreign)
    requires Sealable(m, boundary, alt)
    ensures ParseInner(Build(m, boundary, alt), foreign) == ReadBack(m)
  {
    var files := AttachmentsRead(m.attachments, boundary);
    assert forall i | 0 <= i < |files| :: ReadsAs(files[i], m.attachments[i]) && Fits(AttachmentPart(m.attachments[i]), files[i], boundary);
    var first := if m.html.None? then TextRaw(m.body) else AltRaw(m.body, m.html.value, alt);
    BodyReads(m, boundary, alt);
    SplitBuilt(m, boundary, alt, first, files);
    ParseBuilt(m, boundary, alt, foreign);
    var raw := Parse(Build(m, boundary, alt));
    var parts := SplitMultipart(raw.body, boundary);
    var leaves, htmlRaw := LeavesOf(m, boundary, alt, foreign, parts, files, |raw.body|);
    Conclude(m, leaves, htmlRaw, files, foreign);
  }

  lemma Conclude(m: Inner, leaves: seq<Raw>, htmlRaw: Raw, files: seq<Raw>, foreign: Foreign)
    requires |files| == |m.attachments| && forall i | 0 <= i < |files| :: ReadsAs(files[i], m.attachments[i])
    requires leaves == (if m.html.None? then [TextRaw(m.body)] else [TextRaw(m.body), htmlRaw]) + files
    requires m.html.Some? ==> IsHtmlRaw(htmlRaw, m.html.value) && Utf8.WellPaired(m.html.value)
    ensures var (text, html) := (BodyPart(leaves, "text/plain"), BodyPart(leaves, "text/html"));
      && text.Some? && Stripped(RawText(text.value, foreign)) == AsIs(StripNewlines(m.body))
      && html.Some? == m.html.Some?
      && (html.Some? ==> Stripped(RawText(html.value, foreign)) == Decoded(StripUnits(m.html.value)))
      && FilesOf(leaves) == Files(m.attachments)
  {
    TextRawIs(m.body, foreign);
    if m.html.None? {
      LeavesWithoutHtml(m.body, files, m.attachments, foreign);
    } else {
      LeavesWithHtml(m.body, htmlRaw, m.html.value, files, m.attachments, foreign);
      HtmlRawIs(htmlRaw, m.html.value, foreign);
    }
  }

  /** The header of a protected tree names sender and recipients as they were given, but for space around them. */
  lemma EnvelopeReadsBack(m: Inner, boundary: string, alt: string, foreign: Foreign)
    requires Sealable(m, boundary, alt)
    ensures var h := Parse(Build(m, boundary, alt)).headers;
      "from" in h && h["from"] == JsTrim(m.from) && "to" in h && h["to"] == JsTrim(m.to)
  {
    var files := AttachmentsRead(m.attachments, boundary);
    assert forall i | 0 <= i < |files| :: Fits(AttachmentPart(m.attachments[i]), files[i], boundary);
    BodyReads(m, boundary, alt);
    SplitBuilt(m, boundary, alt, if m.html.None? then TextRaw(m.body) else AltRaw(m.body, m.html.value, alt), files);
    BuildIsTree(m, boundary, alt);
    InnerHeadersAre(m, boundary, alt);
    ParseOfText(InnerHeaders(m, boundary), Tree(Parts(m, alt), boundary, "\n"));
    FromAndTo(m, boundary);
  }

  lemma FromAndTo(m: Inner, boundary: string)
    ensures var h := HeaderMap(InnerHeaders(m, boundary));
      "from" in h && h["from"] == JsTrim(m.from) && "to" in h && h["to"] == JsTrim(m.to)
  {
    EnvelopeNames();
    var two := [ContentType(MixedType(boundary)), HeaderLine("Subject", m.subject)];
    var three := two + [HeaderLine("From", m.from)];
    HeaderMapGrows(two, "From", m.from);
    HeaderMapGrows(three, "To", m.to);
    assert three + [HeaderLine("To", m.to)] == InnerHeaders(m, boundary);
  }
}
