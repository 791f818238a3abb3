/** A protected tree reads back as what was put into it. */
module MimeRoundTrip {
  import opened Common
  import opened Strings
  import opened LineText
  import opened Rfc822
  import opened Multipart
  import opened MimeTree
  import opened MimeParts
  import Base64
  import Utf8

  // ------------------------------------------------------------ body parts --

  function TextPart(body: string): (part: string) {
    Text([ContentType(TEXT_PLAIN)], body)
  }

  function TextRaw(body: string): (raw: Raw) {
    Raw(map[TYPE_KEY := TEXT_PLAIN], body + "\n\n")
  }

  lemma TypesAreTrimmed()
    ensures JsTrim(TEXT_PLAIN) == TEXT_PLAIN && JsTrim(TEXT_HTML) == TEXT_HTML && JsTrim("base64") == "base64"
    ensures SingleLine(TEXT_PLAIN) && SingleLine(TEXT_HTML) && SingleLine("base64")
  {
    TrimIsKept(TEXT_PLAIN);
    TrimIsKept(TEXT_HTML);
    TrimIsKept("base64");
    assert SingleLine("charset=") && SingleLine("utf-8") && SingleLine("; ") && SingleLine("text/plain") && SingleLine("text/html");
    SingleAppend("charset=", "utf-8");
    SingleAppend("; ", CHARSET);
    SingleAppend("text/plain", "; " + CHARSET);
    SingleAppend("text/html", "; " + CHARSET);
  }

  lemma TypeLine(value: string)
    requires SingleLine(value)
    ensures AreHeaderLines([ContentType(value)]) && IsContentLine(ContentType(value))
  {
    Words();
    DispositionWord();
    TwoWords("Content-", "Type");
    HeaderLineIs(TYPE, value);
    assert TYPE[0] == 'C';
    LinesAreHeaders([ContentType(value)]);
  }

  lemma TextReads(body: string)
    requires '\r' !in body
    ensures Reads(TextPart(body), TextRaw(body))
  {
    TypesAreTrimmed();
    TypeLine(TEXT_PLAIN);
    OneHeader(TEXT_PLAIN);
    var lines := [ContentType(TEXT_PLAIN)];
    ParseOfText(lines, body + "\n\n");
    assert TextPart(body) + "\n\n" == Text(lines, body + "\n\n");
    assert TextPart(body)[0] == 'C';
  }

  lemma TextIsFree(body: string, boundary: string)
    requires IsBoundary(boundary) && Free(body, true, boundary)
    ensures Free(TextPart(body), true, boundary)
  {
    TypesAreTrimmed();
    TypeLine(TEXT_PLAIN);
    FreeText(ContentType(TEXT_PLAIN), body, boundary);
  }

  function HtmlHeaders(): (lines: seq<string>) {
    [ContentType(TEXT_HTML), EncodingLine()]
  }

  function HtmlPart(html: Html): (part: string) {
    Join(HtmlHeaders() + [""] + Wrap(EncodeHtml(html)), "\n")
  }

  ghost predicate IsHtmlRaw(raw: Raw, html: Html) {
    raw.headers == map[TYPE_KEY := TEXT_HTML, ENCODING_KEY := "base64"] && StripSpaces(raw.body) == EncodeHtml(html)
  }

  lemma EncodingLineIs()
    ensures IsContentLine(EncodingLine())
  {
    TypesAreTrimmed();
    Words();
    MoreWords();
    TwoWords("Transfer-", "Encoding");
    TwoWords("Content-", "Transfer-" + "Encoding");
    HeaderLineIs(ENCODING, "base64");
    assert ENCODING[0] == 'C';
  }

  lemma HtmlHeadersAre()
    ensures AreHeaderLines(HtmlHeaders()) && HeaderMap(HtmlHeaders()) == map[TYPE_KEY := TEXT_HTML, ENCODING_KEY := "base64"]
  {
    HtmlLines();
    LinesAreHeaders(HtmlHeaders());
    HtmlMap();
  }

  lemma HtmlLines()
    ensures forall l | l in HtmlHeaders() :: IsContentLine(l)
  {
    TypesAreTrimmed();
    TypeLine(TEXT_HTML);
    EncodingLineIs();
    ContentLinesOfTwo(ContentType(TEXT_HTML), EncodingLine());
  }

  lemma HtmlMap()
    ensures HeaderMap(HtmlHeaders()) == map[TYPE_KEY := TEXT_HTML, ENCODING_KEY := "base64"]
  {
    TypesAreTrimmed();
    Names();
    KeysDiffer();
    HeaderMapOfTwo(TYPE, TEXT_HTML, ENCODING, "base64");
  }

  /** Base64 text has no white space, and none of the dashes a delimiter begins with. */
  lemma Base64Chars(bytes: seq<Byte>)
    ensures forall c | c in Base64.Encode(bytes) :: Base64.IsDigit(c) || c == '='
    ensures forall c | c in Base64.Encode(bytes) :: !IsJsSpace(c) && c != '-'
  {
    var u := Base64.Sextets(bytes);
    Base64.ValuesOfChars(u);
    forall c | c in Base64.Encode(bytes) ensures Base64.IsDigit(c) || c == '=' {
      assert c in Base64.Chars(u) || c in Base64.Padding(bytes);
    }
  }

  lemma {:induction false} WrapKeepsChars(s: string)
    ensures forall l, c | l in Wrap(s) && c in l :: c in s
  {
    if |s| > WIDTH {
      WrapKeepsChars(s[WIDTH..]);
      assert s == s[..WIDTH] + s[WIDTH..];
    }
  }

  lemma WrappedIsFree(s: string, boundary: string)
    requires IsBoundary(boundary) && (forall c | c in s :: !IsJsSpace(c) && c != '-')
    ensures forall l | l in Wrap(s) :: Free(l, true, boundary)
  {
    WrapKeepsChars(s);
    forall l | l in Wrap(s) ensures Free(l, true, boundary) {
      assert forall c | c in l :: c in s;
      assert l != "" ==> l[0] in l;
      FreeLine(l, boundary);
    }
  }

  lemma EncodedIsFree(headers: seq<string>, lines: seq<string>, boundary: string)
    requires IsBoundary(boundary) && (forall l | l in headers :: l != "" && SingleLine(l) && l[0] != '-')
    requires forall l | l in lines :: Free(l, true, boundary)
    ensures Free(Join(headers + [""] + lines, "\n"), true, boundary)
  {
    var all := headers + [""] + lines;
    forall l | l in all ensures Free(l, true, boundary) {
      if l in headers || l == "" {
        FreeLine(l, boundary);
      }
    }
    FreeLines(all, boundary);
  }

  lemma HtmlReads(html: Html) returns (raw: Raw)
    ensures IsHtmlRaw(raw, html) && Reads(HtmlPart(html), raw)
  {
    Base64Chars(Utf8.Encode(html));
    HtmlHeadersAre();
    HtmlLines();
    raw := EncodedSection(HtmlHeaders(), EncodeHtml(html));
  }

  lemma HtmlIsFree(html: Html, boundary: string)
    requires IsBoundary(boundary)
    ensures Free(HtmlPart(html), true, boundary)
  {
    Base64Chars(Utf8.Encode(html));
    WrappedIsFree(EncodeHtml(html), boundary);
    HtmlLines();
    EncodedIsFree(HtmlHeaders(), Wrap(EncodeHtml(html)), boundary);
  }

  // ----------------------------------------------------------- attachments --

  function TypeValue(a: Attachment): (v: string) {
    a.mimeType + "; name=\"" + a.name + "\""
  }

  function DispositionValue(a: Attachment): (v: string) {
    (if a.contentId.Some? then "inline; " else "attachment; ") + ("filename" + "=\"" + a.name + "\"" + "")
  }

  lemma TrimmedStart(s: string)
    requires JsTrim(s) == s && s != ""
    ensures !IsJsSpace(s[0])
  {
    StartShorter(s);
    EndShorter(JsTrimStart(s));
  }

  lemma {:induction false} StartShorter(s: string)
    ensures |JsTrimStart(s)| <= |s|
    ensures s != "" && IsJsSpace(s[0]) ==> |JsTrimStart(s)| < |s|
  {
    if s != "" && IsJsSpace(s[0]) {
      StartShorter(s[1..]);
    }
  }

  lemma {:induction false} EndShorter(s: string)
    ensures |JsTrimEnd(s)| <= |s|
  {
    if s != "" && IsJsSpace(s[|s| - 1]) {
      EndShorter(s[..|s| - 1]);
    }
  }

  lemma SingleAppend(a: string, b: string)
    requires SingleLine(a) && SingleLine(b)
    ensures SingleLine(a + b)
  {
    assert forall c | c in a + b :: c in a || c in b;
  }

  lemma TypeValueIs(a: Attachment, boundary: string)
    requires Attachable(a, boundary)
    ensures SingleLine(TypeValue(a)) && JsTrim(TypeValue(a)) == TypeValue(a)
  {
    var v := TypeValue(a);
    TrimmedStart(a.mimeType);
    assert v[0] == a.mimeType[0] && v[|v| - 1] == '"';
    TrimIsKept(v);
    SingleAppend(a.mimeType, "; name=\"");
    SingleAppend(a.mimeType + "; name=\"", a.name);
    SingleAppend(a.mimeType + "; name=\"" + a.name, "\"");
  }

  lemma DispositionValueIs(a: Attachment, boundary: string)
    requires Attachable(a, boundary)
    ensures SingleLine(DispositionValue(a)) && JsTrim(DispositionValue(a)) == DispositionValue(a)
  {
    var before := if a.contentId.Some? then "inline; " else "attachment; ";
    var v := DispositionValue(a);
    assert v[0] == before[0] && !IsJsSpace(before[0]);
    assert v[|v| - 1] == '"';
    TrimIsKept(v);
    SingleAppend("filename" + "=\"", a.name);
    SingleAppend("filename" + "=\"" + a.name, "\"" + "");
    assert "filename" + "=\"" + a.name + ("\"" + "") == "filename" + "=\"" + a.name + "\"" + "";
    SingleAppend(before, "filename" + "=\"" + a.name + "\"" + "");
  }

  lemma DispositionLine(value: string)
    requires SingleLine(value)
    ensures IsContentLine(HeaderLine(DISPOSITION, value))
  {
    Words();
    DispositionWord();
    TwoWords("Content-", "Disposition");
    HeaderLineIs(DISPOSITION, value);
    assert DISPOSITION[0] == 'C';
  }

  lemma ContentIdLine(value: string)
    requires SingleLine(value)
    ensures IsContentLine(HeaderLine(CONTENT_ID, value))
  {
    Words();
    TwoWords("Content-", "ID");
    HeaderLineIs(CONTENT_ID, value);
    assert CONTENT_ID[0] == 'C';
  }

  function BaseHeaders(a: Attachment): (lines: seq<string>) {
    [ContentType(TypeValue(a)), HeaderLine(DISPOSITION, DispositionValue(a)), EncodingLine()]
  }

  function IdHeaders(a: Attachment): (lines: seq<string>) {
    if a.contentId.Some? then [HeaderLine(CONTENT_ID, "<" + a.contentId.value + ">")] else []
  }

  lemma HeadersSplit(a: Attachment)
    ensures AttachmentHeaders(a) == BaseHeaders(a) + IdHeaders(a)
  {
  }

  lemma BaseLines(a: Attachment, boundary: string)
    requires Attachable(a, boundary)
    ensures forall l | l in BaseHeaders(a) :: IsContentLine(l)
  {
    TypeValueIs(a, boundary);
    DispositionValueIs(a, boundary);
    TypeLine(TypeValue(a));
    DispositionLine(DispositionValue(a));
    EncodingLineIs();
    ContentLinesOfThree(ContentType(TypeValue(a)), HeaderLine(DISPOSITION, DispositionValue(a)), EncodingLine());
  }

  lemma ContentLinesOfThree(a: string, b: string, c: string)
    requires IsContentLine(a) && IsContentLine(b) && IsContentLine(c)
    ensures forall l | l in [a, b, c] :: IsContentLine(l)
  {
  }

  lemma IdLines(a: Attachment, boundary: string)
    requires Attachable(a, boundary)
    ensures forall l | l in IdHeaders(a) :: IsContentLine(l)
  {
    if a.contentId.Some? {
      SingleAppend("<", a.contentId.value);
      SingleAppend("<" + a.contentId.value, ">");
      ContentIdLine("<" + a.contentId.value + ">");
    }
  }

  lemma AttachmentLinesAre(a: Attachment, boundary: string)
    requires Attachable(a, boundary)
    ensures AreHeaderLines(AttachmentHeaders(a)) && forall l | l in AttachmentHeaders(a) :: IsContentLine(l)
  {
    HeadersSplit(a);
    BaseLines(a, boundary);
    IdLines(a, boundary);
    assert forall l | l in BaseHeaders(a) + IdHeaders(a) :: l in BaseHeaders(a) || l in IdHeaders(a);
    LinesAreHeaders(AttachmentHeaders(a));
  }

  /** What of a part's headers the reader asks for. */
  predicate HasFileHeaders(h: Headers, contentType: string, disposition: string) {
    TYPE_KEY in h && h[TYPE_KEY] == contentType && DISPOSITION_KEY in h && h[DISPOSITION_KEY] == disposition
  }

  lemma AttachmentMap(a: Attachment, boundary: string)
    requires Attachable(a, boundary)
    ensures HasFileHeaders(HeaderMap(AttachmentHeaders(a)), TypeValue(a), DispositionValue(a))
  {
    Names();
    KeysDiffer();
    HeadersSplit(a);
    TypeValueIs(a, boundary);
    DispositionValueIs(a, boundary);
    var two := [ContentType(TypeValue(a)), HeaderLine(DISPOSITION, DispositionValue(a))];
    HeaderMapOfTwo(TYPE, TypeValue(a), DISPOSITION, DispositionValue(a));
    assert HasFileHeaders(HeaderMap(two), TypeValue(a), DispositionValue(a));
    KeepsFileHeaders(two, ENCODING, "base64", TypeValue(a), DispositionValue(a));
    assert two + [HeaderLine(ENCODING, "base64")] == BaseHeaders(a);
    if a.contentId.Some? {
      KeepsFileHeaders(BaseHeaders(a), CONTENT_ID, "<" + a.contentId.value + ">", TypeValue(a), DispositionValue(a));
    } else {
      assert BaseHeaders(a) + [] == BaseHeaders(a);
    }
  }

  lemma KeepsFileHeaders(lines: seq<string>, name: string, value: string, contentType: string, disposition: string)
    requires IsName(name) && Lower(name) != TYPE_KEY && Lower(name) != DISPOSITION_KEY
    requires HasFileHeaders(HeaderMap(lines), contentType, disposition)
    ensures HasFileHeaders(HeaderMap(lines + [HeaderLine(name, value)]), contentType, disposition)
  {
    HeaderMapGrows(lines, name, value);
  }

  /** Read back: the file's own name, type and data, in a part that is no body and no multipart. */
  ghost predicate ReadsAs(raw: Raw, a: Attachment) {
    && FileOf(raw) == Some(File(a.name, a.mimeType, StripSpaces(a.data)))
    && IsFile(DispositionOf(raw)) && !StartsWithI(TypeOf(raw), "multipart/")
  }

  lemma FilenameIs(a: Attachment)
    requires '"' !in a.name
    ensures Param(DispositionValue(a), "filename", 0) == Some(a.name) && IsFile(DispositionValue(a))
  {
    var before := if a.contentId.Some? then "inline; " else "attachment; ";
    NoFilenameIn();
    ParamIs(before, "filename", a.name, "", 0);
    BeginsAsFile("filename" + "=\"" + a.name + "\"" + "");
  }

  lemma NoFilenameIn()
    ensures forall c | c in "attachment; " :: LowerChar(c) != 'f'
    ensures forall c | c in "inline; " :: LowerChar(c) != 'f'
    ensures Lower("filename") == "filename"
  {
  }

  lemma BeginsAsFile(rest: string)
    ensures IsFile("inline; " + rest) && IsFile("attachment; " + rest)
  {
    BeginsWith("inline", "; " + rest);
    BeginsWith("attachment", "; " + rest);
    assert "inline; " + rest == "inline" + ("; " + rest);
    assert "attachment; " + rest == "attachment" + ("; " + rest);
    assert Lower("inline") == "inline";
    assert Lower("attachment") == "attachment";
  }

  lemma BeginsWith(word: string, rest: string)
    ensures Lower(word) == word ==> StartsWithI(word + rest, word)
  {
    assert (word + rest)[..|word|] == word;
  }

  lemma MimeTypeIs(a: Attachment)
    requires ';' !in a.mimeType
    ensures BeforeSemicolon(TypeValue(a)) == a.mimeType
  {
    var after := " name=\"" + a.name + "\"";
    assert TypeValue(a) == a.mimeType + ([';'] + after);
    FindChar(a.mimeType, ';', after);
  }

  /** A type that is no multipart stays none with its name after it. */
  lemma NotMultipart(a: Attachment)
    requires !StartsWithI(a.mimeType, "multipart/")
    ensures !StartsWithI(TypeValue(a), "multipart/")
  {
    var (v, n) := (TypeValue(a), |a.mimeType|);
    if n < 10 {
      assert v[n] == ';' && "multipart/"[n] != ';';
      assert |v| >= 10 ==> Lower(v[..10])[n] == ';';
    } else {
      assert v[..10] == a.mimeType[..10];
    }
  }

  lemma FileIs(raw: Raw, a: Attachment, boundary: string)
    requires Attachable(a, boundary) && HasFileHeaders(raw.headers, TypeValue(a), DispositionValue(a))
    requires StripSpaces(raw.body) == StripSpaces(a.data)
    ensures ReadsAs(raw, a)
  {
    FilenameIs(a);
    MimeTypeIs(a);
    NotMultipart(a);
  }

  lemma AttachmentReads(a: Attachment, boundary: string) returns (raw: Raw)
    requires IsBoundary(boundary) && Attachable(a, boundary)
    ensures Reads(AttachmentPart(a), raw) && ReadsAs(raw, a) && Free(AttachmentPart(a), true, boundary)
  {
    AttachmentLinesAre(a, boundary);
    FirstIsContentLine(a);
    raw := EncodedSection(AttachmentHeaders(a), StripSpaces(a.data));
    AttachmentMap(a, boundary);
    FileIs(raw, a, boundary);
    EncodedIsFree(AttachmentHeaders(a), Wrap(StripSpaces(a.data)), boundary);
  }

  lemma FirstIsContentLine(a: Attachment)
    requires forall l | l in AttachmentHeaders(a) :: IsContentLine(l)
    ensures AttachmentHeaders(a) != [] && IsContentLine(AttachmentHeaders(a)[0])
  {
    assert AttachmentHeaders(a)[0] in AttachmentHeaders(a);
  }
}
