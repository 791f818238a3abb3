/**
 * The protected tree: how it is written (app/src/core/mime.ts:210-317), and
 * how a decrypted tree is read back (lines 328-414). Boundaries are drawn by
 * the caller. Texts in quoted-printable or a single-byte character set, which
 * only other clients send, are decoded by a parameter.
 */
module MimeTree {
  import opened Common
  import opened Strings
  import opened LineText
  import opened Rfc822
  import opened Multipart
  import Base64
  import Utf8

  const WIDTH := 76
  const PLACEHOLDER_SUBJECT := "[Encrypted message]"

  type Html = seq<Utf8.Unit>

  /** A file to attach. One shown in the body has the identity the body names it by. */
  datatype Attachment = Attachment(name: string, mimeType: string, data: string, contentId: Option<string>)

  datatype Inner = Inner(from: string, to: string, subject: string, body: string, html: Option<Html>, attachments: seq<Attachment>)

  // -------------------------------------------------------------- writing --

  function StripSpaces(s: string): (r: string)
    ensures forall c | c in r :: !IsJsSpace(c)
  {
    if s == "" then "" else (if IsJsSpace(s[0]) then "" else [s[0]]) + StripSpaces(s[1..])
  }

  /** `match(/.{1,76}/g)` on text without line ends. */
  function Wrap(s: string): (lines: seq<string>) {
    if s == "" then [] else if |s| <= WIDTH then [s] else [s[..WIDTH]] + Wrap(s[WIDTH..])
  }

  function EncodeHtml(html: Html): (s: string) {
    Base64.Encode(Utf8.Encode(html))
  }

  function HeaderLine(name: string, value: string): (line: string) {
    name + ": " + value
  }

  const TYPE := "Content-" + "Type"
  const DISPOSITION := "Content-" + "Disposition"
  const ENCODING := "Content-" + ("Transfer-" + "Encoding")
  const CONTENT_ID := "Content-" + "ID"

  // The same names as a header map has them.
  const TYPE_KEY := "content-" + "type"
  const DISPOSITION_KEY := "content-" + "disposition"
  const ENCODING_KEY := "content-" + ("transfer-" + "encoding")
  const CONTENT_ID_KEY := "content-" + "id"

  function ContentType(value: string): (line: string) {
    HeaderLine(TYPE, value)
  }

  const CHARSET := "charset=" + "utf-8"
  const TEXT_PLAIN := "text/plain" + ("; " + CHARSET)
  const TEXT_HTML := "text/html" + ("; " + CHARSET)
  const PROTECTED := "; protected-" + "headers=\"v1\""

  function EncodingLine(): (line: string) {
    HeaderLine(ENCODING, "base64")
  }

  function AttachmentHeaders(a: Attachment): (lines: seq<string>) {
    [ContentType(a.mimeType + "; name=\"" + a.name + "\""),
     HeaderLine(DISPOSITION, (if a.contentId.Some? then "inline; " else "attachment; ") + ("filename" + "=\"" + a.name + "\"" + "")),
     EncodingLine()]
    + if a.contentId.Some? then [HeaderLine(CONTENT_ID, "<" + a.contentId.value + ">")] else []
  }

  function AttachmentPart(a: Attachment): (part: string) {
    Join(AttachmentHeaders(a) + [""] + Wrap(StripSpaces(a.data)), "\n")
  }

  function AlternativeType(boundary: string): (v: string) {
    "multipart/alternative; " + ("boundary" + "=\"" + boundary + "\"" + "")
  }

  function BodyLines(body: string, html: Option<Html>, alt: string): (lines: seq<string>) {
    if html.None? then [ContentType(TEXT_PLAIN), "", body]
    else
      [ContentType(AlternativeType(alt)), "", Mark(alt), ContentType(TEXT_PLAIN), "", body, "",
       Mark(alt), ContentType(TEXT_HTML), EncodingLine(), ""]
      + Wrap(EncodeHtml(html.value)) + ["", Mark(alt) + "--"]
  }

  function MixedType(boundary: string): (v: string) {
    "multipart/mixed; " + ("boundary" + "=\"" + boundary + "\"" + PROTECTED)
  }

  function InnerHeaders(m: Inner, boundary: string): (lines: seq<string>) {
    [ContentType(MixedType(boundary)), HeaderLine("Subject", m.subject), HeaderLine("From", m.from), HeaderLine("To", m.to)]
  }

  function AttachmentLines(attachments: seq<Attachment>, boundary: string): (lines: seq<string>) {
    if attachments == [] then []
    else [Mark(boundary), AttachmentPart(attachments[0]), ""] + AttachmentLines(attachments[1..], boundary)
  }

  function Build(m: Inner, boundary: string, alt: string): (s: string) {
    Join(InnerHeaders(m, boundary) + ["", Mark(boundary)] + BodyLines(m.body, m.html, alt) + [""]
         + AttachmentLines(m.attachments, boundary) + [Mark(boundary) + "--", ""], "\n")
  }

  // -------------------------------------------------------------- reading --

  /** Text as it stood, or as UTF-16 units decoded from its octets. */
  datatype Body = AsIs(text: string) | Decoded(units: Html)

  /** How another client's encodings are decoded: transfer encoding, text, character set. */
  type Foreign = (string, string, string) -> Body

  datatype File = File(name: string, mimeType: string, data: string)

  datatype Parsed = Parsed(subject: string, body: Body, html: Option<Body>, attachments: seq<File>)

  function HeaderOr(h: Headers, name: string, otherwise: string): (v: string) {
    if name in h then h[name] else otherwise
  }

  function TypeOf(part: Raw): (v: string) {
    HeaderOr(part.headers, TYPE_KEY, "text/plain")
  }

  function DispositionOf(part: Raw): (v: string) {
    HeaderOr(part.headers, DISPOSITION_KEY, "")
  }

  function BoundaryOf(contentType: string): (b: Option<string>) {
    Param(contentType, "boundary", 1)
  }

  predicate ContainsI(s: string, pat: string) {
    StartsWithI(s, pat) || (s != "" && ContainsI(s[1..], pat))
  }

  predicate IsFile(disposition: string) {
    ContainsI(disposition, "attachment") || ContainsI(disposition, "inline")
  }

  /** Every part, descending into nested multiparts. */
  function FlattenParts(parts: seq<Raw>, bound: nat): (r: seq<Raw>)
    requires forall p | p in parts :: |p.body| < bound
    decreases bound, |parts|
  {
    if parts == [] then []
    else
      var part := parts[0];
      assert part in parts;
      var boundary := if StartsWithI(TypeOf(part), "multipart/") then BoundaryOf(TypeOf(part)) else None;
      (if boundary.Some? then FlattenParts(SplitMultipart(part.body, boundary.value), |part.body|) else [part])
      + FlattenParts(parts[1..], bound)
  }

  function BodyPart(parts: seq<Raw>, mimeType: string): (part: Option<Raw>) {
    if parts == [] then None
    else if StartsWithI(TypeOf(parts[0]), mimeType) && !IsFile(DispositionOf(parts[0])) then Some(parts[0])
    else BodyPart(parts[1..], mimeType)
  }

  const SINGLE_BYTE: set<string> :=
    {"iso88591", "iso8859-1", "iso8859_1", "iso-88591", "iso-8859-1", "iso-8859_1", "iso_88591", "iso_8859-1", "iso_8859_1",
     "latin1", "latin-1", "latin_1", "l1", "cp1252", "cp-1252", "cp_1252", "windows1252", "windows-1252", "windows_1252"}

  predicate IsQuote(c: char) {
    c == '"' || c == '\''
  }

  function CharsetName(charset: string): (name: string) {
    var s := Lower(JsTrim(charset));
    var t := if s != "" && IsQuote(s[0]) then s[1..] else s;
    if t != "" && IsQuote(t[|t| - 1]) then t[..|t| - 1] else t
  }

  function DecodeTransfer(encoding: string, body: string, charset: string, foreign: Foreign): (r: Body) {
    var scheme := JsTrim(Lower(encoding));
    if scheme == "quoted-printable" || (scheme == "base64" && CharsetName(charset) in SINGLE_BYTE) then foreign(scheme, body, charset)
    else if scheme == "base64" then Decoded(Utf8.Decode(Base64.Decode(StripSpaces(body))))
    else AsIs(body)
  }

  function Or(v: Option<string>, otherwise: string): (s: string) {
    if v.Some? then v.value else otherwise
  }

  function RawText(raw: Raw, foreign: Foreign): (r: Body) {
    DecodeTransfer(HeaderOr(raw.headers, ENCODING_KEY, ""), raw.body,
                   Or(Param(HeaderOr(raw.headers, TYPE_KEY, ""), "charset", 0), ""), foreign)
  }

  function StripNewlines(s: string): (r: string) {
    if s != "" && s[|s| - 1] == '\n' then StripNewlines(s[..|s| - 1]) else s
  }

  function StripUnits(s: Html): (r: Html) {
    if s != [] && s[|s| - 1] == 10 then StripUnits(s[..|s| - 1]) else s
  }

  function Stripped(b: Body): (r: Body) {
    match b case AsIs(s) => AsIs(StripNewlines(s)) case Decoded(u) => Decoded(StripUnits(u))
  }

  /** JavaScript's trim, on units, all of whose white space is in the basic plane. */
  function TrimmedUnits(s: Html): (r: Html)
    decreases |s|
  {
    if s != [] && IsSpaceUnit(s[0]) then TrimmedUnits(s[1..])
    else if s != [] && IsSpaceUnit(s[|s| - 1]) then TrimmedUnits(s[..|s| - 1])
    else s
  }

  predicate IsSpaceUnit(u: Utf8.Unit) {
    !Utf8.IsHigh(u) && !Utf8.IsLow(u) && IsJsSpace(u as char)
  }

  function Trimmed'(b: Body): (r: Body) {
    match b case AsIs(s) => AsIs(JsTrim(s)) case Decoded(u) => Decoded(TrimmedUnits(u))
  }

  function BeforeSemicolon(s: string): (r: string) {
    match Find(s, ";") case None => s case Some(at) => s[..at]
  }

  /** The file a part is, if it says so or carries a name. */
  function FileOf(part: Raw): (f: Option<File>) {
    var (contentType, disposition) := (TypeOf(part), DispositionOf(part));
    var named := Param(disposition, "filename", 0);
    var filename := if named.Some? then named else Param(contentType, "name", 0);
    var nameless := filename.None? || filename.value == "";
    if (!IsFile(disposition) && nameless) || (StartsWithI(contentType, "text/plain") && nameless) then None
    else
      var mimeType := JsTrim(BeforeSemicolon(contentType));
      Some(File(Or(filename, "attachment"), if mimeType == "" then "application/octet-stream" else mimeType, StripSpaces(part.body)))
  }

  function FilesOf(parts: seq<Raw>): (files: seq<File>) {
    if parts == [] then []
    else (match FileOf(parts[0]) case None => [] case Some(f) => [f]) + FilesOf(parts[1..])
  }

  function ParseInner(inner: string, foreign: Foreign): (r: Parsed) {
    var raw := Parse(inner);
    var subject := HeaderOr(raw.headers, "subject", PLACEHOLDER_SUBJECT);
    var contentType := HeaderOr(raw.headers, TYPE_KEY, "");
    match BoundaryOf(contentType)
    case None =>
      var single := Trimmed'(RawText(raw, foreign));
      Parsed(subject, single, if StartsWithI(contentType, "text/html") then Some(single) else None, [])
    case Some(boundary) =>
      var parts := FlattenParts(SplitMultipart(raw.body, boundary), |raw.body|);
      var text := BodyPart(parts, "text/plain");
      var html := BodyPart(parts, "text/html");
      Parsed(subject,
             if text.Some? then Stripped(RawText(text.value, foreign)) else AsIs(JsTrim(raw.body)),
             if html.Some? then Some(Stripped(RawText(html.value, foreign))) else None,
             FilesOf(parts))
  }

  method CollectFiles(parts: seq<Raw>) returns (files: seq<File>)
    ensures files == FilesOf(parts)
  {
    files := [];
    assert parts[0..] == parts;
    for i := 0 to |parts|
      invariant FilesOf(parts) == files + FilesFrom(parts, i)
    {
      files := AddFile(files, parts, i);
    }
  }

  function FilesFrom(parts: seq<Raw>, i: nat): (files: seq<File>) {
    if i < |parts| then FilesOf(parts[i..]) else []
  }

  method AddFile(files: seq<File>, parts: seq<Raw>, i: nat) returns (more: seq<File>)
    requires i < |parts|
    ensures files + FilesFrom(parts, i) == more + FilesFrom(parts, i + 1)
  {
    var f := FileOf(parts[i]);
    var found := if f.Some? then [f.value] else [];
    more := files + found;
    FilesFromStep(parts, i, found);
    JoinFiles(files, found, FilesFrom(parts, i + 1));
  }

  lemma FilesFromStep(parts: seq<Raw>, i: nat, found: seq<File>)
    requires i < |parts| && found == match FileOf(parts[i]) case None => [] case Some(f) => [f]
    ensures FilesFrom(parts, i) == found + FilesFrom(parts, i + 1)
  {
    var rest := parts[i..];
    assert rest[0] == parts[i] && rest[1..] == parts[i + 1..];
    assert FilesOf(rest) == found + FilesOf(rest[1..]);
    if i + 1 == |parts| {
      assert rest[1..] == [];
      assert FilesOf(rest[1..]) == [];
    }
  }

  lemma JoinFiles(a: seq<File>, b: seq<File>, c: seq<File>)
    ensures a + (b + c) == a + b + c
  {
  }
}
