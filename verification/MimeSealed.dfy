/** The whole protected tree: what is built is what is parsed (app/src/core/mime.ts:285-317, 377-414). */
module MimeSealed {
  import opened Common
  import opened Strings
  import opened LineText
  import opened Rfc822
  import opened Multipart
  import opened MimeTree
  import opened MimeParts
  import opened MimeRoundTrip
  import Base64
  import Utf8

  // ------------------------------------------------------- the text written --

  function AltTree(body: string, html: Html, alt: string, tail: string): (s: string) {
    Tree([TextPart(body), HtmlPart(html)], alt, tail)
  }

  function AltPart(body: string, html: Html, alt: string): (part: string) {
    Text([ContentType(AlternativeType(alt))], AltTree(body, html, alt, ""))
  }

  function BodyText(m: Inner, alt: string): (part: string) {
    if m.html.None? then TextPart(m.body) else AltPart(m.body, m.html.value, alt)
  }

  function Parts(m: Inner, alt: string): (parts: seq<string>) {
    [BodyText(m, alt)] + AttachmentParts(m.attachments)
  }

  function AttachmentParts(attachments: seq<Attachment>): (parts: seq<string>)
    ensures |parts| == |attachments| && forall i | 0 <= i < |parts| :: parts[i] == AttachmentPart(attachments[i])
  {
    seq(|attachments|, i requires 0 <= i < |attachments| => AttachmentPart(attachments[i]))
  }

  /** Lines inside lines are lines. */
  lemma JoinCollapse(a: seq<string>, inner: seq<string>, c: seq<string>)
    requires a != [] && inner != [] && c != []
    ensures Join(a + inner + c, "\n") == Join(a, "\n") + "\n" + Join(inner, "\n") + "\n" + Join(c, "\n")
  {
    JoinAppend(a, inner, "\n");
    JoinAppend(a + inner, c, "\n");
  }

  lemma ThreeLines(a: string, b: string, c: string)
    ensures Join([a, b, c], "\n") == a + "\n" + b + "\n" + c
  {
    assert [a, b, c][1..] == [b, c] && [b, c][1..] == [c];
    assert Join([b, c], "\n") == b + "\n" + c;
    assert a + "\n" + (b + "\n" + c) == a + "\n" + b + "\n" + c;
  }

  lemma TextLines(body: string)
    ensures Join([ContentType(TEXT_PLAIN), "", body], "\n") == TextPart(body)
  {
    ThreeLines(ContentType(TEXT_PLAIN), "", body);
    assert ContentType(TEXT_PLAIN) + "\n" + "" + "\n" + body == ContentType(TEXT_PLAIN) + "\n\n" + body;
  }

  /** One part of a tree, as lines. */
  lemma TreeLines(mark: string, part: seq<string>, rest: seq<string>)
    requires part != [] && rest != []
    ensures Join([mark] + part + [""] + rest, "\n") == mark + "\n" + Join(part, "\n") + "\n\n" + Join(rest, "\n")
  {
    JoinCollapse([mark], part, [""] + rest);
    JoinAppend([""], rest, "\n");
    assert [mark] + part + [""] + rest == [mark] + part + ([""] + rest);
    var (a, b) := (mark + "\n" + Join(part, "\n"), Join(rest, "\n"));
    assert a + "\n" + ("" + "\n" + b) == a + "\n\n" + b;
  }

  function AltSecond(html: Html, alt: string): (lines: seq<string>) {
    [Mark(alt)] + (HtmlHeaders() + [""] + Wrap(EncodeHtml(html))) + [""] + [Mark(alt) + "--"]
  }

  lemma AltLines(body: string, html: Html, alt: string)
    ensures Join(BodyLines(body, Some(html), alt), "\n") == AltPart(body, html, alt)
  {
    var (mark, close) := (Mark(alt), [Mark(alt) + "--"]);
    var text := [ContentType(TEXT_PLAIN), "", body];
    TreeLines(mark, HtmlHeaders() + [""] + Wrap(EncodeHtml(html)), close);
    TreeLines(mark, text, AltSecond(html, alt));
    TextLines(body);
    var head := [ContentType(AlternativeType(alt)), ""];
    JoinAppend(head, [mark] + text + [""] + AltSecond(html, alt), "\n");
    AltShape(body, html, alt);
    AltTreeIs(body, html, alt);
    HeadTwo(ContentType(AlternativeType(alt)), AltTree(body, html, alt, ""));
  }

  lemma AltShape(body: string, html: Html, alt: string)
    ensures BodyLines(body, Some(html), alt)
         == [ContentType(AlternativeType(alt)), ""] + ([Mark(alt)] + [ContentType(TEXT_PLAIN), "", body] + [""] + AltSecond(html, alt))
  {
    ShapeOf(ContentType(AlternativeType(alt)), Mark(alt), [ContentType(TEXT_PLAIN), "", body], ContentType(TEXT_HTML), EncodingLine(),
            Wrap(EncodeHtml(html)), Mark(alt) + "--");
  }

  lemma ShapeOf(h: string, mark: string, text: seq<string>, a: string, b: string, data: seq<string>, close: string)
    requires |text| == 3
    ensures [h, "", mark, text[0], text[1], text[2], "", mark, a, b, ""] + data + ["", close]
         == [h, ""] + ([mark] + text + [""] + ([mark] + ([a, b] + [""] + data) + [""] + [close]))
  {
    var top := [h, "", mark, text[0], text[1], text[2], "", mark, a, b, ""];
    assert [h, ""] + ([mark] + text + [""] + ([mark] + [a, b] + [""])) == top;
  }

  lemma HeadTwo(line: string, rest: string)
    ensures Join([line, ""], "\n") + "\n" + rest == Text([line], rest)
  {
    assert [line, ""][1..] == [""];
    assert line + "\n" + "" + "\n" + rest == line + "\n\n" + rest;
  }

  lemma AltTreeIs(body: string, html: Html, alt: string)
    ensures AltTree(body, html, alt, "")
         == Mark(alt) + "\n" + TextPart(body) + "\n\n" + (Mark(alt) + "\n" + HtmlPart(html) + "\n\n" + (Mark(alt) + "--"))
  {
    var parts := [TextPart(body), HtmlPart(html)];
    assert parts[1..] == [HtmlPart(html)] && parts[1..][1..] == [];
    assert Mark(alt) + "--" + "" == Mark(alt) + "--";
    assert Tree([], alt, "") == Mark(alt) + "--";
    assert Tree([HtmlPart(html)], alt, "") == Mark(alt) + "\n" + HtmlPart(html) + "\n\n" + Tree([], alt, "");
  }

  lemma BodyLinesAre(m: Inner, alt: string)
    ensures BodyLines(m.body, m.html, alt) != [] && Join(BodyLines(m.body, m.html, alt), "\n") == BodyText(m, alt)
  {
    if m.html.None? {
      TextLines(m.body);
    } else {
      AltLines(m.body, m.html.value, alt);
    }
  }

  lemma {:induction false} AttachmentsAreTree(attachments: seq<Attachment>, boundary: string)
    ensures Join(AttachmentLines(attachments, boundary) + [Mark(boundary) + "--", ""], "\n")
         == Tree(AttachmentParts(attachments), boundary, "\n")
  {
    var close := [Mark(boundary) + "--", ""];
    if attachments == [] {
      assert AttachmentLines(attachments, boundary) + close == close;
      assert close[1..] == [""];
    } else {
      var rest := AttachmentLines(attachments[1..], boundary) + close;
      AttachmentsAreTree(attachments[1..], boundary);
      var part := [AttachmentPart(attachments[0])];
      TreeLines(Mark(boundary), part, rest);
      assert AttachmentLines(attachments, boundary) + close == [Mark(boundary)] + part + [""] + rest;
      assert AttachmentParts(attachments)[1..] == AttachmentParts(attachments[1..]);
    }
  }

  /** The lines below the header: the first delimiter, the body, and the attachments. */
  function TreeLinesOf(m: Inner, boundary: string, alt: string): (lines: seq<string>) {
    [Mark(boundary)] + BodyLines(m.body, m.html, alt) + [""] + (AttachmentLines(m.attachments, boundary) + [Mark(boundary) + "--", ""])
  }

  lemma TreeLinesAre(m: Inner, boundary: string, alt: string)
    ensures Join(TreeLinesOf(m, boundary, alt), "\n") == Tree(Parts(m, alt), boundary, "\n")
  {
    BodyLinesAre(m, alt);
    AttachmentsAreTree(m.attachments, boundary);
    TreeLines(Mark(boundary), BodyLines(m.body, m.html, alt), AttachmentLines(m.attachments, boundary) + [Mark(boundary) + "--", ""]);
    assert Parts(m, alt)[1..] == AttachmentParts(m.attachments);
  }

  lemma BuildLines(top: seq<string>, mark: string, body: seq<string>, attachments: seq<string>)
    ensures top + ["", mark] + body + [""] + attachments + [mark + "--", ""]
         == top + [""] + ([mark] + body + [""] + (attachments + [mark + "--", ""]))
  {
  }

  lemma BuildIsTree(m: Inner, boundary: string, alt: string)
    ensures Build(m, boundary, alt) == Text(InnerHeaders(m, boundary), Tree(Parts(m, alt), boundary, "\n"))
  {
    var top := InnerHeaders(m, boundary);
    BuildLines(top, Mark(boundary), BodyLines(m.body, m.html, alt), AttachmentLines(m.attachments, boundary));
    TreeLinesAre(m, boundary, alt);
    HeaderAndTree(top, TreeLinesOf(m, boundary, alt));
  }

  lemma HeaderAndTree(top: seq<string>, tree: seq<string>)
    requires top != [] && tree != []
    ensures Join(top + [""] + tree, "\n") == Text(top, Join(tree, "\n"))
  {
    JoinCollapse(top, [""], tree);
    Regroup6(Join(top, "\n"), Join(tree, "\n"));
  }

  lemma Regroup6(a: string, b: string)
    ensures a + "\n" + "" + "\n" + b == a + "\n\n" + b
  {
  }

  // ------------------------------------------------------- no carriage return --

  lemma {:induction false} TreeHasNoCr(parts: seq<string>, boundary: string, tail: string)
    requires IsBoundary(boundary) && '\r' !in tail && forall p | p in parts :: '\r' !in p
    ensures '\r' !in Tree(parts, boundary, tail)
  {
    assert '\r' !in Mark(boundary) by {
      assert forall c | c in Mark(boundary) :: c == '-' || c in boundary;
    }
    if parts != [] {
      assert parts[0] in parts;
      TreeHasNoCr(parts[1..], boundary, tail);
    }
  }

  lemma {:induction false} JoinHasNoCr(lines: seq<string>)
    requires forall l | l in lines :: '\r' !in l
    ensures '\r' !in Join(lines, "\n")
  {
    if lines != [] {
      assert lines[0] in lines;
      JoinHasNoCr(lines[1..]);
    }
  }

  lemma SingleHasNoCr(s: string)
    requires SingleLine(s)
    ensures '\r' !in s
  {
  }

  lemma EncodedHasNoCr(headers: seq<string>, data: string)
    requires (forall l | l in headers :: SingleLine(l)) && (forall c | c in data :: !IsJsSpace(c))
    ensures '\r' !in Join(headers + [""] + Wrap(data), "\n")
  {
    WrapKeepsChars(data);
    forall l | l in headers + [""] + Wrap(data) ensures '\r' !in l {
      if l in headers {
        SingleHasNoCr(l);
      } else if l in Wrap(data) {
        assert forall c | c in l :: c in data;
      }
    }
    JoinHasNoCr(headers + [""] + Wrap(data));
  }

  lemma TextHasNoCr(line: string, content: string)
    requires SingleLine(line) && '\r' !in content
    ensures '\r' !in Text([line], content)
  {
    SingleHasNoCr(line);
  }

  lemma TextPartHasNoCr(body: string)
    requires '\r' !in body
    ensures '\r' !in TextPart(body)
  {
    TypesAreTrimmed();
    TypeLine(TEXT_PLAIN);
    TextHasNoCr(ContentType(TEXT_PLAIN), body);
  }

  lemma HtmlPartHasNoCr(html: Html)
    ensures '\r' !in HtmlPart(html)
  {
    Base64Chars(Utf8.Encode(html));
    HtmlLines();
    EncodedHasNoCr(HtmlHeaders(), EncodeHtml(html));
  }

  lemma AttachmentHasNoCr(a: Attachment, boundary: string)
    requires Attachable(a, boundary)
    ensures '\r' !in AttachmentPart(a)
  {
    AttachmentLinesAre(a, boundary);
    EncodedHasNoCr(AttachmentHeaders(a), StripSpaces(a.data));
  }

  lemma AltTreeHasNoCr(body: string, html: Html, alt: string, tail: string)
    requires IsBoundary(alt) && '\r' !in body && '\r' !in tail
    ensures '\r' !in AltTree(body, html, alt, tail)
  {
    TextPartHasNoCr(body);
    HtmlPartHasNoCr(html);
    TreeHasNoCr([TextPart(body), HtmlPart(html)], alt, tail);
  }

  // ---------------------------------------------------- the alternative part --

  const ALTERNATIVE := "multipart/" + "alternative; "

  lemma AltIsMultipart(rest: string)
    ensures StartsWithI(ALTERNATIVE + rest, "multipart/")
  {
    assert (ALTERNATIVE + rest)[..10] == "multipart/";
    LowerMultipart();
  }

  lemma LowerMultipart()
    ensures Lower("multipart/") == "multipart/"
  {
  }

  lemma AltIsTrimmed(boundary: string)
    requires IsBoundary(boundary)
    ensures var v := ALTERNATIVE + ("boundary" + "=\"" + boundary + "\"" + "");
      SingleLine(v) && JsTrim(v) == v
  {
    var v := ALTERNATIVE + ("boundary" + "=\"" + boundary + "\"" + "");
    assert v[0] == 'm' && v[|v| - 1] == '"';
    TrimIsKept(v);
    NoBoundaryIn();
    BoundaryLine(boundary, "");
    SingleAppend(ALTERNATIVE, "boundary" + "=\"" + boundary + "\"" + "");
  }

  lemma AltTypeIs(alt: string)
    requires IsBoundary(alt)
    ensures var v := AlternativeType(alt);
      SingleLine(v) && JsTrim(v) == v && StartsWithI(v, "multipart/") && BoundaryOf(v) == Some(alt)
  {
    AlternativeIs();
    AltIsMultipart("boundary" + "=\"" + alt + "\"" + "");
    AltIsTrimmed(alt);
    NoBoundaryIn();
    ParamIs(ALTERNATIVE, "boundary", alt, "", 1);
  }

  lemma AlternativeIs()
    ensures ALTERNATIVE == "multipart/alternative; "
  {
  }

  lemma NoBoundaryIn()
    ensures forall c | c in ALTERNATIVE :: LowerChar(c) != 'b' && !EndsJsLine(c)
    ensures forall c | c in "multipart/mixed; " :: LowerChar(c) != 'b' && !EndsJsLine(c)
    ensures Lower("boundary") == "boundary"
  {
    forall c | c in ALTERNATIVE ensures LowerChar(c) != 'b' && !EndsJsLine(c) {
      assert c in "multipart/" || c in "alternative; ";
    }
  }

  lemma BoundaryLine(boundary: string, after: string)
    requires IsBoundary(boundary) && SingleLine(after)
    ensures SingleLine("boundary" + "=\"" + boundary + "\"" + after)
  {
    SingleAppend("boundary" + "=\"", boundary);
    SingleAppend("boundary" + "=\"" + boundary, "\"");
    SingleAppend("boundary" + "=\"" + boundary + "\"", after);
  }

  lemma TreeTail(parts: seq<string>, boundary: string)
    ensures Tree(parts, boundary, "") + "\n\n" == Tree(parts, boundary, "\n\n")
  {
    if parts != [] {
      TreeTail(parts[1..], boundary);
      var a := Mark(boundary) + "\n" + parts[0] + "\n\n";
      assert a + Tree(parts[1..], boundary, "") + "\n\n" == a + (Tree(parts[1..], boundary, "") + "\n\n");
    } else {
      assert Mark(boundary) + "--" + "" + "\n\n" == Mark(boundary) + "--" + "\n\n";
    }
  }

  function AltRaw(body: string, html: Html, alt: string): (raw: Raw) {
    Raw(map[TYPE_KEY := AlternativeType(alt)], AltTree(body, html, alt, "\n\n"))
  }

  lemma AltReads(body: string, html: Html, alt: string)
    requires IsBoundary(alt) && '\r' !in body
    ensures Reads(AltPart(body, html, alt), AltRaw(body, html, alt))
  {
    var value := AlternativeType(alt);
    var line := ContentType(value);
    AltTypeIs(alt);
    TypeLine(value);
    OneHeader(value);
    AltTreeHasNoCr(body, html, alt, "\n\n");
    ParseOfText([line], AltTree(body, html, alt, "\n\n"));
    TreeTail([TextPart(body), HtmlPart(html)], alt);
    TextTail(line, AltTree(body, html, alt, ""));
    assert AltPart(body, html, alt)[0] == line[0];
  }

  lemma TextTail(line: string, content: string)
    ensures Text([line], content) + "\n\n" == Text([line], content + "\n\n")
  {
  }

  lemma AltIsFree(body: string, html: Html, alt: string, boundary: string)
    requires IsBoundary(alt) && IsBoundary(boundary) && alt[0] != boundary[0] && Free(body, true, boundary)
    ensures Free(AltPart(body, html, alt), true, boundary)
  {
    AltTypeIs(alt);
    TypeLine(AlternativeType(alt));
    AltTreeIsFree(body, html, alt, boundary);
    FreeText(ContentType(AlternativeType(alt)), AltTree(body, html, alt, ""), boundary);
  }

  lemma AltTreeIsFree(body: string, html: Html, alt: string, boundary: string)
    requires IsBoundary(alt) && IsBoundary(boundary) && alt[0] != boundary[0] && Free(body, true, boundary)
    ensures Free(AltTree(body, html, alt, ""), true, boundary)
  {
    var mark := Mark(alt);
    TextIsFree(body, boundary);
    HtmlIsFree(html, boundary);
    SingleAppend("--", alt);
    SingleAppend(mark, "--");
    FreeLine(mark, boundary);
    FreeLine(mark + "--", boundary);
    FreeLine("", boundary);
    var lines := [mark, TextPart(body), "", mark, HtmlPart(html), "", mark + "--"];
    FreeLines(lines, boundary);
    SevenLines(mark, TextPart(body), HtmlPart(html));
    AltTreeIs(body, html, alt);
  }

  lemma SevenLines(mark: string, a: string, b: string)
    ensures Join([mark, a, "", mark, b, "", mark + "--"], "\n")
         == mark + "\n" + a + "\n\n" + (mark + "\n" + b + "\n\n" + (mark + "--"))
  {
    var close := [mark + "--"];
    TreeLines(mark, [b], close);
    var second := [mark] + [b] + [""] + close;
    TreeLines(mark, [a], second);
    assert [mark] + [a] + [""] + second == [mark, a, "", mark, b, "", mark + "--"];
  }
}
