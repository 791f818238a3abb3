/**
 * A mailbox as an mboxrd file (app/src/mail/mbox.ts:40-75). The quoting pattern
 * is JavaScript's multi-line one, whose line starts include those after the
 * separators U+2028 and U+2029, which no mbox reader takes for line ends.
 */
module Mbox {
  import opened Common
  import opened Strings
  import opened LineText

  const FROM := "From "
  const UNKNOWN_SENDER := "MAILER-DAEMON"

  /** `replace(/\r\n?/g, '\n')`. */
  function NormaliseNewlines(raw: string): (r: string)
    ensures '\r' !in r
  {
    if raw == "" then ""
    else if raw[0] == '\r' then "\n" + NormaliseNewlines(if |raw| > 1 && raw[1] == '\n' then raw[2..] else raw[1..])
    else [raw[0]] + NormaliseNewlines(raw[1..])
  }

  function SkipQuotes(s: string): (r: string) {
    if s != "" && s[0] == '>' then SkipQuotes(s[1..]) else s
  }

  /** `>*From ` stands here. */
  predicate LooksLikeFrom(s: string) {
    StartsWith(SkipQuotes(s), FROM)
  }

  /** `replace(/^(>*From )/gm, '>$1')`, from a place that starts a line or does not. */
  function Quote(s: string, lineStart: bool): (r: string) {
    if s == "" then ""
    else (if lineStart && LooksLikeFrom(s) then ">" else "") + [s[0]] + Quote(s[1..], EndsJsLine(s[0]))
  }

  datatype Entry = Entry(from: Option<string>, stamp: string, raw: string)

  /** The envelope line. The time stamp is written out by the caller, on one line. */
  function Envelope(e: Entry): (line: string) {
    var sender := match e.from case None => "" case Some(f) => JsTrim(f);
    FROM + (if sender == "" then UNKNOWN_SENDER else sender) + " " + e.stamp
  }

  function EntryToMbox(e: Entry): (s: string) {
    var body := Quote(NormaliseNewlines(e.raw), true);
    Envelope(e) + "\n" + body + (if EndsWith(body, "\n") then "" else "\n") + "\n"
  }

  function ToMbox(entries: seq<Entry>): (s: string) {
    if entries == [] then "" else EntryToMbox(entries[0]) + ToMbox(entries[1..])
  }

  // ------------------------------------------------------ quoting by line --

  /** What quoting adds inside a line, at line starts no mbox reader knows of. */
  function QuoteInside(line: string): (r: string) {
    Quote(line, false)
  }

  function QuoteLine(line: string): (r: string) {
    (if LooksLikeFrom(line) then ">" else "") + QuoteInside(line)
  }

  function QuoteLines(lines: seq<string>): (r: seq<string>)
    ensures |r| == |lines| && forall i | 0 <= i < |r| :: r[i] == QuoteLine(lines[i])
  {
    seq(|lines|, i requires 0 <= i < |lines| => QuoteLine(lines[i]))
  }

  function InsideLines(lines: seq<string>): (r: seq<string>)
    ensures |r| == |lines| && forall i | 0 <= i < |r| :: r[i] == QuoteInside(lines[i])
  {
    seq(|lines|, i requires 0 <= i < |lines| => QuoteInside(lines[i]))
  }

  lemma {:induction false} FromIsInLine(line: string, rest: string)
    requires OneLine(line)
    ensures LooksLikeFrom(line + ("\n" + rest)) <==> LooksLikeFrom(line)
  {
    var s := line + ("\n" + rest);
    if line != "" && line[0] == '>' {
      FromIsInLine(line[1..], rest);
      assert s[1..] == line[1..] + ("\n" + rest);
    } else {
      assert line == "" ==> s == "\n" + rest;
      PrefixIsInLine(line, rest);
    }
  }

  lemma PrefixIsInLine(line: string, rest: string)
    requires OneLine(line)
    ensures StartsWith(line + ("\n" + rest), FROM) <==> StartsWith(line, FROM)
  {
    var s := line + ("\n" + rest);
    if |line| >= |FROM| {
      assert s[..|FROM|] == line[..|FROM|];
    } else {
      assert s[|line|] == '\n';
      assert |s| >= |FROM| ==> s[..|FROM|][|line|] == '\n' != FROM[|line|];
    }
  }

  /** Quoting goes line by line. */
  lemma {:induction false} QuoteFirstLine(line: string, rest: string, lineStart: bool)
    requires OneLine(line)
    ensures Quote(line + ("\n" + rest), lineStart) == Quote(line, lineStart) + ("\n" + Quote(rest, true))
  {
    var s := line + ("\n" + rest);
    FromIsInLine(line, rest);
    if line == "" {
      assert s == "\n" + rest && s[1..] == rest;
      assert !LooksLikeFrom("");
    } else {
      assert s[1..] == line[1..] + ("\n" + rest);
      QuoteFirstLine(line[1..], rest, EndsJsLine(line[0]));
      var mark := if lineStart && LooksLikeFrom(line) then ">" else "";
      Join3(mark + [line[0]], Quote(line[1..], EndsJsLine(line[0])), "\n" + Quote(rest, true));
    }
  }

  lemma Join3(a: string, b: string, c: string)
    ensures a + (b + c) == a + b + c
  {
  }

  lemma QuoteWhole(line: string)
    ensures Quote(line, true) == QuoteLine(line)
  {
    if line != "" {
      var mark := if LooksLikeFrom(line) then ">" else "";
      assert mark + [line[0]] + Quote(line[1..], EndsJsLine(line[0])) == mark + ("" + [line[0]] + Quote(line[1..], EndsJsLine(line[0])));
    }
  }

  lemma {:induction false} QuoteJoined(lines: seq<string>)
    requires lines != [] && AllOneLine(lines)
    ensures Quote(Join(lines, "\n"), true) == Join(QuoteLines(lines), "\n")
  {
    assert lines[0] in lines;
    QuoteWhole(lines[0]);
    if |lines| > 1 {
      QuoteJoined(lines[1..]);
      QuoteFirstLine(lines[0], Join(lines[1..], "\n"), true);
      JoinOff(lines);
      JoinOff(QuoteLines(lines));
      QuoteTail(lines);
    }
  }

  lemma JoinOff(lines: seq<string>)
    requires |lines| > 1
    ensures Join(lines, "\n") == lines[0] + ("\n" + Join(lines[1..], "\n"))
  {
    var rest := Join(lines[1..], "\n");
    assert lines[0] + "\n" + rest == lines[0] + ("\n" + rest);
  }

  lemma QuoteTail(lines: seq<string>)
    requires lines != []
    ensures QuoteLines(lines)[1..] == QuoteLines(lines[1..])
  {
  }

  lemma {:induction false} QuoteKeepsLine(line: string, lineStart: bool)
    requires OneLine(line)
    ensures OneLine(Quote(line, lineStart))
  {
    if line != "" {
      QuoteKeepsLine(line[1..], EndsJsLine(line[0]));
    }
  }

  lemma QuotedAreLines(lines: seq<string>)
    requires AllOneLine(lines)
    ensures AllOneLine(QuoteLines(lines)) && AllOneLine(InsideLines(lines))
  {
    forall l | l in QuoteLines(lines) ensures OneLine(l) {
      var i :| 0 <= i < |lines| && QuoteLines(lines)[i] == l;
      assert lines[i] in lines;
      QuoteKeepsLine(lines[i], false);
    }
    forall l | l in InsideLines(lines) ensures OneLine(l) {
      var i :| 0 <= i < |lines| && InsideLines(lines)[i] == l;
      assert lines[i] in lines;
      QuoteKeepsLine(lines[i], false);
    }
  }

  // ---------------------------------------------------- an mboxrd reader --

  predicate IsFromLine(line: string) {
    StartsWith(line, FROM)
  }

  /** `>+From ` loses one `>`. */
  function UnquoteLine(line: string): (r: string) {
    if line != "" && line[0] == '>' && LooksLikeFrom(line) then line[1..] else line
  }

  function UnquoteLines(lines: seq<string>): (r: seq<string>)
    ensures |r| == |lines| && forall i | 0 <= i < |r| :: r[i] == UnquoteLine(lines[i])
  {
    seq(|lines|, i requires 0 <= i < |lines| => UnquoteLine(lines[i]))
  }

  /** How many lines come before the next `From ` line. */
  function UntilFrom(lines: seq<string>): (n: nat)
    ensures n <= |lines|
  {
    if lines == [] || IsFromLine(lines[0]) then 0 else 1 + UntilFrom(lines[1..])
  }

  function DropBlank(lines: seq<string>): (r: seq<string>) {
    if lines != [] && lines[|lines| - 1] == "" then lines[..|lines| - 1] else lines
  }

  /** Message by message: what stands between `From ` lines, without the blank line before the next. */
  function ReadLines(lines: seq<string>): (messages: seq<seq<string>>) {
    if lines == [] || !IsFromLine(lines[0]) then []
    else
      var n := UntilFrom(lines[1..]);
      [UnquoteLines(DropBlank(lines[1..n + 1]))] + ReadLines(lines[n + 1..])
  }

  /** A file's lines, each of them terminated. */
  function FileLines(s: string): (lines: seq<string>) {
    var all := Split(s);
    all[..|all| - 1]
  }

  function ReadMbox(s: string): (messages: seq<seq<string>>) {
    ReadLines(FileLines(s))
  }

  // ------------------------------------------------------------ round trip --

  lemma {:induction false} PrefixKept(s: string, pat: string)
    requires forall c | c in pat :: !EndsJsLine(c)
    ensures StartsWith(Quote(s, false), pat) <==> StartsWith(s, pat)
  {
    if s != "" && pat != "" {
      var q := Quote(s, false);
      assert q == [s[0]] + Quote(s[1..], EndsJsLine(s[0]));
      assert pat[0] in pat;
      if s[0] == pat[0] {
        PrefixKept(s[1..], pat[1..]);
        StartsMore(s, pat);
        StartsMore(q, pat);
        assert q[1..] == Quote(s[1..], false);
      }
    }
  }

  lemma StartsMore(s: string, pat: string)
    requires s != "" && pat != "" && s[0] == pat[0]
    ensures StartsWith(s, pat) <==> StartsWith(s[1..], pat[1..])
  {
    if |pat| <= |s| {
      assert s[1..][..|pat| - 1] == s[..|pat|][1..];
      assert s[..|pat|] == [s[0]] + s[..|pat|][1..] && pat == [pat[0]] + pat[1..];
    }
  }

  /** Quoting inside a line leaves its front as it looks. */
  lemma {:induction false} LooksKept(s: string)
    ensures LooksLikeFrom(QuoteInside(s)) <==> LooksLikeFrom(s)
  {
    if s != "" {
      var q := Quote(s, false);
      assert q == [s[0]] + Quote(s[1..], EndsJsLine(s[0]));
      if s[0] == '>' {
        LooksKept(s[1..]);
        assert q[1..] == Quote(s[1..], false);
      } else {
        PrefixKept(s, FROM);
      }
    }
  }

  /** No quoted line is a `From ` line, and unquoting takes back the mark at its front. */
  lemma QuotedLine(line: string)
    ensures !IsFromLine(QuoteLine(line)) && UnquoteLine(QuoteLine(line)) == QuoteInside(line)
    ensures QuoteLine(line) == "" <==> line == ""
  {
    var inside := QuoteInside(line);
    LooksKept(line);
    if LooksLikeFrom(line) {
      assert (">" + inside)[1..] == inside;
    } else {
      assert QuoteLine(line) == inside;
      assert IsFromLine(inside) ==> SkipQuotes(inside) == inside;
    }
  }

  function Body(e: Entry): (lines: seq<string>) {
    Whole(Split(NormaliseNewlines(e.raw)))
  }

  lemma WholeQuoted(lines: seq<string>)
    ensures Whole(QuoteLines(lines)) == QuoteLines(Whole(lines))
  {
    if |lines| > 1 {
      QuotedLine(lines[|lines| - 1]);
      assert QuoteLines(lines)[..|lines| - 1] == QuoteLines(lines[..|lines| - 1]);
    }
  }

  /** The lines an entry puts into the file. */
  function EntryLines(e: Entry): (lines: seq<string>) {
    [Envelope(e)] + QuoteLines(Body(e)) + [""]
  }

  lemma EntryIsLines(e: Entry)
    ensures EntryToMbox(e) == Terminate(EntryLines(e), "\n")
    ensures OneLine(Envelope(e)) ==> AllOneLine(EntryLines(e))
  {
    var lines := Split(NormaliseNewlines(e.raw));
    JoinOfSplit(NormaliseNewlines(e.raw));
    QuoteJoined(lines);
    QuotedAreLines(lines);
    FinalTerminator(QuoteLines(lines), "\n");
    WholeQuoted(lines);
    var quoted := QuoteLines(Body(e));
    assert AllOneLine(quoted);
    EntryTerminated(Envelope(e), quoted);
    EntryText(e);
  }

  lemma EntryText(e: Entry)
    ensures var body := Quote(NormaliseNewlines(e.raw), true);
      EntryToMbox(e) == Envelope(e) + "\n" + (if EndsWith(body, "\n") then body else body + "\n") + "\n"
  {
    var (a, body) := (Envelope(e) + "\n", Quote(NormaliseNewlines(e.raw), true));
    assert a + body + "" == a + body;
    assert a + body + "\n" == a + (body + "\n");
  }

  lemma EntryTerminated(envelope: string, lines: seq<string>)
    ensures Terminate([envelope] + lines + [""], "\n") == envelope + "\n" + Terminate(lines, "\n") + "\n"
  {
    assert ([envelope] + lines + [""])[1..] == lines + [""];
    TerminateAppend(lines, [""]);
    assert [""][1..] == [];
    assert envelope + "\n" + (Terminate(lines, "\n") + "\n") == envelope + "\n" + Terminate(lines, "\n") + "\n";
  }

  lemma {:induction false} TerminateAppend(a: seq<string>, b: seq<string>)
    ensures Terminate(a + b, "\n") == Terminate(a, "\n") + Terminate(b, "\n")
  {
    if a == [] {
      assert a + b == b;
    } else {
      TerminateAppend(a[1..], b);
      assert (a + b)[1..] == a[1..] + b;
      assert a[0] + "\n" + (Terminate(a[1..], "\n") + Terminate(b, "\n")) == a[0] + "\n" + Terminate(a[1..], "\n") + Terminate(b, "\n");
    }
  }

  lemma {:induction false} FileLinesOf(lines: seq<string>)
    requires AllOneLine(lines)
    ensures Split(Terminate(lines, "\n")) == lines + [""] && FileLines(Terminate(lines, "\n")) == lines
  {
    if lines != [] {
      assert lines[0] in lines;
      var rest := Terminate(lines[1..], "\n");
      FileLinesOf(lines[1..]);
      SplitOff(lines[0], rest);
      Join3(lines[0], "\n", rest);
      FirstOfAll(lines);
    }
    var all := lines + [""];
    assert all[..|all| - 1] == lines;
  }

  lemma FirstOfAll(lines: seq<string>)
    requires lines != []
    ensures [lines[0]] + (lines[1..] + [""]) == lines + [""]
  {
  }

  function AllLines(entries: seq<Entry>): (lines: seq<string>) {
    if entries == [] then [] else EntryLines(entries[0]) + AllLines(entries[1..])
  }

  lemma {:induction false} MboxIsLines(entries: seq<Entry>)
    requires forall e | e in entries :: OneLine(Envelope(e))
    ensures ToMbox(entries) == Terminate(AllLines(entries), "\n") && AllOneLine(AllLines(entries))
  {
    if entries != [] {
      assert entries[0] in entries;
      EntryIsLines(entries[0]);
      MboxIsLines(entries[1..]);
      TerminateAppend(EntryLines(entries[0]), AllLines(entries[1..]));
    }
  }

  lemma {:induction false} UntilFromIs(body: seq<string>, rest: seq<string>)
    requires (forall l | l in body :: !IsFromLine(l)) && (rest == [] || IsFromLine(rest[0]))
    ensures UntilFrom(body + rest) == |body|
  {
    if body == [] {
      assert body + rest == rest;
    } else {
      assert body[0] in body;
      UntilFromIs(body[1..], rest);
      assert (body + rest)[1..] == body[1..] + rest;
    }
  }

  lemma EnvelopeIsFrom(e: Entry)
    ensures IsFromLine(Envelope(e))
  {
    var sender := match e.from case None => "" case Some(f) => JsTrim(f);
    var rest := (if sender == "" then UNKNOWN_SENDER else sender) + " " + e.stamp;
    assert Envelope(e) == FROM + rest;
    assert (FROM + rest)[..|FROM|] == FROM;
  }

  lemma QuotedBody(lines: seq<string>)
    ensures forall l | l in QuoteLines(lines) + [""] :: !IsFromLine(l)
    ensures UnquoteLines(QuoteLines(lines)) == InsideLines(lines)
  {
    forall l | l in QuoteLines(lines) ensures !IsFromLine(l) {
      var i :| 0 <= i < |lines| && QuoteLines(lines)[i] == l;
      QuotedLine(lines[i]);
    }
    forall i | 0 <= i < |lines| ensures UnquoteLines(QuoteLines(lines))[i] == InsideLines(lines)[i] {
      QuotedLine(lines[i]);
    }
  }

  lemma ReadOne(from: string, body: seq<string>, rest: seq<string>)
    requires IsFromLine(from) && (forall l | l in body :: !IsFromLine(l)) && (rest == [] || IsFromLine(rest[0]))
    ensures ReadLines([from] + body + rest) == [UnquoteLines(DropBlank(body))] + ReadLines(rest)
  {
    var lines := [from] + body + rest;
    UntilFromIs(body, rest);
    assert lines[1..] == body + rest;
    assert lines[1..|body| + 1] == body && lines[|body| + 1..] == rest;
  }

  lemma ReadEntry(e: Entry, rest: seq<string>)
    requires rest == [] || IsFromLine(rest[0])
    ensures ReadLines(EntryLines(e) + rest) == [InsideLines(Body(e))] + ReadLines(rest)
  {
    var quoted := QuoteLines(Body(e));
    EnvelopeIsFrom(e);
    QuotedBody(Body(e));
    ReadOne(Envelope(e), quoted + [""], rest);
    assert EntryLines(e) == [Envelope(e)] + (quoted + [""]);
    assert DropBlank(quoted + [""]) == quoted;
  }

  function ReadBack(entries: seq<Entry>): (messages: seq<seq<string>>)
    ensures |messages| == |entries| && forall i | 0 <= i < |entries| :: messages[i] == InsideLines(Body(entries[i]))
  {
    seq(|entries|, i requires 0 <= i < |entries| => InsideLines(Body(entries[i])))
  }

  lemma {:induction false} ReadAll(entries: seq<Entry>)
    ensures ReadLines(AllLines(entries)) == ReadBack(entries)
  {
    if entries != [] {
      ReadAll(entries[1..]);
      StartsWithFrom(entries[1..]);
      ReadEntry(entries[0], AllLines(entries[1..]));
      ReadBackFirst(entries);
    }
  }

  lemma StartsWithFrom(entries: seq<Entry>)
    ensures AllLines(entries) == [] || IsFromLine(AllLines(entries)[0])
  {
    if entries != [] {
      EnvelopeIsFrom(entries[0]);
      assert AllLines(entries)[0] == Envelope(entries[0]);
    }
  }

  lemma ReadBackFirst(entries: seq<Entry>)
    requires entries != []
    ensures ReadBack(entries) == [InsideLines(Body(entries[0]))] + ReadBack(entries[1..])
  {
  }

  /**
   * The file reads back as exactly as many messages, in order, each line by
   * line as it was, but for marks put inside a line.
   */
  lemma MboxReadsBack(entries: seq<Entry>)
    requires forall e | e in entries :: OneLine(Envelope(e))
    ensures ReadMbox(ToMbox(entries)) == ReadBack(entries)
  {
    MboxIsLines(entries);
    FileLinesOf(AllLines(entries));
    ReadAll(entries);
  }

  // ------------------------------------------------------- exactly when --

  /** A `>*From ` after a separator inside the line. */
  ghost predicate HiddenFrom(line: string) {
    exists i: nat :: Hidden(line, i)
  }

  predicate Hidden(line: string, i: nat) {
    0 < i < |line| && EndsJsLine(line[i - 1]) && LooksLikeFrom(line[i..])
  }

  lemma {:induction false} MarksInside(s: string, lineStart: bool)
    ensures |Quote(s, lineStart)| >= |s|
    ensures Quote(s, lineStart) == s <==> !(lineStart && s != "" && LooksLikeFrom(s)) && !HiddenFrom(s)
    ensures !(lineStart && s != "" && LooksLikeFrom(s)) && !HiddenFrom(s) <==> |Quote(s, lineStart)| == |s|
  {
    if s != "" {
      var ends := EndsJsLine(s[0]);
      MarksInside(s[1..], ends);
      HiddenInTail(s);
      assert Quote(s, lineStart) == (if lineStart && LooksLikeFrom(s) then ">" else "") + [s[0]] + Quote(s[1..], ends);
    }
  }

  lemma HiddenInTail(s: string)
    requires s != ""
    ensures HiddenFrom(s) <==> (EndsJsLine(s[0]) && s[1..] != "" && LooksLikeFrom(s[1..])) || HiddenFrom(s[1..])
  {
    assert forall i: nat | i > 0 :: Hidden(s[1..], i) <==> Hidden(s, i + 1) by {
      forall i: nat | i > 0 ensures Hidden(s[1..], i) <==> Hidden(s, i + 1) {
        assert i < |s| ==> s[1..][i..] == s[i + 1..];
      }
    }
    assert |s| > 1 && EndsJsLine(s[0]) && LooksLikeFrom(s[1..]) ==> Hidden(s, 1);
    if HiddenFrom(s) {
      var i: nat :| Hidden(s, i);
      assert i == 1 || Hidden(s[1..], i - 1);
    }
  }

  /** A message comes back as it was exactly when none of its lines hides a `From `. */
  lemma ExactlyWhen(lines: seq<string>)
    ensures InsideLines(lines) == lines <==> forall l | l in lines :: !HiddenFrom(l)
  {
    forall i | 0 <= i < |lines| ensures InsideLines(lines)[i] == lines[i] <==> !HiddenFrom(lines[i]) {
      MarksInside(lines[i], false);
    }
    if InsideLines(lines) == lines {
      forall l | l in lines ensures !HiddenFrom(l) {
        var i :| 0 <= i < |lines| && lines[i] == l;
      }
    }
  }

  /** So the export is read back exactly when no line hides one. */
  lemma MboxRoundTrip(entries: seq<Entry>)
    requires forall e | e in entries :: OneLine(Envelope(e))
    ensures (|ReadMbox(ToMbox(entries))| == |entries| && forall i | 0 <= i < |entries| :: ReadMbox(ToMbox(entries))[i] == Body(entries[i]))
      <==> forall e | e in entries :: forall l | l in Body(e) :: !HiddenFrom(l)
  {
    MboxReadsBack(entries);
    forall e | e in entries ensures InsideLines(Body(e)) == Body(e) <==> forall l | l in Body(e) :: !HiddenFrom(l) {
      ExactlyWhen(Body(e));
    }
    assert forall i | 0 <= i < |entries| :: entries[i] in entries;
  }

  /** Such a line exists: after U+2028, the mark stays. */
  lemma SeparatorHidesFrom()
    ensures var line := ["\U{2028}"[0]] + FROM;
      QuoteInside(line) == ["\U{2028}"[0]] + ">" + FROM != line
  {
    var sep := "\U{2028}"[0];
    assert sep as int == 0x2028;
    FromQuoted();
    var line := [sep] + FROM;
    assert line[1..] == FROM;
    assert Quote(line, false) == "" + [sep] + Quote(FROM, true);
    assert line[1] == 'F';
  }

  lemma FromQuoted()
    ensures Quote(FROM, true) == ">" + FROM
  {
    PlainStays(FROM);
    QuoteWhole(FROM);
    assert SkipQuotes(FROM) == FROM;
    assert FROM[..|FROM|] == FROM;
  }

  lemma {:induction false} PlainStays(s: string)
    requires forall c | c in s :: !EndsJsLine(c)
    ensures Quote(s, false) == s
  {
    if s != "" {
      assert s[0] in s && forall c | c in s[1..] :: c in s;
      PlainStays(s[1..]);
      assert "" + [s[0]] + s[1..] == s;
    }
  }

  lemma SpaceAfter(who: string, stamp: string)
    requires ' ' !in who
    ensures Find(who + (" " + stamp), " ") == Some(|who|)
    ensures (who + (" " + stamp))[..|who|] == who && (who + (" " + stamp))[|who| + 1..] == stamp
  {
    var s := who + (" " + stamp);
    forall i: nat | i < |who| ensures !OccursAt(s, " ", i) {
      OccursMeans(s, " ", i);
      assert s[i] == who[i] && who[i] in who;
    }
    assert s[|who|..|who| + 1] == " ";
    FindIs(s, " ", |who|);
  }

  /** The sender as the envelope has it: one that is unknown or blank goes by another name. */
  function Sender(e: Entry): (who: string) {
    if e.from.None? || JsTrim(e.from.value) == "" then "MAILER-DAEMON" else JsTrim(e.from.value)
  }

  lemma EnvelopeIs(e: Entry)
    ensures Envelope(e) == "From " + (Sender(e) + (" " + e.stamp))
  {
  }

  /** The envelope names the sender, up to the space before the time stamp. */
  lemma EnvelopeSays(e: Entry)
    requires ' ' !in Sender(e)
    ensures |Envelope(e)| > 5 && Envelope(e)[..5] == "From "
    ensures var rest := Envelope(e)[5..];
      Find(rest, " ") == Some(|Sender(e)|) && rest[..|Sender(e)|] == Sender(e) && rest[|Sender(e)| + 1..] == e.stamp
  {
    EnvelopeIs(e);
    var rest := Sender(e) + (" " + e.stamp);
    assert ("From " + rest)[5..] == rest && ("From " + rest)[..5] == "From ";
    SpaceAfter(Sender(e), e.stamp);
  }
}
