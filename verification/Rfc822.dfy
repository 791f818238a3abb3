/** Header block and body of a message or part (app/src/core/mime.ts:44-57), and parameters off a header value. */
module Rfc822 {
  import opened Common
  import opened Strings
  import opened LineText

  type Headers = map<string, string>

  datatype Raw = Raw(headers: Headers, body: string)

  function Lower(s: string): (r: string)
    ensures |r| == |s|
    ensures forall i | 0 <= i < |s| :: r[i] == LowerChar(s[i])
  {
    seq(|s|, i requires 0 <= i < |s| => LowerChar(s[i]))
  }

  /** ASCII only: header names and parameters are. */
  function LowerChar(c: char): (d: char) {
    if 'A' <= c <= 'Z' then ((c as int) + 32) as char else c
  }

  predicate IsFold(c: char) {
    c == ' ' || c == '\t'
  }

  function SkipFolds(s: string): (r: string)
    ensures |r| <= |s|
  {
    if s != "" && IsFold(s[0]) then SkipFolds(s[1..]) else s
  }

  /** `replace(/\n[ \t]+/g, ' ')`. */
  function Unfold(s: string): (r: string)
    decreases |s|
  {
    if s == "" then ""
    else if |s| > 1 && s[0] == '\n' && IsFold(s[1]) then " " + Unfold(SkipFolds(s[1..]))
    else [s[0]] + Unfold(s[1..])
  }

  /** Name and value of a header line, if it has a colon after its first character. */
  function HeaderOf(line: string): (h: Option<(string, string)>) {
    match Find(line, ":")
    case None => None
    case Some(at) => if at == 0 then None else Some((Lower(JsTrim(line[..at])), JsTrim(line[at + 1..])))
  }

  /** Later lines win. */
  function HeaderMap(lines: seq<string>): (m: Headers) {
    if lines == [] then map[]
    else
      var n := |lines| - 1;
      var before := HeaderMap(lines[..n]);
      match HeaderOf(lines[n]) case None => before case Some((name, value)) => before[name := value]
  }

  function Parse(raw: string): (r: Raw)
    ensures |r.body| <= |raw|
  {
    var normalized := NormaliseCrlf(raw);
    match Find(normalized, "\n\n")
    case None => Raw(HeaderMap(Split(Unfold(normalized))), "")
    case Some(at) => Raw(HeaderMap(Split(Unfold(normalized[..at]))), normalized[at + 2..])
  }

  method ParseHeaders(block: string) returns (headers: Headers)
    ensures headers == HeaderMap(Split(Unfold(block)))
  {
    var lines := Split(Unfold(block));
    headers := map[];
    for i := 0 to |lines|
      invariant headers == HeaderMap(lines[..i])
    {
      assert lines[..i + 1][..i] == lines[..i];
      var idx := Find(lines[i], ":");
      if idx.Some? && idx.value > 0 {
        headers := headers[Lower(JsTrim(lines[i][..idx.value])) := JsTrim(lines[i][idx.value + 1..])];
      }
    }
    assert lines[..|lines|] == lines;
  }

  // -------------------------------------------------- reading what was written --

  /** Header lines, an empty line, and the rest. */
  function Text(lines: seq<string>, content: string): (s: string) {
    Join(lines, "\n") + "\n\n" + content
  }

  /** A line that can stand in a header block: nothing folds onto it, and it ends nothing. */
  predicate IsHeaderLine(line: string) {
    OneLine(line) && '\r' !in line && line != "" && !IsFold(line[0])
  }

  ghost predicate AreHeaderLines(lines: seq<string>) {
    lines != [] && forall l | l in lines :: IsHeaderLine(l)
  }

  lemma {:induction false} UnfoldLine(line: string, rest: string)
    requires OneLine(line) && (rest == "" || (rest[0] == '\n' && |rest| > 1 && !IsFold(rest[1])))
    ensures Unfold(line + rest) == line + Unfold(rest)
  {
    if line == "" {
      assert line + rest == rest;
    } else {
      UnfoldLine(line[1..], rest);
      assert (line + rest)[1..] == line[1..] + rest;
    }
  }

  lemma {:induction false} UnfoldJoined(lines: seq<string>)
    requires AreHeaderLines(lines)
    ensures Unfold(Join(lines, "\n")) == Join(lines, "\n")
  {
    assert lines[0] in lines;
    if |lines| == 1 {
      UnfoldLine(lines[0], "");
      assert lines[0] + "" == lines[0];
    } else {
      var rest := Join(lines[1..], "\n");
      assert lines[1] in lines && lines[1..][0] == lines[1];
      FirstOfJoin(lines[1..]);
      UnfoldLine(lines[0], "\n" + rest);
      UnfoldJoined(lines[1..]);
      assert ("\n" + rest)[1..] == rest;
      assert Join(lines, "\n") == lines[0] + ("\n" + rest);
    }
  }

  lemma FirstOfJoin(lines: seq<string>)
    requires lines != [] && lines[0] != ""
    ensures Join(lines, "\n") != "" && Join(lines, "\n")[0] == lines[0][0]
  {
  }

  /** The header block ends where its lines do. */
  lemma {:induction false} BlockEnds(lines: seq<string>, content: string)
    requires AreHeaderLines(lines)
    ensures Find(Text(lines, content), "\n\n") == Some(|Join(lines, "\n")|)
  {
    var (s, n) := (Text(lines, content), |Join(lines, "\n")|);
    assert s[n..n + 2] == "\n\n";
    forall i: nat | i < n ensures !OccursAt(s, "\n\n", i) {
      OccursMeans(s, "\n\n", i);
      NoEmptyLine(lines, i);
      assert s[i] == Join(lines, "\n")[i];
      assert i + 1 < n ==> s[i + 1] == Join(lines, "\n")[i + 1];
    }
    FindIs(s, "\n\n", n);
  }

  lemma {:induction false} NoEmptyLine(lines: seq<string>, i: nat)
    requires AreHeaderLines(lines) && i < |Join(lines, "\n")|
    ensures Join(lines, "\n")[i] == '\n' ==> i + 1 < |Join(lines, "\n")| && Join(lines, "\n")[i + 1] != '\n'
  {
    var line := lines[0];
    assert line in lines;
    if |lines| > 1 {
      var rest := Join(lines[1..], "\n");
      assert Join(lines, "\n") == line + "\n" + rest;
      assert lines[1..][0] in lines;
      FirstOfJoin(lines[1..]);
      if i > |line| {
        NoEmptyLine(lines[1..], i - |line| - 1);
      }
    }
  }

  lemma {:induction false} JoinedHasNoCr(lines: seq<string>)
    requires AreHeaderLines(lines)
    ensures '\r' !in Join(lines, "\n")
  {
    assert lines[0] in lines;
    if |lines| > 1 {
      JoinedHasNoCr(lines[1..]);
    }
  }

  /** What was written as header lines and content is read as just that. */
  lemma ParseOfText(lines: seq<string>, content: string)
    requires AreHeaderLines(lines) && '\r' !in content
    ensures Parse(Text(lines, content)) == Raw(HeaderMap(lines), content)
  {
    var s := Text(lines, content);
    JoinedHasNoCr(lines);
    NormalIsKept(s);
    BlockEnds(lines, content);
    UnfoldJoined(lines);
    assert forall l | l in lines :: OneLine(l);
    SplitOfJoin(lines);
    var n := |Join(lines, "\n")|;
    assert s[..n] == Join(lines, "\n") && s[n + 2..] == content;
  }

  /** A name as header lines are given here. */
  predicate IsName(name: string) {
    name != "" && (forall c | c in name :: c != ':' && !IsJsSpace(c))
  }

  lemma TrimIsKept(s: string)
    requires s == "" || (!IsJsSpace(s[0]) && !IsJsSpace(s[|s| - 1]))
    ensures JsTrim(s) == s && JsTrim(" " + s) == s
  {
    assert (" " + s)[1..] == s;
  }

  lemma HeaderOfLine(name: string, value: string)
    requires IsName(name)
    ensures HeaderOf(name + ": " + value) == Some((Lower(name), JsTrim(value)))
  {
    var line := name + ": " + value;
    assert line == name + ([':'] + (" " + value));
    FindChar(name, ':', " " + value);
    AtColon(name, value);
    assert name[0] in name && name[|name| - 1] in name;
    TrimIsKept(name);
    assert (" " + value)[1..] == value;
  }

  lemma AtColon(name: string, value: string)
    ensures var line := name + ": " + value;
      line[..|name|] == name && line[|name| + 1..] == " " + value
  {
  }

  // ---------------------------------------------------------- parameters --

  predicate StartsWithI(s: string, pat: string) {
    |pat| <= |s| && Lower(s[..|pat|]) == pat
  }

  /** A run of characters that are neither `;` nor space. */
  function TokenEnd(s: string): (n: nat)
    ensures n <= |s|
  {
    if s == "" || s[0] == ';' || IsJsSpace(s[0]) then 0 else 1 + TokenEnd(s[1..])
  }

  /** A quoted string of at least `least` characters, or a token. */
  function ValueAt(s: string, least: nat): (v: Option<string>) {
    var close := if s != "" && s[0] == '"' then Find(s[1..], "\"") else None;
    if close.Some? && close.value >= least then Some(s[1..1 + close.value])
    else if TokenEnd(s) > 0 then Some(s[..TokenEnd(s)]) else None
  }

  /** `name\s*=\s*` and a value, at the front of `s`. */
  function ParamAt(s: string, name: string, least: nat): (v: Option<string>) {
    if !StartsWithI(s, name) then None
    else
      var rest := JsTrimStart(s[|name|..]);
      if rest == "" || rest[0] != '=' then None else ValueAt(JsTrimStart(rest[1..]), least)
  }

  /** The first place the pattern matches at. */
  function Param(header: string, name: string, least: nat): (v: Option<string>) {
    match ParamAt(header, name, least)
    case Some(v) => Some(v)
    case None => if header == "" then None else Param(header[1..], name, least)
  }

  /** Text in which its name cannot begin is passed over. */
  lemma {:induction false} ParamSkips(before: string, tail: string, name: string, least: nat)
    requires name != "" && (forall c | c in before :: LowerChar(c) != name[0])
    ensures Param(before + tail, name, least) == Param(tail, name, least)
  {
    if before == "" {
      assert before + tail == tail;
    } else {
      ParamSkips(before[1..], tail, name, least);
      assert (before + tail)[1..] == before[1..] + tail;
      assert before[0] in before;
      assert |name| <= |before + tail| ==> Lower((before + tail)[..|name|])[0] == LowerChar(before[0]);
    }
  }

  /** A name whose first letter is nowhere is not found. */
  lemma ParamNone(s: string, name: string, least: nat)
    requires name != "" && (forall c | c in s :: LowerChar(c) != name[0])
    ensures Param(s, name, least).None?
  {
    ParamSkips(s, "", name, least);
    assert s + "" == s;
  }

  lemma ParamIs(before: string, name: string, value: string, after: string, least: nat)
    requires name != "" && '"' !in value && |value| >= least
    requires Lower(name) == name && forall c | c in before :: LowerChar(c) != name[0]
    ensures Param(before + (name + "=\"" + value + "\"" + after), name, least) == Some(value)
  {
    ParamSkips(before, name + "=\"" + value + "\"" + after, name, least);
    ParamHere(name, value, after, least);
  }

  lemma ParamHere(name: string, value: string, after: string, least: nat)
    requires name != "" && '"' !in value && |value| >= least && Lower(name) == name
    ensures ParamAt(name + "=\"" + value + "\"" + after, name, least) == Some(value)
  {
    var s := name + "=\"" + value + "\"" + after;
    assert s[..|name|] == name;
    var rest := s[|name|..];
    var quoted := "\"" + value + "\"" + after;
    assert rest == "=" + quoted && rest[1..] == quoted;
    assert JsTrimStart(rest) == rest && JsTrimStart(quoted) == quoted;
    QuotedValue(value, after, least);
  }

  lemma QuotedValue(value: string, after: string, least: nat)
    requires '"' !in value && |value| >= least
    ensures ValueAt("\"" + value + "\"" + after, least) == Some(value)
  {
    var quoted := "\"" + value + "\"" + after;
    var inner := quoted[1..];
    assert inner == value + (['"'] + after);
    FindChar(value, '"', after);
    assert quoted[1..1 + |value|] == value;
  }
}
