/** Searching, splitting into lines and trimming, as the sources' standard libraries do them. */
module Strings {
  import opened Common

  // --------------------------------------------------------------- search --

  predicate StartsWith(s: string, pat: string) {
    |pat| <= |s| && s[..|pat|] == pat
  }

  /** `pat` stands in `s` at position `i`. */
  predicate OccursAt(s: string, pat: string, i: nat) {
    i + |pat| <= |s| && s[i..i + |pat|] == pat
  }

  /** The first position `pat` stands at. */
  function Find(s: string, pat: string): (at: Option<nat>)
    ensures at.Some? ==> OccursAt(s, pat, at.value) && forall i: nat | i < at.value :: !OccursAt(s, pat, i)
    ensures at.None? ==> forall i: nat :: !OccursAt(s, pat, i)
  {
    FindFrom(s, pat, 0)
  }

  function FindFrom(s: string, pat: string, from: nat): (at: Option<nat>)
    requires from <= |s| + 1
    ensures at.Some? ==> from <= at.value && OccursAt(s, pat, at.value) && forall i: nat | from <= i < at.value :: !OccursAt(s, pat, i)
    ensures at.None? ==> forall i: nat | from <= i :: !OccursAt(s, pat, i)
    decreases |s| + 1 - from
  {
    if from + |pat| > |s| then None
    else if OccursAt(s, pat, from) then Some(from)
    else FindFrom(s, pat, from + 1)
  }

  /** An occurrence, character by character. */
  lemma OccursMeans(s: string, pat: string, i: nat)
    ensures OccursAt(s, pat, i) <==> i + |pat| <= |s| && forall k | 0 <= k < |pat| :: s[i + k] == pat[k]
    ensures i == 0 ==> (StartsWith(s, pat) <==> OccursAt(s, pat, 0))
  {
    if i + |pat| <= |s| {
      var cut := s[i..i + |pat|];
      assert forall k | 0 <= k < |pat| :: cut[k] == s[i + k];
    }
  }

  lemma FindIs(s: string, pat: string, at: nat)
    requires OccursAt(s, pat, at) && forall i: nat | i < at :: !OccursAt(s, pat, i)
    ensures Find(s, pat) == Some(at)
  {
  }

  /** One character is found right after text it is not in. */
  lemma FindChar(a: string, c: char, b: string)
    requires c !in a
    ensures Find(a + ([c] + b), [c]) == Some(|a|)
  {
    var s := a + ([c] + b);
    OccursMeans(s, [c], |a|);
    forall i: nat | i < |a| ensures !OccursAt(s, [c], i) {
      OccursMeans(s, [c], i);
      assert s[i] == a[i] && a[i] in a;
    }
    FindIs(s, [c], |a|);
  }

  ghost predicate Contains(s: string, pat: string) {
    exists i: nat :: OccursAt(s, pat, i)
  }

  // ---------------------------------------------------------------- lines --

  predicate OneLine(s: string) {
    forall i | 0 <= i < |s| :: s[i] != '\n'
  }

  /** Each line followed by its newline. */
  function Unlines(lines: seq<string>): (s: string) {
    if lines == [] then "" else lines[0] + "\n" + Unlines(lines[1..])
  }

  /** Length of the first line, or of all there is. */
  function LineEnd(s: string): (n: nat)
    ensures n <= |s| && OneLine(s[..n])
    ensures n < |s| ==> s[n] == '\n'
  {
    if s == "" || s[0] == '\n' then 0
    else
      var n := LineEnd(s[1..]);
      assert forall i | 1 <= i < n + 1 :: s[i] == s[1..][i - 1];
      n + 1
  }

  lemma {:induction false} LineEndOf(line: string, rest: string)
    requires OneLine(line) && (rest == "" || rest[0] == '\n')
    ensures LineEnd(line + rest) == |line|
  {
    if line == "" {
      assert line + rest == rest;
    } else {
      LineEndOf(line[1..], rest);
      assert (line + rest)[1..] == line[1..] + rest;
    }
  }

  lemma {:induction false} UnlinesAppend(a: seq<string>, b: seq<string>)
    ensures Unlines(a + b) == Unlines(a) + Unlines(b)
  {
    if a == [] {
      assert a + b == b;
    } else {
      UnlinesAppend(a[1..], b);
      assert (a + b)[1..] == a[1..] + b;
    }
  }

  /** A one-line pattern found in lines put together stands in one of them. */
  lemma {:induction false} FoundInALine(lines: seq<string>, pat: string, at: nat)
    requires pat != "" && OneLine(pat) && OccursAt(Unlines(lines), pat, at)
    ensures exists k :: 0 <= k < |lines| && Contains(lines[k], pat)
  {
    if lines != [] {
      var (line, rest) := (lines[0], Unlines(lines[1..]));
      var s := Unlines(lines);
      assert s == line + "\n" + rest;
      assert forall k | 0 <= k < |pat| :: s[at + k] == s[at..at + |pat|][k] == pat[k];
      assert s[|line|] == '\n';
      assert at + |pat| <= |line| || at > |line|;
      if at + |pat| <= |line| {
        assert line[at..at + |pat|] == s[at..at + |pat|];
        assert OccursAt(line, pat, at);
      } else {
        assert rest[at - |line| - 1..at - |line| - 1 + |pat|] == s[at..at + |pat|];
        FoundInALine(lines[1..], pat, at - |line| - 1);
        var k :| 0 <= k < |lines[1..]| && Contains(lines[1..][k], pat);
        assert lines[k + 1] == lines[1..][k];
      }
    }
  }

  function StripCr(line: string): (r: string) {
    if line != "" && line[|line| - 1] == '\r' then line[..|line| - 1] else line
  }

  /** Rust's `str::lines`: no line for nothing after the last newline, one carriage return dropped before each. */
  function Lines(s: string): (lines: seq<string>)
    decreases |s|
  {
    if s == "" then []
    else
      var n := LineEnd(s);
      if n == |s| then [s] else [StripCr(s[..n])] + Lines(s[n + 1..])
  }

  ghost predicate PlainLine(line: string) {
    OneLine(line) && (line == "" || line[|line| - 1] != '\r')
  }

  lemma LinesOff(line: string, rest: string)
    requires PlainLine(line)
    ensures Lines(line + ("\n" + rest)) == [line] + Lines(rest)
  {
    LineEndOf(line, "\n" + rest);
    AroundLine(line, rest);
  }

  lemma AroundLine(line: string, rest: string)
    ensures var s := line + ("\n" + rest);
      |s| > |line| && s[..|line|] == line && s[|line| + 1..] == rest
  {
  }

  lemma {:induction false} LinesOfUnlines(lines: seq<string>)
    requires forall k | 0 <= k < |lines| :: PlainLine(lines[k])
    ensures Lines(Unlines(lines)) == lines
  {
    if lines != [] {
      LinesOfUnlines(lines[1..]);
      LinesOff(lines[0], Unlines(lines[1..]));
      UnlinesFirst(lines);
      assert lines == [lines[0]] + lines[1..];
    }
  }

  lemma UnlinesFirst(lines: seq<string>)
    requires lines != []
    ensures Unlines(lines) == lines[0] + ("\n" + Unlines(lines[1..]))
  {
  }

  // ------------------------------------------------------- in JavaScript --

  /** A character JavaScript's multi-line patterns start a new line after. */
  predicate EndsJsLine(c: char) {
    c == '\n' || c == '\r' || c as int == 0x2028 || c as int == 0x2029
  }

  /** `replace(/\r\n/g, '\n')`. */
  function NormaliseCrlf(s: string): (r: string)
    ensures |r| <= |s|
  {
    if s == "" then ""
    else if |s| > 1 && s[0] == '\r' && s[1] == '\n' then "\n" + NormaliseCrlf(s[2..])
    else [s[0]] + NormaliseCrlf(s[1..])
  }

  lemma {:induction false} NormalIsKept(s: string)
    requires '\r' !in s
    ensures NormaliseCrlf(s) == s
  {
    if s != "" {
      NormalIsKept(s[1..]);
    }
  }

  // ----------------------------------------------------------------- trim --

  /** Unicode `White_Space`, what Rust's trim takes off. */
  predicate IsSpace(c: char) {
    var n := c as int;
    9 <= n <= 13 || n == 32 || n == 0x85 || n == 0xa0 || n == 0x1680 || 0x2000 <= n <= 0x200a
    || n == 0x2028 || n == 0x2029 || n == 0x202f || n == 0x205f || n == 0x3000
  }

  function TrimStart(s: string): (r: string) {
    if s != "" && IsSpace(s[0]) then TrimStart(s[1..]) else s
  }

  function TrimEnd(s: string): (r: string) {
    if s != "" && IsSpace(s[|s| - 1]) then TrimEnd(s[..|s| - 1]) else s
  }

  function Trim(s: string): (r: string) {
    TrimEnd(TrimStart(s))
  }

  /** JavaScript's `\s`, what its trim takes off. */
  predicate IsJsSpace(c: char) {
    (IsSpace(c) && c as int != 0x85) || c as int == 0xfeff
  }

  function JsTrimStart(s: string): (r: string) {
    if s != "" && IsJsSpace(s[0]) then JsTrimStart(s[1..]) else s
  }

  function JsTrimEnd(s: string): (r: string) {
    if s != "" && IsJsSpace(s[|s| - 1]) then JsTrimEnd(s[..|s| - 1]) else s
  }

  function JsTrim(s: string): (r: string) {
    JsTrimEnd(JsTrimStart(s))
  }

  predicate Trimmed(s: string) {
    s == "" || (!IsSpace(s[0]) && !IsSpace(s[|s| - 1]))
  }

  lemma TrimKeeps(s: string)
    requires Trimmed(s)
    ensures Trim(s) == s && Trim(" " + s) == s
  {
    assert (" " + s)[1..] == s;
  }

  // ----------------------------------------- finding what stands after text --

  lemma {:induction false} LastIsNewline(lines: seq<string>)
    requires lines != []
    ensures Unlines(lines) != "" && Unlines(lines)[|Unlines(lines)| - 1] == '\n'
  {
    if |lines| > 1 {
      LastIsNewline(lines[1..]);
    } else {
      assert lines[1..] == [];
    }
  }

  /** A one-line pattern in none of the lines is first found right after them, whatever follows. */
  lemma FoundAfterLines(lines: seq<string>, pat: string, post: string)
    requires pat != "" && OneLine(pat) && lines != []
    requires forall k | 0 <= k < |lines| :: !Contains(lines[k], pat)
    ensures Find(Unlines(lines) + pat + post, pat) == Some(|Unlines(lines)|)
  {
    var inner := Unlines(lines);
    var s := inner + pat + post;
    OccursMeans(s, pat, |inner|);
    LastIsNewline(lines);
    assert s[|inner| - 1] == '\n';
    forall i: nat | i < |inner| ensures !OccursAt(s, pat, i) {
      OccursMeans(s, pat, i);
      OccursMeans(inner, pat, i);
      var k := |inner| - 1 - i;
      assert s[i + k] == '\n';
      assert k < |pat| ==> pat[k] != '\n';
      if OccursAt(inner, pat, i) {
        FoundInALine(lines, pat, i);
      }
    }
    FindIs(s, pat, |inner|);
  }

  /** What follows does not change where a pattern is first found. */
  lemma FoundFirst(pre: string, pat: string, rest: string)
    requires Find(pre + pat, pat) == Some(|pre|)
    ensures Find(pre + pat + rest, pat) == Some(|pre|)
  {
    var s := pre + pat;
    forall i: nat | i <= |pre| ensures OccursAt(s + rest, pat, i) <==> OccursAt(s, pat, i) {
      OccursMeans(s + rest, pat, i);
      OccursMeans(s, pat, i);
    }
    FindIs(s + rest, pat, |pre|);
  }

  /** The text between the first `begin` and the first `end` after it. */
  function Between(s: string, begin: string, end: string): (r: Option<string>) {
    match Find(s, begin)
    case None => None
    case Some(at) =>
      var rest := s[at + |begin|..];
      match Find(rest, end) case None => None case Some(n) => Some(rest[..n])
  }

  lemma BetweenIs(pre: string, begin: string, lines: seq<string>, end: string, post: string, all: string)
    requires end != "" && OneLine(end) && lines != []
    requires forall k | 0 <= k < |lines| :: !Contains(lines[k], end)
    requires Find(pre + begin, begin) == Some(|pre|)
    requires all == pre + (begin + Unlines(lines) + end + "\n") + post
    ensures Between(all, begin, end) == Some(Unlines(lines))
  {
    var inner := Unlines(lines);
    var rest := inner + end + ("\n" + post);
    Regroup(pre, begin, inner, end, "\n", post);
    FoundFirst(pre, begin, rest);
    DropFront(pre + begin, rest, |pre| + |begin|);
    FoundAfterLines(lines, end, "\n" + post);
    TakeFront(inner, end, "\n" + post);
  }

  lemma Regroup(a: string, b: string, c: string, d: string, e: string, f: string)
    ensures a + (b + c + d + e) + f == a + b + (c + d + (e + f))
  {
  }

  lemma DropFront(a: string, b: string, n: nat)
    requires n == |a|
    ensures (a + b)[n..] == b
  {
  }

  lemma TakeFront(a: string, b: string, c: string)
    ensures (a + b + c)[..|a|] == a
  {
  }
}
