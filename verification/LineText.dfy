/** Text as lines joined by a separator, split at newlines again. */
module LineText {
  import opened Common
  import opened Strings

  function Join(lines: seq<string>, sep: string): (s: string) {
    if lines == [] then "" else if |lines| == 1 then lines[0] else lines[0] + sep + Join(lines[1..], sep)
  }

  /** Every line followed by its terminator. */
  function Terminate(lines: seq<string>, end: string): (s: string) {
    if lines == [] then "" else lines[0] + end + Terminate(lines[1..], end)
  }

  /** JavaScript's `split('\n')`: one line more than there are newlines. */
  function Split(s: string): (lines: seq<string>)
    ensures lines != [] && forall l | l in lines :: OneLine(l)
    decreases |s|
  {
    var n := LineEnd(s);
    if n == |s| then
      assert s[..n] == s;
      [s]
    else [s[..n]] + Split(s[n + 1..])
  }

  ghost predicate AllOneLine(lines: seq<string>) {
    forall l | l in lines :: OneLine(l)
  }

  lemma {:induction false} SplitOfJoin(lines: seq<string>)
    requires lines != [] && AllOneLine(lines)
    ensures Split(Join(lines, "\n")) == lines
  {
    if |lines| == 1 {
      LineEndOf(lines[0], "");
      assert lines[0] + "" == lines[0];
      assert lines == [lines[0]];
    } else {
      assert lines[0] in lines && forall l | l in lines[1..] :: l in lines;
      SplitOfJoin(lines[1..]);
      SplitOff(lines[0], Join(lines[1..], "\n"));
      NewlineFirst(lines[0], Join(lines[1..], "\n"));
      assert lines == [lines[0]] + lines[1..];
    }
  }

  lemma NewlineFirst(line: string, rest: string)
    ensures line + "\n" + rest == line + ("\n" + rest)
  {
  }

  lemma SplitOff(line: string, rest: string)
    requires OneLine(line)
    ensures Split(line + ("\n" + rest)) == [line] + Split(rest)
  {
    var s := line + ("\n" + rest);
    LineEndOf(line, "\n" + rest);
    assert s[..|line|] == line && s[|line| + 1..] == rest;
  }

  lemma JoinFirst(line: string, lines: seq<string>, sep: string)
    requires lines != []
    ensures Join([line] + lines, sep) == line + sep + Join(lines, sep)
  {
    assert ([line] + lines)[1..] == lines;
  }

  lemma {:induction false} JoinOfSplit(s: string)
    ensures Join(Split(s), "\n") == s
    decreases |s|
  {
    var n := LineEnd(s);
    if n < |s| {
      JoinOfSplit(s[n + 1..]);
      JoinFirst(s[..n], Split(s[n + 1..]), "\n");
      AroundNewline(s, n);
    }
  }

  lemma AroundNewline(s: string, n: nat)
    requires n < |s| && s[n] == '\n'
    ensures s[..n] + "\n" + s[n + 1..] == s
  {
  }

  lemma {:induction false} JoinAppend(a: seq<string>, b: seq<string>, sep: string)
    requires a != [] && b != []
    ensures Join(a + b, sep) == Join(a, sep) + sep + Join(b, sep)
  {
    if |a| == 1 {
      assert (a + b)[1..] == b;
    } else {
      JoinAppend(a[1..], b, sep);
      assert (a + b)[1..] == a[1..] + b;
      Assoc(a[0], sep, Join(a[1..], sep), sep, Join(b, sep));
    }
  }

  lemma Assoc(a: string, b: string, c: string, d: string, e: string)
    ensures a + b + (c + d + e) == a + b + c + d + e
  {
  }

  /** The lines there are once a last, empty one is not counted. */
  function Whole(lines: seq<string>): (r: seq<string>) {
    if |lines| > 1 && lines[|lines| - 1] == "" then lines[..|lines| - 1] else lines
  }

  predicate EndsWith(s: string, end: string) {
    |end| <= |s| && s[|s| - |end|..] == end
  }

  lemma EndMeans(s: string, end: string)
    requires end != ""
    ensures EndsWith(s, end) ==> s != "" && s[|s| - 1] == end[|end| - 1]
  {
    if EndsWith(s, end) {
      assert s[|s| - |end|..][|end| - 1] == s[|s| - 1];
    }
  }

  lemma {:induction false} EndOfJoin(lines: seq<string>, sep: string)
    requires lines != [] && AllOneLine(lines) && sep in {"\n", "\r\n"}
    ensures EndsWith(Join(lines, sep), sep) <==> |lines| > 1 && lines[|lines| - 1] == ""
  {
    if |lines| == 1 {
      assert Join(lines, sep) == lines[0];
      EndMeans(lines[0], sep);
      assert lines[0] in lines;
    } else if |lines| == 2 {
      var (a, b) := (lines[0], lines[1]);
      assert lines[1..] == [b];
      assert b in lines;
      EndOfTwo(a, b, sep);
    } else {
      EndOfJoin(lines[1..], sep);
      assert lines[1..][|lines| - 2] == lines[|lines| - 1];
      EndOfMore(lines[0] + sep, Join(lines[1..], sep), sep);
      JoinIsLong(lines[1..], sep);
    }
  }

  lemma EndOfTwo(a: string, b: string, sep: string)
    requires OneLine(b) && sep in {"\n", "\r\n"}
    ensures EndsWith(a + sep + b, sep) <==> b == ""
  {
    var s := a + sep + b;
    if b == "" {
      assert s[|s| - |sep|..] == sep;
    } else {
      EndMeans(s, sep);
      assert s[|s| - 1] == b[|b| - 1] != '\n';
    }
  }

  lemma EndOfMore(a: string, b: string, sep: string)
    requires |sep| <= |b|
    ensures EndsWith(a + b, sep) <==> EndsWith(b, sep)
  {
    assert (a + b)[|a + b| - |sep|..] == b[|b| - |sep|..];
  }

  lemma JoinIsLong(lines: seq<string>, sep: string)
    requires |lines| > 1
    ensures |Join(lines, sep)| >= |sep|
  {
  }

  /** Text with its final terminator added where it is missing is its lines, each terminated. */
  lemma FinalTerminator(lines: seq<string>, sep: string)
    requires lines != [] && AllOneLine(lines) && sep in {"\n", "\r\n"}
    ensures var text := Join(lines, sep);
      (if EndsWith(text, sep) then text else text + sep) == Terminate(Whole(lines), sep)
  {
    EndOfJoin(lines, sep);
    if |lines| > 1 && lines[|lines| - 1] == "" {
      LastIsEmpty(lines, sep);
      TerminateIsJoin(lines[..|lines| - 1], sep);
    } else {
      TerminateIsJoin(lines, sep);
    }
  }

  lemma LastIsEmpty(lines: seq<string>, sep: string)
    requires |lines| > 1 && lines[|lines| - 1] == ""
    ensures Join(lines, sep) == Join(lines[..|lines| - 1], sep) + sep
  {
    var most := lines[..|lines| - 1];
    JoinAppend(most, [""], sep);
    assert lines == most + [""];
    assert Join(most, sep) + sep + "" == Join(most, sep) + sep;
  }

  lemma {:induction false} TerminateIsJoin(lines: seq<string>, sep: string)
    requires lines != []
    ensures Terminate(lines, sep) == Join(lines, sep) + sep
  {
    if |lines| == 1 {
      assert lines[1..] == [];
    } else {
      TerminateIsJoin(lines[1..], sep);
      assert lines[0] + sep + (Join(lines[1..], sep) + sep) == lines[0] + sep + Join(lines[1..], sep) + sep;
    }
  }
}
