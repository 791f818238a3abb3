/**
 * The bytes for DATA (app/src/mail/smtp.ts:62-85), as text: the `Bcc` header
 * gone, CRLF line endings, leading dots doubled, and the terminating dot
 * (section 4.5.2 of RFC 5321).
 */
module SmtpData {
  import opened Common
  import opened Strings
  import opened LineText

  datatype Message = Message(head: seq<string>, body: seq<string>)

  /** Header lines and body lines, around the first empty line. */
  function Parts(rfc822: string): (m: Message)
    ensures m.head != [] && m.body != [] && AllOneLine(m.head) && AllOneLine(m.body)
  {
    var normalized := NormaliseCrlf(rfc822);
    match Find(normalized, "\n\n")
    case None => Message(Split(normalized), [""])
    case Some(at) => Message(Split(normalized[..at]), Split(normalized[at + 2..]))
  }

  /** The lines of a message whose header block ends are its header lines, an empty one, and its body lines. */
  lemma PartsAreLines(rfc822: string)
    ensures Find(NormaliseCrlf(rfc822), "\n\n").Some? ==>
      var m := Parts(rfc822); Split(NormaliseCrlf(rfc822)) == m.head + [""] + m.body
  {
    var s := NormaliseCrlf(rfc822);
    if Find(s, "\n\n").Some? {
      var at := Find(s, "\n\n").value;
      var (head, body) := (s[..at], s[at + 2..]);
      assert s == head + "\n" + "" + "\n" + body by {
        assert s[at..at + 2] == "\n\n";
        assert s == head + s[at..at + 2] + body;
      }
      var m := Parts(rfc822);
      JoinOfSplit(head);
      JoinOfSplit(body);
      var lines := m.head + [""] + m.body;
      JoinAppend(m.head, [""], "\n");
      JoinAppend(m.head + [""], m.body, "\n");
      assert Join(lines, "\n") == s;
      SplitOfJoin(lines);
    }
  }

  // --------------------------------------------------------- header fields --

  /** A folded line: it goes with the field before it. */
  predicate Continues(line: string) {
    line != "" && (line[0] == ' ' || line[0] == '\t')
  }

  function Lower(c: char): (d: char) {
    if 'A' <= c <= 'Z' then ((c as int) + 32) as char else c
  }

  /** `/^bcc\s*:/i`. */
  predicate IsBcc(line: string) {
    && |line| >= 3 && Lower(line[0]) == 'b' && Lower(line[1]) == 'c' && Lower(line[2]) == 'c'
    && JsTrimStart(line[3..]) != "" && JsTrimStart(line[3..])[0] == ':'
  }

  /** The lines kept, going on from a field being dropped or not. */
  function Kept(lines: seq<string>, dropping: bool): (kept: seq<string>) {
    if lines == [] then []
    else
      var drop := if Continues(lines[0]) then dropping else IsBcc(lines[0]);
      (if drop then [] else [lines[0]]) + Kept(lines[1..], drop)
  }

  method KeepHeaders(lines: seq<string>) returns (kept: seq<string>)
    ensures kept == Kept(lines, false)
  {
    kept := [];
    var dropping := false;
    KeptFromStart(lines);
    for i := 0 to |lines|
      invariant Kept(lines, false) == kept + KeptFrom(lines, i, dropping)
    {
      var line := lines[i];
      KeptStep(lines, i, dropping, kept);
      if !Continues(line) {
        dropping := IsBcc(line);
      }
      if !dropping {
        kept := kept + [line];
      }
    }
  }

  function KeptFrom(lines: seq<string>, i: nat, dropping: bool): (kept: seq<string>) {
    if i < |lines| then Kept(lines[i..], dropping) else []
  }

  lemma KeptFromStart(lines: seq<string>)
    ensures Kept(lines, false) == [] + KeptFrom(lines, 0, false)
  {
    assert lines[0..] == lines;
  }

  lemma KeptStep(lines: seq<string>, i: nat, dropping: bool, kept: seq<string>)
    requires i < |lines|
    ensures var drop := if Continues(lines[i]) then dropping else IsBcc(lines[i]);
      kept + KeptFrom(lines, i, dropping) == (if drop then kept else kept + [lines[i]]) + KeptFrom(lines, i + 1, drop)
  {
    var drop := if Continues(lines[i]) then dropping else IsBcc(lines[i]);
    var rest := lines[i..];
    assert rest[0] == lines[i] && rest[1..] == lines[i + 1..];
    assert i + 1 == |lines| ==> rest[1..] == [];
    assert Kept(rest, dropping) == (if drop then [] else [lines[i]]) + KeptFrom(lines, i + 1, drop);
    KeptMore(kept, lines[i], KeptFrom(lines, i + 1, drop));
  }

  lemma KeptMore(kept: seq<string>, line: string, rest: seq<string>)
    ensures kept + ([line] + rest) == kept + [line] + rest && kept + ([] + rest) == kept + rest
  {
  }

  /** How many lines of folds come first. */
  function Folds(lines: seq<string>): (n: nat)
    ensures n <= |lines| && forall i | 0 <= i < n :: Continues(lines[i])
    ensures n < |lines| ==> !Continues(lines[n])
  {
    if lines == [] || !Continues(lines[0]) then 0
    else
      var n := Folds(lines[1..]);
      assert forall i | 1 <= i < n + 1 :: lines[i] == lines[1..][i - 1];
      n + 1
  }

  /** A header line and the folds that go with it. */
  type Field = f: seq<string> | f != [] && forall i | 1 <= i < |f| :: Continues(f[i]) witness [""]

  function Fields(lines: seq<string>): (fields: seq<Field>) {
    if lines == [] then []
    else
      var n := Folds(lines[1..]);
      assert forall i | 1 <= i < n + 1 :: lines[i] == lines[1..][i - 1];
      [lines[..n + 1]] + Fields(lines[n + 1..])
  }

  function WithoutBcc(fields: seq<Field>): (r: seq<seq<string>>) {
    if fields == [] then []
    else (if IsBcc(fields[0][0]) then [] else [fields[0]]) + WithoutBcc(fields[1..])
  }

  lemma {:induction false} KeptFolds(lines: seq<string>, n: nat, dropping: bool)
    requires n <= |lines| && forall i | 0 <= i < n :: Continues(lines[i])
    ensures Kept(lines, dropping) == (if dropping then [] else lines[..n]) + Kept(lines[n..], dropping)
  {
    if n > 0 {
      KeptFolds(lines[1..], n - 1, dropping);
      assert lines[1..][n - 1..] == lines[n..];
      assert [lines[0]] + lines[1..][..n - 1] == lines[..n];
    } else {
      assert lines[0..] == lines;
    }
  }

  /** A field is kept or dropped whole. */
  lemma KeptOneField(lines: seq<string>, n: nat, drop: bool, dropping: bool)
    requires n + 1 <= |lines| && forall i | 0 <= i < n :: Continues(lines[1..][i])
    requires drop == if Continues(lines[0]) then dropping else IsBcc(lines[0])
    ensures Kept(lines, dropping) == (if drop then [] else lines[..n + 1]) + Kept(lines[n + 1..], drop)
  {
    var (folds, rest) := (lines[1..][..n], Kept(lines[n + 1..], drop));
    KeptFolds(lines[1..], n, drop);
    HeadAndFolds(lines, n);
    assert Kept(lines, dropping) == (if drop then [] else [lines[0]]) + ((if drop then [] else folds) + rest);
    KeptHead(lines[0], folds, rest);
  }

  lemma HeadAndFolds(lines: seq<string>, n: nat)
    requires n + 1 <= |lines|
    ensures lines[1..][n..] == lines[n + 1..] && [lines[0]] + lines[1..][..n] == lines[..n + 1]
  {
  }

  lemma KeptHead(head: string, folds: seq<string>, rest: seq<string>)
    ensures [head] + (folds + rest) == [head] + folds + rest
  {
  }

  /** Exactly the `Bcc` fields are gone, folds and all; every other field stays whole, in order. */
  lemma {:induction false} KeptFields(lines: seq<string>, dropping: bool)
    requires lines != [] ==> !(Continues(lines[0]) && dropping)
    ensures Kept(lines, dropping) == Flatten(WithoutBcc(Fields(lines)))
    decreases |lines|
  {
    if lines != [] {
      var (n, drop) := (Folds(lines[1..]), IsBcc(lines[0]));
      FoldIsNotBcc(lines[0]);
      KeptOneField(lines, n, drop, dropping);
      OneField(lines, n);
      if n + 1 < |lines| {
        assert lines[n + 1..][0] == lines[1..][n];
      }
      KeptFields(lines[n + 1..], drop);
      FlattenFirst(lines[..n + 1], WithoutBcc(Fields(lines[n + 1..])));
    }
  }

  lemma FlattenFirst(first: seq<string>, rest: seq<seq<string>>)
    ensures Flatten([first] + rest) == first + Flatten(rest) && Flatten([] + rest) == Flatten(rest)
  {
    assert ([first] + rest)[1..] == rest;
    assert [] + rest == rest;
  }

  lemma OneField(lines: seq<string>, n: nat)
    requires lines != [] && n == Folds(lines[1..])
    ensures WithoutBcc(Fields(lines)) == (if IsBcc(lines[0]) then [] else [lines[..n + 1]]) + WithoutBcc(Fields(lines[n + 1..]))
  {
    assert lines[..n + 1][0] == lines[0];
    assert Fields(lines)[1..] == Fields(lines[n + 1..]);
  }

  /** A folded line is no `Bcc` line. */
  lemma FoldIsNotBcc(line: string)
    ensures !(Continues(line) && IsBcc(line))
  {
  }

  // ---------------------------------------------------------- dot stuffing --

  function Stuff(line: string): (r: string) {
    if line != "" && line[0] == '.' then "." + line else line
  }

  function StuffAll(lines: seq<string>): (r: seq<string>)
    ensures |r| == |lines| && forall i | 0 <= i < |r| :: r[i] == Stuff(lines[i])
  {
    seq(|lines|, i requires 0 <= i < |lines| => Stuff(lines[i]))
  }

  /** What is sent before the terminating dot. */
  function Content(m: Message): (lines: seq<string>) {
    var kept := Kept(m.head, false);
    (if kept == [] then [""] else kept) + [""] + m.body
  }

  function DataFor(rfc822: string): (data: string) {
    var m := Parts(rfc822);
    var kept := Join(Kept(m.head, false), "\n") + "\n\n" + Join(m.body, "\n");
    var text := Join(StuffAll(Split(kept)), "\r\n");
    (if EndsWith(text, "\r\n") then text else text + "\r\n") + ".\r\n"
  }

  lemma {:induction false} KeptAreLines(lines: seq<string>, dropping: bool)
    requires AllOneLine(lines)
    ensures AllOneLine(Kept(lines, dropping))
  {
    if lines != [] {
      assert lines[0] in lines;
      KeptAreLines(lines[1..], if Continues(lines[0]) then dropping else IsBcc(lines[0]));
    }
  }

  lemma SplitContent(m: Message)
    requires m.body != [] && AllOneLine(m.head) && AllOneLine(m.body)
    ensures Split(Join(Kept(m.head, false), "\n") + "\n\n" + Join(m.body, "\n")) == Content(m)
  {
    var kept := Kept(m.head, false);
    KeptAreLines(m.head, false);
    var top := if kept == [] then [""] else kept;
    JoinAppend(top, [""], "\n");
    JoinAppend(top + [""], m.body, "\n");
    var (a, b) := (Join(kept, "\n"), Join(m.body, "\n"));
    assert Join(top, "\n") == a;
    assert a + "\n" + "" + "\n" + b == a + "\n\n" + b;
    assert Join(Content(m), "\n") == a + "\n\n" + b;
    SplitOfJoin(Content(m));
  }

  /** What is sent is the content's lines, stuffed, each ended by CRLF, and the dot. */
  lemma DataIsLines(rfc822: string)
    ensures var m := Parts(rfc822);
      DataFor(rfc822) == Terminate(Whole(StuffAll(Content(m))), "\r\n") + ".\r\n"
      && AllOneLine(Content(m))
  {
    var m := Parts(rfc822);
    SplitContent(m);
    ContentIsLines(m);
    StuffedAreLines(Content(m));
    FinalTerminator(StuffAll(Content(m)), "\r\n");
  }

  lemma ContentIsLines(m: Message)
    requires AllOneLine(m.head) && AllOneLine(m.body)
    ensures AllOneLine(Content(m))
  {
    KeptAreLines(m.head, false);
    var kept := Kept(m.head, false);
    forall l | l in Content(m) ensures OneLine(l) {
      assert l in kept || l == "" || l in m.body;
    }
  }

  lemma StuffedAreLines(lines: seq<string>)
    requires AllOneLine(lines)
    ensures AllOneLine(StuffAll(lines))
  {
    forall l | l in StuffAll(lines) ensures OneLine(l) {
      var i :| 0 <= i < |lines| && StuffAll(lines)[i] == l;
      assert lines[i] in lines;
    }
  }

  // ------------------------------------------------- the receiving server --

  function FindCrlf(s: string): (at: Option<nat>)
    ensures at.Some? ==> at.value + 2 <= |s|
  {
    if |s| < 2 then None
    else if s[0] == '\r' && s[1] == '\n' then Some(0)
    else match FindCrlf(s[1..]) case None => None case Some(i) => Some(i + 1)
  }

  function Unstuff(line: string): (r: string) {
    if line != "" && line[0] == '.' then line[1..] else line
  }

  /** Lines up to a lone dot, one leading dot taken off each, and what follows the dot's line. */
  function Receive(s: string): (r: Option<(seq<string>, string)>)
    decreases |s|
  {
    match FindCrlf(s)
    case None => None
    case Some(at) =>
      var (line, rest) := (s[..at], s[at + 2..]);
      if line == "." then Some(([], rest))
      else
        match Receive(rest)
        case None => None
        case Some((lines, after)) => Some(([Unstuff(line)] + lines, after))
  }

  lemma {:induction false} FindCrlfAfter(line: string, rest: string)
    requires OneLine(line)
    ensures FindCrlf(line + ("\r\n" + rest)) == Some(|line|)
  {
    if line == "" {
      assert line + ("\r\n" + rest) == "\r\n" + rest;
    } else {
      FindCrlfAfter(line[1..], rest);
      assert (line + ("\r\n" + rest))[1..] == line[1..] + ("\r\n" + rest);
      assert |line| == 1 ==> (line + ("\r\n" + rest))[1] == '\r';
    }
  }

  lemma ReceiveLine(line: string, rest: string)
    requires OneLine(line)
    ensures Receive(line + ("\r\n" + rest)) ==
      if line == "." then Some(([], rest))
      else match Receive(rest) case None => None case Some(r) => Some(([Unstuff(line)] + r.0, r.1))
  {
    var s := line + ("\r\n" + rest);
    FindCrlfAfter(line, rest);
    assert s[..|line|] == line && s[|line| + 2..] == rest;
  }

  lemma UnstuffStuff(line: string)
    ensures Unstuff(Stuff(line)) == line && Stuff(line) != "." && (OneLine(line) ==> OneLine(Stuff(line)))
  {
    if line != "" && line[0] == '.' {
      assert ("." + line)[1..] == line;
    }
  }

  lemma {:induction false} ReceiveTerminated(lines: seq<string>)
    requires AllOneLine(lines)
    ensures Receive(Terminate(StuffAll(lines), "\r\n") + ".\r\n") == Some((lines, ""))
  {
    if lines == [] {
      ReceiveLine(".", "");
      assert "." + ("\r\n" + "") == ".\r\n";
      assert StuffAll(lines) == [] && Terminate([], "\r\n") + ".\r\n" == ".\r\n";
    } else {
      var (line, stuffed) := (lines[0], StuffAll(lines));
      assert line in lines;
      assert stuffed[1..] == StuffAll(lines[1..]);
      UnstuffStuff(line);
      ReceiveTerminated(lines[1..]);
      var rest := Terminate(stuffed[1..], "\r\n") + ".\r\n";
      ReceiveLine(stuffed[0], rest);
      Assoc3(stuffed[0], "\r\n", Terminate(stuffed[1..], "\r\n"), ".\r\n");
      assert lines == [line] + lines[1..];
    }
  }

  lemma Assoc3(a: string, b: string, c: string, d: string)
    ensures a + b + c + d == a + (b + (c + d))
  {
  }

  lemma WholeStuffed(lines: seq<string>)
    ensures Whole(StuffAll(lines)) == StuffAll(Whole(lines))
  {
    if |lines| > 1 {
      assert StuffAll(lines)[|lines| - 1] == Stuff(lines[|lines| - 1]);
      assert StuffAll(lines)[..|lines| - 1] == StuffAll(lines[..|lines| - 1]);
    }
  }

  /**
   * For every message: what the server takes in, up to the one lone dot, with
   * nothing left over, is the non-`Bcc` fields in order with their folds, an
   * empty line, and the body's lines up to a final newline. A message that has
   * only `Bcc` fields keeps an empty line in their place.
   */
  lemma ServerReceives(rfc822: string)
    ensures var m := Parts(rfc822);
      var fields := Flatten(WithoutBcc(Fields(m.head)));
      Receive(DataFor(rfc822)) == Some((Whole((if fields == [] then [""] else fields) + [""] + m.body), ""))
  {
    var m := Parts(rfc822);
    FoldIsNotBcc(m.head[0]);
    KeptFields(m.head, false);
    DataIsLines(rfc822);
    WholeStuffed(Content(m));
    ReceiveTerminated(Whole(Content(m)));
  }

  /** So no line the server hands on is a `Bcc` field's first line, wherever the header block was cut. */
  lemma {:induction false} NoBccKept(lines: seq<string>, dropping: bool, i: nat)
    requires i < |Kept(lines, dropping)|
    ensures !IsBcc(Kept(lines, dropping)[i])
  {
    var drop := if Continues(lines[0]) then dropping else IsBcc(lines[0]);
    if !drop && i == 0 {
      FoldIsNotBcc(lines[0]);
    } else {
      NoBccKept(lines[1..], drop, if drop then i else i - 1);
    }
  }

  method BuildData(rfc822: string) returns (data: string)
    ensures data == DataFor(rfc822)
  {
    var m := Parts(rfc822);
    var kept := KeepHeaders(m.head);
    var text := Join(StuffAll(Split(Join(kept, "\n") + "\n\n" + Join(m.body, "\n"))), "\r\n");
    data := (if EndsWith(text, "\r\n") then text else text + "\r\n") + ".\r\n";
  }

  /** A `Bcc` field is one by its name, in any case, with or without space before the colon, and by nothing else. */
  lemma BccExactly(line: string)
    ensures IsBcc(line) <==> exists space, value :: BccLine(line, space, value)
  {
    if |line| >= 3 {
      if IsBcc(line) {
        var rest := JsTrimStart(line[3..]);
        TrimmedOff(line[3..]);
        var space := line[3..][..|line[3..]| - |rest|];
        assert BccLine(line, space, rest[1..]);
      }
      if space, value :| BccLine(line, space, value) {
        SpacesOff(space, ":" + value);
      }
    }
  }

  predicate BccLine(line: string, space: string, value: string) {
    && |line| >= 3 && line[0] in {'B', 'b'} && line[1] in {'C', 'c'} && line[2] in {'C', 'c'}
    && line[3..] == space + (":" + value) && forall c | c in space :: IsJsSpace(c)
  }

  lemma {:induction false} TrimmedOff(s: string)
    ensures |JsTrimStart(s)| <= |s|
    ensures var n := |s| - |JsTrimStart(s)|;
      s[n..] == JsTrimStart(s) && s == s[..n] + s[n..] && forall c | c in s[..n] :: IsJsSpace(c)
  {
    if s != "" && IsJsSpace(s[0]) {
      TrimmedOff(s[1..]);
      var n := |s[1..]| - |JsTrimStart(s[1..])|;
      assert s[..n + 1] == [s[0]] + s[1..][..n];
    }
  }

  lemma {:induction false} SpacesOff(space: string, rest: string)
    requires (forall c | c in space :: IsJsSpace(c)) && rest != "" && rest[0] == ':'
    ensures JsTrimStart(space + rest) == rest
  {
    if space == "" {
      assert space + rest == rest;
    } else {
      assert space[0] in space;
      SpacesOff(space[1..], rest);
      assert (space + rest)[1..] == space[1..] + rest;
    }
  }
}
