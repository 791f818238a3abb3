/**
 * Cutting IMAP responses out of a byte stream (app/src/mail/imapWire.ts:41-78):
 * a line, and after every line that ends in a literal's marker that many
 * octets and a further line.
 */
module ImapReader {
  import opened Common
  import opened Decimal
  import opened ByteQueues
  import opened Framing

  const CRLF: seq<Byte> := [13, 10]

  function Latin1(bytes: seq<Byte>): (s: string)
    ensures |s| == |bytes| && forall i | 0 <= i < |s| :: s[i] == bytes[i] as char
  {
    seq(|bytes|, i requires 0 <= i < |bytes| => bytes[i] as char)
  }

  /** Where the run of digits that ends at `end` begins. */
  function DigitsBefore(s: string, end: nat): (from: nat)
    requires end <= |s|
    ensures from <= end && AllDigits(s[from..end])
  {
    if end == 0 || !IsDigit(s[end - 1]) then end
    else
      var from := DigitsBefore(s, end - 1);
      assert s[from..end] == s[from..end - 1] + [s[end - 1]];
      from
  }

  /** The size a line's literal marker announces: `{n}` or `{n+}` at its very end. */
  function LiteralSize(line: string): (size: Option<nat>) {
    if line == "" || line[|line| - 1] != '}' then None
    else
      var brace := |line| - 1;
      var end := if brace > 0 && line[brace - 1] == '+' then brace - 1 else brace;
      var from := DigitsBefore(line, end);
      if from == end || from == 0 || line[from - 1] != '{' then None else Some(ToNat(line[from..end]))
  }

  /** The frame of `line`, once its literal is all there in what follows. */
  function AfterLine(line: string, more: seq<Byte>): (r: Option<Frame>)
    ensures r.Some? ==> |r.value.rest| <= |more|
  {
    match LiteralSize(line)
    case None => Some(Frame([Line(line)], true, more))
    case Some(size) => if |more| < size then None else Some(Frame([Line(line), Literal(more[..size])], false, more[size..]))
  }

  /** The frame at the front, once all of it is there. */
  function Cut(bytes: seq<Byte>): (r: Option<Frame>)
    ensures r.Some? ==> |r.value.rest| < |bytes|
  {
    match FirstCrlf(bytes)
    case None => None
    case Some(eol) => AfterLine(Latin1(bytes[..eol]), bytes[eol + 2..])
  }

  lemma CutIsSteady()
    ensures Steady(Cut) && Cut([]).None?
  {
    forall a, b ensures CutsAlike(Cut, a, b) {
      if Cut(a).Some? { CutStays(a, b); }
    }
  }

  class ResponseReader {
    const queue: ByteQueue
    var parts: seq<Part>

    constructor ()
      ensures fresh(queue) && fresh(queue.buf) && queue.Valid() && queue.Contents() == [] && parts == []
    {
      queue := new ByteQueue();
      parts := [];
    }

    /** Feed bytes; get back the parts of every response they completed. */
    method Push(chunk: seq<Byte>) returns (done: seq<seq<Part>>)
      requires queue.Valid()
      modifies this, queue, queue.buf
      ensures queue.Valid() && (queue.buf == old(queue.buf) || fresh(queue.buf))
      ensures Shrinks(Cut)
      ensures Drained(done, queue.Contents(), parts) == Drain(Cut, old(queue.Contents()) + chunk, old(parts))
    {
      CutIsSteady();
      queue.Push(chunk);
      done := [];
      ghost var all := Drain(Cut, queue.Contents(), parts);
      var more := true;
      while more
        invariant queue.Valid() && (queue.buf == old(queue.buf) || fresh(queue.buf))
        invariant all == Onto(done, Drain(Cut, queue.Contents(), parts))
        invariant !more ==> all == Drained(done, queue.Contents(), parts)
        decreases more, |queue.Contents()|
      {
        more, done := Turn(done);
      }
    }

    /** One turn of the loop: a frame off the queue, if one is whole. */
    method Turn(done: seq<seq<Part>>) returns (more: bool, done': seq<seq<Part>>)
      requires queue.Valid() && Shrinks(Cut)
      modifies this, queue
      ensures queue.Valid() && queue.buf == old(queue.buf)
      ensures Onto(done', Drain(Cut, queue.Contents(), parts)) == Onto(done, Drain(Cut, old(queue.Contents()), old(parts)))
      ensures if more then |queue.Contents()| < |old(queue.Contents())|
        else Drained(done', queue.Contents(), parts) == Onto(done, Drain(Cut, old(queue.Contents()), old(parts)))
    {
      OneFrame(Cut, done, queue.Contents(), parts);
      var frame := TakeFrame();
      more, done' := frame.Some?, done;
      if frame.Some? && frame.value.1 {
        done' := done + [parts + frame.value.0];
        parts := [];
      } else if frame.Some? {
        parts := parts + frame.value.0;
      }
    }

    /** Take the frame at the front off the queue, or nothing until it is whole. */
    method TakeFrame() returns (frame: Option<(seq<Part>, bool)>)
      requires queue.Valid()
      modifies queue
      ensures queue.Valid() && queue.buf == old(queue.buf) && parts == old(parts)
      ensures match Cut(old(queue.Contents()))
        case None => frame == None && queue.Contents() == old(queue.Contents())
        case Some(f) => frame == Some((f.parts, f.ends)) && queue.Contents() == f.rest
    {
      ghost var all := queue.Contents();
      var eol := queue.IndexOfCrlf();
      if eol.None? {
        return None;
      }
      var bytes := queue.Peek(0, eol.value);
      assert bytes == all[..eol.value];
      var line := Latin1(bytes);
      assert Cut(all) == AfterLine(line, all[eol.value + 2..]);
      var size := LiteralSize(line);
      if size.Some? {
        var length := queue.Length();
        if length < eol.value + 2 + size.value {
          return None;
        }
        var ended := queue.Take(eol.value + 2);
        var octets := queue.Take(size.value);
        frame := Some(([Line(line), Literal(octets)], false));
      } else {
        var ended := queue.Take(eol.value + 2);
        frame := Some(([Line(line)], true));
      }
    }
  }

  // -------------------------------------------------------- any cutting --

  lemma FirstCrlfStays(a: seq<Byte>, b: seq<Byte>)
    ensures FirstCrlf(a).Some? ==> FirstCrlf(a + b) == FirstCrlf(a)
  {
    if FirstCrlf(a).Some? {
      FirstCrlfMeans(a);
      assert forall i: nat | i + 1 < |a| :: CrlfAt(a + b, i) == CrlfAt(a, i);
      FirstCrlfIs(a + b, FirstCrlf(a).value);
    }
  }

  /** A frame that is whole is cut the same whatever comes after. */
  lemma CutStays(a: seq<Byte>, b: seq<Byte>)
    requires Cut(a).Some?
    ensures Cut(a + b) == Some(Cut(a).value.(rest := Cut(a).value.rest + b))
  {
    FirstCrlfStays(a, b);
    var eol := FirstCrlf(a).value;
    assert (a + b)[..eol] == a[..eol];
    assert (a + b)[eol + 2..] == a[eol + 2..] + b;
    AfterLineStays(Latin1(a[..eol]), a[eol + 2..], b);
  }

  lemma AfterLineStays(line: string, more: seq<Byte>, b: seq<Byte>)
    requires AfterLine(line, more).Some?
    ensures AfterLine(line, more + b) == Some(AfterLine(line, more).value.(rest := AfterLine(line, more).value.rest + b))
  {
    var size := LiteralSize(line);
    if size.Some? {
      assert (more + b)[size.value..] == more[size.value..] + b && (more + b)[..size.value] == more[..size.value];
    }
  }

  /** The reader's answers to any two cuttings of one stream are the same, and so is what it keeps. */
  lemma AnyChunks(a: seq<seq<Byte>>, b: seq<seq<Byte>>)
    requires Flatten(a) == Flatten(b)
    ensures Shrinks(Cut)
    ensures Feed(Cut, a, [], []) == Feed(Cut, b, [], []) == Drain(Cut, Flatten(a), [])
  {
    CutIsSteady();
    AnyCutting(Cut, a, b);
  }

  // ---------------------------------------------- reading back what was framed --

  function Octets(s: string): (bytes: seq<Byte>)
    requires forall i | 0 <= i < |s| :: s[i] < 256 as char
    ensures |bytes| == |s| && Latin1(bytes) == s
  {
    seq(|s|, i requires 0 <= i < |s| => s[i] as int)
  }

  /** A line as it can be sent: octets, and no CRLF in it, nor a CR at its end. */
  predicate Sendable(line: string) {
    && (forall i | 0 <= i < |line| :: line[i] < 256 as char)
    && (forall i | 0 <= i < |line| :: line[i] == 13 as char ==> i + 1 < |line| && line[i + 1] != 10 as char)
  }

  /** Lines, each but the last announcing the literal after it, as a server frames a response. */
  predicate Framed(parts: seq<Part>)
    decreases |parts|
  {
    && parts != [] && parts[0].Line? && Sendable(parts[0].text)
    && if |parts| == 1 then LiteralSize(parts[0].text).None?
       else parts[1].Literal? && LiteralSize(parts[0].text) == Some(|parts[1].octets|) && Framed(parts[2..])
  }

  function Wire(parts: seq<Part>): (bytes: seq<Byte>)
    requires Framed(parts)
    decreases |parts|
  {
    if |parts| == 1 then Octets(parts[0].text) + CRLF
    else Octets(parts[0].text) + CRLF + parts[1].octets + Wire(parts[2..])
  }

  lemma LineEnds(line: string, rest: seq<Byte>)
    requires Sendable(line)
    ensures FirstCrlf(Octets(line) + CRLF + rest) == Some(|line|)
  {
    var bytes := Octets(line) + CRLF + rest;
    forall i | 0 <= i < |line| ensures !CrlfAt(bytes, i) {
      assert bytes[i] == line[i] as int;
      if i + 1 < |line| {
        assert bytes[i + 1] == line[i + 1] as int;
      }
    }
    assert bytes[|line|] == 13 && bytes[|line| + 1] == 10;
    FirstCrlfIs(bytes, |line|);
  }

  lemma CutWire(parts: seq<Part>, rest: seq<Byte>)
    requires Framed(parts) && |parts| > 1
    ensures Cut(Wire(parts) + rest) == Some(Frame(parts[..2], false, Wire(parts[2..]) + rest))
  {
    var after := Wire(parts[2..]) + rest;
    Unwired(parts, rest);
    CutLiteral(parts[0].text, parts[1].octets, after);
    FrontTwo(parts);
  }

  lemma FrontTwo(parts: seq<Part>)
    requires Framed(parts) && |parts| > 1
    ensures parts[..2] == [Line(parts[0].text), Literal(parts[1].octets)]
  {
  }

  lemma CutLiteral(line: string, octets: seq<Byte>, after: seq<Byte>)
    requires Sendable(line) && LiteralSize(line) == Some(|octets|)
    ensures Cut(Octets(line) + CRLF + (octets + after)) == Some(Frame([Line(line), Literal(octets)], false, after))
  {
    LineCut(line, octets + after);
    AfterMarker(line, octets, after);
  }

  lemma Unwired(parts: seq<Part>, rest: seq<Byte>)
    requires Framed(parts) && |parts| > 1
    ensures Wire(parts) + rest == Octets(parts[0].text) + CRLF + (parts[1].octets + (Wire(parts[2..]) + rest))
  {
    Regrouped(Octets(parts[0].text) + CRLF, parts[1].octets, Wire(parts[2..]), rest);
  }

  lemma Regrouped(a: seq<Byte>, b: seq<Byte>, c: seq<Byte>, d: seq<Byte>)
    ensures a + b + c + d == a + (b + (c + d))
  {
  }

  lemma AfterMarker(line: string, octets: seq<Byte>, after: seq<Byte>)
    requires LiteralSize(line) == Some(|octets|)
    ensures AfterLine(line, octets + after) == Some(Frame([Line(line), Literal(octets)], false, after))
  {
    assert (octets + after)[..|octets|] == octets && (octets + after)[|octets|..] == after;
  }

  lemma LineCut(line: string, rest: seq<Byte>)
    requires Sendable(line)
    ensures Cut(Octets(line) + CRLF + rest) == AfterLine(line, rest)
  {
    LineEnds(line, rest);
    var bytes := Octets(line) + CRLF + rest;
    assert bytes[..|line|] == Octets(line);
    assert bytes[|line| + 2..] == rest;
  }

  /** A framed response is carried part by part, whatever CRLFs its literals hold and whatever follows. */
  lemma {:induction false} WireCarries(parts: seq<Part>, rest: seq<Byte>)
    requires Framed(parts)
    ensures Carries(Cut, Wire(parts) + rest, parts, rest)
    decreases |parts|
  {
    if |parts| == 1 {
      LineCut(parts[0].text, rest);
      assert parts == [Line(parts[0].text)];
    } else {
      WireCarries(parts[2..], rest);
      CutWire(parts, rest);
    }
  }

  function WireAll(responses: seq<seq<Part>>): (bytes: seq<Byte>)
    requires forall r | r in responses :: Framed(r)
  {
    if responses == [] then [] else Wire(responses[0]) + WireAll(responses[1..])
  }

  /** A server's responses, cut anywhere on the way, come out one by one as they went in. */
  lemma ResponsesArrive(responses: seq<seq<Part>>, chunks: seq<seq<Byte>>)
    requires forall r | r in responses :: Framed(r)
    requires Flatten(chunks) == WireAll(responses)
    ensures Shrinks(Cut) && Feed(Cut, chunks, [], []) == Drained(responses, [], [])
  {
    AnyChunks(chunks, chunks);
    DrainOfAll(responses);
  }

  lemma {:induction false} DrainOfAll(responses: seq<seq<Part>>)
    requires forall r | r in responses :: Framed(r)
    ensures Shrinks(Cut) && Drain(Cut, WireAll(responses), []) == Drained(responses, [], [])
  {
    CutIsSteady();
    if responses == [] {
      assert Cut([]).None?;
    } else {
      DrainOfAll(responses[1..]);
      FirstDrains(responses[0], WireAll(responses[1..]), responses[1..]);
      assert [responses[0]] + responses[1..] == responses;
    }
  }

  lemma FirstDrains(first: seq<Part>, rest: seq<Byte>, responses: seq<seq<Part>>)
    requires Framed(first) && Shrinks(Cut) && Drain(Cut, rest, []) == Drained(responses, [], [])
    ensures Drain(Cut, Wire(first) + rest, []) == Drained([first] + responses, [], [])
  {
    WireCarries(first, rest);
    OneMoreResponse(Cut, Wire(first) + rest, first, rest, responses);
  }

  /** The marker a sender appends announces exactly its number. */
  lemma MarkerAnnounces(line: string, size: nat)
    ensures LiteralSize(line + "{" + ToString(size) + "}") == Some(size)
  {
    var (open, digits) := (line + "{", ToString(size));
    var s := line + "{" + digits + "}";
    var end := |s| - 1;
    assert s[end - 1] == digits[|digits| - 1];
    assert !IsDigit('+');
    DigitsBeforeIs(s, |open|, end);
    assert s[|open|..end] == digits;
    RoundTrip(size);
  }

  /** So does the marker of a literal not waited for. */
  lemma PlusMarkerAnnounces(line: string, size: nat)
    ensures LiteralSize(line + "{" + ToString(size) + "+}") == Some(size)
  {
    var (open, digits) := (line + "{", ToString(size));
    var s := line + "{" + digits + "+}";
    var end := |s| - 2;
    assert s[end] == '+' && s[end - 1] == digits[|digits| - 1];
    DigitsBeforeIs(s, |open|, end);
    assert s[|open|..end] == digits;
    RoundTrip(size);
  }

  /** And nothing else announces one: a brace, digits, perhaps a plus sign, and a brace that ends the line. */
  lemma OnlyMarkersAnnounce(line: string)
    requires LiteralSize(line).Some?
    ensures exists before, digits, plus ::
      AllDigits(digits) && digits != "" && plus in {"", "+"} && line == before + "{" + digits + plus + "}" && LiteralSize(line).value == ToNat(digits)
  {
    var brace := |line| - 1;
    var end := if brace > 0 && line[brace - 1] == '+' then brace - 1 else brace;
    var from := DigitsBefore(line, end);
    var (before, digits, plus) := (line[..from - 1], line[from..end], if end < brace then "+" else "");
    assert line[from - 1..from] == "{" && line[end..brace] == plus && line[brace..] == "}";
    assert line == line[..from - 1] + line[from - 1..from] + line[from..end] + line[end..brace] + line[brace..];
    assert line == before + "{" + digits + plus + "}";
  }

  lemma {:induction false} DigitsBeforeIs(s: string, from: nat, end: nat)
    requires 0 < from <= end <= |s| && !IsDigit(s[from - 1]) && AllDigits(s[from..end])
    ensures DigitsBefore(s, end) == from
    decreases end
  {
    if end > from {
      assert s[end - 1] == s[from..end][end - 1 - from];
      assert s[from..end - 1] == s[from..end][..end - 1 - from];
      DigitsBeforeIs(s, from, end - 1);
    }
  }
}
