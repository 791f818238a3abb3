/** Cutting SMTP replies out of a byte stream (app/src/mail/smtp.ts:112-124): `250-` goes on, `250 ` ends. */
module SmtpReplies {
  import opened Common
  import opened Decimal
  import opened ByteQueues
  import opened Framing
  import opened ImapReader

  /** Three digits, then a space or nothing. */
  predicate EndsReply(line: string) {
    |line| >= 3 && IsDigit(line[0]) && IsDigit(line[1]) && IsDigit(line[2]) && (|line| == 3 || line[3] == ' ')
  }

  /** The line at the front, once its CRLF is there. */
  function CutLine(bytes: seq<Byte>): (r: Option<Frame>)
    ensures r.Some? ==> |r.value.rest| < |bytes|
  {
    match FirstCrlf(bytes)
    case None => None
    case Some(eol) => var line := Latin1(bytes[..eol]); Some(Frame([Line(line)], EndsReply(line), bytes[eol + 2..]))
  }

  lemma CutLineStays(a: seq<Byte>, b: seq<Byte>)
    ensures CutsAlike(CutLine, a, b)
  {
    if FirstCrlf(a).Some? {
      FirstCrlfStays(a, b);
      var eol := FirstCrlf(a).value;
      assert (a + b)[..eol] == a[..eol];
      assert (a + b)[eol + 2..] == a[eol + 2..] + b;
    }
  }

  lemma CutLineIsSteady()
    ensures Steady(CutLine) && CutLine([]).None?
  {
    forall a, b ensures CutsAlike(CutLine, a, b) {
      CutLineStays(a, b);
    }
  }

  class Session {
    const queue: ByteQueue
    var lines: seq<Part>

    constructor ()
      ensures fresh(queue) && fresh(queue.buf) && queue.Valid() && queue.Contents() == [] && lines == []
    {
      queue := new ByteQueue();
      lines := [];
    }

    method Receive(chunk: seq<Byte>) returns (replies: seq<seq<Part>>)
      requires queue.Valid()
      modifies this, queue, queue.buf
      ensures queue.Valid() && (queue.buf == old(queue.buf) || fresh(queue.buf))
      ensures Shrinks(CutLine)
      ensures Drained(replies, queue.Contents(), lines) == Drain(CutLine, old(queue.Contents()) + chunk, old(lines))
    {
      CutLineIsSteady();
      queue.Push(chunk);
      replies := [];
      ghost var all := Drain(CutLine, queue.Contents(), lines);
      var more := true;
      while more
        invariant queue.Valid() && (queue.buf == old(queue.buf) || fresh(queue.buf))
        invariant all == Onto(replies, Drain(CutLine, queue.Contents(), lines))
        invariant !more ==> all == Drained(replies, queue.Contents(), lines)
        decreases more, |queue.Contents()|
      {
        more, replies := Turn(replies);
      }
    }

    /** One turn of the loop: a line off the queue, if one is whole. */
    method Turn(replies: seq<seq<Part>>) returns (more: bool, replies': seq<seq<Part>>)
      requires queue.Valid() && Shrinks(CutLine)
      modifies this, queue
      ensures queue.Valid() && queue.buf == old(queue.buf)
      ensures Onto(replies', Drain(CutLine, queue.Contents(), lines)) == Onto(replies, Drain(CutLine, old(queue.Contents()), old(lines)))
      ensures if more then |queue.Contents()| < |old(queue.Contents())|
        else Drained(replies', queue.Contents(), lines) == Onto(replies, Drain(CutLine, old(queue.Contents()), old(lines)))
    {
      OneFrame(CutLine, replies, queue.Contents(), lines);
      var line := TakeLine();
      more, replies' := line.Some?, replies;
      if line.Some? {
        lines := lines + [Line(line.value)];
        if EndsReply(line.value) {
          replies' := replies + [lines];
          lines := [];
        }
      }
    }

    method TakeLine() returns (line: Option<string>)
      requires queue.Valid()
      modifies queue
      ensures queue.Valid() && queue.buf == old(queue.buf) && lines == old(lines)
      ensures match CutLine(old(queue.Contents()))
        case None => line == None && queue.Contents() == old(queue.Contents())
        case Some(f) => line.Some? && f.parts == [Line(line.value)] && f.ends == EndsReply(line.value) && queue.Contents() == f.rest
    {
      ghost var all := queue.Contents();
      var eol := queue.IndexOfCrlf();
      if eol.None? {
        return None;
      }
      var bytes := queue.Peek(0, eol.value);
      assert bytes == all[..eol.value];
      var ended := queue.Take(eol.value + 2);
      line := Some(Latin1(bytes));
    }
  }

  /** The replies read do not hang on how the server's bytes were cut. */
  lemma AnyReplyChunks(a: seq<seq<Byte>>, b: seq<seq<Byte>>)
    requires Flatten(a) == Flatten(b)
    ensures Shrinks(CutLine) && Feed(CutLine, a, [], []) == Feed(CutLine, b, [], []) == Drain(CutLine, Flatten(a), [])
  {
    CutLineIsSteady();
    AnyCutting(CutLine, a, b);
  }

  /** A reply as a server writes it: lines that go on, and a last one that ends it. */
  predicate Written(lines: seq<string>) {
    && lines != [] && (forall l | l in lines :: Sendable(l))
    && forall i | 0 <= i < |lines| :: EndsReply(lines[i]) <==> i == |lines| - 1
  }

  function ReplyWire(lines: seq<string>): (bytes: seq<Byte>)
    requires forall l | l in lines :: Sendable(l)
  {
    if lines == [] then []
    else
      assert Sendable(lines[0]);
      Octets(lines[0]) + CRLF + ReplyWire(lines[1..])
  }

  function AsParts(lines: seq<string>): (parts: seq<Part>)
    ensures |parts| == |lines| && forall i | 0 <= i < |lines| :: parts[i] == Line(lines[i])
  {
    seq(|lines|, i requires 0 <= i < |lines| => Line(lines[i]))
  }

  lemma CutWritten(line: string, rest: seq<Byte>)
    requires Sendable(line)
    ensures CutLine(Octets(line) + CRLF + rest) == Some(Frame([Line(line)], EndsReply(line), rest))
  {
    LineEnds(line, rest);
    var bytes := Octets(line) + CRLF + rest;
    assert bytes[..|line|] == Octets(line);
    assert bytes[|line| + 2..] == rest;
  }

  lemma {:induction false} ReplyCarries(lines: seq<string>, rest: seq<Byte>)
    requires Written(lines)
    ensures Carries(CutLine, ReplyWire(lines) + rest, AsParts(lines), rest)
    decreases |lines|
  {
    var tail := ReplyWire(lines[1..]) + rest;
    var frame := Frame([Line(lines[0])], EndsReply(lines[0]), tail);
    CutWritten(lines[0], tail);
    FirstLineWire(lines, rest);
    AsPartsTail(lines);
    if |lines| > 1 {
      ReplyCarries(lines[1..], rest);
    }
    CarriesFrom(CutLine, ReplyWire(lines) + rest, frame, AsParts(lines), rest);
  }

  lemma AsPartsTail(lines: seq<string>)
    requires lines != []
    ensures AsParts(lines)[..1] == [Line(lines[0])] && AsParts(lines)[1..] == AsParts(lines[1..])
    ensures |lines| == 1 ==> AsParts(lines) == [Line(lines[0])]
  {
  }

  lemma FirstLineWire(lines: seq<string>, rest: seq<Byte>)
    requires lines != [] && Sendable(lines[0]) && (forall l | l in lines :: Sendable(l))
    ensures ReplyWire(lines) + rest == Octets(lines[0]) + CRLF + (ReplyWire(lines[1..]) + rest)
    ensures |lines| == 1 ==> ReplyWire(lines[1..]) + rest == rest
  {
    Joined(Octets(lines[0]) + CRLF, ReplyWire(lines[1..]), rest);
  }

  lemma Joined(a: seq<Byte>, b: seq<Byte>, c: seq<Byte>)
    ensures a + b + c == a + (b + c) && [] + c == c
  {
  }

  /** A multi-line reply comes out whole, and alone, whatever its lines say. */
  lemma ReplyArrives(lines: seq<string>, chunks: seq<seq<Byte>>)
    requires Written(lines) && Flatten(chunks) == ReplyWire(lines)
    ensures Shrinks(CutLine) && Feed(CutLine, chunks, [], []) == Drained([AsParts(lines)], [], [])
  {
    AnyReplyChunks(chunks, chunks);
    ReplyCarries(lines, []);
    CutLineIsSteady();
    assert ReplyWire(lines) + [] == ReplyWire(lines);
    OneMoreResponse(CutLine, ReplyWire(lines), AsParts(lines), [], []);
  }

  /** The lines of a reply: one code throughout, a dash behind it on all lines but the last. */
  function CodedLines(code: string, texts: seq<string>): (lines: seq<string>) {
    if texts == [] then []
    else if |texts| == 1 then [code + (if texts[0] == "" then "" else " " + texts[0])]
    else [code + "-" + texts[0]] + CodedLines(code, texts[1..])
  }

  /** What a server sends as one reply (section 4.2.1 of RFC 5321) is taken for one: the dash goes on, a space or nothing ends it. */
  lemma {:induction false} CodedLinesAreReply(code: string, texts: seq<string>)
    requires |code| == 3 && (forall c | c in code :: IsDigit(c)) && texts != []
    ensures var lines := CodedLines(code, texts);
      |lines| == |texts| && EndsReply(lines[|lines| - 1]) && forall i | 0 <= i < |lines| - 1 :: !EndsReply(lines[i])
  {
    assert code[0] in code && code[1] in code && code[2] in code;
    if |texts| > 1 {
      CodedLinesAreReply(code, texts[1..]);
      var first := code + "-" + texts[0];
      assert first[3] == '-';
      var rest := CodedLines(code, texts[1..]);
      forall i | 0 <= i < |rest| ensures ([first] + rest)[i + 1] == rest[i] {}
    } else if texts[0] != "" {
      assert (code + (" " + texts[0]))[3] == ' ';
    }
  }
}
