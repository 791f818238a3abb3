/**
 * Cutting a byte stream into responses, whatever a frame looks like: `cut`
 * takes the frame at the front, once all of it is there.
 */
module Framing {
  import opened Common

  datatype Part = Line(text: string) | Literal(octets: seq<Byte>)

  /** A line, with its literal if it has one; whether it ends a response; and what comes after. */
  datatype Frame = Frame(parts: seq<Part>, ends: bool, rest: seq<Byte>)

  type Cutter = seq<Byte> -> Option<Frame>

  /** The responses completed, the bytes left, and the parts of the response under way. */
  datatype Drained = Drained(done: seq<seq<Part>>, rest: seq<Byte>, parts: seq<Part>)

  ghost predicate Shrinks(cut: Cutter) {
    forall bytes :: cut(bytes).Some? ==> |cut(bytes).value.rest| < |bytes|
  }

  /** A frame that is whole is cut the same whatever comes after. */
  ghost predicate Steady(cut: Cutter) {
    Shrinks(cut) && forall a, b :: CutsAlike(cut, a, b)
  }

  predicate CutsAlike(cut: Cutter, a: seq<Byte>, b: seq<Byte>) {
    cut(a).Some? ==> cut(a + b) == Some(cut(a).value.(rest := cut(a).value.rest + b))
  }

  /** Frame after frame, until none is whole. */
  ghost function Drain(cut: Cutter, bytes: seq<Byte>, parts: seq<Part>): (r: Drained)
    requires Shrinks(cut)
    decreases |bytes|
  {
    match cut(bytes)
    case None => Drained([], bytes, parts)
    case Some(f) =>
      if f.ends then Onto([parts + f.parts], Drain(cut, f.rest, [])) else Drain(cut, f.rest, parts + f.parts)
  }

  /** What is done already, and then what `more` adds. */
  function Onto(done: seq<seq<Part>>, more: Drained): (r: Drained) {
    Drained(done + more.done, more.rest, more.parts)
  }

  lemma OntoOnto(a: seq<seq<Part>>, b: seq<seq<Part>>, more: Drained)
    ensures Onto(a, Onto(b, more)) == Onto(a + b, more)
  {
    assert a + (b + more.done) == a + b + more.done;
  }

  lemma OneFrame(cut: Cutter, done: seq<seq<Part>>, bytes: seq<Byte>, parts: seq<Part>)
    requires Shrinks(cut)
    ensures Onto(done, Drain(cut, bytes, parts)) ==
      match cut(bytes)
      case None => Drained(done, bytes, parts)
      case Some(f) =>
        if f.ends then Onto(done + [parts + f.parts], Drain(cut, f.rest, [])) else Onto(done, Drain(cut, f.rest, parts + f.parts))
  {
    match cut(bytes)
    case None => assert done + [] == done;
    case Some(f) => OntoOnto(done, [parts + f.parts], Drain(cut, f.rest, []));
  }

  /** Draining what was left of `a`, with `b` after it, goes on where draining `a` stopped. */
  lemma {:induction false} DrainGoesOn(cut: Cutter, a: seq<Byte>, b: seq<Byte>, parts: seq<Part>)
    requires Steady(cut)
    ensures var first := Drain(cut, a, parts);
      Drain(cut, a + b, parts) == Onto(first.done, Drain(cut, first.rest + b, first.parts))
    decreases |a|
  {
    assert CutsAlike(cut, a, b);
    match cut(a)
    case None =>
    case Some(f) =>
      if f.ends {
        DrainGoesOn(cut, f.rest, b, []);
        var first := Drain(cut, f.rest, []);
        OntoOnto([parts + f.parts], first.done, Drain(cut, first.rest + b, first.parts));
      } else {
        DrainGoesOn(cut, f.rest, b, parts + f.parts);
      }
  }

  /** What is left cannot be drained further. */
  lemma {:induction false} DrainIsDone(cut: Cutter, bytes: seq<Byte>, parts: seq<Part>)
    requires Shrinks(cut)
    ensures cut(Drain(cut, bytes, parts).rest).None?
    decreases |bytes|
  {
    match cut(bytes)
    case None =>
    case Some(f) =>
      DrainIsDone(cut, f.rest, if f.ends then [] else parts + f.parts);
  }

  /** A reader's answers to one chunk after another, and the state it is left in. */
  ghost function Feed(cut: Cutter, chunks: seq<seq<Byte>>, rest: seq<Byte>, parts: seq<Part>): (r: Drained)
    requires Shrinks(cut)
  {
    if chunks == [] then Drained([], rest, parts)
    else
      var first := Drain(cut, rest + chunks[0], parts);
      Onto(first.done, Feed(cut, chunks[1..], first.rest, first.parts))
  }

  lemma {:induction false} FeedIsDrain(cut: Cutter, chunks: seq<seq<Byte>>, rest: seq<Byte>, parts: seq<Part>)
    requires Steady(cut) && cut(rest).None?
    ensures Feed(cut, chunks, rest, parts) == Drain(cut, rest + Flatten(chunks), parts)
    decreases |chunks|
  {
    if chunks == [] {
      assert rest + Flatten(chunks) == rest;
    } else {
      var first := Drain(cut, rest + chunks[0], parts);
      DrainIsDone(cut, rest + chunks[0], parts);
      FeedIsDrain(cut, chunks[1..], first.rest, first.parts);
      DrainGoesOn(cut, rest + chunks[0], Flatten(chunks[1..]), parts);
      assert rest + Flatten(chunks) == rest + chunks[0] + Flatten(chunks[1..]);
    }
  }

  /** However a stream is cut into chunks, the same responses come out, and the reader is left the same. */
  lemma AnyCutting(cut: Cutter, a: seq<seq<Byte>>, b: seq<seq<Byte>>)
    requires Steady(cut) && cut([]).None? && Flatten(a) == Flatten(b)
    ensures Feed(cut, a, [], []) == Feed(cut, b, [], []) == Drain(cut, Flatten(a), [])
  {
    FeedIsDrain(cut, a, [], []);
    FeedIsDrain(cut, b, [], []);
    assert [] + Flatten(a) == Flatten(a) && [] + Flatten(b) == Flatten(b);
  }

  // ----------------------------------------------- reading back what was sent --

  /** The parts of one response, each frame of it whole at the front of `bytes`, and `rest` after it. */
  ghost predicate Carries(cut: Cutter, bytes: seq<Byte>, parts: seq<Part>, rest: seq<Byte>)
    decreases |parts|
  {
    cut(bytes).Some?
    && var f := cut(bytes).value;
    && f.parts != [] && f.parts <= parts
    && if f.ends then f.parts == parts && f.rest == rest
       else Carries(cut, f.rest, parts[|f.parts|..], rest)
  }

  lemma CarriesFrom(cut: Cutter, bytes: seq<Byte>, f: Frame, parts: seq<Part>, rest: seq<Byte>)
    requires cut(bytes) == Some(f) && f.parts != [] && f.parts <= parts
    requires if f.ends then f.parts == parts && f.rest == rest else Carries(cut, f.rest, parts[|f.parts|..], rest)
    ensures Carries(cut, bytes, parts, rest)
  {
  }

  lemma {:induction false} DrainCarried(cut: Cutter, bytes: seq<Byte>, before: seq<Part>, parts: seq<Part>, rest: seq<Byte>)
    requires Shrinks(cut) && Carries(cut, bytes, parts, rest)
    ensures Drain(cut, bytes, before) == Onto([before + parts], Drain(cut, rest, []))
    decreases |parts|
  {
    var f := cut(bytes).value;
    if !f.ends {
      var n := |f.parts|;
      DrainCarried(cut, f.rest, before + f.parts, parts[n..], rest);
      assert before + f.parts + parts[n..] == before + parts;
    }
  }

  lemma OneMoreResponse(cut: Cutter, bytes: seq<Byte>, first: seq<Part>, rest: seq<Byte>, responses: seq<seq<Part>>)
    requires Shrinks(cut) && Carries(cut, bytes, first, rest) && Drain(cut, rest, []) == Drained(responses, [], [])
    ensures Drain(cut, bytes, []) == Drained([first] + responses, [], [])
  {
    DrainCarried(cut, bytes, [], first, rest);
    assert [] + first == first;
  }
}
