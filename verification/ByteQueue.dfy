/** The growable receive buffer (app/src/mail/socket.ts:122-176), and what growing it costs. */
module ByteQueues {
  import opened Common

  const INITIAL_CAPACITY := 4096

  /** The position of the first CRLF, if there is one. */
  function FirstCrlf(bytes: seq<Byte>): (at: Option<nat>)
    ensures at.Some? ==> at.value + 2 <= |bytes|
  {
    if |bytes| < 2 then None
    else if CrlfAt(bytes, 0) then Some(0)
    else
      match FirstCrlf(bytes[1..])
      case None => None
      case Some(i) => Some(i + 1)
  }

  predicate CrlfAt(bytes: seq<Byte>, i: nat) {
    i + 1 < |bytes| && bytes[i] == 13 && bytes[i + 1] == 10
  }

  lemma {:induction false} FirstCrlfMeans(bytes: seq<Byte>)
    ensures match FirstCrlf(bytes)
      case None => forall i: nat :: !CrlfAt(bytes, i)
      case Some(at) => CrlfAt(bytes, at) && forall i | 0 <= i < at :: !CrlfAt(bytes, i)
  {
    if |bytes| >= 2 && !CrlfAt(bytes, 0) {
      FirstCrlfMeans(bytes[1..]);
      assert forall i: nat | i > 0 :: CrlfAt(bytes, i) == CrlfAt(bytes[1..], i - 1);
    }
  }

  /** There is only one first CRLF. */
  lemma FirstCrlfIs(bytes: seq<Byte>, at: nat)
    requires CrlfAt(bytes, at) && forall i | 0 <= i < at :: !CrlfAt(bytes, i)
    ensures FirstCrlf(bytes) == Some(at)
  {
    FirstCrlfMeans(bytes);
  }

  lemma NoCrlf(bytes: seq<Byte>)
    requires forall i: nat :: !CrlfAt(bytes, i)
    ensures FirstCrlf(bytes) == None
  {
    FirstCrlfMeans(bytes);
  }

  /** The buffer's extent, and how many bytes were moved to make room so far. */
  datatype Extent = Extent(capacity: nat, start: nat, end: nat, relocated: nat)

  function Max(a: nat, b: nat): (m: nat) {
    if a < b then b else a
  }

  function Pushed(e: Extent, n: nat): (e': Extent)
    requires e.start <= e.end
  {
    if e.end + n <= e.capacity then e.(end := e.end + n)
    else
      var held := e.end - e.start;
      Extent(if held + n > e.capacity then Max(2 * e.capacity, held + n) else e.capacity, 0, held + n, e.relocated + held)
  }

  class ByteQueue {
    var buf: array<Byte>
    var start: nat
    var end: nat
    ghost var relocated: nat

    ghost predicate Valid()
      reads this
    {
      start <= end <= buf.Length && buf.Length >= INITIAL_CAPACITY
    }

    ghost function Contents(): (bytes: seq<Byte>)
      reads this, buf
      requires Valid()
    {
      buf[start..end]
    }

    ghost function Shape(): (e: Extent)
      reads this
    {
      Extent(buf.Length, start, end, relocated)
    }

    constructor ()
      ensures Valid() && fresh(buf) && Contents() == [] && Shape() == Extent(INITIAL_CAPACITY, 0, 0, 0)
    {
      buf := new Byte[INITIAL_CAPACITY](_ => 0);
      start, end, relocated := 0, 0, 0;
    }

    method Push(chunk: seq<Byte>)
      requires Valid()
      modifies this, buf
      ensures Valid() && (buf == old(buf) || fresh(buf))
      ensures Contents() == old(Contents()) + chunk
      ensures Shape() == Pushed(old(Shape()), |chunk|)
    {
      if end + |chunk| > buf.Length {
        MakeRoom(|chunk|);
      }
      Append(chunk);
    }

    /** `chunk` after what is held, where there is room for it. */
    method Append(chunk: seq<Byte>)
      requires Valid() && end + |chunk| <= buf.Length
      modifies this`end, buf
      ensures Valid() && Contents() == old(Contents()) + chunk && end == old(end) + |chunk|
    {
      ghost var before := Contents();
      Fill(chunk);
      assert buf[start..end] == before by {
        assert buf[start..end] == buf[..end][start..];
      }
      assert buf[start..end + |chunk|] == buf[start..end] + buf[end..end + |chunk|];
      end := end + |chunk|;
    }

    /** What is held goes to the front, of a larger buffer if this one is too small. */
    method MakeRoom(n: nat)
      requires Valid() && end + n > buf.Length
      modifies this, buf
      ensures Valid() && (buf == old(buf) || fresh(buf)) && end + n <= buf.Length
      ensures Contents() == old(Contents())
      ensures Shape() == Pushed(old(Shape()), n).(end := old(end - start))
    {
      var held := end - start;
      var next := buf;
      if held + n > buf.Length {
        next := new Byte[Max(buf.Length * 2, held + n)](_ => 0);
      }
      Relocate(buf, start, held, next);
      relocated := relocated + held;
      buf := next;
      start := 0;
      end := held;
    }

    /** The held bytes, at the front of `next`, which may be the buffer itself. */
    static method Relocate(from: array<Byte>, at: nat, held: nat, next: array<Byte>)
      requires at + held <= from.Length && held <= next.Length
      modifies next
      ensures next[..held] == old(from[at..at + held])
    {
      ghost var was := from[at..at + held];
      for i := 0 to held
        invariant forall k | 0 <= k < i :: next[k] == was[k]
        invariant forall k | at + i <= k < at + held :: from[k] == was[k - at]
      {
        next[i] := from[at + i];
      }
    }

    /** `chunk`, after what is held. */
    method Fill(chunk: seq<Byte>)
      requires Valid() && end + |chunk| <= buf.Length
      modifies buf
      ensures buf[end..end + |chunk|] == chunk
      ensures buf[..end] == old(buf[..end])
    {
      for i := 0 to |chunk|
        invariant buf[end..end + i] == chunk[..i]
        invariant buf[..end] == old(buf[..end])
      {
        buf[end + i] := chunk[i];
      }
    }

    method Length() returns (n: nat)
      requires Valid()
      ensures n == |Contents()|
    {
      n := end - start;
    }

    /** The first CRLF, counted from the front. */
    method IndexOfCrlf() returns (at: Option<nat>)
      requires Valid()
      ensures at == FirstCrlf(Contents())
    {
      ghost var bytes := Contents();
      var i := start;
      while i + 1 < end
        invariant start <= i <= end
        invariant forall k | 0 <= k < i - start :: !CrlfAt(bytes, k)
      {
        assert CrlfAt(bytes, i - start) <==> buf[i] == 13 && buf[i + 1] == 10;
        if buf[i] == 13 && buf[i + 1] == 10 {
          FirstCrlfIs(bytes, i - start);
          return Some(i - start);
        }
        i := i + 1;
      }
      NoCrlf(bytes);
      at := None;
    }

    method Peek(from: nat, to: nat) returns (bytes: seq<Byte>)
      requires Valid() && from <= to <= |Contents()|
      ensures bytes == Contents()[from..to]
    {
      bytes := buf[start + from..start + to];
      ghost var all := buf[..];
      assert bytes == all[start + from..start + to] == all[start..end][from..to];
    }

    /** The first `n` bytes, taken off the front. */
    method Take(n: nat) returns (head: seq<Byte>)
      requires Valid() && n <= |Contents()|
      modifies this
      ensures Valid() && buf == old(buf)
      ensures head == old(Contents())[..n] && Contents() == old(Contents())[n..]
      ensures relocated == old(relocated)
    {
      head := buf[start..start + n];
      start := start + n;
      if start == end {
        start, end := 0, 0;
      }
    }
  }

  // ------------------------------------------------------ what growing costs --

  function Total(sizes: seq<nat>): (n: nat) {
    if sizes == [] then 0 else Total(sizes[..|sizes| - 1]) + sizes[|sizes| - 1]
  }

  /** The extent after pushing chunks of these sizes into a new queue, taking nothing. */
  function AfterPushes(sizes: seq<nat>): (e: Extent)
    ensures e.start <= e.end
  {
    if sizes == [] then Extent(INITIAL_CAPACITY, 0, 0, 0)
    else Pushed(AfterPushes(sizes[..|sizes| - 1]), sizes[|sizes| - 1])
  }

  /** All that was ever relocated fits in what the capacity grew by, and in twice what was pushed. */
  lemma {:induction false} GrowthPays(sizes: seq<nat>)
    ensures var e := AfterPushes(sizes);
      && e.start == 0 && e.end == Total(sizes) <= e.capacity
      && e.relocated + INITIAL_CAPACITY <= e.capacity
      && (e.relocated > 0 ==> e.relocated + INITIAL_CAPACITY < 2 * Total(sizes))
  {
    if sizes != [] {
      GrowthPays(sizes[..|sizes| - 1]);
    }
  }

  /** Whatever the sizes of the chunks, fewer than two bytes are relocated for each one pushed. */
  lemma RelocatesFewerThanTwice(sizes: seq<nat>)
    requires Total(sizes) > 0
    ensures AfterPushes(sizes).relocated < 2 * Total(sizes)
  {
    GrowthPays(sizes);
  }
}
