/** A page's UIDs as a sequence set (app/src/mail/imapWire.ts:225-236; section 9 of RFC 3501). */
module UidSets {
  import opened Common
  import opened Decimal

  /** The UIDs `lo` to `hi`. */
  datatype Run = Run(lo: nat, hi: nat)

  predicate StrictlyAscends(s: seq<nat>) {
    forall i, j :: 0 <= i < j < |s| ==> s[i] < s[j]
  }

  predicate In(runs: seq<Run>, uid: nat) {
    exists i :: 0 <= i < |runs| && runs[i].lo <= uid <= runs[i].hi
  }

  /** Runs in order, none empty, and a gap between each and the next: no two could be one. */
  predicate Apart(runs: seq<Run>) {
    && (forall i | 0 <= i < |runs| :: runs[i].lo <= runs[i].hi)
    && (forall i, j :: 0 <= i < j < |runs| ==> runs[i].hi + 1 < runs[j].lo)
  }

  /** The runs denote exactly these UIDs. */
  ghost predicate Denotes(runs: seq<Run>, uids: seq<nat>) {
    forall uid: nat :: In(runs, uid) <==> uid in uids
  }

  method UidRuns(sorted: seq<nat>) returns (runs: seq<Run>)
    requires StrictlyAscends(sorted)
    ensures Apart(runs) && Denotes(runs, sorted)
  {
    runs := [];
    var i := 0;
    while i < |sorted|
      invariant 0 <= i <= |sorted|
      invariant Apart(runs) && Denotes(runs, sorted[..i])
      invariant runs != [] && i < |sorted| ==> runs[|runs| - 1].hi + 1 < sorted[i]
      invariant i == 0 ==> runs == []
      decreases |sorted| - i
    {
      var j := i;
      while j + 1 < |sorted| && sorted[j + 1] == sorted[j] + 1
        invariant i <= j < |sorted| && sorted[j] == sorted[i] + (j - i)
        invariant forall k | i <= k <= j :: sorted[k] == sorted[i] + (k - i)
      {
        j := j + 1;
      }
      OneMoreRun(sorted, runs, i, j);
      runs := runs + [Run(sorted[i], sorted[j])];
      i := j + 1;
    }
    assert sorted[..|sorted|] == sorted;
  }

  lemma OneMoreRun(sorted: seq<nat>, runs: seq<Run>, i: nat, j: nat)
    requires StrictlyAscends(sorted) && i <= j < |sorted| && Apart(runs) && Denotes(runs, sorted[..i])
    requires forall k | i <= k <= j :: sorted[k] == sorted[i] + (k - i)
    requires runs != [] ==> runs[|runs| - 1].hi + 1 < sorted[i]
    ensures Apart(runs + [Run(sorted[i], sorted[j])]) && Denotes(runs + [Run(sorted[i], sorted[j])], sorted[..j + 1])
  {
    var runs' := runs + [Run(sorted[i], sorted[j])];
    forall uid: nat ensures In(runs', uid) <==> uid in sorted[..j + 1] {
      if In(runs', uid) {
        var r :| 0 <= r < |runs'| && runs'[r].lo <= uid <= runs'[r].hi;
        if r < |runs| {
          assert In(runs, uid);
          var k :| 0 <= k < i && sorted[..i][k] == uid;
          assert sorted[..j + 1][k] == uid;
        } else {
          assert sorted[..j + 1][i + (uid - sorted[i])] == uid;
        }
      }
      if uid in sorted[..j + 1] {
        var k :| 0 <= k < j + 1 && sorted[k] == uid;
        if k < i {
          assert sorted[..i][k] == uid;
          assert In(runs, uid);
          var r :| 0 <= r < |runs| && runs[r].lo <= uid <= runs[r].hi;
          assert runs'[r] == runs[r];
        } else {
          assert runs'[|runs|].lo <= uid <= runs'[|runs|].hi;
        }
      }
    }
    forall r | 0 <= r < |runs| ensures runs[r].hi + 1 < sorted[i] {
      if r < |runs| - 1 {
        assert runs[r].hi + 1 < runs[|runs| - 1].lo;
      }
    }
  }

  /** There is only one way to write a set in runs that are apart: the maximal ones. */
  lemma {:induction false} RunsAreUnique(a: seq<Run>, b: seq<Run>)
    requires Apart(a) && Apart(b) && forall uid: nat :: In(a, uid) <==> In(b, uid)
    ensures a == b
    decreases |a|
  {
    if a == [] {
      if b != [] {
        assert In(b, b[0].lo);
      }
    } else {
      assert In(a, a[0].lo);
      FirstsAgree(a, b);
      forall uid: nat ensures In(a[1..], uid) <==> In(b[1..], uid) {
        TailIn(a, uid);
        TailIn(b, uid);
      }
      RunsAreUnique(a[1..], b[1..]);
    }
  }

  lemma TailIn(a: seq<Run>, uid: nat)
    requires a != [] && Apart(a)
    ensures In(a[1..], uid) <==> In(a, uid) && uid > a[0].hi
  {
    if In(a[1..], uid) {
      var i :| 0 <= i < |a[1..]| && a[1..][i].lo <= uid <= a[1..][i].hi;
      assert a[i + 1] == a[1..][i];
    }
    if In(a, uid) && uid > a[0].hi {
      var i :| 0 <= i < |a| && a[i].lo <= uid <= a[i].hi;
      assert a[1..][i - 1] == a[i];
    }
  }

  lemma FirstsAgree(a: seq<Run>, b: seq<Run>)
    requires a != [] && b != [] && Apart(a) && Apart(b) && forall uid: nat :: In(a, uid) <==> In(b, uid)
    ensures a[0] == b[0]
  {
    assert In(a, a[0].lo) && In(b, b[0].lo);
    LowestFirst(a, b[0].lo);
    LowestFirst(b, a[0].lo);
    FirstEnds(a, b);
    FirstEnds(b, a);
  }

  lemma LowestFirst(a: seq<Run>, uid: nat)
    requires a != [] && Apart(a) && In(a, uid)
    ensures a[0].lo <= uid
  {
  }

  lemma FirstEnds(a: seq<Run>, b: seq<Run>)
    requires a != [] && b != [] && Apart(a) && Apart(b) && (forall uid: nat :: In(a, uid) <==> In(b, uid)) && a[0].lo == b[0].lo
    ensures a[0].hi <= b[0].hi
  {
    var gap := b[0].hi + 1;
    assert a[0].hi > b[0].hi ==> a[0].lo <= gap <= a[0].hi;
    assert a[0].hi > b[0].hi ==> In(a, gap);
    assert !In(b, gap);
  }

  // -------------------------------------------------------------- as text --

  function RunText(r: Run): (s: string) {
    if r.lo == r.hi then ToString(r.lo) else ToString(r.lo) + ":" + ToString(r.hi)
  }

  function UidSet(runs: seq<Run>): (s: string) {
    if runs == [] then "" else if |runs| == 1 then RunText(runs[0]) else RunText(runs[0]) + "," + UidSet(runs[1..])
  }

  /** One number or range off the front of a sequence set, and what follows it. */
  function ReadRun(s: string): (r: Option<(Run, string)>) {
    var n := DigitRun(s);
    if n == 0 then None
    else if n == |s| || s[n] != ':' then Some((Run(ToNat(s[..n]), ToNat(s[..n])), s[n..]))
    else
      var rest := s[n + 1..];
      var m := DigitRun(rest);
      if m == 0 then None else Some((Run(ToNat(s[..n]), ToNat(rest[..m])), rest[m..]))
  }

  /** A sequence set as a server reads it. */
  function ReadSet(s: string): (r: Option<seq<Run>>)
    decreases |s|
  {
    match ReadRun(s)
    case None => None
    case Some((run, rest)) =>
      if rest == "" then Some([run])
      else if rest[0] != ',' || |rest| > |s| then None
      else
        match ReadSet(rest[1..])
        case None => None
        case Some(runs) => Some([run] + runs)
  }

  lemma ReadRunText(r: Run, rest: string)
    requires rest == "" || rest[0] == ','
    ensures ReadRun(RunText(r) + rest) == Some((r, rest))
  {
    var (lo, hi) := (ToString(r.lo), ToString(r.hi));
    RoundTrip(r.lo);
    RoundTrip(r.hi);
    if r.lo == r.hi {
      DigitRunOf(lo, rest);
      CutAt(lo, rest);
      assert !(rest != "" && rest[0] == ':');
    } else {
      var tail := ":" + (hi + rest);
      Regroup(lo, hi, rest);
      DigitRunOf(lo, tail);
      DigitRunOf(hi, rest);
      CutAt(lo, tail);
      CutAt(hi, rest);
      assert tail[1..] == hi + rest;
    }
  }

  lemma CutAt(a: string, b: string)
    ensures (a + b)[..|a|] == a && (a + b)[|a|..] == b
    ensures b != "" ==> (a + b)[|a|] == b[0] && (a + b)[|a| + 1..] == b[1..]
  {
  }

  lemma Regroup(lo: string, hi: string, rest: string)
    ensures lo + ":" + hi + rest == lo + (":" + (hi + rest))
  {
  }

  lemma ReadMore(run: Run, rest: string)
    requires ReadSet(rest).Some?
    ensures ReadSet(RunText(run) + ("," + rest)) == Some([run] + ReadSet(rest).value)
  {
    var after := "," + rest;
    ReadRunText(run, after);
    assert after[1..] == rest;
  }

  lemma ReadLast(run: Run)
    ensures ReadSet(RunText(run)) == Some([run])
  {
    ReadRunText(run, "");
    assert RunText(run) + "" == RunText(run);
  }

  /** The server reads back exactly the runs written. */
  lemma {:induction false} ReadOfUidSet(runs: seq<Run>)
    requires runs != []
    ensures ReadSet(UidSet(runs)) == Some(runs)
  {
    if |runs| == 1 {
      ReadLast(runs[0]);
      assert runs == [runs[0]];
    } else {
      ReadOfUidSet(runs[1..]);
      ReadMore(runs[0], UidSet(runs[1..]));
      CommaFirst(RunText(runs[0]), UidSet(runs[1..]));
      assert runs == [runs[0]] + runs[1..];
    }
  }

  lemma CommaFirst(a: string, b: string)
    ensures a + "," + b == a + ("," + b)
  {
  }
}
