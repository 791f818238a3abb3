/** Which rows of a sync are announced (app/src/notifications/newMail.ts:90-151, 188-191). */
module NewMail {
  import opened Common

  const SEEN_CAP := 500
  const MAX_AGE_MS := 172_800_000
  const SINCE_SLACK_MS := 600_000

  type Id = string

  /** A row, with what is asked of its sender, subject, labels and date answered. */
  datatype Row = Row(id: Id, unread: bool, own: bool, encrypted: bool, junk: bool, otherTab: bool, date: Option<int>)

  datatype Ledger = Ledger(since: Option<int>, seen: seq<Id>, pending: seq<Id>)

  datatype Options = Options(primaryOnly: bool, now: int)

  datatype Observation = Observation(ledger: Ledger, announced: seq<Id>)

  predicate IsNotifiable(row: Row, options: Options, since: int) {
    && row.unread && !row.own
    && (row.encrypted || !row.junk)
    && (row.encrypted || !options.primaryOnly || !row.otherTab)
    && row.date.Some?
    && options.now - row.date.value <= MAX_AGE_MS
    && row.date.value >= since - SINCE_SLACK_MS
  }

  /** First occurrences, in order, as a JavaScript `Set` keeps them. */
  function Unique(ids: seq<Id>): (r: seq<Id>)
    ensures Distinct(r) && forall id :: id in r <==> id in ids
  {
    if ids == [] then []
    else
      var n := |ids| - 1;
      var r := Unique(ids[..n]);
      assert ids == ids[..n] + [ids[n]];
      if ids[n] in ids[..n] then r else r + [ids[n]]
  }

  function CapSeen(ids: seq<Id>): (r: seq<Id>) {
    Last(Unique(ids))
  }

  function Last(ids: seq<Id>): (r: seq<Id>)
    ensures |r| <= SEEN_CAP
  {
    if |ids| > SEEN_CAP then ids[|ids| - SEEN_CAP..] else ids
  }

  function IdsOf(rows: seq<Row>): (ids: seq<Id>)
    ensures |ids| == |rows| && forall i | 0 <= i < |rows| :: ids[i] == rows[i].id
  {
    seq(|rows|, i requires 0 <= i < |rows| => rows[i].id)
  }

  function UnreadIds(rows: seq<Row>): (ids: set<Id>) {
    set row | row in rows && row.unread :: row.id
  }

  /** The ids of `rows` that were not seen. */
  function NotSeen(rows: seq<Row>, seen: seq<Id>): (ids: seq<Id>)
    ensures forall id :: id in ids <==> id in IdsOf(rows) && id !in seen
  {
    if rows == [] then []
    else
      assert rows == [rows[0]] + rows[1..];
      assert IdsOf(rows) == [rows[0].id] + IdsOf(rows[1..]);
      (if rows[0].id in seen then [] else [rows[0].id]) + NotSeen(rows[1..], seen)
  }

  function Fresh(rows: seq<Row>, seen: seq<Id>, options: Options, since: int): (ids: seq<Id>) {
    if rows == [] then []
    else
      (if rows[0].id !in seen && IsNotifiable(rows[0], options, since) then [rows[0].id] else []) + Fresh(rows[1..], seen, options, since)
  }

  lemma {:induction false} FreshIs(rows: seq<Row>, seen: seq<Id>, options: Options, since: int, id: Id)
    requires id in Fresh(rows, seen, options, since)
    ensures id !in seen && id in UnreadIds(rows) && id in IdsOf(rows)
  {
    TailIds(rows);
    if !(rows[0].id !in seen && IsNotifiable(rows[0], options, since) && id == rows[0].id) {
      FreshIs(rows[1..], seen, options, since, id);
    }
  }

  lemma TailIds(rows: seq<Row>)
    requires rows != []
    ensures IdsOf(rows) == [rows[0].id] + IdsOf(rows[1..])
    ensures UnreadIds(rows) == (if rows[0].unread then {rows[0].id} else {}) + UnreadIds(rows[1..])
  {
    assert rows == [rows[0]] + rows[1..];
  }

  function Only(ids: seq<Id>, kept: set<Id>): (r: seq<Id>)
    ensures forall id :: id in r <==> id in ids && id in kept
    ensures Distinct(ids) ==> Distinct(r)
  {
    if ids == [] then []
    else
      assert ids == [ids[0]] + ids[1..];
      var rest := Only(ids[1..], kept);
      if ids[0] in kept then
        assert Distinct(ids) ==> Distinct([ids[0]] + rest) by {
          if Distinct(ids) {
            assert ids[0] !in ids[1..];
            assert forall j | 0 <= j < |rest| :: rest[j] in rest;
          }
        }
        [ids[0]] + rest
      else rest
  }

  function Observe(ledger: Ledger, rows: seq<Row>, options: Options): (o: Observation) {
    match ledger.since
    case None => Observation(Ledger(Some(options.now), CapSeen(IdsOf(rows)), []), [])
    case Some(since) =>
      var fresh' := Fresh(rows, ledger.seen, options, since);
      var pending := Only(Unique(ledger.pending + fresh'), UnreadIds(rows));
      Observation(Ledger(ledger.since, CapSeen(ledger.seen + NotSeen(rows, ledger.seen)), pending), fresh')
  }

  function ClearPending(ledger: Ledger): (l: Ledger) {
    ledger.(pending := [])
  }

  // -------------------------------------------------------------- histories --

  datatype Step = Sync(rows: seq<Row>, options: Options) | Looked

  /** A mailbox's ledger, with all ids ever recorded, in order, and where in that record each announcement stands. */
  datatype History = History(ledger: Ledger, log: seq<Id>, announced: seq<Id>, unread: set<Id>)

  function Recorded(ledger: Ledger, rows: seq<Row>): (ids: seq<Id>) {
    if ledger.since.None? then Unique(IdsOf(rows)) else NotSeen(rows, ledger.seen)
  }

  function Apply(h: History, step: Step): (h': History) {
    match step
    case Looked => h.(ledger := ClearPending(h.ledger))
    case Sync(rows, options) =>
      var o := Observe(h.ledger, rows, options);
      History(o.ledger, h.log + Recorded(h.ledger, rows), o.announced, UnreadIds(rows))
  }

  function Initial(): (h: History) {
    History(Ledger(None, [], []), [], [], {})
  }

  /** Each id is listed once in a sync. */
  predicate Listed(step: Step) {
    step.Sync? ==> forall i, j :: 0 <= i < j < |step.rows| ==> step.rows[i].id != step.rows[j].id
  }

  /** 500 other ids, all different, stand in the record after `p` and before `q`. */
  ghost predicate FarApart(log: seq<Id>, p: nat, q: nat)
    requires p < q < |log|
  {
    exists w: nat :: w + SEEN_CAP <= q && Window(log, p, w)
  }

  ghost predicate Window(log: seq<Id>, p: nat, w: nat) {
    p < w && w + SEEN_CAP <= |log| && Distinct(log[w..w + SEEN_CAP]) && log[p] !in log[w..w + SEEN_CAP]
  }

  ghost predicate Inv(h: History) {
    && h.ledger.seen == Last(h.log) && Distinct(h.ledger.seen)
    && (h.ledger.since.None? ==> h.log == [])
    && (forall p, q | 0 <= p < q < |h.log| && h.log[p] == h.log[q] :: FarApart(h.log, p, q))
    && Distinct(h.ledger.pending) && (forall id | id in h.ledger.pending :: id in h.unread)
  }

  lemma {:induction false} DistinctIsUnique(ids: seq<Id>)
    requires Distinct(ids)
    ensures Unique(ids) == ids
  {
    if ids != [] {
      var n := |ids| - 1;
      DistinctIsUnique(ids[..n]);
      assert ids[n] !in ids[..n];
      assert ids == ids[..n] + [ids[n]];
    }
  }

  lemma {:induction false} NotSeenDistinct(rows: seq<Row>, seen: seq<Id>)
    requires forall i, j :: 0 <= i < j < |rows| ==> rows[i].id != rows[j].id
    ensures Distinct(NotSeen(rows, seen))
  {
    if rows != [] {
      NotSeenDistinct(rows[1..], seen);
      var rest := NotSeen(rows[1..], seen);
      assert forall j | 0 <= j < |rest| :: rest[j] in rest;
      assert rows[0].id !in IdsOf(rows[1..]);
    }
  }

  lemma RecordedIs(ledger: Ledger, rows: seq<Row>)
    requires Listed(Sync(rows, Options(false, 0)))
    ensures Distinct(Recorded(ledger, rows))
    ensures ledger.since.Some? ==> forall id | id in Recorded(ledger, rows) :: id !in ledger.seen
  {
    NotSeenDistinct(rows, ledger.seen);
  }

  /** The ids kept are the last of the record; a new batch pushes out the oldest. */
  lemma LastGrows(log: seq<Id>, batch: seq<Id>)
    requires Distinct(Last(log) + batch)
    ensures CapSeen(Last(log) + batch) == Last(log + batch) && Distinct(Last(log + batch))
  {
    DistinctIsUnique(Last(log) + batch);
    LastOfLast(log, batch);
    LastDistinct(Last(log) + batch);
  }

  lemma LastOfLast(log: seq<Id>, batch: seq<Id>)
    ensures Last(Last(log) + batch) == Last(log + batch)
  {
    if |log| > SEEN_CAP {
      DropTwice(log, batch, |log| - SEEN_CAP);
    }
  }

  lemma DropTwice(log: seq<Id>, batch: seq<Id>, n: nat)
    requires n <= |log| && |log| - n == SEEN_CAP
    ensures Last(log[n..] + batch) == Last(log + batch)
  {
    var (a, b) := (log[n..] + batch, log + batch);
    assert a == b[n..];
    assert |a| > SEEN_CAP ==> a[|a| - SEEN_CAP..] == b[|b| - SEEN_CAP..];
  }

  lemma LastDistinct(ids: seq<Id>)
    requires Distinct(ids)
    ensures Distinct(Last(ids))
  {
  }

  /** What comes back into the record was pushed out by 500 others first. */
  lemma StillFarApart(log: seq<Id>, batch: seq<Id>, p: nat, q: nat)
    requires Distinct(Last(log)) && Distinct(batch) && (forall id | id in batch :: id !in Last(log))
    requires forall i, j | 0 <= i < j < |log| && log[i] == log[j] :: FarApart(log, i, j)
    requires p < q < |log + batch| && (log + batch)[p] == (log + batch)[q]
    ensures FarApart(log + batch, p, q)
  {
    var all := log + batch;
    if q < |log| {
      assert log[p] == log[q] && FarApart(log, p, q);
      var w: nat :| w + SEEN_CAP <= q && Window(log, p, w);
      WindowStays(log, batch, p, w);
    } else {
      assert forall i | |log| <= i < |all| :: all[i] == batch[i - |log|] && all[i] in batch;
      assert p < |log| && log[p] !in Last(log);
      PushedOut(log, p);
      LastIsWindow(log, p);
      WindowStays(log, batch, p, |log| - SEEN_CAP);
    }
  }

  lemma WindowStays(log: seq<Id>, batch: seq<Id>, p: nat, w: nat)
    requires Window(log, p, w)
    ensures Window(log + batch, p, w)
  {
    assert (log + batch)[w..w + SEEN_CAP] == log[w..w + SEEN_CAP];
  }

  lemma LastIsWindow(log: seq<Id>, p: nat)
    requires |log| > SEEN_CAP && p < |log| - SEEN_CAP && Distinct(Last(log)) && log[p] !in Last(log)
    ensures Window(log, p, |log| - SEEN_CAP)
  {
    assert log[|log| - SEEN_CAP..|log| - SEEN_CAP + SEEN_CAP] == Last(log);
  }

  lemma PushedOut(log: seq<Id>, p: nat)
    requires p < |log| && log[p] !in Last(log)
    ensures |log| > SEEN_CAP && p < |log| - SEEN_CAP
  {
    forall i | 0 <= i < |log| && i >= |log| - SEEN_CAP ensures log[i] in Last(log) {
      var from := if |log| > SEEN_CAP then |log| - SEEN_CAP else 0;
      assert Last(log)[i - from] == log[i];
    }
  }

  lemma SyncKeeps(h: History, rows: seq<Row>, options: Options)
    requires Inv(h) && Listed(Sync(rows, options))
    ensures Inv(Apply(h, Sync(rows, options)))
  {
    var h' := Apply(h, Sync(rows, options));
    var batch := Recorded(h.ledger, rows);
    RecordedIs(h.ledger, rows);
    var kept := Last(h.log) + batch;
    if h.ledger.since.None? {
      assert kept == batch && h.log + batch == batch;
      DistinctIsUnique(batch);
    }
    assert Distinct(kept) by {
      forall i, j | 0 <= i < j < |kept| ensures kept[i] != kept[j] {
        if i < |Last(h.log)| <= j {
          assert kept[j] in batch && kept[i] in Last(h.log);
        }
      }
    }
    LastGrows(h.log, batch);
    forall p, q | 0 <= p < q < |h'.log| && h'.log[p] == h'.log[q] ensures FarApart(h'.log, p, q) {
      StillFarApart(h.log, batch, p, q);
    }
  }

  ghost predicate Follows(run: seq<Step>) {
    forall step | step in run :: Listed(step)
  }

  function After(h: History, run: seq<Step>): (h': History) {
    if run == [] then h else Apply(After(h, run[..|run| - 1]), run[|run| - 1])
  }

  lemma {:induction false} RunKeeps(run: seq<Step>)
    requires Follows(run)
    ensures Inv(After(Initial(), run))
  {
    if run != [] {
      var before := run[..|run| - 1];
      var step := run[|run| - 1];
      RunKeeps(before);
      assert step in run;
      if step.Sync? {
        SyncKeeps(After(Initial(), before), step.rows, step.options);
      }
    }
  }

  /**
   * Over every run of syncs: an id recorded a second time, as every id
   * announced is, comes after 500 other, different ids recorded since; and
   * what is pending is each id once, unread in the last sync.
   */
  lemma NotAgainTooSoon(run: seq<Step>)
    requires Follows(run)
    ensures var h := After(Initial(), run);
      && (forall p, q | 0 <= p < q < |h.log| && h.log[p] == h.log[q] :: FarApart(h.log, p, q))
      && Distinct(h.ledger.pending) && (forall id | id in h.ledger.pending :: id in h.unread)
  {
    RunKeeps(run);
  }

  /** What a sync announces it records for the first time in a while, and counts as pending; a first sync announces nothing. */
  lemma AnnouncedIsRecorded(h: History, rows: seq<Row>, options: Options, id: Id)
    requires id in Apply(h, Sync(rows, options)).announced
    ensures h.ledger.since.Some? && id !in h.ledger.seen
    ensures id in Recorded(h.ledger, rows) && id in Apply(h, Sync(rows, options)).ledger.pending
  {
    var fresh' := Fresh(rows, h.ledger.seen, options, h.ledger.since.value);
    FreshIs(rows, h.ledger.seen, options, h.ledger.since.value, id);
    assert id in h.ledger.pending + fresh';
  }

  // ------------------------------------------------- what is announced --

  /** What the source calls mail that announces itself: new enough, unread, from someone else, and not filed away in the clear. */
  ghost predicate Announces(row: Row, options: Options, since: int) {
    && row.unread && !row.own && row.date.Some?
    && (row.encrypted || !(row.junk || (options.primaryOnly && row.otherTab)))
    && options.now <= row.date.value + 172_800_000 && since <= row.date.value + 600_000
  }

  lemma {:induction false} FreshExactly(rows: seq<Row>, seen: seq<Id>, options: Options, since: int, id: Id)
    ensures id in Fresh(rows, seen, options, since) <==>
      id !in seen && exists row :: row in rows && row.id == id && Announces(row, options, since)
  {
    if rows != [] {
      FreshExactly(rows[1..], seen, options, since, id);
      assert rows == [rows[0]] + rows[1..];
      assert IsNotifiable(rows[0], options, since) == Announces(rows[0], options, since);
    }
  }

  /** `x` stands in `ids`, and `y` after it. */
  ghost predicate InOrder(ids: seq<Id>, x: Id, y: Id) {
    exists a, b :: 0 <= a < b < |ids| && ids[a] == x && ids[b] == y
  }

  lemma StillInOrder(first: seq<Id>, ids: seq<Id>, x: Id, y: Id)
    requires InOrder(ids, x, y) || (first == [x] && y in ids)
    ensures InOrder(first + ids, x, y)
  {
    var all := first + ids;
    if InOrder(ids, x, y) {
      var a, b :| 0 <= a < b < |ids| && ids[a] == x && ids[b] == y;
      assert all[|first| + a] == x && all[|first| + b] == y;
    } else {
      var b :| 0 <= b < |ids| && ids[b] == y;
      assert all[0] == x && all[1 + b] == y;
    }
  }

  /** Rows are announced in the order they are listed. */
  lemma {:induction false} FreshInOrder(rows: seq<Row>, seen: seq<Id>, options: Options, since: int, i: nat, j: nat)
    requires i < j < |rows| && rows[i].id !in seen && rows[j].id !in seen
    requires Announces(rows[i], options, since) && Announces(rows[j], options, since)
    ensures InOrder(Fresh(rows, seen, options, since), rows[i].id, rows[j].id)
  {
    var first := if rows[0].id !in seen && IsNotifiable(rows[0], options, since) then [rows[0].id] else [];
    if i == 0 {
      assert rows[1..][j - 1] == rows[j];
      FreshExactly(rows[1..], seen, options, since, rows[j].id);
    } else {
      FreshInOrder(rows[1..], seen, options, since, i - 1, j - 1);
    }
    StillInOrder(first, Fresh(rows[1..], seen, options, since), rows[i].id, rows[j].id);
  }

  /**
   * What a sync announces, after any run: nothing the first time; then
   * exactly the rows that announce themselves and are not among the ids kept.
   * Pending are then exactly those and the ones pending before, as far as
   * they are unread in this sync; the moment of the first sync stays.
   */
  lemma AnnouncedExactly(run: seq<Step>, rows: seq<Row>, options: Options, id: Id)
    requires Follows(run)
    ensures var (h, h') := (After(Initial(), run), Apply(After(Initial(), run), Sync(rows, options)));
      match h.ledger.since
      case None => h'.announced == [] && h'.ledger.pending == [] && h'.ledger.since == Some(options.now)
      case Some(since) =>
        && (id in h'.announced <==> id !in Last(h.log) && exists row :: row in rows && row.id == id && Announces(row, options, since))
        && (id in h'.ledger.pending <==>
              (id in h.ledger.pending || id in h'.announced) && exists row :: row in rows && row.id == id && row.unread)
        && h'.ledger.since == h.ledger.since
  {
    RunKeeps(run);
    var h := After(Initial(), run);
    if h.ledger.since.Some? {
      FreshExactly(rows, h.ledger.seen, options, h.ledger.since.value, id);
    }
  }

  /** No new mail is missed: after any first sync, a row never recorded that announces itself is announced. */
  lemma NewIsAnnounced(run: seq<Step>, rows: seq<Row>, options: Options, row: Row)
    requires Follows(run) && After(Initial(), run).ledger.since.Some? && row in rows && row.id !in After(Initial(), run).log
    requires Announces(row, options, After(Initial(), run).ledger.since.value)
    ensures row.id in Apply(After(Initial(), run), Sync(rows, options)).announced
  {
    AnnouncedExactly(run, rows, options, row.id);
    var log := After(Initial(), run).log;
    assert forall x | x in Last(log) :: x in log;
  }

  /** Looking clears the count, and nothing else. */
  lemma LookedClears(run: seq<Step>)
    ensures var (h, h') := (After(Initial(), run), After(Initial(), run + [Looked]));
      h'.ledger == h.ledger.(pending := []) && h'.log == h.log
  {
    assert (run + [Looked])[..|run|] == run;
  }
}
