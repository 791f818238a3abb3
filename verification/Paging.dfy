/** Listing a folder page by page, newest first (app/src/mail/imap.ts:273-327). */
module Paging {
  import opened Common

  /** Where the next page goes on: below `uid`, while the folder keeps its UIDVALIDITY. */
  datatype Cursor = Cursor(validity: nat, uid: nat)

  datatype Page = Page(uids: seq<nat>, next: Option<Cursor>)

  predicate StrictlyDescends(s: seq<nat>) {
    forall i, j :: 0 <= i < j < |s| ==> s[i] > s[j]
  }

  ghost predicate IsMax(s: set<nat>, m: nat) {
    m in s && forall x | x in s :: x <= m
  }

  lemma MaxExists(s: set<nat>)
    requires s != {}
    ensures exists m :: IsMax(s, m)
  {
    var x :| x in s;
    if s == {x} {
      assert IsMax(s, x);
    } else {
      MaxExists(s - {x});
      var m :| IsMax(s - {x}, m);
      assert forall y | y in s :: y == x || y in s - {x};
      assert IsMax(s, if x < m then m else x);
    }
  }

  /** The UIDs of `s`, highest first. */
  ghost function Descending(s: set<nat>): (r: seq<nat>)
    ensures StrictlyDescends(r) && forall x :: x in r <==> x in s
  {
    if s == {} then []
    else
      MaxExists(s);
      var m :| IsMax(s, m);
      var rest := Descending(s - {m});
      assert forall i | 0 <= i < |rest| :: rest[i] in rest;
      [m] + rest
  }

  function Below(s: set<nat>, uid: nat): (r: set<nat>) {
    set x | x in s && x < uid
  }

  /** A page of the UIDs that match, all of them at least 1, in a folder with this UIDVALIDITY. */
  ghost function List(matching: set<nat>, validity: nat, cursor: Option<Cursor>, limit: nat): (page: Page) {
    if cursor.Some? && (cursor.value.validity != validity || cursor.value.uid <= 1) then Page([], None)
    else
      var uids := Descending(if cursor.Some? then Below(matching, cursor.value.uid) else matching);
      if |uids| <= limit then Page(uids, None)
      else
        Page(uids[..limit], if limit == 0 then None else Some(Cursor(validity, uids[limit - 1])))
  }

  /** There is one way to order a set. */
  lemma {:induction false} OneOrder(a: seq<nat>, b: seq<nat>)
    requires StrictlyDescends(a) && StrictlyDescends(b) && forall x :: x in a <==> x in b
    ensures a == b
  {
    assert b != [] ==> b[0] in b;
    if a != [] {
      assert a[0] in b && b != [] && b[0] in a;
      assert a[0] == b[0];
      forall x ensures x in a[1..] <==> x in b[1..] {
        assert x in a <==> x == a[0] || x in a[1..];
        assert x in b <==> x == b[0] || x in b[1..];
      }
      OneOrder(a[1..], b[1..]);
    }
  }

  /** Below the last UID of a page is what the page left over. */
  lemma RestBelow(s: set<nat>, limit: nat)
    requires 0 < limit < |Descending(s)|
    ensures Descending(Below(s, Descending(s)[limit - 1])) == Descending(s)[limit..]
  {
    var all := Descending(s);
    var below := Below(s, all[limit - 1]);
    forall x ensures x in all[limit..] <==> x in below {
      AfterIsBelow(all, limit, x);
    }
    OneOrder(Descending(below), all[limit..]);
  }

  lemma AfterIsBelow(all: seq<nat>, limit: nat, x: nat)
    requires StrictlyDescends(all) && 0 < limit < |all|
    ensures x in all[limit..] <==> x in all && x < all[limit - 1]
  {
    if x in all && x < all[limit - 1] {
      var i :| 0 <= i < |all| && all[i] == x;
      assert all[limit..][i - limit] == x;
    }
  }

  /** The pages got by following each cursor to the next page. */
  ghost function Walk(matching: set<nat>, validity: nat, cursor: Option<Cursor>, limit: nat): (pages: seq<seq<nat>>)
    requires limit >= 1 && 0 !in matching
    decreases |Descending(if cursor.Some? then Below(matching, cursor.value.uid) else matching)|
  {
    var page := List(matching, validity, cursor, limit);
    if page.next.None? then [page.uids]
    else
      Progress(matching, validity, cursor, limit);
      [page.uids] + Walk(matching, validity, page.next, limit)
  }

  function Reach(matching: set<nat>, cursor: Option<Cursor>): (s: set<nat>) {
    if cursor.Some? then Below(matching, cursor.value.uid) else matching
  }

  lemma Progress(matching: set<nat>, validity: nat, cursor: Option<Cursor>, limit: nat)
    requires limit >= 1 && List(matching, validity, cursor, limit).next.Some?
    ensures var next := List(matching, validity, cursor, limit).next;
      && Descending(Reach(matching, next)) == Descending(Reach(matching, cursor))[limit..]
      && List(matching, validity, cursor, limit).uids == Descending(Reach(matching, cursor))[..limit]
      && |Descending(Reach(matching, next))| < |Descending(Reach(matching, cursor))|
      && next.value.validity == validity && next.value.uid in matching && Reach(matching, next) != {}
  {
    var s := Reach(matching, cursor);
    var all := Descending(s);
    RestBelow(s, limit);
    assert all[limit - 1] in s && all[limit] in s && all[limit] < all[limit - 1];
    BelowBelow(matching, cursor, all[limit - 1]);
    assert all[limit] in Below(s, all[limit - 1]);
  }

  lemma BelowBelow(matching: set<nat>, cursor: Option<Cursor>, uid: nat)
    requires uid in Reach(matching, cursor)
    ensures uid in matching && Below(Reach(matching, cursor), uid) == Below(matching, uid)
  {
  }

  /** With nothing left over, the page is everything in reach. */
  lemma LastPage(matching: set<nat>, validity: nat, cursor: Option<Cursor>, limit: nat)
    requires limit >= 1 && List(matching, validity, cursor, limit).next.None?
    requires cursor.Some? ==> cursor.value.validity == validity && cursor.value.uid > 1
    ensures List(matching, validity, cursor, limit).uids == Descending(Reach(matching, cursor))
  {
  }

  lemma JoinedOne(all: seq<nat>)
    ensures Flatten([all]) == all
  {
    assert [all][1..] == [];
    assert Flatten<nat>([]) == [];
  }

  lemma JoinedMore(all: seq<nat>, limit: nat, rest: seq<seq<nat>>)
    requires limit <= |all| && Flatten(rest) == all[limit..]
    ensures Flatten([all[..limit]] + rest) == all
  {
    assert ([all[..limit]] + rest)[1..] == rest;
    assert all[..limit] + all[limit..] == all;
  }

  /**
   * Following cursors ends, and the pages laid end to end are all matching
   * UIDs, highest first: none is missed, none comes twice.
   */
  lemma {:induction false} WalkVisitsAll(matching: set<nat>, validity: nat, cursor: Option<Cursor>, limit: nat)
    requires limit >= 1 && 0 !in matching
    requires cursor.Some? ==> cursor.value.validity == validity && cursor.value.uid > 1
    ensures Flatten(Walk(matching, validity, cursor, limit)) == Descending(Reach(matching, cursor))
    decreases |Descending(Reach(matching, cursor))|
  {
    var page := List(matching, validity, cursor, limit);
    var all := Descending(Reach(matching, cursor));
    if page.next.None? {
      LastPage(matching, validity, cursor, limit);
      JoinedOne(page.uids);
    } else {
      Progress(matching, validity, cursor, limit);
      CursorReaches(matching, page.next);
      WalkVisitsAll(matching, validity, page.next, limit);
      var rest := Walk(matching, validity, page.next, limit);
      JoinedMore(all, limit, rest);
      assert Walk(matching, validity, cursor, limit) == [all[..limit]] + rest;
    }
  }

  lemma CursorReaches(matching: set<nat>, cursor: Option<Cursor>)
    requires 0 !in matching && cursor.Some? && Reach(matching, cursor) != {}
    ensures cursor.value.uid > 1
  {
    var x :| x in Reach(matching, cursor);
    assert x != 0;
  }

  /** Under another UIDVALIDITY a cursor leads to an empty last page. */
  lemma StaleCursorEnds(matching: set<nat>, validity: nat, cursor: Cursor, limit: nat)
    requires limit >= 1 && 0 !in matching && cursor.validity != validity
    ensures Walk(matching, validity, Some(cursor), limit) == [[]]
  {
  }
}
