/** Text cut into prose and links, wherever a finder says links stand (app/src/lib/links.ts:113-139). */
module Segments {
  import opened Common

  datatype Segment = Prose(text: string) | Link(url: string) {
    function Text(): (s: string) {
      match this case Prose(s) => s case Link(u) => u
    }
  }

  function Concat(segments: seq<Segment>): (s: string) {
    if segments == [] then "" else segments[0].Text() + Concat(segments[1..])
  }

  /** How long the match at the front of a text is, and how much of a match is a link; 0 if there is none. */
  datatype Pattern = Pattern(length: string -> nat, link: string -> nat)

  function Min(a: nat, b: nat): (m: nat) {
    if a < b then a else b
  }

  predicate IsAlnum(c: char) {
    'a' <= c <= 'z' || 'A' <= c <= 'Z' || '0' <= c <= '9'
  }

  /** Where the pattern next matches, at or after `from`. */
  function NextMatch(p: Pattern, text: string, from: nat): (start: nat)
    requires from <= |text|
    ensures from <= start <= |text| && (start < |text| ==> p.length(text[start..]) > 0)
    decreases |text| - from
  {
    if from == |text| || p.length(text[from..]) > 0 then from else NextMatch(p, text, from + 1)
  }

  lemma {:induction false} NextMatchIs(p: Pattern, text: string, from: nat, start: nat)
    requires from <= start <= |text| && (forall i | from <= i < start :: p.length(text[i..]) == 0)
    requires start < |text| ==> p.length(text[start..]) > 0
    ensures NextMatch(p, text, from) == start
    decreases start - from
  {
    if from < start {
      NextMatchIs(p, text, from + 1, start);
    }
  }

  /** Where the match at `start` ends. */
  function MatchEnd(p: Pattern, text: string, start: nat): (end: nat)
    requires start <= |text|
    ensures start <= end <= |text|
  {
    Min(start + p.length(text[start..]), |text|)
  }

  /** Where the link at a match ends; at `start` if there is none, as inside a longer word. */
  function LinkEnd(p: Pattern, text: string, start: nat): (end: nat)
    requires start < |text|
    ensures start <= end <= |text|
  {
    if start > 0 && IsAlnum(text[start - 1]) then start
    else Min(start + p.link(text[start..MatchEnd(p, text, start)]), |text|)
  }

  /** The text between, if any. */
  function ProseOf(s: string): (segments: seq<Segment>) {
    if s == "" then [] else [Prose(s)]
  }

  /** The text from `cursor` on, scanned from `scan`: behind a link the scan goes on right there, behind another match after it. */
  ghost function From(p: Pattern, text: string, cursor: nat, scan: nat): (segments: seq<Segment>)
    requires cursor <= scan <= |text|
    decreases |text| - scan
  {
    var start := NextMatch(p, text, scan);
    if start == |text| then ProseOf(text[cursor..])
    else
      var end := LinkEnd(p, text, start);
      if end == start then From(p, text, cursor, MatchEnd(p, text, start))
      else LinkFrom(text, cursor, start, end) + From(p, text, end, end)
  }

  /** A link, and the prose before it. */
  function LinkFrom(text: string, cursor: nat, start: nat, end: nat): (segments: seq<Segment>)
    requires cursor <= start <= end <= |text|
  {
    ProseOf(text[cursor..start]) + [Link(text[start..end])]
  }

  lemma {:induction false} ConcatAppend(a: seq<Segment>, b: seq<Segment>)
    ensures Concat(a + b) == Concat(a) + Concat(b)
  {
    if a == [] {
      assert a + b == b;
    } else {
      assert (a + b)[1..] == a[1..] + b;
      ConcatAppend(a[1..], b);
      Regrouped(a[0].Text(), Concat(a[1..]), Concat(b));
    }
  }

  lemma Regrouped<T>(a: seq<T>, b: seq<T>, c: seq<T>)
    ensures a + b + c == a + (b + c)
  {
  }

  lemma ConcatOne(s: Segment)
    ensures Concat([s]) == s.Text()
  {
    assert Concat([s][1..]) == "";
  }

  /** The segments, laid end to end, are the text, whatever the pattern finds. */
  lemma {:induction false} FromIsText(p: Pattern, text: string, cursor: nat, scan: nat)
    requires cursor <= scan <= |text|
    ensures Concat(From(p, text, cursor, scan)) == text[cursor..]
    decreases |text| - scan
  {
    var start := NextMatch(p, text, scan);
    if start == |text| {
      ConcatProse(text[cursor..]);
    } else {
      var end := LinkEnd(p, text, start);
      if end == start {
        FromIsText(p, text, cursor, MatchEnd(p, text, start));
      } else {
        FromIsText(p, text, end, end);
        LinkIsText(text, cursor, start, end, From(p, text, end, end));
      }
    }
  }

  lemma LinkIsText(text: string, cursor: nat, start: nat, end: nat, rest: seq<Segment>)
    requires cursor <= start <= end <= |text| && Concat(rest) == text[end..]
    ensures Concat(LinkFrom(text, cursor, start, end) + rest) == text[cursor..]
  {
    ConcatThree(ProseOf(text[cursor..start]), Link(text[start..end]), rest);
    ConcatProse(text[cursor..start]);
    CutInThree(text, cursor, start, end);
  }

  lemma ConcatThree(a: seq<Segment>, b: Segment, c: seq<Segment>)
    ensures Concat(a + [b] + c) == Concat(a) + b.Text() + Concat(c)
  {
    ConcatOne(b);
    ConcatAppend(a, [b]);
    ConcatAppend(a + [b], c);
  }

  lemma ConcatProse(s: string)
    ensures Concat(ProseOf(s)) == s
  {
    if s != "" { ConcatOne(Prose(s)); }
  }

  lemma CutInThree(text: string, a: nat, b: nat, c: nat)
    requires a <= b <= c <= |text|
    ensures text[a..b] + text[b..c] + text[c..] == text[a..]
  {
  }

  /** Every link shown is one some match came to. */
  ghost predicate FromMatch(p: Pattern, s: Segment) {
    s.Link? ==> exists found :: 0 < p.link(found) <= |found| && s.url == found[..p.link(found)]
  }

  /** No more than the match is a link. */
  ghost predicate Sound(p: Pattern) {
    forall s :: p.link(s) <= |s|
  }

  lemma {:induction false} LinksAreMatches(p: Pattern, text: string, cursor: nat, scan: nat)
    requires Sound(p) && cursor <= scan <= |text|
    ensures forall s | s in From(p, text, cursor, scan) :: FromMatch(p, s)
    decreases |text| - scan
  {
    var start := NextMatch(p, text, scan);
    if start < |text| {
      var end := LinkEnd(p, text, start);
      if end == start {
        LinksAreMatches(p, text, cursor, MatchEnd(p, text, start));
      } else {
        LinksAreMatches(p, text, end, end);
        LinkIsMatch(p, text, start);
      }
    }
  }

  lemma LinkIsMatch(p: Pattern, text: string, start: nat)
    requires Sound(p) && start < |text| && LinkEnd(p, text, start) > start
    ensures FromMatch(p, Link(text[start..LinkEnd(p, text, start)]))
  {
    var found := text[start..MatchEnd(p, text, start)];
    assert text[start..LinkEnd(p, text, start)] == found[..p.link(found)];
  }

  /** So if what matches come to is good, every link shown is. */
  lemma LinksAreGood(p: Pattern, good: string -> bool, text: string)
    requires Sound(p) && ComesTo(p, good)
    ensures forall s | s in From(p, text, 0, 0) && s.Link? :: good(s.url)
  {
    LinksAreMatches(p, text, 0, 0);
  }

  ghost predicate ComesTo(p: Pattern, good: string -> bool) {
    forall found: string :: 0 < p.link(found) <= |found| ==> good(found[..p.link(found)])
  }

  // ------------------------------------------------------------- the loop --

  method FindMatch(p: Pattern, text: string, from: nat) returns (start: nat)
    requires from <= |text|
    ensures start == NextMatch(p, text, from)
  {
    start := from;
    while start < |text| && p.length(text[start..]) == 0
      invariant from <= start <= |text| && NextMatch(p, text, start) == NextMatch(p, text, from)
    {
      start := start + 1;
    }
  }

  method CutText(p: Pattern, ghost good: string -> bool, text: string) returns (segments: seq<Segment>)
    requires Sound(p) && ComesTo(p, good)
    ensures segments == From(p, text, 0, 0)
    ensures Concat(segments) == text
    ensures forall s | s in segments && s.Link? :: good(s.url)
  {
    FromIsText(p, text, 0, 0);
    assert text[0..] == text;
    LinksAreGood(p, good, text);
    segments := [];
    var cursor: nat, scan: nat := 0, 0;
    var start := FindMatch(p, text, scan);
    while start < |text|
      invariant cursor <= scan <= |text| && start == NextMatch(p, text, scan)
      invariant segments + From(p, text, cursor, scan) == From(p, text, 0, 0)
      decreases |text| - scan
    {
      segments, cursor, scan := Turn(p, segments, text, cursor, scan, start);
      start := FindMatch(p, text, scan);
    }
    if cursor < |text| {
      segments := segments + [Prose(text[cursor..])];
    }
  }

  /** One turn of the loop, at a match. */
  method Turn(p: Pattern, segments: seq<Segment>, text: string, cursor: nat, scan: nat, start: nat)
    returns (more: seq<Segment>, cursor': nat, scan': nat)
    requires cursor <= scan <= start < |text| && start == NextMatch(p, text, scan)
    ensures cursor' <= scan' <= |text| && scan < scan'
    ensures more + From(p, text, cursor', scan') == segments + From(p, text, cursor, scan)
  {
    var end := FindEnd(p, text, start);
    if end == start {
      return segments, cursor, MatchEnd(p, text, start);
    }
    more := segments;
    if start > cursor {
      more := more + [Prose(text[cursor..start])];
    }
    more := more + [Link(text[start..end])];
    // What was trimmed is read again as text.
    cursor', scan' := end, end;
    OneTurn(segments, text, cursor, start, end, From(p, text, end, end), more);
  }

  method FindEnd(p: Pattern, text: string, start: nat) returns (end: nat)
    requires start < |text|
    ensures end == LinkEnd(p, text, start)
  {
    // Part of a longer word is no link.
    if start > 0 && IsAlnum(text[start - 1]) {
      return start;
    }
    end := Min(start + p.link(text[start..MatchEnd(p, text, start)]), |text|);
  }

  lemma OneTurn(segments: seq<Segment>, text: string, cursor: nat, start: nat, end: nat, rest: seq<Segment>, more: seq<Segment>)
    requires cursor <= start <= end <= |text|
    requires more == segments + (if start > cursor then [Prose(text[cursor..start])] else []) + [Link(text[start..end])]
    ensures more + rest == segments + (LinkFrom(text, cursor, start, end) + rest)
  {
    Regrouped(segments, ProseOf(text[cursor..start]), [Link(text[start..end])]);
    Regrouped(segments, LinkFrom(text, cursor, start, end), rest);
  }

  // ---------------------------------------------------- a text of pieces --

  datatype Piece = Piece(url: string, after: string)

  function TextOf(pieces: seq<Piece>): (s: string) {
    if pieces == [] then "" else pieces[0].url + pieces[0].after + TextOf(pieces[1..])
  }

  function ShownAs(pieces: seq<Piece>): (segments: seq<Segment>) {
    if pieces == [] then [] else [Link(pieces[0].url)] + ProseOf(pieces[0].after) + ShownAs(pieces[1..])
  }

  /** Where in the text a link stands. */
  datatype Hit = Hit(start: nat, end: nat)

  /** A text as the loop sees it: the next match from a place on, where the link at a match ends, and how long it is. */
  datatype Scan = Scan(next: nat -> nat, end: nat -> nat, size: nat)

  function ScanOf(p: Pattern, text: string): (s: Scan) {
    Scan((from: nat) => if from <= |text| then NextMatch(p, text, from) else from,
         (start: nat) => if start < |text| then LinkEnd(p, text, start) else start, |text|)
  }

  /** From `scan` on these are the links. */
  ghost predicate Finds(s: Scan, scan: nat, hits: seq<Hit>)
    decreases |hits|
  {
    if hits == [] then s.next(scan) == s.size
    else
      && s.next(scan) == hits[0].start < hits[0].end <= s.size && s.end(hits[0].start) == hits[0].end
      && Finds(s, hits[0].end, hits[1..])
  }

  predicate InOrder(from: nat, hits: seq<Hit>, to: nat)
    decreases |hits|
  {
    if hits == [] then from <= to
    else from <= hits[0].start <= hits[0].end && InOrder(hits[0].end, hits[1..], to)
  }

  lemma {:induction false} EndsInside(from: nat, hits: seq<Hit>, to: nat)
    requires InOrder(from, hits, to)
    ensures from <= to
    decreases |hits|
  {
    if hits != [] { EndsInside(hits[0].end, hits[1..], to); }
  }

  /** The text from `cursor` on, cut at these places. */
  function CutAt(text: string, cursor: nat, hits: seq<Hit>): (segments: seq<Segment>)
    requires InOrder(cursor, hits, |text|)
    decreases |hits|
  {
    EndsInside(cursor, hits, |text|);
    if hits == [] then ProseOf(text[cursor..])
    else
      EndsInside(hits[0].end, hits[1..], |text|);
      LinkFrom(text, cursor, hits[0].start, hits[0].end) + CutAt(text, hits[0].end, hits[1..])
  }

  lemma {:induction false} FindsShown(p: Pattern, text: string, cursor: nat, scan: nat, hits: seq<Hit>)
    requires cursor <= scan <= |text| && Finds(ScanOf(p, text), scan, hits)
    ensures InOrder(cursor, hits, |text|) && From(p, text, cursor, scan) == CutAt(text, cursor, hits)
    decreases |hits|
  {
    if hits != [] {
      FindsShown(p, text, hits[0].end, hits[0].end, hits[1..]);
    }
  }

  /** Where the links of the pieces stand, the first at `at`. */
  function HitsOf(at: nat, pieces: seq<Piece>): (hits: seq<Hit>)
    decreases |pieces|
  {
    if pieces == [] then []
    else [Hit(at, at + |pieces[0].url|)] + HitsOf(at + |pieces[0].url| + |pieces[0].after|, pieces[1..])
  }

  lemma PiecePlaces(text: string, at: nat, url: string, after: string, rest: string)
    requires at <= |text| && text[at..] == url + after + rest
    ensures var (end, next) := (at + |url|, at + |url| + |after|);
      next <= |text| && text[at..end] == url && text[end..next] == after && text[next..] == rest
  {
    var (end, next) := (at + |url|, at + |url| + |after|);
    var all := url + after + rest;
    assert |text| - at == |all|;
    assert text[at..end] == text[at..][..|url|] && all[..|url|] == url;
    assert text[end..next] == text[at..][|url|..|url| + |after|] && all[|url|..|url| + |after|] == after;
    assert text[next..] == text[at..][|url| + |after|..] && all[|url| + |after|..] == rest;
  }

  /** From `at` on the text is these pieces. */
  predicate Laid(text: string, at: nat, pieces: seq<Piece>)
    decreases |pieces|
  {
    if pieces == [] then at == |text|
    else
      var end := at + |pieces[0].url|;
      var next := end + |pieces[0].after|;
      next <= |text| && text[at..end] == pieces[0].url && text[end..next] == pieces[0].after && Laid(text, next, pieces[1..])
  }

  lemma {:induction false} TextIsLaid(text: string, at: nat, pieces: seq<Piece>)
    requires at <= |text| && text[at..] == TextOf(pieces)
    ensures Laid(text, at, pieces)
    decreases |pieces|
  {
    if pieces == [] {
      assert |text[at..]| == 0;
    } else {
      PiecePlaces(text, at, pieces[0].url, pieces[0].after, TextOf(pieces[1..]));
      TextIsLaid(text, at + |pieces[0].url| + |pieces[0].after|, pieces[1..]);
    }
  }

  /** Cut at the links of its pieces, a text is its pieces. */
  lemma {:induction false} PiecesCut(text: string, cursor: nat, at: nat, pieces: seq<Piece>)
    requires cursor <= at <= |text| && Laid(text, at, pieces)
    ensures InOrder(cursor, HitsOf(at, pieces), |text|)
    ensures CutAt(text, cursor, HitsOf(at, pieces)) == ProseOf(text[cursor..at]) + ShownAs(pieces)
    decreases |pieces|
  {
    if pieces == [] {
      assert text[cursor..at] == text[cursor..];
    } else {
      var end := at + |pieces[0].url|;
      var next := end + |pieces[0].after|;
      PiecesCut(text, end, next, pieces[1..]);
      OneCut(text, cursor, at, end, HitsOf(next, pieces[1..]), pieces[0].after, ShownAs(pieces[1..]));
    }
  }

  lemma OneCut(text: string, cursor: nat, at: nat, end: nat, hits: seq<Hit>, after: string, shown: seq<Segment>)
    requires cursor <= at <= end <= |text| && InOrder(end, hits, |text|) && CutAt(text, end, hits) == ProseOf(after) + shown
    ensures InOrder(cursor, [Hit(at, end)] + hits, |text|)
    ensures CutAt(text, cursor, [Hit(at, end)] + hits) == ProseOf(text[cursor..at]) + ([Link(text[at..end])] + ProseOf(after) + shown)
  {
    assert ([Hit(at, end)] + hits)[1..] == hits;
    InPieces(ProseOf(text[cursor..at]), [Link(text[at..end])], ProseOf(after), shown);
  }

  lemma InPieces<T>(a: seq<T>, b: seq<T>, c: seq<T>, d: seq<T>)
    ensures a + b + (c + d) == a + (b + c + d)
  {
  }

  // ------------------------------------------------------- reading pieces --

  predicate NoColon(text: string, from: nat, to: nat)
    requires from <= to <= |text|
  {
    forall k | from <= k < to :: text[k] != ':'
  }

  /** Text that neither begins a link nor carries one on, nor makes the next one part of a word. */
  predicate Plain(inUrl: char -> bool, prose: string) {
    ':' !in prose && (prose != "" ==> !inUrl(prose[0]) && !IsAlnum(prose[|prose| - 1]))
  }

  /** Clean links, each with prose of its own behind it. */
  ghost predicate Readable(clean: string -> bool, inUrl: char -> bool, pieces: seq<Piece>) {
    && (forall i | 0 <= i < |pieces| :: clean(pieces[i].url) && Plain(inUrl, pieces[i].after))
    && (forall i | 0 <= i < |pieces| - 1 :: pieces[i].after != "")
  }

  ghost predicate MatchesWhole(p: Pattern, url: string, rest: string) {
    url != "" && p.length(url + rest) == |url| && p.link(url) == |url|
  }

  /** A clean link is matched whole, and nothing before it that has no colon. */
  ghost predicate ReadsAs(p: Pattern, clean: string -> bool, inUrl: char -> bool) {
    && (forall url, rest: string {:trigger MatchesWhole(p, url, rest)} | clean(url) && (rest != "" ==> !inUrl(rest[0])) :: MatchesWhole(p, url, rest))
    && (forall text: string, i: nat, q: nat {:trigger NoneBefore(p, text, i, q)} | i < q <= |text| && NoColon(text, i, q) :: NoneBefore(p, text, i, q))
  }

  /** Unless something else than a match or the end comes at `q`, none begins at `i`. */
  predicate NoneBefore(p: Pattern, text: string, i: nat, q: nat)
    requires i <= q <= |text|
  {
    (q < |text| ==> p.length(text[q..]) > 0) ==> p.length(text[i..]) == 0
  }

  lemma NextIs(p: Pattern, clean: string -> bool, inUrl: char -> bool, text: string, from: nat, q: nat)
    requires ReadsAs(p, clean, inUrl) && from <= q <= |text| && NoColon(text, from, q)
    requires q < |text| ==> p.length(text[q..]) > 0
    ensures NextMatch(p, text, from) == q
  {
    forall i: nat | from <= i < q ensures p.length(text[i..]) == 0 {
      assert NoColon(text, i, q) && NoneBefore(p, text, i, q);
    }
    NextMatchIs(p, text, from, q);
  }

  /** Where a clean link stands there is a match, all of it a link. */
  lemma LinkIsThere(p: Pattern, clean: string -> bool, inUrl: char -> bool, text: string, at: nat, url: string, after: string, rest: string)
    requires ReadsAs(p, clean, inUrl) && clean(url) && Plain(inUrl, after) && (after == "" ==> rest == "")
    requires at <= |text| && text[at..] == url + after + rest && (at > 0 ==> !IsAlnum(text[at - 1]))
    ensures url != "" && at < |text| && p.length(text[at..]) > 0 && LinkEnd(p, text, at) == at + |url|
  {
    PiecePlaces(text, at, url, after, rest);
    assert text[at..] == url + (after + rest);
    assert after != "" ==> (after + rest)[0] == after[0];
    assert MatchesWhole(p, url, after + rest);
  }

  lemma ReadableRest(clean: string -> bool, inUrl: char -> bool, pieces: seq<Piece>)
    requires Readable(clean, inUrl, pieces) && pieces != []
    ensures clean(pieces[0].url) && Plain(inUrl, pieces[0].after) && Readable(clean, inUrl, pieces[1..])
    ensures pieces[0].after == "" ==> pieces[1..] == []
  {
    assert forall i | 0 <= i < |pieces| - 1 :: pieces[1..][i] == pieces[i + 1];
  }

  /** Prose behind a link has no colon and ends no word. */
  lemma ProseBetween(inUrl: char -> bool, text: string, end: nat, after: string, next: nat)
    requires end <= next <= |text| && text[end..next] == after && Plain(inUrl, after)
    ensures NoColon(text, end, next) && (after != "" ==> !IsAlnum(text[next - 1]))
  {
    assert forall k | end <= k < next :: text[k] == after[k - end] && after[k - end] in after;
  }

  lemma FirstHit(at: nat, pieces: seq<Piece>)
    requires pieces != []
    ensures var hits := HitsOf(at, pieces);
      && hits != [] && hits[0] == Hit(at, at + |pieces[0].url|)
      && hits[1..] == HitsOf(at + |pieces[0].url| + |pieces[0].after|, pieces[1..])
  {
  }

  lemma FirstMatched(p: Pattern, clean: string -> bool, inUrl: char -> bool, text: string, scan: nat, at: nat, end: nat, next: nat)
    requires scan <= at <= end <= next <= |text| && NoColon(text, scan, at) && (at > 0 ==> !IsAlnum(text[at - 1]))
    requires ReadsAs(p, clean, inUrl) && clean(text[at..end]) && Plain(inUrl, text[end..next]) && (next == end ==> next == |text|)
    ensures NextMatch(p, text, scan) == at < |text| && LinkEnd(p, text, at) == end > at
  {
    assert text[at..] == text[at..end] + text[end..next] + text[next..];
    LinkIsThere(p, clean, inUrl, text, at, text[at..end], text[end..next], text[next..]);
    NextIs(p, clean, inUrl, text, scan, at);
  }

  lemma OnePieceFound(s: Scan, scan: nat, at: nat, pieces: seq<Piece>)
    requires pieces != []
    requires var end := at + |pieces[0].url|;
      && s.next(scan) == at < end <= s.size && s.end(at) == end
      && Finds(s, end, HitsOf(end + |pieces[0].after|, pieces[1..]))
    ensures Finds(s, scan, HitsOf(at, pieces))
  {
    FirstHit(at, pieces);
  }

  lemma FirstPiece(clean: string -> bool, inUrl: char -> bool, text: string, at: nat, pieces: seq<Piece>)
    requires Readable(clean, inUrl, pieces) && pieces != [] && Laid(text, at, pieces)
    ensures var end := at + |pieces[0].url|;
      var next := end + |pieces[0].after|;
      && next <= |text| && clean(text[at..end]) && Plain(inUrl, text[end..next]) && (next == end ==> next == |text|)
      && Readable(clean, inUrl, pieces[1..]) && Laid(text, next, pieces[1..])
      && NoColon(text, end, next) && (pieces[1..] != [] ==> !IsAlnum(text[next - 1]))
  {
    var end := at + |pieces[0].url|;
    ReadableRest(clean, inUrl, pieces);
    ProseBetween(inUrl, text, end, pieces[0].after, end + |pieces[0].after|);
  }

  /** The next match from `scan` is at `at`, and all of the first piece's link. */
  ghost predicate FirstFound(s: Scan, scan: nat, at: nat, pieces: seq<Piece>) {
    && s.next(scan) == at
    && if pieces == [] then at == s.size
       else at < at + |pieces[0].url| <= s.size && s.end(at) == at + |pieces[0].url|
  }

  type Place = (nat, nat, seq<Piece>)

  /** One step is looked at, and no further one by itself. */
  predicate Looked(place: Place) {
    true
  }

  ghost predicate Steady(s: Scan, k: Place -> bool) {
    forall place: Place {:trigger Looked(place)} | Looked(place) && k(place) ::
      FirstFound(s, place.0, place.1, place.2) && (place.2 != [] ==> k(Onward(place)))
  }

  /** Behind the first link, at the next. */
  function Onward(place: Place): (next: Place)
    requires place.2 != []
  {
    var (_, at, pieces) := place;
    (at + |pieces[0].url|, at + |pieces[0].url| + |pieces[0].after|, pieces[1..])
  }

  /** What holds of the pieces and goes on to the rest of them finds them all. */
  lemma {:induction false} StepByStep(s: Scan, k: Place -> bool, place: Place)
    requires Steady(s, k) && k(place)
    ensures Finds(s, place.0, HitsOf(place.1, place.2))
    decreases |place.2|
  {
    assert Looked(place);
    if place.2 != [] {
      StepByStep(s, k, Onward(place));
      OnePieceFound(s, place.0, place.1, place.2);
    }
  }

  /** From `at` on there are clean links in plain prose, and nothing but prose from `scan` to there. */
  ghost predicate Ahead(clean: string -> bool, inUrl: char -> bool, text: string, scan: nat, at: nat, pieces: seq<Piece>) {
    && Readable(clean, inUrl, pieces) && scan <= at <= |text| && Laid(text, at, pieces) && NoColon(text, scan, at)
    && (pieces != [] && at > 0 ==> !IsAlnum(text[at - 1]))
  }

  lemma AheadStep(p: Pattern, clean: string -> bool, inUrl: char -> bool, text: string, scan: nat, at: nat, pieces: seq<Piece>)
    requires ReadsAs(p, clean, inUrl) && Ahead(clean, inUrl, text, scan, at, pieces)
    ensures FirstFound(ScanOf(p, text), scan, at, pieces)
    ensures pieces != [] ==>
      Ahead(clean, inUrl, text, at + |pieces[0].url|, at + |pieces[0].url| + |pieces[0].after|, pieces[1..])
  {
    if pieces == [] {
      NextIs(p, clean, inUrl, text, scan, at);
    } else {
      FirstPiece(clean, inUrl, text, at, pieces);
      FirstMatched(p, clean, inUrl, text, scan, at, at + |pieces[0].url|, at + |pieces[0].url| + |pieces[0].after|);
    }
  }

  ghost predicate AheadAt(clean: string -> bool, inUrl: char -> bool, text: string, place: Place) {
    Ahead(clean, inUrl, text, place.0, place.1, place.2)
  }

  lemma AheadGoesOn(p: Pattern, clean: string -> bool, inUrl: char -> bool, text: string, place: Place)
    requires ReadsAs(p, clean, inUrl) && AheadAt(clean, inUrl, text, place)
    ensures FirstFound(ScanOf(p, text), place.0, place.1, place.2)
    ensures place.2 != [] ==> AheadAt(clean, inUrl, text, Onward(place))
  {
    AheadStep(p, clean, inUrl, text, place.0, place.1, place.2);
  }

  lemma AheadIsSteady(p: Pattern, clean: string -> bool, inUrl: char -> bool, text: string)
    requires ReadsAs(p, clean, inUrl)
    ensures Steady(ScanOf(p, text), place => AheadAt(clean, inUrl, text, place))
  {
    var k := place => AheadAt(clean, inUrl, text, place);
    forall place: Place | Looked(place) && k(place)
      ensures FirstFound(ScanOf(p, text), place.0, place.1, place.2) && (place.2 != [] ==> k(Onward(place)))
    {
      AheadGoesOn(p, clean, inUrl, text, place);
    }
  }

  lemma PiecesAreFound(p: Pattern, clean: string -> bool, inUrl: char -> bool, text: string, scan: nat, at: nat, pieces: seq<Piece>)
    requires ReadsAs(p, clean, inUrl) && Ahead(clean, inUrl, text, scan, at, pieces)
    ensures Finds(ScanOf(p, text), scan, HitsOf(at, pieces))
  {
    AheadIsSteady(p, clean, inUrl, text);
    StepByStep(ScanOf(p, text), place => AheadAt(clean, inUrl, text, place), (scan, at, pieces));
  }

  /** A text of clean links in plain prose is shown as its pieces. */
  lemma PiecesAreShown(p: Pattern, clean: string -> bool, inUrl: char -> bool, first: string, pieces: seq<Piece>)
    requires ReadsAs(p, clean, inUrl) && Readable(clean, inUrl, pieces)
    requires ':' !in first && (first != "" ==> !IsAlnum(first[|first| - 1]))
    ensures From(p, first + TextOf(pieces), 0, 0) == ProseOf(first) + ShownAs(pieces)
  {
    var text := first + TextOf(pieces);
    assert text[|first|..] == TextOf(pieces) && text[0..|first|] == first;
    forall k | 0 <= k < |first| ensures text[k] != ':' { assert text[k] in first; }
    TextIsLaid(text, |first|, pieces);
    PiecesAreFound(p, clean, inUrl, text, 0, |first|, pieces);
    PiecesCut(text, 0, |first|, pieces);
    FindsShown(p, text, 0, 0, HitsOf(|first|, pieces));
  }

  /** A link right behind a word is part of it: the whole is prose. */
  lemma InAWordIsProse(p: Pattern, clean: string -> bool, inUrl: char -> bool, word: string, url: string, after: string)
    requires ReadsAs(p, clean, inUrl) && word != "" && ':' !in word && IsAlnum(word[|word| - 1]) && clean(url) && Plain(inUrl, after)
    ensures From(p, word + url + after, 0, 0) == [Prose(word + url + after)]
  {
    var text := word + url + after;
    var (at, end) := (|word|, |word| + |url|);
    WordPlaces(word, url, after);
    assert MatchesWhole(p, url, after);
    NextIs(p, clean, inUrl, text, 0, at);
    ProseBetween(inUrl, text, end, after, |text|);
    NextIs(p, clean, inUrl, text, end, |text|);
    NoLinkAfter(p, text, at, end);
    assert text[0..] == text;
  }

  lemma WordPlaces(word: string, url: string, after: string)
    requires ':' !in word
    ensures var (text, at) := (word + url + after, |word|);
      && text[at..] == url + after && text[at + |url|..] == after && text[at + |url|..|text|] == after && NoColon(text, 0, at)
      && (word != "" ==> text[at - 1] == word[at - 1])
  {
    var text := word + url + after;
    forall k | 0 <= k < |word| ensures text[k] != ':' { assert text[k] == word[k] && word[k] in word; }
  }

  lemma NoLinkAfter(p: Pattern, text: string, at: nat, end: nat)
    requires 0 < at < end <= |text| && IsAlnum(text[at - 1]) && MatchEnd(p, text, at) == end
    requires NextMatch(p, text, 0) == at && NextMatch(p, text, end) == |text|
    ensures From(p, text, 0, 0) == ProseOf(text[0..])
  {
  }
}
