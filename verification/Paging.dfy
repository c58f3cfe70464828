module Paging {

  // Paged delivery of an append-only event log. A page is what follows a cursor, up to a
  // limit; the last event of a page is the cursor of the next, which is the last event ID a
  // client sends on reconnecting (section 9.2 of the WHATWG HTML Standard).

  /** Identifiers grow with the log but need not be consecutive. */
  datatype Event = Event(id: nat, body: nat)

  datatype Page = Page(version: nat, cursor: nat, hasMore: bool, reset: bool, changes: seq<Event>)

  ghost predicate Above(log: seq<Event>, id: int) {
    forall e :: e in log ==> e.id > id
  }

  /** Every event comes before all those with greater identifiers. */
  ghost predicate Ordered(log: seq<Event>)
    decreases |log|
  {
    log == [] || (log[0].id >= 1 && Above(log[1..], log[0].id) && Ordered(log[1..]))
  }

  /** The identifier of the newest event. */
  function Version(log: seq<Event>): nat {
    if log == [] then 0 else log[|log| - 1].id
  }

  /** The events after one cursor and up to another, in the order of the log. */
  function Between(log: seq<Event>, after: int, upto: int): seq<Event>
    decreases |log|
  {
    if log == [] then []
    else if after < log[0].id <= upto then [log[0]] + Between(log[1..], after, upto)
    else Between(log[1..], after, upto)
  }

  function After(log: seq<Event>, after: int): seq<Event>
    decreases |log|
  {
    if log == [] then []
    else if log[0].id > after then [log[0]] + After(log[1..], after)
    else After(log[1..], after)
  }

  function Clamp(low: int, high: int, x: int): int {
    if x < low then low else if x > high then high else x
  }

  function Take(s: seq<Event>, n: nat): seq<Event> {
    if |s| <= n then s else s[..n]
  }

  function PageSize(limit: int): (size: nat)
    ensures 1 <= size <= 500 && (1 <= limit <= 500 ==> size == limit)
    ensures (limit < 1 ==> size == 1) && (limit > 500 ==> size == 500)
  {
    Clamp(1, 500, limit)
  }

  /** Where a page begins: an unreachable cursor begins again. */
  function Origin(log: seq<Event>, after: int): nat {
    if after < 0 || after > Version(log) then 0 else after
  }

  /** A page cut from rows read with one more than it shows. */
  function Cut(read: seq<Event>, size: nat, version: nat, origin: nat, reset: bool): Page {
    var changes := Take(read, size);
    Page(version, if changes != [] then changes[|changes| - 1].id else origin, |read| > size, reset, changes)
  }

  function PageOf(log: seq<Event>, after: int, limit: int): Page {
    var origin, size := Origin(log, after), PageSize(limit);
    Cut(Take(After(log, origin), size + 1), size, Version(log), origin, after > Version(log))
  }

  /** The first rows after a cursor, up to a number. */
  method Scan(log: seq<Event>, after: int, most: nat) returns (read: seq<Event>)
    requires most > 0
    ensures read == Take(After(log, after), most)
  {
    read := [];
    var i := 0;
    assert log[0..] == log;
    while i < |log| && |read| < most
      invariant 0 <= i <= |log| && |read| <= most
      invariant After(log, after) == read + After(log[i..], after)
    {
      var rest := log[i..];
      assert rest[0] == log[i] && rest[1..] == log[i + 1..];
      if log[i].id > after {
        assert read + ([log[i]] + After(rest[1..], after)) == (read + [log[i]]) + After(rest[1..], after);
        read := read + [log[i]];
      }
      i := i + 1;
    }
    ghost var rest := After(log[i..], after);
    assert i == |log| ==> rest == [];
    assert (read + rest)[..|read|] == read;
  }

  /** The page as it is computed: scan, cut, look at the last event. */
  method RealtimePage(log: seq<Event>, after: int, limit: int) returns (page: Page)
    ensures page == PageOf(log, after, limit)
  {
    var size: nat := PageSize(limit);
    var version: nat := Version(log);
    var cleanAfter: nat := if after < 0 then 0 else after;
    var reset := cleanAfter > version;
    var pageAfter: nat := if reset then 0 else cleanAfter;
    assert pageAfter == Origin(log, after) && reset == (after > Version(log));
    var read := Scan(log, pageAfter, size + 1);
    page := Cut(read, size, version, pageAfter, reset);
  }

  // ------------------------------------------------------ parts of a log

  /** Positions and identifiers rise together. */
  lemma {:induction false} OrderedMeans(log: seq<Event>, i: nat, j: nat)
    requires Ordered(log) && i < j < |log|
    ensures log[i].id < log[j].id
    decreases i
  {
    if i == 0 {
      assert log[1..][j - 1] in log[1..];
    } else {
      OrderedMeans(log[1..], i - 1, j - 1);
    }
  }

  lemma InLogIsBounded(log: seq<Event>, e: Event)
    requires Ordered(log) && e in log
    ensures e.id <= Version(log)
  {
    var i :| 0 <= i < |log| && log[i] == e;
    if i < |log| - 1 { OrderedMeans(log, i, |log| - 1); }
  }

  lemma {:induction false} BetweenHolds(log: seq<Event>, after: int, upto: int)
    ensures forall e :: e in Between(log, after, upto) <==> e in log && after < e.id <= upto
    decreases |log|
  {
    if log == [] { return; }
    BetweenHolds(log[1..], after, upto);
    assert forall e :: e in log <==> e == log[0] || e in log[1..];
  }

  lemma {:induction false} BetweenIsOrdered(log: seq<Event>, after: int, upto: int)
    requires Ordered(log)
    ensures Ordered(Between(log, after, upto))
    decreases |log|
  {
    if log == [] { return; }
    var x, tail := log[0], Between(log[1..], after, upto);
    BetweenIsOrdered(log[1..], after, upto);
    BetweenHolds(log[1..], after, upto);
    assert Above(tail, x.id);
    assert ([x] + tail)[1..] == tail;
  }

  lemma {:induction false} AfterIsBetween(log: seq<Event>, after: int)
    requires Ordered(log)
    ensures After(log, after) == Between(log, after, Version(log))
    decreases |log|
  {
    if log == [] { return; }
    AfterIsBetween(log[1..], after);
    InLogIsBounded(log, log[0]);
    if log[1..] != [] { assert Version(log[1..]) == Version(log); }
  }

  lemma NothingAbove(log: seq<Event>, a: int, b: int)
    requires Above(log, b)
    ensures Between(log, a, b) == []
  {
    var none := Between(log, a, b);
    var first := if none != [] then none[0] else Event(0, 0);
    assert none != [] ==> first in none;
    BetweenHolds(log, a, b);
  }

  lemma {:induction false} BetweenJoins(log: seq<Event>, a: int, b: int, c: int)
    requires Ordered(log) && a <= b <= c
    ensures Between(log, a, b) + Between(log, b, c) == Between(log, a, c)
    decreases |log|
  {
    if log == [] { return; }
    var x, rest := log[0], log[1..];
    BetweenJoins(rest, a, b, c);
    var left, right := Between(rest, a, b), Between(rest, b, c);
    if a < x.id <= b {
      assert ([x] + left) + right == [x] + (left + right);
    } else if x.id > b {
      NothingAbove(rest, a, b);
      assert left == [] && [] + Between(log, b, c) == Between(log, b, c);
    }
  }

  /** What lies up to the end of a log is not changed by what is appended to it. */
  lemma {:induction false} BetweenIsStable(log: seq<Event>, grown: seq<Event>, a: int, b: int)
    requires Ordered(grown) && log <= grown && 0 <= b <= Version(log)
    ensures Between(grown, a, b) == Between(log, a, b)
    decreases |log|
  {
    if log == [] {
      if grown != [] {
        assert forall e :: e in grown <==> e == grown[0] || e in grown[1..];
      }
      NothingAbove(grown, a, b);
      return;
    }
    assert grown[0] == log[0] && log[1..] <= grown[1..];
    if |log| == 1 {
      assert Above(grown[1..], b);
      NothingAbove(grown[1..], a, b);
      assert log[1..] == [];
    } else {
      assert Version(log[1..]) == Version(log);
      BetweenIsStable(log[1..], grown[1..], a, b);
    }
  }

  /** Cutting what follows a cursor after some event gives what lies up to that event. */
  lemma {:induction false} CutIsBetween(log: seq<Event>, after: int, n: nat)
    requires Ordered(log) && 0 < n <= |After(log, after)|
    ensures After(log, after)[..n] == Between(log, after, After(log, after)[n - 1].id)
    ensures After(log, after)[n - 1].id > after && After(log, after)[n - 1] in log
    decreases |log|
  {
    var x, rest, tail := log[0], log[1..], After(log[1..], after);
    if x.id <= after {
      CutIsBetween(rest, after, n);
      assert tail[n - 1] in rest;
    } else if n == 1 {
      assert ([x] + tail)[..1] == [x];
      NothingAbove(rest, after, x.id);
    } else {
      CutIsBetween(rest, after, n - 1);
      assert tail[n - 2] in rest;
      assert ([x] + tail)[..n] == [x] + tail[..n - 1] && ([x] + tail)[n - 1] == tail[n - 2];
    }
  }

  // -------------------------------------------------------------- one page

  /**
   A page is exactly what lies between its origin and its cursor; it stays inside the log,
   is non-empty whenever anything follows, and says truly whether more does.
   */
  lemma PageIsExact(log: seq<Event>, after: int, limit: int)
    requires Ordered(log)
    ensures var page, origin := PageOf(log, after, limit), Origin(log, after);
            && page.changes == Between(log, origin, page.cursor)
            && origin <= page.cursor <= Version(log)
            && (page.changes != [] <==> origin < Version(log))
            && (page.changes != [] ==> origin < page.cursor)
            && (page.hasMore <==> page.cursor < Version(log))
            && (page.reset <==> after > Version(log))
  {
    var page, origin, size := PageOf(log, after, limit), Origin(log, after), PageSize(limit);
    var all := After(log, origin);
    AfterIsBetween(log, origin);
    EmptyIffNothingFollows(log, origin);
    if all == [] {
      EmptyBetween(log, origin);
      return;
    }
    var n := |page.changes|;
    assert page.changes == all[..n];
    CutIsBetween(log, origin, n);
    InLogIsBounded(log, all[n - 1]);
    CutIsBetween(log, origin, |all|);
    if n == |all| {
      LastIsVersion(log, origin);
    } else {
      CutIsBetween(log, origin, n + 1);
      InLogIsBounded(log, all[n]);
      BetweenIsOrdered(log, origin, Version(log));
      OrderedMeans(all, n - 1, n);
    }
  }

  /** It begins at the cursor asked after, or anew, shows the version of the log, and is full unless it is the last. */
  lemma PageIsFull(log: seq<Event>, after: int, limit: int)
    ensures var page := PageOf(log, after, limit);
            && Origin(log, after) == (if 0 <= after <= Version(log) then after else 0)
            && page.version == (if log == [] then 0 else log[|log| - 1].id)
            && |page.changes| <= PageSize(limit) && (page.hasMore ==> |page.changes| == PageSize(limit))
  {
  }

  lemma EmptyBetween(log: seq<Event>, a: int)
    requires Ordered(log)
    ensures Between(log, a, a) == []
  {
    var none := Between(log, a, a);
    var first := if none != [] then none[0] else Event(0, 0);
    assert none != [] ==> first in none;
    BetweenHolds(log, a, a);
  }

  lemma EmptyIffNothingFollows(log: seq<Event>, after: nat)
    requires Ordered(log)
    ensures After(log, after) == [] <==> after >= Version(log)
  {
    AfterIsBetween(log, after);
    BetweenHolds(log, after, Version(log));
    var all := After(log, after);
    if log != [] && after < Version(log) { assert log[|log| - 1] in all; }
    if all != [] {
      assert all[0] in all;
      InLogIsBounded(log, all[0]);
    }
  }

  lemma LastIsVersion(log: seq<Event>, after: nat)
    requires Ordered(log) && After(log, after) != []
    ensures After(log, after)[|After(log, after)| - 1].id == Version(log)
  {
    AfterIsBetween(log, after);
    BetweenHolds(log, after, Version(log));
    EmptyIffNothingFollows(log, after);
    var all := After(log, after);
    var last := log[|log| - 1];
    assert last in all;
    var i :| 0 <= i < |all| && all[i] == last;
    InLogIsBounded(log, all[|all| - 1]);
  }

  // ----------------------------------------------------------- a whole run

  /** One request of a client: the log as it was then, and the limit asked for. */
  datatype Poll = Poll(log: seq<Event>, limit: int)

  /** The log only grows from one poll to the next. */
  ghost predicate Growing(polls: seq<Poll>) {
    (forall i :: 0 <= i < |polls| ==> Ordered(polls[i].log)) &&
    forall i :: 0 <= i < |polls| - 1 ==> polls[i].log <= polls[i + 1].log
  }

  datatype Delivery = Delivery(cursor: nat, events: seq<Event>, resets: nat)

  /** Following the cursor: each page starts where the last one ended. */
  function Follow(cursor: int, polls: seq<Poll>): Delivery
    requires cursor >= 0
    decreases |polls|
  {
    if polls == [] then Delivery(cursor, [], 0)
    else
      var page := PageOf(polls[0].log, cursor, polls[0].limit);
      var rest := Follow(page.cursor, polls[1..]);
      Delivery(rest.cursor, page.changes + rest.events, (if page.reset then 1 else 0) + rest.resets)
  }

  lemma GrowingTail(polls: seq<Poll>)
    requires Growing(polls) && polls != []
    ensures Growing(polls[1..])
    ensures |polls| > 1 ==> polls[0].log <= polls[1].log
  {
    forall i | 0 <= i < |polls[1..]| - 1 ensures polls[1..][i].log <= polls[1..][i + 1].log {
      assert polls[i + 1].log <= polls[i + 2].log;
    }
  }

  lemma VersionGrows(log: seq<Event>, grown: seq<Event>)
    requires Ordered(grown) && log <= grown
    ensures Version(log) <= Version(grown)
  {
    if log != [] { InLogIsBounded(grown, log[|log| - 1]); }
  }

  lemma {:induction false} GrowsToLast(polls: seq<Poll>)
    requires Growing(polls) && polls != []
    ensures polls[0].log <= polls[|polls| - 1].log
    ensures Version(polls[0].log) <= Version(polls[|polls| - 1].log)
    decreases |polls|
  {
    if |polls| > 1 {
      GrowingTail(polls);
      GrowsToLast(polls[1..]);
      VersionGrows(polls[0].log, polls[|polls| - 1].log);
    }
  }

  /**
   Lossless delivery: whatever is appended between pages and whatever limits are asked for,
   a client that follows the cursor has received every event after its origin up to its
   cursor, once each and in order. It starts over at most once, on its first page, and only
   if its cursor lies past the log.
   */
  lemma {:induction false} DeliveryIsLossless(cursor: nat, polls: seq<Poll>)
    requires Growing(polls) && polls != []
    ensures var got, origin, log := Follow(cursor, polls), Origin(polls[0].log, cursor), polls[|polls| - 1].log;
            && got.events == Between(log, origin, got.cursor)
            && origin <= got.cursor <= Version(log)
            && got.resets == if cursor > Version(polls[0].log) then 1 else 0
    decreases |polls|
  {
    var log, page := polls[0].log, PageOf(polls[0].log, cursor, polls[0].limit);
    var origin := Origin(log, cursor);
    PageIsExact(log, cursor, polls[0].limit);
    if |polls| == 1 {
      assert polls[1..] == [];
      return;
    }
    var rest, last := polls[1..], polls[|polls| - 1].log;
    GrowingTail(polls);
    VersionGrows(log, polls[1].log);
    GrowsToLast(polls);
    DeliveryIsLossless(page.cursor, rest);
    BetweenIsStable(log, last, origin, page.cursor);
    BetweenJoins(last, origin, page.cursor, Follow(page.cursor, rest).cursor);
  }

  /** Each page that has more, or has anything new, moves the cursor; a caught-up client has received everything. */
  lemma CaughtUpHasEverything(cursor: nat, polls: seq<Poll>)
    requires Growing(polls) && polls != []
    requires var got, log := Follow(cursor, polls), polls[|polls| - 1].log; got.cursor == Version(log)
    ensures Follow(cursor, polls).events == After(polls[|polls| - 1].log, Origin(polls[0].log, cursor))
  {
    DeliveryIsLossless(cursor, polls);
    AfterIsBetween(polls[|polls| - 1].log, Origin(polls[0].log, cursor));
  }

  /** A client that asks again while there is more ends, and ends with everything, for any limit at all. */
  method FollowUntilCaughtUp(log: seq<Event>, start: nat, limit: int)
      returns (events: seq<Event>, cursor: nat, pages: nat)
    requires Ordered(log)
    ensures events == After(log, Origin(log, start)) && cursor == Version(log)
    ensures pages <= |events| + 1
  {
    var origin := Origin(log, start);
    var page := RealtimePage(log, start, limit);
    PageIsExact(log, start, limit);
    events, cursor, pages := page.changes, page.cursor, 1;
    while page.hasMore
      invariant origin <= cursor <= Version(log) && cursor == page.cursor
      invariant page.hasMore <==> cursor < Version(log)
      invariant events == Between(log, origin, cursor)
      invariant pages <= |events| + 1
      decreases Version(log) - cursor
    {
      page := RealtimePage(log, cursor, limit);
      PageIsExact(log, cursor, limit);
      BetweenJoins(log, origin, cursor, page.cursor);
      events, cursor, pages := events + page.changes, page.cursor, pages + 1;
    }
    AfterIsBetween(log, origin);
  }
}
