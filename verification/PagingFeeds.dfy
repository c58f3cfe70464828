module PagingFeeds {

  // The feedback feed. A reader looks up the cursor of its consumer, fetches what follows it, and
  // writes the cursor back, in three statements; other readers of that consumer may take any of
  // theirs in between, and the log grows meanwhile.

  import opened Paging

  datatype Feed = Feed(cursor: nat, changes: seq<Event>)

  function FeedbackSize(limit: int): (size: nat)
    ensures 1 <= size <= 200 && (1 <= limit <= 200 ==> size == limit)
    ensures (limit < 1 ==> size == 1) && (limit > 200 ==> size == 200)
  {
    Clamp(1, 200, limit)
  }

  /** A feed never looks past its limit and never starts over. */
  function Feedback(log: seq<Event>, cursor: nat, limit: int): Feed {
    var changes := Take(After(log, cursor), FeedbackSize(limit));
    Feed(if changes != [] then Version(changes) else cursor, changes)
  }

  /** A reader between its statements. `stamp` counts the cursors written back before it looked. */
  datatype Reader =
    | Looked(cursor: nat, stamp: nat)
    | Holding(cursor: nat, stamp: nat, changes: seq<Event>)

  /** A call that has written its cursor back, and what it gave to its caller. */
  datatype Write = Write(changes: seq<Event>, stamp: nat)

  datatype World = World(
    log: seq<Event>, start: nat, cursor: nat, readers: map<nat, Reader>, writes: seq<Write>)

  datatype Step =
    | Append(event: Event)
    | Look(reader: nat)
    | Fetch(reader: nat, limit: int)
    | WriteBack(reader: nat)
    | Leave(reader: nat)

  predicate Holds(w: World, r: nat) {
    r in w.readers && w.readers[r].Holding?
  }

  /** One statement. A call that finds nothing, only peeks or is cut off leaves the cursor alone. */
  function Next(w: World, s: Step): World {
    match s
    case Append(e) => if e.id > Version(w.log) then w.(log := w.log + [e]) else w
    case Look(r) => w.(readers := w.readers[r := Looked(w.cursor, |w.writes|)])
    case Fetch(r, limit) =>
      if r !in w.readers || !w.readers[r].Looked? then w
      else
        var row := w.readers[r];
        var changes := Feedback(w.log, row.cursor, limit).changes;
        w.(readers := if changes == [] then w.readers - {r}
                      else w.readers[r := Holding(row.cursor, row.stamp, changes)])
    case WriteBack(r) =>
      if !Holds(w, r) then w
      else
        var row := w.readers[r];
        w.(cursor := Version(row.changes), readers := w.readers - {r},
           writes := w.writes + [Write(row.changes, row.stamp)])
    case Leave(r) => w.(readers := w.readers - {r})
  }

  function Execute(w: World, steps: seq<Step>): World
    decreases |steps|
  {
    if steps == [] then w else Execute(Next(w, steps[0]), steps[1..])
  }

  function Start(log: seq<Event>, cursor: nat): World {
    World(log, cursor, cursor, map[], [])
  }

  ghost predicate LeadsTo(log: seq<Event>, cursor: nat, steps: seq<Step>, w: World) {
    Ordered(log) && Execute(Start(log, cursor), steps) == w
  }

  ghost predicate Reachable(w: World) {
    exists log, cursor, steps :: LeadsTo(log, cursor, steps, w)
  }

  // --------------------------------------------------------------- invariant

  /** The cursor after the first `k` of the calls that wrote it back. */
  function CursorAt(w: World, k: nat): nat
    requires k <= |w.writes|
  {
    if k == 0 then w.start else Version(w.writes[k - 1].changes)
  }

  /** What is given is all that lies between the cursor looked up and its own last event. */
  ghost predicate Given(log: seq<Event>, cursor: nat, changes: seq<Event>) {
    changes != [] && cursor < Version(changes) <= Version(log) &&
    changes == Between(log, cursor, Version(changes))
  }

  ghost predicate WriteRow(w: World, k: int) {
    0 <= k < |w.writes| ==>
      w.writes[k].stamp <= k && Given(w.log, CursorAt(w, w.writes[k].stamp), w.writes[k].changes)
  }

  ghost predicate ReaderRow(w: World, r: nat) {
    r in w.readers ==>
      var row := w.readers[r];
      row.stamp <= |w.writes| && row.cursor == CursorAt(w, row.stamp) &&
      (row.Holding? ==> Given(w.log, row.cursor, row.changes))
  }

  ghost predicate Inv(w: World) {
    && Ordered(w.log) && w.cursor == CursorAt(w, |w.writes|)
    && (forall k {:trigger WriteRow(w, k)} :: WriteRow(w, k))
    && (forall r {:trigger ReaderRow(w, r)} :: ReaderRow(w, r))
  }

  lemma FeedIsGiven(log: seq<Event>, cursor: nat, limit: int)
    requires Ordered(log) && Feedback(log, cursor, limit).changes != []
    ensures Given(log, cursor, Feedback(log, cursor, limit).changes)
  {
    var changes := Feedback(log, cursor, limit).changes;
    CutIsBetween(log, cursor, |changes|);
    assert changes == After(log, cursor)[..|changes|];
    InLogIsBounded(log, After(log, cursor)[|changes| - 1]);
  }

  /**
   A feed is what lies between the cursor it was asked after and its own, never more than was asked
   for, and short of it only when it has reached the end of the log.
   */
  lemma FeedIsExact(log: seq<Event>, cursor: nat, limit: int)
    requires Ordered(log)
    ensures var feed := Feedback(log, cursor, limit);
            && feed.changes == Between(log, cursor, feed.cursor) && |feed.changes| <= FeedbackSize(limit)
            && (feed.changes == [] <==> cursor >= Version(log)) && (feed.changes == [] ==> feed.cursor == cursor)
            && (feed.changes != [] ==> cursor < feed.cursor <= Version(log))
            && (feed.cursor < Version(log) ==> |feed.changes| == FeedbackSize(limit))
  {
    EmptyIffNothingFollows(log, cursor);
    EmptyBetween(log, cursor);
    if After(log, cursor) != [] {
      FeedIsGiven(log, cursor, limit);
      LastIsVersion(log, cursor);
    }
  }

  lemma {:induction false} OrderedGrows(log: seq<Event>, e: Event)
    requires Ordered(log) && e.id > Version(log)
    ensures Ordered(log + [e])
    decreases |log|
  {
    if log == [] {
      assert ([] + [e])[1..] == [];
    } else {
      var x, rest := log[0], log[1..];
      assert (log + [e])[0] == x && (log + [e])[1..] == rest + [e];
      InLogIsBounded(log, x);
      if rest != [] { assert Version(rest) == Version(log); }
      OrderedGrows(rest, e);
    }
  }

  lemma GivenStays(log: seq<Event>, e: Event, cursor: nat, changes: seq<Event>)
    requires Ordered(log) && e.id > Version(log) && Given(log, cursor, changes)
    ensures Given(log + [e], cursor, changes)
  {
    OrderedGrows(log, e);
    BetweenIsStable(log, log + [e], cursor, Version(changes));
  }

  lemma AppendKeeps(w: World, e: Event)
    requires Inv(w) && e.id > Version(w.log)
    ensures Inv(Next(w, Append(e)))
  {
    var w' := Next(w, Append(e));
    OrderedGrows(w.log, e);
    forall k ensures WriteRow(w', k) {
      assert WriteRow(w, k);
      if 0 <= k < |w.writes| { GivenStays(w.log, e, CursorAt(w, w.writes[k].stamp), w.writes[k].changes); }
    }
    forall r ensures ReaderRow(w', r) {
      assert ReaderRow(w, r);
      if Holds(w, r) { GivenStays(w.log, e, w.readers[r].cursor, w.readers[r].changes); }
    }
  }

  lemma WriteBackKeeps(w: World, r: nat)
    requires Inv(w) && Holds(w, r)
    ensures Inv(Next(w, WriteBack(r)))
  {
    var w' := Next(w, WriteBack(r));
    assert ReaderRow(w, r);
    forall k | 0 <= k <= |w.writes| ensures CursorAt(w', k) == CursorAt(w, k) {}
    forall k ensures WriteRow(w', k) { assert WriteRow(w, k); }
    forall x ensures ReaderRow(w', x) { assert ReaderRow(w, x); }
  }

  lemma FetchKeeps(w: World, r: nat, limit: int)
    requires Inv(w) && r in w.readers && w.readers[r].Looked?
    ensures Inv(Next(w, Fetch(r, limit)))
  {
    var w' := Next(w, Fetch(r, limit));
    forall k ensures WriteRow(w', k) { assert WriteRow(w, k); }
    if Feedback(w.log, w.readers[r].cursor, limit).changes != [] { FeedIsGiven(w.log, w.readers[r].cursor, limit); }
    forall x ensures ReaderRow(w', x) { assert ReaderRow(w, x); }
  }

  lemma NextKeeps(w: World, s: Step)
    requires Inv(w)
    ensures Inv(Next(w, s))
  {
    var w' := Next(w, s);
    if s.Append? {
      if s.event.id > Version(w.log) { AppendKeeps(w, s.event); }
    } else if s.WriteBack? {
      if Holds(w, s.reader) { WriteBackKeeps(w, s.reader); }
    } else if s.Fetch? {
      if s.reader in w.readers && w.readers[s.reader].Looked? { FetchKeeps(w, s.reader, s.limit); }
    } else {
      forall k ensures WriteRow(w', k) { assert WriteRow(w, k); }
      forall x ensures ReaderRow(w', x) { assert ReaderRow(w, x); }
    }
  }

  lemma {:induction false} ExecuteKeeps(w: World, steps: seq<Step>)
    requires Inv(w)
    ensures Inv(Execute(w, steps))
    decreases |steps|
  {
    if steps != [] {
      NextKeeps(w, steps[0]);
      ExecuteKeeps(Next(w, steps[0]), steps[1..]);
    }
  }

  lemma ReachableInv(w: World)
    requires Reachable(w)
    ensures Inv(w)
  {
    var log, cursor, steps :| LeadsTo(log, cursor, steps, w);
    ExecuteKeeps(Start(log, cursor), steps);
  }

  // -------------------------------------------- what lies between look and write

  /** The step puts a cursor back. */
  predicate Writes(w: World, s: Step) {
    s.WriteBack? && Holds(w, s.reader)
  }

  ghost predicate WritesAt(w: World, steps: seq<Step>, i: int) {
    0 <= i < |steps| && Writes(Execute(w, steps[..i]), steps[i])
  }

  lemma {:induction false} WritesOnlyGrow(w: World, steps: seq<Step>)
    ensures |Execute(w, steps).writes| >= |w.writes|
    decreases |steps|
  {
    if steps != [] { WritesOnlyGrow(Next(w, steps[0]), steps[1..]); }
  }

  /** The count of writes stands still exactly while nobody writes. */
  lemma {:induction false} CountStandsStill(w: World, steps: seq<Step>)
    ensures |Execute(w, steps).writes| == |w.writes| <==> forall i :: !WritesAt(w, steps, i)
    decreases |steps|
  {
    if steps == [] { return; }
    var next, rest := Next(w, steps[0]), steps[1..];
    CountStandsStill(next, rest);
    WritesOnlyGrow(next, rest);
    assert steps[..0] == [];
    assert WritesAt(w, steps, 0) <==> Writes(w, steps[0]);
    forall i | 0 < i < |steps| ensures WritesAt(w, steps, i) <==> WritesAt(next, rest, i - 1) {
      assert steps[..i][0] == steps[0] && steps[..i][1..] == rest[..i - 1];
    }
    if i :| WritesAt(next, rest, i) { assert WritesAt(w, steps, i + 1); }
    if i :| WritesAt(w, steps, i) { assert i == 0 || WritesAt(next, rest, i - 1); }
  }

  /** A reader that does not look again keeps the stamp of its look for as long as it is there. */
  lemma {:induction false} StampStays(w: World, steps: seq<Step>, r: nat)
    requires Look(r) !in steps && r in Execute(w, steps).readers
    ensures r in w.readers && Execute(w, steps).readers[r].stamp == w.readers[r].stamp
    decreases |steps|
  {
    if steps != [] {
      assert steps[0] in steps && forall x :: x in steps[1..] ==> x in steps;
      StampStays(Next(w, steps[0]), steps[1..], r);
    }
  }

  /** The `k`-th write is clean if it counted all before it when it looked. */
  predicate Clean(w: World, k: nat)
    requires k < |w.writes|
  {
    w.writes[k].stamp == k
  }

  /** A write is clean exactly if no other lies between the look of its reader and itself. */
  lemma CleanMeans(w: World, r: nat, steps: seq<Step>)
    requires Look(r) !in steps && Holds(Execute(Next(w, Look(r)), steps), r)
    ensures var looked := Next(w, Look(r));
            var written := Next(Execute(looked, steps), WriteBack(r));
            |written.writes| > 0 &&
            (Clean(written, |written.writes| - 1) <==> forall i :: !WritesAt(looked, steps, i))
  {
    var looked := Next(w, Look(r));
    StampStays(looked, steps, r);
    CountStandsStill(looked, steps);
  }

  // --------------------------------------------------------------- theorems

  ghost predicate AllClean(w: World) {
    forall k :: 0 <= k < |w.writes| ==> Clean(w, k)
  }

  predicate FallsAt(w: World, k: int) {
    0 <= k < |w.writes| && CursorAt(w, k + 1) < CursorAt(w, k)
  }

  ghost predicate NeverFalls(w: World) {
    forall k :: !FallsAt(w, k)
  }

  /** Two calls give the same event. */
  predicate GivenTwice(w: World, j: int, k: int, e: Event) {
    0 <= j < k < |w.writes| && e in w.writes[j].changes && e in w.writes[k].changes
  }

  ghost predicate NothingTwice(w: World) {
    forall j, k, e :: !GivenTwice(w, j, k, e)
  }

  lemma LastIsGiven(log: seq<Event>, cursor: nat, changes: seq<Event>)
    requires Given(log, cursor, changes)
    ensures changes[|changes| - 1] in changes && changes[|changes| - 1] in log
    ensures changes[|changes| - 1].id == Version(changes)
  {
    BetweenHolds(log, cursor, Version(changes));
  }

  lemma SameIdSameEvent(log: seq<Event>, a: Event, b: Event)
    requires Ordered(log) && a in log && b in log && a.id == b.id
    ensures a == b
  {
    var i :| 0 <= i < |log| && log[i] == a;
    var j :| 0 <= j < |log| && log[j] == b;
    if i < j { OrderedMeans(log, i, j); }
    if j < i { OrderedMeans(log, j, i); }
  }

  lemma {:induction false} CursorsRise(w: World, j: nat, k: nat)
    requires NeverFalls(w) && j <= k <= |w.writes|
    ensures CursorAt(w, j) <= CursorAt(w, k)
    decreases k - j
  {
    if j < k {
      assert !FallsAt(w, j);
      CursorsRise(w, j + 1, k);
    }
  }

  lemma CleanNeverFalls(w: World)
    requires Inv(w) && AllClean(w)
    ensures NeverFalls(w)
  {
    forall k ensures !FallsAt(w, k) { assert WriteRow(w, k) && (0 <= k < |w.writes| ==> Clean(w, k)); }
  }

  lemma CleanNothingTwice(w: World, j: int, k: int, e: Event)
    requires Inv(w) && AllClean(w)
    ensures !GivenTwice(w, j, k, e)
  {
    if GivenTwice(w, j, k, e) {
      CleanNeverFalls(w);
      CursorsRise(w, j + 1, k);
      assert WriteRow(w, j) && WriteRow(w, k) && Clean(w, j) && Clean(w, k);
      BetweenHolds(w.log, CursorAt(w, j), CursorAt(w, j + 1));
      BetweenHolds(w.log, CursorAt(w, k), CursorAt(w, k + 1));
      assert false;
    }
  }

  /** If the cursor does not fall, a write that missed another gives an event a second time. */
  lemma UncleanGivesTwice(w: World, k: nat) returns (j: int, l: int, e: Event)
    requires Inv(w) && NeverFalls(w) && k < |w.writes| && !Clean(w, k)
    ensures GivenTwice(w, j, l, e)
  {
    var s := w.writes[k].stamp;
    assert WriteRow(w, k) && WriteRow(w, s);
    LastIsGiven(w.log, CursorAt(w, w.writes[s].stamp), w.writes[s].changes);
    e := w.writes[s].changes[|w.writes[s].changes| - 1];
    assert !FallsAt(w, s);
    CursorsRise(w, s + 1, k + 1);
    if CursorAt(w, s) < CursorAt(w, s + 1) {
      BetweenHolds(w.log, CursorAt(w, s), CursorAt(w, k + 1));
      j, l := s, k;
    } else {
      assert s > 0 && WriteRow(w, s - 1);
      LastIsGiven(w.log, CursorAt(w, w.writes[s - 1].stamp), w.writes[s - 1].changes);
      SameIdSameEvent(w.log, e, w.writes[s - 1].changes[|w.writes[s - 1].changes| - 1]);
      j, l := s - 1, s;
    }
  }

  /**
   The feed is in order, exactly: over any run of any readers the stored cursor never falls and
   no event is given twice if and only if no call has another call's write between its own look
   and its own write.
   */
  lemma InOrderIffClean(w: World)
    requires Reachable(w)
    ensures NeverFalls(w) && NothingTwice(w) <==> AllClean(w)
  {
    ReachableInv(w);
    if AllClean(w) {
      CleanNeverFalls(w);
      forall j, k, e ensures !GivenTwice(w, j, k, e) { CleanNothingTwice(w, j, k, e); }
    } else if NeverFalls(w) {
      var k :| 0 <= k < |w.writes| && !Clean(w, k);
      var j, l, e := UncleanGivesTwice(w, k);
    }
  }

  ghost predicate GivenBefore(w: World, k: int, e: Event) {
    exists j :: 0 <= j < k && j < |w.writes| && e in w.writes[j].changes
  }

  /** Whatever readers do, nothing is skipped: what lies up to a stored cursor has been given by then. */
  lemma {:induction false} NothingIsSkipped(w: World, k: nat, e: Event)
    requires Reachable(w) && k <= |w.writes| && e in w.log && w.start < e.id <= CursorAt(w, k)
    ensures GivenBefore(w, k, e)
    decreases k
  {
    ReachableInv(w);
    var row := w.writes[k - 1];
    assert WriteRow(w, k - 1);
    BetweenHolds(w.log, CursorAt(w, row.stamp), CursorAt(w, k));
    if e.id <= CursorAt(w, row.stamp) {
      NothingIsSkipped(w, row.stamp, e);
    } else {
      assert e in w.writes[k - 1].changes;
    }
  }

  function AllGiven(writes: seq<Write>): seq<Event>
    decreases |writes|
  {
    if writes == [] then [] else AllGiven(writes[..|writes| - 1]) + writes[|writes| - 1].changes
  }

  /** Calls that do not overlap deliver the log from the first cursor to the last, in order and without gap. */
  lemma {:induction false} FeedsAreContiguous(w: World, k: nat)
    requires Reachable(w) && AllClean(w) && k <= |w.writes|
    ensures AllGiven(w.writes[..k]) == Between(w.log, w.start, CursorAt(w, k))
    decreases k
  {
    ReachableInv(w);
    if k == 0 {
      EmptyBetween(w.log, w.start);
    } else {
      FeedsAreContiguous(w, k - 1);
      CleanNeverFalls(w);
      CursorsRise(w, 0, k - 1);
      assert WriteRow(w, k - 1) && Clean(w, k - 1);
      assert w.writes[..k][..k - 1] == w.writes[..k - 1];
      BetweenJoins(w.log, w.start, CursorAt(w, k - 1), CursorAt(w, k));
    }
  }

  lemma {:induction false} ExecuteOneMore(w: World, steps: seq<Step>, s: Step)
    ensures Execute(w, steps + [s]) == Next(Execute(w, steps), s)
    decreases |steps|
  {
    if steps == [] {
      assert [] + [s] == [s] && [s][1..] == [];
      assert Execute(w, [s]) == Execute(Next(w, s), []);
    } else {
      assert (steps + [s])[0] == steps[0] && (steps + [s])[1..] == steps[1..] + [s];
      ExecuteOneMore(Next(w, steps[0]), steps[1..], s);
    }
  }

  lemma StaysReachable(w: World, s: Step)
    requires Reachable(w)
    ensures Reachable(Next(w, s))
  {
    var log, cursor, steps :| LeadsTo(log, cursor, steps, w);
    ExecuteOneMore(Start(log, cursor), steps, s);
    assert LeadsTo(log, cursor, steps + [s], Next(w, s));
  }

  const TWO := [Event(1, 0), Event(2, 0)]

  lemma TwoEvents()
    ensures Ordered(TWO) && After(TWO, 0) == TWO
    ensures Feedback(TWO, 0, 2).changes == TWO && Feedback(TWO, 0, 1).changes == [Event(1, 0)]
  {
    var rest := TWO[1..];
    assert rest == [Event(2, 0)] && rest[1..] == [];
    assert After(rest, 0) == [Event(2, 0)] + After([], 0) == rest;
    assert After(TWO, 0) == [Event(1, 0)] + rest;
  }

  /** Two readers have looked at the same cursor, and hold two events and one. */
  lemma TwoReaders() returns (w: World)
    ensures Reachable(w)
    ensures w == World(TWO, 0, 0, map[1 := Holding(0, 0, TWO), 2 := Holding(0, 0, [Event(1, 0)])], [])
  {
    TwoEvents();
    w := Start(TWO, 0);
    assert LeadsTo(TWO, 0, [], w);
    StaysReachable(w, Look(1));
    w := Next(w, Look(1));
    StaysReachable(w, Look(2));
    w := Next(w, Look(2));
    StaysReachable(w, Fetch(1, 2));
    w := Next(w, Fetch(1, 2));
    StaysReachable(w, Fetch(2, 1));
    w := Next(w, Fetch(2, 1));
  }

  /**
   Overlapping calls do repeat events and move the cursor back: the reader of two events writes
   first, and the reader of one writes last.
   */
  lemma OverlapRepeats() returns (w: World)
    ensures Reachable(w) && FallsAt(w, 1) && GivenTwice(w, 0, 1, Event(1, 0))
  {
    var holding := TwoReaders();
    StaysReachable(holding, WriteBack(1));
    var written := Next(holding, WriteBack(1));
    StaysReachable(written, WriteBack(2));
    w := Next(written, WriteBack(2));
    assert w.writes == [Write(TWO, 0), Write([Event(1, 0)], 0)];
  }
}
