/** The feedback feed as a table updated in place: one call, and what other readers do between its statements. */
module PagingFeedsServices {
  import opened Paging
  import opened PagingFeeds

  /** None of the steps is one of reader `r`. */
  predicate Others(steps: seq<Step>, r: nat) {
    forall s <- steps :: s.Append? || s.reader != r
  }

  /** The statements of one call with what happens between them. */
  function CallSteps(r: nat, limit: int, advance: bool, before: seq<Step>, within: seq<Step>): seq<Step> {
    [Look(r)] + before + [Fetch(r, limit)] + within + [if advance then WriteBack(r) else Leave(r)]
  }

  /** What a reader holds is its own: others do not change it. */
  lemma {:induction false} RowStays(w: World, steps: seq<Step>, r: nat)
    requires Others(steps, r)
    ensures r in Execute(w, steps).readers <==> r in w.readers
    ensures r in w.readers ==> Execute(w, steps).readers[r] == w.readers[r]
    decreases |steps|
  {
    if steps != [] {
      assert steps[0] in steps && forall s :: s in steps[1..] ==> s in steps;
      RowStays(Next(w, steps[0]), steps[1..], r);
    }
  }

  lemma {:induction false} ExecuteJoins(w: World, a: seq<Step>, b: seq<Step>)
    ensures Execute(w, a + b) == Execute(Execute(w, a), b)
    decreases |a|
  {
    if a == [] {
      assert a + b == b;
    } else {
      assert (a + b)[0] == a[0] && (a + b)[1..] == a[1..] + b;
      ExecuteJoins(Next(w, a[0]), a[1..], b);
    }
  }

  lemma CallUnrolls(w: World, r: nat, limit: int, advance: bool, before: seq<Step>, within: seq<Step>)
    ensures var fetched := Next(Execute(Next(w, Look(r)), before), Fetch(r, limit));
            Execute(w, CallSteps(r, limit, advance, before, within)) ==
            Next(Execute(fetched, within), if advance then WriteBack(r) else Leave(r))
  {
    var last := if advance then WriteBack(r) else Leave(r);
    ExecuteOneMore(w, [Look(r)] + before + [Fetch(r, limit)] + within, last);
    ExecuteJoins(w, [Look(r)] + before + [Fetch(r, limit)], within);
    ExecuteOneMore(w, [Look(r)] + before, Fetch(r, limit));
    ExecuteJoins(w, [Look(r)], before);
    ExecuteOneMore(w, [], Look(r));
    assert [] + [Look(r)] == [Look(r)];
  }

  class FeedbackTable {
    var log: seq<Event>
    const start: nat
    var cursor: nat
    var readers: map<nat, Reader>
    var writes: seq<Write>

    function Snapshot(): World
      reads this
    {
      World(log, start, cursor, readers, writes)
    }

    ghost predicate Valid()
      reads this
    {
      Reachable(Snapshot())
    }

    constructor (found: seq<Event>, stored: nat)
      requires Ordered(found)
      ensures Valid() && Snapshot() == Start(found, stored)
    {
      log, start, cursor, readers, writes := found, stored, stored, map[], [];
      new;
      assert LeadsTo(found, stored, [], Start(found, stored));
    }

    method LookUp(r: nat)
      requires Valid()
      modifies this`readers
      ensures Valid() && Snapshot() == Next(old(Snapshot()), Look(r))
    {
      StaysReachable(Snapshot(), Look(r));
      readers := readers[r := Looked(cursor, |writes|)];
    }

    method FetchChanges(r: nat, limit: int)
      requires Valid()
      modifies this`readers
      ensures Valid() && Snapshot() == Next(old(Snapshot()), Fetch(r, limit))
    {
      StaysReachable(Snapshot(), Fetch(r, limit));
      if r !in readers || !readers[r].Looked? { return; }
      var row := readers[r];
      var changes := Scan(log, row.cursor, FeedbackSize(limit));
      if changes == [] {
        readers := readers - {r};
      } else {
        readers := readers[r := Holding(row.cursor, row.stamp, changes)];
      }
    }

    method WriteCursor(r: nat)
      requires Valid()
      modifies this`cursor, this`readers, this`writes
      ensures Valid() && Snapshot() == Next(old(Snapshot()), WriteBack(r))
    {
      StaysReachable(Snapshot(), WriteBack(r));
      if r !in readers || !readers[r].Holding? { return; }
      var row := readers[r];
      cursor, readers, writes := Version(row.changes), readers - {r}, writes + [Write(row.changes, row.stamp)];
    }

    method LeaveOff(r: nat)
      requires Valid()
      modifies this`readers
      ensures Valid() && Snapshot() == Next(old(Snapshot()), Leave(r))
    {
      StaysReachable(Snapshot(), Leave(r));
      readers := readers - {r};
    }

    method AppendEvent(e: Event)
      requires Valid()
      modifies this`log
      ensures Valid() && Snapshot() == Next(old(Snapshot()), Append(e))
    {
      StaysReachable(Snapshot(), Append(e));
      if e.id > Version(log) { log := log + [e]; }
    }

    /** Any steps of other readers and of whoever writes events. */
    method OthersAct(steps: seq<Step>)
      requires Valid()
      modifies this
      ensures Valid() && Snapshot() == Execute(old(Snapshot()), steps)
    {
      var rest := steps;
      while rest != []
        invariant Valid() && Execute(Snapshot(), rest) == Execute(old(Snapshot()), steps)
        decreases |rest|
      {
        match rest[0] {
          case Append(e) => AppendEvent(e);
          case Look(r) => LookUp(r);
          case Fetch(r, limit) => FetchChanges(r, limit);
          case WriteBack(r) => WriteCursor(r);
          case Leave(r) => LeaveOff(r);
        }
        rest := rest[1..];
      }
    }

    /** One call: it gives what it fetched after the cursor it looked up, whatever the cursor is by then. */
    method FeedbackChanges(r: nat, limit: int, advance: bool, before: seq<Step>, within: seq<Step>)
      returns (changes: seq<Event>)
      requires Valid() && Others(before, r) && Others(within, r)
      modifies this
      ensures Valid()
      ensures Snapshot() == Execute(old(Snapshot()), CallSteps(r, limit, advance, before, within))
      ensures changes == Feedback(Execute(old(Snapshot()), [Look(r)] + before).log, old(cursor), limit).changes
      ensures advance && changes != [] ==>
                cursor == Version(changes) && writes != [] && writes[|writes| - 1].changes == changes
    {
      ghost var was := Snapshot();
      CallUnrolls(was, r, limit, advance, before, within);
      ExecuteOneMore(was, [], Look(r));
      assert [] + [Look(r)] == [Look(r)];
      ExecuteJoins(was, [Look(r)], before);
      LookUp(r);
      RowStays(Snapshot(), before, r);
      OthersAct(before);
      FetchChanges(r, limit);
      changes := if r in readers && readers[r].Holding? then readers[r].changes else [];
      RowStays(Snapshot(), within, r);
      OthersAct(within);
      if advance { WriteCursor(r); } else { LeaveOff(r); }
    }
  }
}
