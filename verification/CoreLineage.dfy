module CoreLineage {

  // Recovery lineage: the chains that `supersedes` links and the sessions that recover from them.

  import opened Options
  import opened CoreModels
  import opened CoreStore
  import opened CoreInvariant
  import opened CoreRuns

  /** A checkpoint followed by everything it supersedes, directly or not, newest first. */
  ghost function Ancestry(s: Store, c: CheckpointId): seq<CheckpointId>
    requires CheckpointsOk(s) && c in s.checkpoints
    decreases s.checkpoints[c].row
  {
    assert CheckpointRow(s, c);
    match s.checkpoints[c].supersedes
    case None => [c]
    case Some(p) => [c] + Ancestry(s, p)
  }

  /**
   A chain stays within one task, reaches back in insertion order, so never repeats
   a checkpoint, and never goes forward in task revision.
   */
  lemma {:induction false} ChainLooksBack(s: Store, c: CheckpointId, i: nat, j: nat)
    requires CheckpointsOk(s) && c in s.checkpoints
    requires i < j < |Ancestry(s, c)|
    ensures Ancestry(s, c)[i] in s.checkpoints && Ancestry(s, c)[j] in s.checkpoints
    ensures var newer, older := s.checkpoints[Ancestry(s, c)[i]], s.checkpoints[Ancestry(s, c)[j]];
            older.row < newer.row && older.task == newer.task == s.checkpoints[c].task &&
            older.revision <= newer.revision
    decreases s.checkpoints[c].row
  {
    assert CheckpointRow(s, c);
    var p := s.checkpoints[c].supersedes.value;
    assert Ancestry(s, c) == [c] + Ancestry(s, p);
    assert Ancestry(s, p)[0] == p;
    if i > 0 {
      ChainLooksBack(s, p, i - 1, j - 1);
    } else if j > 1 {
      ChainLooksBack(s, p, 0, j - 1);
    }
  }

  /** What lies behind a checkpoint on a chain is that checkpoint's own ancestry. */
  lemma {:induction false} SuffixIsAncestry(s: Store, c: CheckpointId, i: nat)
    requires CheckpointsOk(s) && c in s.checkpoints && i < |Ancestry(s, c)|
    ensures Ancestry(s, c)[i] in s.checkpoints
    ensures Ancestry(s, c)[i..] == Ancestry(s, Ancestry(s, c)[i])
    decreases i
  {
    assert CheckpointRow(s, c);
    if i > 0 {
      var p := s.checkpoints[c].supersedes.value;
      assert Ancestry(s, c) == [c] + Ancestry(s, p);
      SuffixIsAncestry(s, p, i - 1);
    }
  }

  /**
   Chains are disjoint or nested: two chains that share a checkpoint are one chain,
   and one of them is the tail of the other.
   */
  lemma {:induction false} ChainsAreDisjoint(s: Store, c: CheckpointId, d: CheckpointId, i: nat, j: nat)
    requires CheckpointsOk(s) && c in s.checkpoints && d in s.checkpoints
    requires i < |Ancestry(s, c)| && j < |Ancestry(s, d)| && Ancestry(s, c)[i] == Ancestry(s, d)[j]
    ensures i <= j ==> Ancestry(s, d)[j - i..] == Ancestry(s, c)
    ensures j <= i ==> Ancestry(s, c)[i - j..] == Ancestry(s, d)
    decreases i + j
  {
    SuffixIsAncestry(s, c, i);
    SuffixIsAncestry(s, d, j);
    if i > 0 && j > 0 {
      LinkAt(s, c, i - 1);
      LinkAt(s, d, j - 1);
      assert CheckpointPair(s, Ancestry(s, c)[i - 1], Ancestry(s, d)[j - 1]);
      ChainsAreDisjoint(s, c, d, i - 1, j - 1);
    }
  }

  lemma LinkAt(s: Store, c: CheckpointId, i: nat)
    requires CheckpointsOk(s) && c in s.checkpoints && i + 1 < |Ancestry(s, c)|
    ensures Ancestry(s, c)[i] in s.checkpoints
    ensures s.checkpoints[Ancestry(s, c)[i]].supersedes == Some(Ancestry(s, c)[i + 1])
  {
    SuffixIsAncestry(s, c, i);
    assert Ancestry(s, c)[i..][1] == Ancestry(s, c)[i + 1];
    assert CheckpointRow(s, Ancestry(s, c)[i]);
  }

  /**
   Of two sessions of a task at least one recovers from a checkpoint, and a session
   that recovers does so from a checkpoint of its own task, taken at exactly the
   revision it works in.
   */
  lemma SessionsRecover(s: Store, x: SessionId, y: SessionId)
    requires Reachable(s)
    requires x in s.sessions && y in s.sessions && x != y && s.sessions[x].task == s.sessions[y].task
    ensures s.sessions[x].source.Some? || s.sessions[y].source.Some?
    ensures s.sessions[x].source.Some? ==>
              var c := s.sessions[x].source.value;
              c in s.checkpoints && s.checkpoints[c].task == s.sessions[x].task &&
              s.checkpoints[c].revision == s.sessions[x].context
  {
    ReachableInv(s);
    assert SessionPair(s, x, y) && SessionRow(s, x);
  }

  /**
   Only the first session of a task may begin without a source: of two creations accepted for it,
   whatever is called in between, the later names a checkpoint of the task at its revision that
   nothing supersedes, while no session is open and no run is in flight; and one accepted without
   a source finds no session of the task at all.
   */
  lemma OnlyTheFirstIsBare(s: Store, c: Call, calls: seq<Call>, d: Call)
    requires c.CreateSession? && d.CreateSession? && d.forTask == c.forTask
    requires Apply(s, c).outcome == Accepted && Apply(Execute(Apply(s, c).store, calls), d).outcome == Accepted
    ensures c.source.None? ==> !HasSession(s, c.forTask)
    ensures var later := Execute(Apply(s, c).store, calls);
            && d.source.Some? && d.source.value in later.checkpoints && !Superseded(later, d.source.value)
            && later.checkpoints[d.source.value].task == d.forTask
            && d.forTask in later.tasks && later.checkpoints[d.source.value].revision == later.tasks[d.forTask].revision
            && OpenSessions(later, d.forTask) == {} && RunsInFlight(later, d.forTask) == {}
  {
    var first := Apply(s, c).store;
    var later := Execute(first, calls);
    HistoryIsAppendOnly(first, calls);
    assert SessionKept(first, later, c.newSession);
    assert HasSession(later, d.forTask);
    assert !HasOpenSession(later, d.forTask) && !HasRunInFlight(later, d.forTask);
  }
}
