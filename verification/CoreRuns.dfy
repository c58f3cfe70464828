module CoreRuns {

  // What the core store guarantees over whole sequences of calls, from any reachable store on.

  import opened Options
  import opened CoreModels
  import opened CoreStore
  import opened CoreInvariant

  function Next(s: Store, c: Call): Store {
    Apply(s, c).store
  }

  // ------------------------------------------------- what never goes back

  ghost predicate TaskKept(s: Store, s': Store, t: TaskId) {
    t in s.tasks ==> t in s'.tasks && s'.tasks[t].revision >= s.tasks[t].revision
  }

  ghost predicate SessionKept(s: Store, s': Store, x: SessionId) {
    x in s.sessions ==>
      && x in s'.sessions
      && s'.sessions[x].task == s.sessions[x].task
      && s'.sessions[x].context == s.sessions[x].context
      && s'.sessions[x].source == s.sessions[x].source
  }

  ghost predicate RunKept(s: Store, s': Store, r: RunId) {
    r in s.runs ==>
      && r in s'.runs
      && var row, row' := s.runs[r], s'.runs[r];
      && row'.task == row.task && row'.session == row.session && row'.inputRevision == row.inputRevision
      && row'.executor == row.executor && row'.key == row.key && row'.request == row.request
      && (row.operation.Some? ==> row'.operation == row.operation)
  }

  ghost predicate IndexKept(s: Store, s': Store, k: RunKey) {
    k in s.index ==> k in s'.index && s'.index[k] == s.index[k]
  }

  ghost predicate CheckpointKept(s: Store, s': Store, c: CheckpointId) {
    c in s.checkpoints ==> c in s'.checkpoints && s'.checkpoints[c] == s.checkpoints[c]
  }

  /** Rows are never removed, and only states, revisions and unrecorded operations ever change. */
  ghost predicate Extends(s: Store, s': Store) {
    && (forall t {:trigger TaskKept(s, s', t)} :: TaskKept(s, s', t))
    && (forall x {:trigger SessionKept(s, s', x)} :: SessionKept(s, s', x))
    && (forall r {:trigger RunKept(s, s', r)} :: RunKept(s, s', r))
    && (forall k {:trigger IndexKept(s, s', k)} :: IndexKept(s, s', k))
    && (forall c {:trigger CheckpointKept(s, s', c)} :: CheckpointKept(s, s', c))
  }

  lemma ExtendsTransitive(a: Store, b: Store, c: Store)
    requires Extends(a, b) && Extends(b, c)
    ensures Extends(a, c)
  {
    forall t ensures TaskKept(a, c, t) { assert TaskKept(a, b, t) && TaskKept(b, c, t); }
    forall x ensures SessionKept(a, c, x) { assert SessionKept(a, b, x) && SessionKept(b, c, x); }
    forall r ensures RunKept(a, c, r) { assert RunKept(a, b, r) && RunKept(b, c, r); }
    forall k ensures IndexKept(a, c, k) { assert IndexKept(a, b, k) && IndexKept(b, c, k); }
    forall d ensures CheckpointKept(a, c, d) { assert CheckpointKept(a, b, d) && CheckpointKept(b, c, d); }
  }

  lemma StepKeepsTask(s: Store, c: Call, t: TaskId)
    ensures TaskKept(s, Next(s, c), t)
  {
  }

  lemma StepKeepsSession(s: Store, c: Call, x: SessionId)
    ensures SessionKept(s, Next(s, c), x)
  {
  }

  lemma StepKeepsRun(s: Store, c: Call, r: RunId)
    ensures RunKept(s, Next(s, c), r)
  {
  }

  lemma StepKeepsIndex(s: Store, c: Call, k: RunKey)
    ensures IndexKept(s, Next(s, c), k)
  {
  }

  lemma StepKeepsCheckpoint(s: Store, c: Call, d: CheckpointId)
    ensures CheckpointKept(s, Next(s, c), d)
  {
  }

  lemma StepExtends(s: Store, c: Call)
    ensures Extends(s, Next(s, c))
  {
    forall t ensures TaskKept(s, Next(s, c), t) { StepKeepsTask(s, c, t); }
    forall x ensures SessionKept(s, Next(s, c), x) { StepKeepsSession(s, c, x); }
    forall r ensures RunKept(s, Next(s, c), r) { StepKeepsRun(s, c, r); }
    forall k ensures IndexKept(s, Next(s, c), k) { StepKeepsIndex(s, c, k); }
    forall d ensures CheckpointKept(s, Next(s, c), d) { StepKeepsCheckpoint(s, c, d); }
  }

  /**
   History is append-only over any sequence of calls: no row disappears, sources,
   contexts, inputs and supersession never change, and an operation id once recorded
   on a run is the operation id of that run ever after.
   */
  lemma {:induction false} HistoryIsAppendOnly(s: Store, calls: seq<Call>)
    ensures Extends(s, Execute(s, calls))
    decreases |calls|
  {
    if calls != [] {
      StepExtends(s, calls[0]);
      HistoryIsAppendOnly(Next(s, calls[0]), calls[1..]);
      ExtendsTransitive(s, Next(s, calls[0]), Execute(s, calls));
    }
  }

  // ------------------------------------------------ revisions count changes

  function AcceptedChanges(s: Store, calls: seq<Call>, t: TaskId): nat
    decreases |calls|
  {
    if calls == [] then 0
    else
      var reply := Apply(s, calls[0]);
      (if calls[0].TransitionTask? && calls[0].task == t && reply.outcome == Accepted then 1 else 0) +
      AcceptedChanges(reply.store, calls[1..], t)
  }

  lemma OneChange(s: Store, c: Call, t: TaskId)
    requires t in s.tasks
    ensures t in Next(s, c).tasks
    ensures Next(s, c).tasks[t].revision == s.tasks[t].revision + AcceptedChanges(s, [c], t)
  {
    assert AcceptedChanges(Next(s, c), [c][1..], t) == 0;
  }

  /** A task's revision counts exactly the accepted transitions of that task. */
  lemma {:induction false} RevisionCountsChanges(s: Store, calls: seq<Call>, t: TaskId)
    requires t in s.tasks
    ensures t in Execute(s, calls).tasks
    ensures Execute(s, calls).tasks[t].revision == s.tasks[t].revision + AcceptedChanges(s, calls, t)
    decreases |calls|
  {
    if calls != [] {
      OneChange(s, calls[0], t);
      RevisionCountsChanges(Next(s, calls[0]), calls[1..], t);
    }
  }

  /**
   Compare-and-set: two accepted transitions of one task never expected the same
   revision, whatever was called between them.
   */
  lemma ExpectedRevisionIsUsedOnce(s: Store, first: Call, between: seq<Call>, second: Call)
    requires first.TransitionTask? && second.TransitionTask? && first.task == second.task
    requires Apply(s, first).outcome == Accepted
    requires Apply(Execute(Next(s, first), between), second).outcome == Accepted
    ensures first.expectedRevision < second.expectedRevision
  {
    RevisionCountsChanges(Next(s, first), between, first.task);
  }

  // ------------------------------------------------------------ idempotency

  /**
   A key names one run for ever: after any calls at all, repeating the request that
   made it returns that run and writes nothing, even where no new run may be made.
   */
  lemma KeyNamesOneRun(s: Store, calls: seq<Call>, c: Call)
    requires Inv(s) && c.CreateRun? && c.key.Some? && !Blank(c.executor) && !Blank(c.key.value)
    requires c.runSession in s.sessions && s.sessions[c.runSession].task == c.runTask
    requires RunKey(c.runTask, c.executor, c.key.value) in s.index
    ensures var id := s.index[RunKey(c.runTask, c.executor, c.key.value)];
            id in s.runs &&
            Apply(Execute(s, calls), c) ==
              Reply(Execute(s, calls), if s.runs[id].request == c.request then Existing(id) else Refused(KeyConflict))
  {
    var s', k := Execute(s, calls), RunKey(c.runTask, c.executor, c.key.value);
    HistoryIsAppendOnly(s, calls);
    assert IndexRow(s, k) && SessionRow(s, c.runSession);
    assert IndexKept(s, s', k) && RunKept(s, s', s.index[k]);
    assert SessionKept(s, s', c.runSession) && TaskKept(s, s', c.runTask);
  }

  /** An accepted keyed run is the one its key returns from then on. */
  lemma AcceptedRunIsReturned(s: Store, c: Call, calls: seq<Call>, again: RunId)
    requires Inv(s) && c.CreateRun? && c.key.Some? && Apply(s, c).outcome == Accepted
    ensures Apply(Execute(Next(s, c), calls), c.(newRun := again)).outcome == Existing(c.newRun)
    ensures Apply(Execute(Next(s, c), calls), c.(newRun := again)).store == Execute(Next(s, c), calls)
  {
    ApplyKeepsInv(s, c);
    KeyNamesOneRun(Next(s, c), calls, c.(newRun := again));
  }

  // ------------------------------------------------------------- two fences

  ghost predicate UnknownThroughout(s: Store, calls: seq<Call>, t: TaskId)
    decreases |calls|
  {
    HasUnknownRun(s, t) && (calls != [] ==> UnknownThroughout(Next(s, calls[0]), calls[1..], t))
  }

  function RunsOf(s: Store, t: TaskId): set<RunId> {
    set r | r in s.runs && s.runs[r].task == t
  }

  function ExecutingRunsOf(s: Store, t: TaskId): set<RunId> {
    set r | r in s.runs && s.runs[r].task == t && s.runs[r].state == Executing
  }

  lemma OtherCallsKeepRuns(s: Store, c: Call)
    requires !c.CreateRun? && !c.TransitionRun?
    ensures Next(s, c).runs == s.runs
  {
  }

  lemma UnknownFenceStart(s: Store, c: Call, t: TaskId)
    requires HasUnknownRun(s, t) && c.TransitionRun?
    ensures RunsOf(Next(s, c), t) == RunsOf(s, t)
    ensures ExecutingRunsOf(Next(s, c), t) <= ExecutingRunsOf(s, t)
  {
    var u :| u in s.runs && s.runs[u].task == t && s.runs[u].state == Unknown;
    if c.run in s.runs && s.runs[c.run].task == t { assert u != c.run ==> HasOtherUnknownRun(s, t, c.run); }
  }

  lemma UnknownFenceStep(s: Store, c: Call, t: TaskId)
    requires HasUnknownRun(s, t)
    ensures RunsOf(Next(s, c), t) == RunsOf(s, t)
    ensures ExecutingRunsOf(Next(s, c), t) <= ExecutingRunsOf(s, t)
  {
    if c.TransitionRun? {
      UnknownFenceStart(s, c, t);
    } else if !c.CreateRun? {
      OtherCallsKeepRuns(s, c);
    }
  }

  /** As long as a task has an unknown run, no run of it is created and none is started. */
  lemma {:induction false} UnknownFence(s: Store, calls: seq<Call>, t: TaskId)
    requires UnknownThroughout(s, calls, t)
    ensures RunsOf(Execute(s, calls), t) == RunsOf(s, t)
    ensures ExecutingRunsOf(Execute(s, calls), t) <= ExecutingRunsOf(s, t)
    decreases |calls|
  {
    if calls != [] {
      UnknownFenceStep(s, calls[0], t);
      UnknownFence(Next(s, calls[0]), calls[1..], t);
    }
  }

  ghost predicate Stale(s: Store, x: SessionId) {
    x in s.sessions && s.sessions[x].task in s.tasks && s.sessions[x].context < s.tasks[s.sessions[x].task].revision
  }

  function RunsIn(s: Store, x: SessionId): set<RunId> {
    set r | r in s.runs && s.runs[r].session == x
  }

  function ExecutingRunsIn(s: Store, x: SessionId): set<RunId> {
    set r | r in s.runs && s.runs[r].session == x && s.runs[r].state == Executing
  }

  lemma StaleStays(s: Store, c: Call, x: SessionId)
    requires Stale(s, x)
    ensures Stale(Next(s, c), x)
    ensures Next(s, c).sessions[x].state == Active ==> s.sessions[x].state == Active
  {
    StepKeepsSession(s, c, x);
    StepKeepsTask(s, c, s.sessions[x].task);
  }

  lemma StaleFenceStep(s: Store, c: Call, x: SessionId)
    requires Inv(s) && Stale(s, x)
    ensures Stale(Next(s, c), x)
    ensures Next(s, c).sessions[x].state == Active ==> s.sessions[x].state == Active
    ensures RunsIn(Next(s, c), x) == RunsIn(s, x)
    ensures ExecutingRunsIn(Next(s, c), x) <= ExecutingRunsIn(s, x)
  {
    StaleStays(s, c, x);
    if c.TransitionRun? {
      assert RunRow(s, c.run);
    } else if !c.CreateRun? {
      OtherCallsKeepRuns(s, c);
    }
  }

  /**
   Once the revision of a task has passed the context of a session, that session is
   never activated again, gets no further run and starts none, whatever is called.
   */
  lemma {:induction false} StaleFence(s: Store, calls: seq<Call>, x: SessionId)
    requires Inv(s) && Stale(s, x)
    ensures Stale(Execute(s, calls), x)
    ensures Execute(s, calls).sessions[x].state == Active ==> s.sessions[x].state == Active
    ensures RunsIn(Execute(s, calls), x) == RunsIn(s, x)
    ensures ExecutingRunsIn(Execute(s, calls), x) <= ExecutingRunsIn(s, x)
    decreases |calls|
  {
    if calls != [] {
      StaleFenceStep(s, calls[0], x);
      ApplyKeepsInv(s, calls[0]);
      StaleFence(Next(s, calls[0]), calls[1..], x);
    }
  }

  /** Every run starts from the revision of its session, which no task revision undercuts. */
  lemma InputsAreContexts(s: Store, r: RunId)
    requires Reachable(s) && r in s.runs
    ensures s.runs[r].session in s.sessions && s.runs[r].task in s.tasks
    ensures s.sessions[s.runs[r].session].task == s.runs[r].task
    ensures s.runs[r].inputRevision == s.sessions[s.runs[r].session].context
    ensures s.runs[r].inputRevision <= s.tasks[s.runs[r].task].revision
  {
    ReachableInv(s);
    assert RunRow(s, r);
    assert SessionRow(s, s.runs[r].session);
  }
}
