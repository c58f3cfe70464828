module CoreInvariant {

  // What every reachable core store satisfies. None of these facts is written in one
  // method of the store; each is kept by several guards together.

  import opened Options
  import opened CoreModels
  import opened CoreStore

  /** A session belongs to a task, opens at a revision the task has reached, and recovers that revision. */
  ghost predicate SessionRow(s: Store, x: SessionId) {
    x in s.sessions ==>
      var row := s.sessions[x];
      && row.task in s.tasks
      && row.context <= s.tasks[row.task].revision
      && (IsOpen(row.state) ==> s.tasks[row.task].state !in {ReviewPending, Done})
      && (row.source.Some? ==>
            row.source.value in s.checkpoints &&
            s.checkpoints[row.source.value].task == row.task &&
            s.checkpoints[row.source.value].revision == row.context)
  }

  /**
   A task never has two open sessions, and of two sessions at most the first
   recovers nothing; it is no longer open once there is a second.
   */
  ghost predicate SessionPair(s: Store, x: SessionId, y: SessionId) {
    x in s.sessions && y in s.sessions && x != y && s.sessions[x].task == s.sessions[y].task ==>
      && !(IsOpen(s.sessions[x].state) && IsOpen(s.sessions[y].state))
      && (s.sessions[x].source.None? ==> s.sessions[y].source.Some? && !IsOpen(s.sessions[x].state))
  }

  /**
   A run belongs to a session of its task and starts from that session's context;
   while it is planned or executing the session is active or quiescing; while it
   is unresolved the task is neither under review nor done; an unknown run names
   the operation that settles it.
   */
  ghost predicate RunRow(s: Store, r: RunId) {
    r in s.runs ==>
      var row := s.runs[r];
      && row.session in s.sessions
      && row.task == s.sessions[row.session].task
      && row.task in s.tasks
      && row.inputRevision == s.sessions[row.session].context
      && (InFlight(row.state) ==> s.sessions[row.session].state in {Active, Quiescing})
      && (Unresolved(row.state) ==> s.tasks[row.task].state !in {ReviewPending, Done})
      && (row.state == Unknown ==> row.operation.Some?)
      && (row.key.Some? ==>
            var k := RunKey(row.task, row.executor, row.key.value);
            k in s.index && s.index[k] == r)
  }

  ghost predicate IndexRow(s: Store, k: RunKey) {
    k in s.index ==>
      && s.index[k] in s.runs
      && s.runs[s.index[k]].task == k.task
      && s.runs[s.index[k]].executor == k.executor
      && s.runs[s.index[k]].key == Some(k.key)
  }

  /** A checkpoint supersedes at most an earlier checkpoint of its task, taken at no later revision. */
  ghost predicate CheckpointRow(s: Store, c: CheckpointId) {
    c in s.checkpoints ==>
      var row := s.checkpoints[c];
      && row.row < |s.checkpoints|
      && row.task in s.tasks
      && row.revision <= s.tasks[row.task].revision
      && (row.supersedes.Some? ==>
            row.supersedes.value in s.checkpoints &&
            var previous := s.checkpoints[row.supersedes.value];
            previous.row < row.row && previous.task == row.task && previous.revision <= row.revision)
  }

  ghost predicate CheckpointPair(s: Store, c: CheckpointId, d: CheckpointId) {
    c in s.checkpoints && d in s.checkpoints && c != d ==>
      && s.checkpoints[c].row != s.checkpoints[d].row
      && (s.checkpoints[c].supersedes.Some? ==> s.checkpoints[c].supersedes != s.checkpoints[d].supersedes)
  }

  ghost predicate SessionsOk(s: Store) {
    && (forall x {:trigger SessionRow(s, x)} :: SessionRow(s, x))
    && (forall x, y {:trigger SessionPair(s, x, y)} :: SessionPair(s, x, y))
  }

  ghost predicate RunsOk(s: Store) {
    && (forall r {:trigger RunRow(s, r)} :: RunRow(s, r))
    && (forall k {:trigger IndexRow(s, k)} :: IndexRow(s, k))
  }

  ghost predicate CheckpointsOk(s: Store) {
    && (forall c {:trigger CheckpointRow(s, c)} :: CheckpointRow(s, c))
    && (forall c, d {:trigger CheckpointPair(s, c, d)} :: CheckpointPair(s, c, d))
  }

  ghost predicate Inv(s: Store) {
    SessionsOk(s) && RunsOk(s) && CheckpointsOk(s)
  }

  // ----------------------------------------------------------- preservation

  /** Sessions are untouched by a change that keeps the rows they refer to. */
  lemma SessionsFramed(s: Store, s': Store)
    requires SessionsOk(s) && s'.sessions == s.sessions
    requires forall t :: t in s.tasks ==> t in s'.tasks && s'.tasks[t] == s.tasks[t]
    requires forall c :: c in s.checkpoints ==> c in s'.checkpoints && s'.checkpoints[c] == s.checkpoints[c]
    ensures SessionsOk(s')
  {
    forall x ensures SessionRow(s', x) { assert SessionRow(s, x); }
    forall x, y ensures SessionPair(s', x, y) { assert SessionPair(s, x, y); }
  }

  lemma RunsFramed(s: Store, s': Store)
    requires RunsOk(s) && s'.runs == s.runs && s'.index == s.index
    requires forall t :: t in s.tasks ==> t in s'.tasks && s'.tasks[t] == s.tasks[t]
    requires forall x :: x in s.sessions ==> x in s'.sessions && s'.sessions[x] == s.sessions[x]
    ensures RunsOk(s')
  {
    forall r ensures RunRow(s', r) { assert RunRow(s, r); }
    forall k ensures IndexRow(s', k) { assert IndexRow(s, k); }
  }

  lemma CheckpointsFramed(s: Store, s': Store)
    requires CheckpointsOk(s) && s'.checkpoints == s.checkpoints
    requires forall t :: t in s.tasks ==> t in s'.tasks && s'.tasks[t].revision >= s.tasks[t].revision
    ensures CheckpointsOk(s')
  {
    forall c ensures CheckpointRow(s', c) { assert CheckpointRow(s, c); }
    forall c, d ensures CheckpointPair(s', c, d) { assert CheckpointPair(s, c, d); }
  }

  lemma TransitionTaskKeepsInv(s: Store, c: Call)
    requires Inv(s) && c.TransitionTask?
    ensures Inv(ApplyTransitionTask(s, c).store)
  {
    var s' := ApplyTransitionTask(s, c).store;
    if s' == s { return; }
    CheckpointsFramed(s, s');
    forall x ensures SessionRow(s', x) {
      assert SessionRow(s, x);
      if x in s.sessions && s.sessions[x].task == c.task && IsOpen(s.sessions[x].state) {
        assert HasOpenSession(s, c.task);
      }
    }
    forall x, y ensures SessionPair(s', x, y) { assert SessionPair(s, x, y); }
    forall r ensures RunRow(s', r) {
      assert RunRow(s, r);
      if r in s.runs && s.runs[r].task == c.task && Unresolved(s.runs[r].state) { assert HasUnresolvedRun(s, c.task); }
    }
    forall k ensures IndexRow(s', k) { assert IndexRow(s, k); }
  }

  /** Beside a new session of its task no other is open, and none is without a source if it is. */
  lemma NewSessionIsAlone(s: Store, c: Call, x: SessionId)
    requires c.CreateSession? && ApplyCreateSession(s, c).store != s && x in s.sessions
    requires s.sessions[x].task == c.forTask
    ensures c.source.Some? && !IsOpen(s.sessions[x].state) && c.newSession !in s.sessions
  {
    var t, open := c.forTask, IsOpen(s.sessions[x].state);
    assert HasSession(s, t);
    assert open ==> HasOpenSession(s, t);
  }

  lemma NewSessionPairs(s: Store, c: Call, x: SessionId, y: SessionId)
    requires Inv(s) && c.CreateSession? && ApplyCreateSession(s, c).store != s
    ensures SessionPair(ApplyCreateSession(s, c).store, x, y)
  {
    var t := c.forTask;
    assert SessionPair(s, x, y);
    if x in s.sessions && s.sessions[x].task == t { NewSessionIsAlone(s, c, x); }
    if y in s.sessions && s.sessions[y].task == t { NewSessionIsAlone(s, c, y); }
  }

  lemma CreateSessionKeepsInv(s: Store, c: Call)
    requires Inv(s) && c.CreateSession?
    ensures Inv(ApplyCreateSession(s, c).store)
  {
    var s' := ApplyCreateSession(s, c).store;
    if s' == s { return; }
    CheckpointsFramed(s, s');
    RunsFramed(s, s');
    forall x ensures SessionRow(s', x) { assert SessionRow(s, x); }
    forall x, y ensures SessionPair(s', x, y) { NewSessionPairs(s, c, x, y); }
  }

  lemma TransitionSessionKeepsInv(s: Store, c: Call)
    requires Inv(s) && c.TransitionSession?
    ensures Inv(ApplyTransitionSession(s, c).store)
  {
    var s' := ApplyTransitionSession(s, c).store;
    if s' == s { return; }
    CheckpointsFramed(s, s');
    forall x ensures SessionRow(s', x) { assert SessionRow(s, x); }
    forall x, y ensures SessionPair(s', x, y) { assert SessionPair(s, x, y); }
    forall r ensures RunRow(s', r) {
      assert RunRow(s, r);
      if r in s.runs && s.runs[r].session == c.session && InFlight(s.runs[r].state) {
        assert SessionHasRunInFlight(s, c.session);
      }
    }
    forall k ensures IndexRow(s', k) { assert IndexRow(s, k); }
  }

  lemma CreateRunKeepsInv(s: Store, c: Call)
    requires Inv(s) && c.CreateRun?
    ensures Inv(ApplyCreateRun(s, c).store)
  {
    var s' := ApplyCreateRun(s, c).store;
    if s' == s { return; }
    CheckpointsFramed(s, s');
    SessionsFramed(s, s');
    assert SessionRow(s, c.runSession);
    forall r ensures RunRow(s', r) { assert RunRow(s, r); }
    forall k ensures IndexRow(s', k) { assert IndexRow(s, k); }
  }

  lemma TransitionRunKeepsInv(s: Store, c: Call)
    requires Inv(s) && c.TransitionRun?
    ensures Inv(ApplyTransitionRun(s, c).store)
  {
    var s' := ApplyTransitionRun(s, c).store;
    if s' == s { return; }
    CheckpointsFramed(s, s');
    SessionsFramed(s, s');
    forall r ensures RunRow(s', r) { assert RunRow(s, r); }
    forall k ensures IndexRow(s', k) { assert IndexRow(s, k); }
  }

  lemma CreateCheckpointKeepsInv(s: Store, c: Call)
    requires Inv(s) && c.CreateCheckpoint?
    ensures Inv(ApplyCreateCheckpoint(s, c).store)
  {
    var s' := ApplyCreateCheckpoint(s, c).store;
    if s' == s { return; }
    var previous := if c.supersedes.Some? then c.supersedes.value else 0;
    SessionsFramed(s, s');
    RunsFramed(s, s');
    forall d ensures CheckpointRow(s', d) {
      assert CheckpointRow(s, d);
      assert CheckpointRow(s, previous);
    }
    forall d ensures CheckpointPair(s', d, c.newCheckpoint) && CheckpointPair(s', c.newCheckpoint, d) {
      assert CheckpointRow(s, d);
      assert !Superseded(s, previous) ==> d !in s.checkpoints || s.checkpoints[d].supersedes != Some(previous);
    }
    forall d, e ensures CheckpointPair(s', d, e) { assert CheckpointPair(s, d, e); }
  }

  lemma ApplyKeepsInv(s: Store, c: Call)
    requires Inv(s)
    ensures Inv(Apply(s, c).store)
  {
    match c
    case CreateTask(_, _) =>
      SessionsFramed(s, Apply(s, c).store);
      RunsFramed(s, Apply(s, c).store);
      CheckpointsFramed(s, Apply(s, c).store);
    case TransitionTask(_, _, _) => TransitionTaskKeepsInv(s, c);
    case CreateSession(_, _, _, _) => CreateSessionKeepsInv(s, c);
    case TransitionSession(_, _) => TransitionSessionKeepsInv(s, c);
    case CreateRun(_, _, _, _, _, _) => CreateRunKeepsInv(s, c);
    case TransitionRun(_, _, _) => TransitionRunKeepsInv(s, c);
    case CreateCheckpoint(_, _, _) => CreateCheckpointKeepsInv(s, c);
  }

  lemma {:induction false} ExecuteKeepsInv(s: Store, calls: seq<Call>)
    requires Inv(s)
    ensures Inv(Execute(s, calls))
    decreases |calls|
  {
    if calls != [] {
      ApplyKeepsInv(s, calls[0]);
      ExecuteKeepsInv(Apply(s, calls[0]).store, calls[1..]);
    }
  }

  lemma ReachableInv(s: Store)
    requires Reachable(s)
    ensures Inv(s)
  {
    var calls :| LeadsTo(calls, s);
    ExecuteKeepsInv(Empty(), calls);
  }

  lemma {:induction false} ExecuteOneMore(s: Store, calls: seq<Call>, c: Call)
    ensures Execute(s, calls + [c]) == Apply(Execute(s, calls), c).store
    decreases |calls|
  {
    if calls == [] {
      assert [] + [c] == [c] && [c][1..] == [];
      assert Execute(s, [c]) == Execute(Apply(s, c).store, []);
    } else {
      assert (calls + [c])[0] == calls[0] && (calls + [c])[1..] == calls[1..] + [c];
      ExecuteOneMore(Apply(s, calls[0]).store, calls[1..], c);
    }
  }

  /** A call made in a reachable store leads to one. */
  lemma StaysReachable(s: Store, c: Call)
    requires Reachable(s)
    ensures Inv(s) && Reachable(Apply(s, c).store)
  {
    ReachableInv(s);
    var calls :| LeadsTo(calls, s);
    ExecuteOneMore(Empty(), calls, c);
    assert LeadsTo(calls + [c], Apply(s, c).store);
  }

  // ----------------------------------------------------------- consequences

  ghost function OpenSessions(s: Store, t: TaskId): set<SessionId> {
    set x | x in s.sessions && s.sessions[x].task == t && IsOpen(s.sessions[x].state)
  }

  ghost function RunsInFlight(s: Store, t: TaskId): set<RunId> {
    set r | r in s.runs && s.runs[r].task == t && InFlight(s.runs[r].state)
  }

  /** A run in flight leaves its session as the only open one of the task. */
  lemma RunInFlightHoldsTask(s: Store, r: RunId, x: SessionId)
    requires Inv(s)
    requires r in s.runs && InFlight(s.runs[r].state)
    requires x in s.sessions && s.sessions[x].task == s.runs[r].task && IsOpen(s.sessions[x].state)
    ensures s.runs[r].session == x && s.sessions[x].state in {Active, Quiescing}
  {
    assert RunRow(s, r);
    assert SessionPair(s, x, s.runs[r].session);
  }

  /**
   Single execution lineage: in every reachable store a task has at most one open
   session, and each of its planned or executing runs belongs to that session,
   which is then active or quiescing.
   */
  lemma SingleExecutionLineage(s: Store, t: TaskId)
    requires Reachable(s)
    ensures forall x, y :: x in OpenSessions(s, t) && y in OpenSessions(s, t) ==> x == y
    ensures forall r :: r in RunsInFlight(s, t) ==>
                          s.runs[r].session in OpenSessions(s, t) &&
                          s.sessions[s.runs[r].session].state in {Active, Quiescing}
  {
    ReachableInv(s);
    forall x, y | x in OpenSessions(s, t) && y in OpenSessions(s, t) ensures x == y {
      assert SessionPair(s, x, y);
    }
    forall r | r in RunsInFlight(s, t)
      ensures s.runs[r].session in OpenSessions(s, t) && s.sessions[s.runs[r].session].state in {Active, Quiescing}
    {
      assert RunRow(s, r);
    }
  }

  /**
   Finished means quiet: in every reachable store a task under review or done has
   no planned, executing or unknown run and no open session, and every unknown run
   names an operation.
   */
  lemma FinishedMeansQuiet(s: Store, t: TaskId)
    requires Reachable(s) && t in s.tasks
    ensures s.tasks[t].state in {ReviewPending, Done} ==> !HasUnresolvedRun(s, t) && !HasOpenSession(s, t)
    ensures forall r :: r in s.runs && s.runs[r].state == Unknown ==> s.runs[r].operation.Some?
  {
    ReachableInv(s);
    forall x | x in s.sessions && s.sessions[x].task == t && IsOpen(s.sessions[x].state)
      ensures s.tasks[t].state !in {ReviewPending, Done}
    {
      assert SessionRow(s, x);
    }
    forall r | r in s.runs
      ensures s.runs[r].state == Unknown ==> s.runs[r].operation.Some?
      ensures s.runs[r].task == t && Unresolved(s.runs[r].state) ==> s.tasks[t].state !in {ReviewPending, Done}
    {
      assert RunRow(s, r);
    }
  }

  // ------------------------------------------------------------ dead guards

  /**
   In every reachable store the checks on runs left in flight by another session
   refuse nothing, on planning a run, on starting one and on recovering a session.
   */
  lemma InFlightGuardsAreDead(s: Store, c: Call)
    requires Reachable(s)
    ensures Apply(s, c).outcome.Refused? ==> Apply(s, c).outcome.why !in {RunStillInFlight, ForeignRunInFlight}
  {
    ReachableInv(s);
    match c
    case CreateSession(_, t, _, _) =>
      if HasRunInFlight(s, t) {
        var r :| r in s.runs && s.runs[r].task == t && InFlight(s.runs[r].state);
        assert RunRow(s, r);
        assert HasOpenSession(s, t);
      }
    case CreateRun(_, t, x, _, _, _) =>
      NoForeignRunInFlight(s, t, x);
    case TransitionRun(r, _, _) =>
      assert RunRow(s, r);
      if r in s.runs { NoForeignRunInFlight(s, s.runs[r].task, s.runs[r].session); }
    case _ =>
  }

  lemma NoForeignRunInFlight(s: Store, t: TaskId, x: SessionId)
    requires Inv(s)
    ensures x in s.sessions && s.sessions[x].task == t && s.sessions[x].state == Active ==>
              !HasForeignRunInFlight(s, t, x)
  {
    if x in s.sessions && s.sessions[x].task == t && s.sessions[x].state == Active && HasForeignRunInFlight(s, t, x) {
      var r :| r in s.runs && s.runs[r].task == t && s.runs[r].session != x && InFlight(s.runs[r].state);
      RunInFlightHoldsTask(s, r, x);
    }
  }

  /**
   Of the checks an activation makes in a reachable store only four can refuse: the
   task is not running, the context is stale, the source was superseded since, or
   the transition itself is illegal. The others repeat what creation ensured.
   */
  lemma ActivationGuards(s: Store, x: SessionId)
    requires Reachable(s) && x in s.sessions
    ensures var o := Apply(s, TransitionSession(x, Active)).outcome;
            o.Refused? ==> o.why in {IllegalTransition, TaskNotRunning, ContextStale, CheckpointSuperseded}
  {
    ReachableInv(s);
    assert SessionRow(s, x);
    if IsOpen(s.sessions[x].state) { OpenSessionStandsAlone(s, x); }
  }

  lemma OpenSessionStandsAlone(s: Store, x: SessionId)
    requires Inv(s) && x in s.sessions && IsOpen(s.sessions[x].state)
    ensures !HasOtherOpenSession(s, s.sessions[x].task, x)
    ensures s.sessions[x].source.None? ==> !HasOtherSession(s, s.sessions[x].task, x)
  {
    forall y | y in s.sessions && y != x && s.sessions[y].task == s.sessions[x].task
      ensures s.sessions[x].source.Some? && !IsOpen(s.sessions[y].state)
    {
      assert SessionPair(s, x, y);
    }
  }

  /** A task already under review passes the quietness checks again on its way to done. */
  lemma ReviewAlreadyChecked(s: Store, t: TaskId, revision: int)
    requires Reachable(s) && t in s.tasks
    ensures var o := Apply(s, TransitionTask(t, Done, revision)).outcome;
            o == Accepted <==> s.tasks[t].state == ReviewPending && s.tasks[t].revision == revision
  {
    FinishedMeansQuiet(s, t);
  }
}
