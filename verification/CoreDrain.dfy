module CoreDrain {

  // No wedged state: from every reachable store an explicit plan of calls, every one of
  // them accepted, settles a task, finishes it, or brings it back to work.

  import opened Options
  import opened CoreModels
  import opened CoreStore
  import opened CoreInvariant

  predicate Accepts(s: Store, c: Call) {
    Apply(s, c).outcome == Accepted
  }

  predicate AllAccepted(s: Store, calls: seq<Call>)
    decreases |calls|
  {
    calls != [] ==> Accepts(s, calls[0]) && AllAccepted(Apply(s, calls[0]).store, calls[1..])
  }

  lemma {:induction false} PlansCompose(s: Store, a: seq<Call>, b: seq<Call>)
    requires AllAccepted(s, a) && AllAccepted(Execute(s, a), b)
    ensures AllAccepted(s, a + b) && Execute(s, a + b) == Execute(Execute(s, a), b)
    decreases |a|
  {
    if a == [] {
      assert a + b == b;
    } else {
      assert (a + b)[0] == a[0] && (a + b)[1..] == a[1..] + b;
      PlansCompose(Apply(s, a[0]).store, a[1..], b);
    }
  }

  // -------------------------------------------------------------- settling

  ghost function UnresolvedRuns(s: Store, t: TaskId): set<RunId> {
    set r | r in s.runs && s.runs[r].task == t && Unresolved(s.runs[r].state)
  }

  ghost function ActiveSessions(s: Store, t: TaskId): set<SessionId> {
    set x | x in s.sessions && s.sessions[x].task == t && s.sessions[x].state == Active
  }

  ghost predicate Settled(s: Store, t: TaskId) {
    !HasUnresolvedRun(s, t) && !HasOpenSession(s, t)
  }

  /** Nothing but the runs and sessions of one task differs. */
  ghost predicate OnlyTouches(s: Store, s': Store, t: TaskId) {
    && s'.tasks == s.tasks && s'.checkpoints == s.checkpoints && s'.index == s.index
    && s'.sessions.Keys == s.sessions.Keys && s'.runs.Keys == s.runs.Keys
    && (forall x :: x in s.sessions && s.sessions[x].task != t ==> s'.sessions[x] == s.sessions[x])
    && (forall x :: x in s.sessions ==> s'.sessions[x].task == s.sessions[x].task)
    && (forall r :: r in s.runs && s.runs[r].task != t ==> s'.runs[r] == s.runs[r])
    && (forall r :: r in s.runs ==> s'.runs[r].task == s.runs[r].task)
  }

  /** How a run that is still unresolved is given a result, whatever the state of its task. */
  function SettleRun(r: RunId, state: RunState): Call {
    TransitionRun(r, if state == Planned then Interrupted else Failed, None)
  }

  function SettleSession(x: SessionId, state: SessionState): Call {
    TransitionSession(x, if state == Created then Closed else if state == Active then Quiescing else Checkpointed)
  }

  lemma SettlingRun(s: Store, t: TaskId, r: RunId)
    requires Inv(s) && r in UnresolvedRuns(s, t)
    ensures var c := SettleRun(r, s.runs[r].state);
            Accepts(s, c) && OnlyTouches(s, Apply(s, c).store, t) &&
            UnresolvedRuns(Apply(s, c).store, t) == UnresolvedRuns(s, t) - {r}
  {
    assert RunRow(s, r);
  }

  lemma SettlingSession(s: Store, t: TaskId, x: SessionId)
    requires Inv(s) && x in OpenSessions(s, t) && UnresolvedRuns(s, t) == {}
    ensures var c := SettleSession(x, s.sessions[x].state);
            Accepts(s, c) && OnlyTouches(s, Apply(s, c).store, t) &&
            UnresolvedRuns(Apply(s, c).store, t) == {} &&
            if s.sessions[x].state == Active then
              OpenSessions(Apply(s, c).store, t) == OpenSessions(s, t) &&
              ActiveSessions(Apply(s, c).store, t) == ActiveSessions(s, t) - {x}
            else
              OpenSessions(Apply(s, c).store, t) == OpenSessions(s, t) - {x}
  {
    assert SessionRow(s, x);
    forall r | r in s.runs && s.runs[r].session == x ensures !InFlight(s.runs[r].state) {
      assert RunRow(s, r);
      assert r !in UnresolvedRuns(s, t);
    }
    assert !SessionHasRunInFlight(s, x);
  }

  /**
   Settling a task: results for its unresolved runs, then the way out of its open
   session. The plan never touches a task row, so it serves a cancelled task too.
   */
  ghost function SettlePlan(s: Store, t: TaskId): (plan: seq<Call>)
    requires Inv(s)
    ensures AllAccepted(s, plan)
    ensures Inv(Execute(s, plan)) && Settled(Execute(s, plan), t)
    ensures OnlyTouches(s, Execute(s, plan), t)
    decreases UnresolvedRuns(s, t), OpenSessions(s, t), ActiveSessions(s, t)
  {
    if r :| r in UnresolvedRuns(s, t) then
      var c := SettleRun(r, s.runs[r].state);
      SettlingRun(s, t, r);
      ApplyKeepsInv(s, c);
      var rest := SettlePlan(Apply(s, c).store, t);
      assert ([c] + rest)[1..] == rest;
      [c] + rest
    else if x :| x in OpenSessions(s, t) then
      var c := SettleSession(x, s.sessions[x].state);
      SettlingSession(s, t, x);
      ApplyKeepsInv(s, c);
      var rest := SettlePlan(Apply(s, c).store, t);
      assert ([c] + rest)[1..] == rest;
      [c] + rest
    else
      assert Settled(s, t) by {
        assert forall r :: r in s.runs && s.runs[r].task == t ==>
            r in UnresolvedRuns(s, t) || !Unresolved(s.runs[r].state);
        assert forall x :: x in s.sessions && s.sessions[x].task == t ==>
            x in OpenSessions(s, t) || !IsOpen(s.sessions[x].state);
      }
      []
  }

  // -------------------------------------------------------------- finishing

  function StepsToDone(state: TaskState): nat {
    match state
    case Draft => 4
    case Blocked => 4
    case Ready => 3
    case Running => 2
    case ReviewPending => 1
    case Done => 0
    case Cancelled => 0
  }

  function TowardsDone(state: TaskState): TaskState {
    match state
    case Draft => Ready
    case Blocked => Ready
    case Ready => Running
    case Running => ReviewPending
    case ReviewPending => Done
    case Done => Done
    case Cancelled => Cancelled
  }

  ghost function FinishPlan(s: Store, t: TaskId): (plan: seq<Call>)
    requires t in s.tasks && s.tasks[t].state != Cancelled && Settled(s, t)
    ensures AllAccepted(s, plan)
    ensures Execute(s, plan).tasks.Keys == s.tasks.Keys && Execute(s, plan).tasks[t].state == Done
    ensures forall u :: u in s.tasks && u != t ==> Execute(s, plan).tasks[u] == s.tasks[u]
    ensures Execute(s, plan).(tasks := s.tasks) == s
    decreases StepsToDone(s.tasks[t].state)
  {
    if s.tasks[t].state == Done then []
    else
      var c := TransitionTask(t, TowardsDone(s.tasks[t].state), s.tasks[t].revision);
      var next := Apply(s, c).store;
      assert next == s.(tasks := s.tasks[t := Task(TowardsDone(s.tasks[t].state), s.tasks[t].revision + 1)]);
      assert Settled(next, t);
      var rest := FinishPlan(next, t);
      assert ([c] + rest)[1..] == rest;
      [c] + rest
  }

  /**
   From every reachable store, a task that is not cancelled can be brought to done; nothing but
   its own row and its runs and sessions differs afterwards.
   */
  lemma EveryTaskCanFinish(s: Store, t: TaskId) returns (plan: seq<Call>)
    requires Reachable(s) && t in s.tasks && s.tasks[t].state != Cancelled
    ensures AllAccepted(s, plan)
    ensures t in Execute(s, plan).tasks && Execute(s, plan).tasks[t].state == Done
    ensures forall u :: u in s.tasks && u != t ==>
              u in Execute(s, plan).tasks && Execute(s, plan).tasks[u] == s.tasks[u]
    ensures Execute(s, plan).tasks.Keys == s.tasks.Keys
    ensures OnlyTouches(s, Execute(s, plan).(tasks := s.tasks), t)
  {
    ReachableInv(s);
    var settle := SettlePlan(s, t);
    var finish := FinishPlan(Execute(s, settle), t);
    PlansCompose(s, settle, finish);
    plan := settle + finish;
  }

  /** A cancelled task cannot move, yet everything it left running or open can still be settled. */
  lemma CancelledTaskCanSettle(s: Store, t: TaskId) returns (plan: seq<Call>)
    requires Reachable(s) && t in s.tasks && s.tasks[t].state == Cancelled
    ensures AllAccepted(s, plan) && Execute(s, plan).tasks == s.tasks
    ensures Settled(Execute(s, plan), t)
  {
    ReachableInv(s);
    plan := SettlePlan(s, t);
  }

  // --------------------------------------------------------------- resuming

  lemma OnePlan(s: Store, c: Call)
    requires Accepts(s, c)
    ensures AllAccepted(s, [c]) && Execute(s, [c]) == Apply(s, c).store
  {
    assert [c][1..] == [];
    assert Execute(Apply(s, c).store, []) == Apply(s, c).store;
  }

  lemma TwoPlans(s: Store, c: Call, d: Call)
    requires Accepts(s, c) && Accepts(Apply(s, c).store, d)
    ensures AllAccepted(s, [c, d]) && Execute(s, [c, d]) == Apply(Apply(s, c).store, d).store
  {
    OnePlan(s, c);
    OnePlan(Apply(s, c).store, d);
    PlansCompose(s, [c], [d]);
    assert [c] + [d] == [c, d];
  }

  lemma TakingCheckpoint(s: Store, t: TaskId, c: CheckpointId)
    requires CheckpointsOk(s) && c !in s.checkpoints && t in s.tasks
    ensures Accepts(s, CreateCheckpoint(c, t, None))
    ensures var next := Apply(s, CreateCheckpoint(c, t, None)).store;
            next == s.(checkpoints := next.checkpoints) && c in next.checkpoints &&
            next.checkpoints[c].task == t && next.checkpoints[c].revision == s.tasks[t].revision && !Superseded(next, c)
  {
    forall d | d in s.checkpoints ensures s.checkpoints[d].supersedes != Some(c) { assert CheckpointRow(s, d); }
  }

  lemma OpeningSession(s: Store, t: TaskId, c: CheckpointId, x: SessionId)
    requires t in s.tasks && s.tasks[t].state == Running && Settled(s, t) && x !in s.sessions
    requires RecoveryRefusal(s, c, t, s.tasks[t].revision) == None
    ensures var plan := [CreateSession(x, t, true, Some(c)), TransitionSession(x, Active)];
            AllAccepted(s, plan) &&
            Execute(s, plan) == s.(sessions := s.sessions[x := Session(t, s.tasks[t].revision, Active, Some(c))])
  {
    var create, activate := CreateSession(x, t, true, Some(c)), TransitionSession(x, Active);
    assert HasRunInFlight(s, t) ==> HasUnresolvedRun(s, t);
    assert Accepts(s, create);
    var next := Apply(s, create).store;
    assert HasOtherOpenSession(next, t, x) ==> HasOpenSession(s, t);
    assert RecoveryRefusal(next, c, t, s.tasks[t].revision) == None by {
      assert Superseded(next, c) ==> Superseded(s, c);
    }
    assert Accepts(next, activate);
    TwoPlans(s, create, activate);
  }

  lemma StartingRun(s: Store, t: TaskId, x: SessionId, r: RunId, executor: string)
    requires t in s.tasks && s.tasks[t].state == Running && !HasUnresolvedRun(s, t) && r !in s.runs && !Blank(executor)
    requires x in s.sessions && s.sessions[x].task == t && s.sessions[x].state == Active
    requires s.sessions[x].context == s.tasks[t].revision
    ensures var plan := [CreateRun(r, t, x, executor, None, None), TransitionRun(r, Executing, None)];
            AllAccepted(s, plan) &&
            Execute(s, plan) ==
              s.(runs := s.runs[r := Run(t, x, s.tasks[t].revision, executor, Executing, None, None, None)])
  {
    var create, start := CreateRun(r, t, x, executor, None, None), TransitionRun(r, Executing, None);
    assert HasUnknownRun(s, t) || HasForeignRunInFlight(s, t, x) ==> HasUnresolvedRun(s, t);
    assert Accepts(s, create);
    var next := Apply(s, create).store;
    assert HasOtherUnknownRun(next, t, r) ==> HasUnresolvedRun(s, t);
    assert HasForeignRunInFlight(next, t, x) ==> HasUnresolvedRun(s, t);
    assert Accepts(next, start);
    TwoPlans(s, create, start);
  }

  /** Checkpoint the settled task, open a session on it, and start a run. */
  function ResumeCalls(t: TaskId, c: CheckpointId, x: SessionId, r: RunId, executor: string): seq<Call> {
    [CreateCheckpoint(c, t, None)] +
    ([CreateSession(x, t, true, Some(c)), TransitionSession(x, Active)] +
     [CreateRun(r, t, x, executor, None, None), TransitionRun(r, Executing, None)])
  }

  lemma Resuming(s: Store, t: TaskId, c: CheckpointId, x: SessionId, r: RunId, executor: string)
    requires Inv(s) && Settled(s, t) && t in s.tasks && s.tasks[t].state == Running && !Blank(executor)
    requires c !in s.checkpoints && x !in s.sessions && r !in s.runs
    ensures var plan := ResumeCalls(t, c, x, r, executor);
            AllAccepted(s, plan) && r in Execute(s, plan).runs &&
            Execute(s, plan).runs[r].state == Executing && Execute(s, plan).runs[r].task == t &&
            Execute(s, plan).runs[r].inputRevision == s.tasks[t].revision && Execute(s, plan).tasks == s.tasks
  {
    var take := [CreateCheckpoint(c, t, None)];
    var open := [CreateSession(x, t, true, Some(c)), TransitionSession(x, Active)];
    var start := [CreateRun(r, t, x, executor, None, None), TransitionRun(r, Executing, None)];
    TakingCheckpoint(s, t, c);
    OnePlan(s, take[0]);
    var taken := Execute(s, take);
    assert Settled(taken, t);
    OpeningSession(taken, t, c, x);
    var ready := Execute(taken, open);
    assert !HasUnresolvedRun(ready, t);
    StartingRun(ready, t, x, r, executor);
    PlansCompose(taken, open, start);
    PlansCompose(s, take, open + start);
  }

  /**
   From every reachable store a running task can be brought back to work: once it is
   settled, a checkpoint, a session on it and its activation let a new run start from
   the current revision.
   */
  lemma RunningTaskCanResume(s: Store, t: TaskId, c: CheckpointId, x: SessionId, r: RunId, executor: string)
    returns (plan: seq<Call>)
    requires Reachable(s) && t in s.tasks && s.tasks[t].state == Running && !Blank(executor)
    requires c !in s.checkpoints && x !in s.sessions && r !in s.runs
    ensures AllAccepted(s, plan) && Execute(s, plan).tasks == s.tasks
    ensures r in Execute(s, plan).runs && Execute(s, plan).runs[r].state == Executing
    ensures Execute(s, plan).runs[r].task == t && Execute(s, plan).runs[r].inputRevision == s.tasks[t].revision
  {
    ReachableInv(s);
    var settle := SettlePlan(s, t);
    Resuming(Execute(s, settle), t, c, x, r, executor);
    PlansCompose(s, settle, ResumeCalls(t, c, x, r, executor));
    plan := settle + ResumeCalls(t, c, x, r, executor);
  }
}
