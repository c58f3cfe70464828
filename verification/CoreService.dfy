/**
 The core store as an object whose tables are updated in place. Each public method
 reads rows, refuses with its tables untouched, or writes one row; its contract is
 the corresponding call on the value of the tables.
 */
module CoreService {
  import opened Options
  import opened CoreModels
  import opened CoreStore
  import opened CoreInvariant

  class QingtianStore {
    var tasks: map<TaskId, Task>
    var sessions: map<SessionId, Session>
    var runs: map<RunId, Run>
    var index: map<RunKey, RunId>
    var checkpoints: map<CheckpointId, Checkpoint>

    function Tables(): Store
      reads this
    {
      Store(tasks, sessions, runs, index, checkpoints)
    }

    ghost predicate Valid()
      reads this
    {
      Reachable(Tables())
    }

    constructor ()
      ensures Valid() && Tables() == Empty()
    {
      tasks, sessions, runs, index, checkpoints := map[], map[], map[], map[], map[];
      new;
      assert LeadsTo([], Empty());
    }

    method CreateTask(id: TaskId, wellFormed: bool) returns (outcome: Outcome)
      requires Valid()
      modifies this
      ensures Valid()
      ensures Reply(Tables(), outcome) == Apply(old(Tables()), Call.CreateTask(id, wellFormed))
    {
      StaysReachable(Tables(), Call.CreateTask(id, wellFormed));
      if !wellFormed { return Refused(InvalidInput); }
      if id in tasks { return Refused(DuplicateId); }
      tasks := tasks[id := Task(Draft, 1)];
      return Accepted;
    }

    method TransitionTask(id: TaskId, target: TaskState, expectedRevision: int) returns (outcome: Outcome)
      requires Valid()
      modifies this
      ensures Valid()
      ensures Reply(Tables(), outcome) == Apply(old(Tables()), Call.TransitionTask(id, target, expectedRevision))
    {
      StaysReachable(Tables(), Call.TransitionTask(id, target, expectedRevision));
      if id !in tasks { return Refused(TaskMissing); }
      var row := tasks[id];
      if row.revision != expectedRevision { return Refused(RevisionConflict); }
      if target !in TaskTargets(row.state) { return Refused(IllegalTransition); }
      if target in {ReviewPending, Done} {
        if HasUnresolvedRun(Tables(), id) { return Refused(UnresolvedRun); }
        if HasOpenSession(Tables(), id) { return Refused(OpenSession); }
      }
      tasks := tasks[id := row.(state := target, revision := row.revision + 1)];
      return Accepted;
    }

    /** The recovery check reads only, and names the first guard that fails. */
    method RequireRecoveryCheckpoint(c: CheckpointId, t: TaskId, revision: nat) returns (refusal: Option<Refusal>)
      ensures refusal == RecoveryRefusal(Tables(), c, t, revision)
      ensures refusal.None? <==>
                c in checkpoints && checkpoints[c].task == t && checkpoints[c].revision == revision &&
                forall d :: d in checkpoints ==> checkpoints[d].supersedes != Some(c)
    {
      if c !in checkpoints { return Some(CheckpointMissing); }
      if checkpoints[c].task != t { return Some(CheckpointForeign); }
      if checkpoints[c].revision != revision { return Some(CheckpointStale); }
      assert Superseded(Tables(), c) <==> exists d :: d in checkpoints && checkpoints[d].supersedes == Some(c);
      if Superseded(Tables(), c) { return Some(CheckpointSuperseded); }
      return None;
    }

    method CreateSession(id: SessionId, t: TaskId, wellFormed: bool, source: Option<CheckpointId>)
      returns (outcome: Outcome)
      requires Valid()
      modifies this
      ensures Valid()
      ensures Reply(Tables(), outcome) == Apply(old(Tables()), Call.CreateSession(id, t, wellFormed, source))
    {
      StaysReachable(Tables(), Call.CreateSession(id, t, wellFormed, source));
      if !wellFormed { return Refused(InvalidInput); }
      if t !in tasks { return Refused(TaskMissing); }
      if tasks[t].state != Running { return Refused(TaskNotRunning); }
      if HasSession(Tables(), t) && source.None? { return Refused(SourceRequired); }
      if source.Some? {
        var refusal := RequireRecoveryCheckpoint(source.value, t, tasks[t].revision);
        if refusal.Some? { return Refused(refusal.value); }
        if HasOpenSession(Tables(), t) { return Refused(SessionStillOpen); }
        if HasRunInFlight(Tables(), t) { return Refused(RunStillInFlight); }
      }
      if id in sessions { return Refused(DuplicateId); }
      sessions := sessions[id := Session(t, tasks[t].revision, Created, source)];
      return Accepted;
    }

    method TransitionSession(id: SessionId, target: SessionState) returns (outcome: Outcome)
      requires Valid()
      modifies this
      ensures Valid()
      ensures Reply(Tables(), outcome) == Apply(old(Tables()), Call.TransitionSession(id, target))
    {
      StaysReachable(Tables(), Call.TransitionSession(id, target));
      if id !in sessions || sessions[id].task !in tasks { return Refused(SessionMissing); }
      var row := sessions[id];
      if target !in SessionTargets(row.state) { return Refused(IllegalTransition); }
      if target == Active {
        var task := tasks[row.task];
        if task.state != Running { return Refused(TaskNotRunning); }
        if row.context != task.revision { return Refused(ContextStale); }
        if HasOtherSession(Tables(), row.task, id) && row.source.None? { return Refused(SourceRequired); }
        if row.source.Some? {
          var refusal := RequireRecoveryCheckpoint(row.source.value, row.task, task.revision);
          if refusal.Some? { return Refused(refusal.value); }
        }
        if HasOtherOpenSession(Tables(), row.task, id) { return Refused(OtherSessionOpen); }
      }
      if target in {Checkpointed, Closed} && SessionHasRunInFlight(Tables(), id) { return Refused(SessionRunInFlight); }
      sessions := sessions[id := row.(state := target)];
      return Accepted;
    }

    method CreateRun(id: RunId, t: TaskId, x: SessionId, executor: string, key: Option<string>, request: Option<nat>)
      returns (outcome: Outcome)
      requires Valid()
      modifies this
      ensures Valid()
      ensures Reply(Tables(), outcome) == Apply(old(Tables()), Call.CreateRun(id, t, x, executor, key, request))
    {
      StaysReachable(Tables(), Call.CreateRun(id, t, x, executor, key, request));
      if Blank(executor) || (key.Some? && Blank(key.value)) { return Refused(InvalidInput); }
      if t !in tasks { return Refused(TaskMissing); }
      if x !in sessions { return Refused(SessionMissing); }
      if sessions[x].task != t { return Refused(SessionForeign); }
      if key.Some? && RunKey(t, executor, key.value) in index {
        var existing := index[RunKey(t, executor, key.value)];
        assert IndexRow(Tables(), RunKey(t, executor, key.value));
        if runs[existing].request != request { return Refused(KeyConflict); }
        return Existing(existing);
      }
      if tasks[t].state != Running { return Refused(TaskNotRunning); }
      if sessions[x].state != Active { return Refused(SessionNotActive); }
      if sessions[x].context != tasks[t].revision { return Refused(ContextStale); }
      if HasUnknownRun(Tables(), t) { return Refused(UnknownRun); }
      if HasForeignRunInFlight(Tables(), t, x) { return Refused(ForeignRunInFlight); }
      if id in runs { return Refused(DuplicateId); }
      runs := runs[id := Run(t, x, tasks[t].revision, executor, Planned, None, key, request)];
      if key.Some? { index := index[RunKey(t, executor, key.value) := id]; }
      return Accepted;
    }

    method TransitionRun(id: RunId, target: RunState, operation: Option<string>) returns (outcome: Outcome)
      requires Valid()
      modifies this
      ensures Valid()
      ensures Reply(Tables(), outcome) == Apply(old(Tables()), Call.TransitionRun(id, target, operation))
    {
      StaysReachable(Tables(), Call.TransitionRun(id, target, operation));
      if operation.Some? && Blank(operation.value) { return Refused(InvalidInput); }
      if id !in runs || runs[id].task !in tasks || runs[id].session !in sessions { return Refused(RunMissing); }
      var row := runs[id];
      if target !in RunTargets(row.state) { return Refused(IllegalTransition); }
      if row.state == Planned && target == Executing {
        if tasks[row.task].state != Running { return Refused(TaskNotRunning); }
        if sessions[row.session].state != Active { return Refused(SessionNotActive); }
        if sessions[row.session].context != tasks[row.task].revision { return Refused(ContextStale); }
        if HasOtherUnknownRun(Tables(), row.task, id) { return Refused(UnknownRun); }
        if HasForeignRunInFlight(Tables(), row.task, row.session) { return Refused(ForeignRunInFlight); }
      }
      if row.operation.Some? && operation.Some? && row.operation != operation { return Refused(OperationImmutable); }
      var effective := if operation.Some? then operation else row.operation;
      if target == Unknown && effective.None? { return Refused(OperationRequired); }
      runs := runs[id := row.(state := target, operation := effective)];
      return Accepted;
    }

    method CreateCheckpoint(id: CheckpointId, t: TaskId, supersedes: Option<CheckpointId>) returns (outcome: Outcome)
      requires Valid()
      modifies this
      ensures Valid()
      ensures Reply(Tables(), outcome) == Apply(old(Tables()), Call.CreateCheckpoint(id, t, supersedes))
    {
      StaysReachable(Tables(), Call.CreateCheckpoint(id, t, supersedes));
      if t !in tasks { return Refused(TaskMissing); }
      if supersedes.Some? {
        if supersedes.value !in checkpoints { return Refused(CheckpointMissing); }
        if checkpoints[supersedes.value].task != t { return Refused(CheckpointForeign); }
        if Superseded(Tables(), supersedes.value) { return Refused(CheckpointSuperseded); }
      }
      if id in checkpoints { return Refused(DuplicateId); }
      checkpoints := checkpoints[id := Checkpoint(|checkpoints|, t, tasks[t].revision, supersedes)];
      return Accepted;
    }
  }
}
