/**
 The core store as a value: five tables, the public calls that change them, and
 what each call does. A call either returns a new store or names the guard that
 refused it and returns the store it was given.
 */
module CoreStore {
  import opened Options
  import opened CoreModels

  datatype Task = Task(state: TaskState, revision: nat)

  datatype Session = Session(task: TaskId, context: nat, state: SessionState, source: Option<CheckpointId>)

  datatype Run = Run(
    task: TaskId, session: SessionId, inputRevision: nat, executor: string, state: RunState,
    operation: Option<string>, key: Option<string>, request: Option<nat>)

  /** `row` is the position of the row in insertion order. */
  datatype Checkpoint = Checkpoint(row: nat, task: TaskId, revision: nat, supersedes: Option<CheckpointId>)

  /** The columns of the unique index on runs. */
  datatype RunKey = RunKey(task: TaskId, executor: string, key: string)

  datatype Store = Store(
    tasks: map<TaskId, Task>,
    sessions: map<SessionId, Session>,
    runs: map<RunId, Run>,
    index: map<RunKey, RunId>,
    checkpoints: map<CheckpointId, Checkpoint>)

  datatype Call =
    | CreateTask(newTask: TaskId, wellFormed: bool)
    | TransitionTask(task: TaskId, taskTarget: TaskState, expectedRevision: int)
    | CreateSession(newSession: SessionId, forTask: TaskId, wellFormed: bool, source: Option<CheckpointId>)
    | TransitionSession(session: SessionId, sessionTarget: SessionState)
    | CreateRun(newRun: RunId, runTask: TaskId, runSession: SessionId, executor: string,
                key: Option<string>, request: Option<nat>)
    | TransitionRun(run: RunId, runTarget: RunState, operation: Option<string>)
    | CreateCheckpoint(newCheckpoint: CheckpointId, ofTask: TaskId, supersedes: Option<CheckpointId>)

  /** One constructor for each guard of the store, in the order of their appearance. */
  datatype Refusal =
    | InvalidInput | DuplicateId
    | TaskMissing | SessionMissing | RunMissing | CheckpointMissing
    | IllegalTransition
    | RevisionConflict | UnresolvedRun | OpenSession
    | TaskNotRunning | SourceRequired | CheckpointForeign | CheckpointStale | CheckpointSuperseded
    | SessionStillOpen | RunStillInFlight
    | ContextStale | OtherSessionOpen | SessionRunInFlight
    | SessionForeign | KeyConflict | SessionNotActive | UnknownRun | ForeignRunInFlight
    | OperationImmutable | OperationRequired

  datatype Outcome = Accepted | Existing(run: RunId) | Refused(why: Refusal)

  datatype Reply = Reply(store: Store, outcome: Outcome)

  function Empty(): Store {
    Store(map[], map[], map[], map[], map[])
  }

  // ---------------------------------------------------------------- queries

  predicate HasUnresolvedRun(s: Store, t: TaskId) {
    exists r :: r in s.runs && s.runs[r].task == t && Unresolved(s.runs[r].state)
  }

  predicate HasRunInFlight(s: Store, t: TaskId) {
    exists r :: r in s.runs && s.runs[r].task == t && InFlight(s.runs[r].state)
  }

  predicate HasUnknownRun(s: Store, t: TaskId) {
    exists r :: r in s.runs && s.runs[r].task == t && s.runs[r].state == Unknown
  }

  predicate HasOtherUnknownRun(s: Store, t: TaskId, run: RunId) {
    exists r :: r in s.runs && r != run && s.runs[r].task == t && s.runs[r].state == Unknown
  }

  predicate HasForeignRunInFlight(s: Store, t: TaskId, x: SessionId) {
    exists r :: r in s.runs && s.runs[r].task == t && s.runs[r].session != x && InFlight(s.runs[r].state)
  }

  predicate SessionHasRunInFlight(s: Store, x: SessionId) {
    exists r :: r in s.runs && s.runs[r].session == x && InFlight(s.runs[r].state)
  }

  predicate HasSession(s: Store, t: TaskId) {
    exists x :: x in s.sessions && s.sessions[x].task == t
  }

  predicate HasOtherSession(s: Store, t: TaskId, x: SessionId) {
    exists y :: y in s.sessions && y != x && s.sessions[y].task == t
  }

  predicate HasOpenSession(s: Store, t: TaskId) {
    exists x :: x in s.sessions && s.sessions[x].task == t && IsOpen(s.sessions[x].state)
  }

  predicate HasOtherOpenSession(s: Store, t: TaskId, x: SessionId) {
    exists y :: y in s.sessions && y != x && s.sessions[y].task == t && IsOpen(s.sessions[y].state)
  }

  predicate Superseded(s: Store, c: CheckpointId) {
    exists d :: d in s.checkpoints && s.checkpoints[d].supersedes == Some(c)
  }

  /** The check a recovering session makes on its source checkpoint. */
  function RecoveryRefusal(s: Store, c: CheckpointId, t: TaskId, revision: nat): Option<Refusal> {
    if c !in s.checkpoints then Some(CheckpointMissing)
    else if s.checkpoints[c].task != t then Some(CheckpointForeign)
    else if s.checkpoints[c].revision != revision then Some(CheckpointStale)
    else if Superseded(s, c) then Some(CheckpointSuperseded)
    else None
  }

  // ------------------------------------------------------------------ calls

  function Refuse(s: Store, why: Refusal): Reply {
    Reply(s, Refused(why))
  }

  function ApplyCreateTask(s: Store, c: Call): Reply
    requires c.CreateTask?
  {
    if !c.wellFormed then Refuse(s, InvalidInput)
    else if c.newTask in s.tasks then Refuse(s, DuplicateId)
    else Reply(s.(tasks := s.tasks[c.newTask := Task(Draft, 1)]), Accepted)
  }

  function ApplyTransitionTask(s: Store, c: Call): Reply
    requires c.TransitionTask?
  {
    if c.task !in s.tasks then Refuse(s, TaskMissing)
    else
      var row := s.tasks[c.task];
      if row.revision != c.expectedRevision then Refuse(s, RevisionConflict)
      else if c.taskTarget !in TaskTargets(row.state) then Refuse(s, IllegalTransition)
      else if c.taskTarget in {ReviewPending, Done} && HasUnresolvedRun(s, c.task) then Refuse(s, UnresolvedRun)
      else if c.taskTarget in {ReviewPending, Done} && HasOpenSession(s, c.task) then Refuse(s, OpenSession)
      else Reply(s.(tasks := s.tasks[c.task := Task(c.taskTarget, row.revision + 1)]), Accepted)
  }

  function ApplyCreateSession(s: Store, c: Call): Reply
    requires c.CreateSession?
  {
    if !c.wellFormed then Refuse(s, InvalidInput)
    else if c.forTask !in s.tasks then Refuse(s, TaskMissing)
    else
      var row := s.tasks[c.forTask];
      if row.state != Running then Refuse(s, TaskNotRunning)
      else if HasSession(s, c.forTask) && c.source.None? then Refuse(s, SourceRequired)
      else if c.source.Some? && RecoveryRefusal(s, c.source.value, c.forTask, row.revision).Some? then
        Refuse(s, RecoveryRefusal(s, c.source.value, c.forTask, row.revision).value)
      else if c.source.Some? && HasOpenSession(s, c.forTask) then Refuse(s, SessionStillOpen)
      else if c.source.Some? && HasRunInFlight(s, c.forTask) then Refuse(s, RunStillInFlight)
      else if c.newSession in s.sessions then Refuse(s, DuplicateId)
      else Reply(s.(sessions := s.sessions[c.newSession := Session(c.forTask, row.revision, Created, c.source)]),
          Accepted)
  }

  function ActivationRefusal(s: Store, x: SessionId): Option<Refusal>
    requires x in s.sessions && s.sessions[x].task in s.tasks
  {
    var row, task := s.sessions[x], s.tasks[s.sessions[x].task];
    if task.state != Running then Some(TaskNotRunning)
    else if row.context != task.revision then Some(ContextStale)
    else if HasOtherSession(s, row.task, x) && row.source.None? then Some(SourceRequired)
    else if row.source.Some? && RecoveryRefusal(s, row.source.value, row.task, task.revision).Some? then
      RecoveryRefusal(s, row.source.value, row.task, task.revision)
    else if HasOtherOpenSession(s, row.task, x) then Some(OtherSessionOpen)
    else None
  }

  function ApplyTransitionSession(s: Store, c: Call): Reply
    requires c.TransitionSession?
  {
    if c.session !in s.sessions || s.sessions[c.session].task !in s.tasks then Refuse(s, SessionMissing)
    else
      var row := s.sessions[c.session];
      if c.sessionTarget !in SessionTargets(row.state) then Refuse(s, IllegalTransition)
      else if c.sessionTarget == Active && ActivationRefusal(s, c.session).Some? then
        Refuse(s, ActivationRefusal(s, c.session).value)
      else if c.sessionTarget in {Checkpointed, Closed} && SessionHasRunInFlight(s, c.session) then
        Refuse(s, SessionRunInFlight)
      else Reply(s.(sessions := s.sessions[c.session := row.(state := c.sessionTarget)]), Accepted)
  }

  /** The guards shared by planning a run and starting one. */
  function ExecutionRefusal(s: Store, t: TaskId, x: SessionId, unknown: bool): Option<Refusal>
    requires t in s.tasks && x in s.sessions
  {
    if s.tasks[t].state != Running then Some(TaskNotRunning)
    else if s.sessions[x].state != Active then Some(SessionNotActive)
    else if s.sessions[x].context != s.tasks[t].revision then Some(ContextStale)
    else if unknown then Some(UnknownRun)
    else if HasForeignRunInFlight(s, t, x) then Some(ForeignRunInFlight)
    else None
  }

  function InsertRun(s: Store, id: RunId, run: Run): Store {
    var index := if run.key.Some? then s.index[RunKey(run.task, run.executor, run.key.value) := id] else s.index;
    s.(runs := s.runs[id := run], index := index)
  }

  function ApplyCreateRun(s: Store, c: Call): Reply
    requires c.CreateRun?
  {
    if Blank(c.executor) || (c.key.Some? && Blank(c.key.value)) then Refuse(s, InvalidInput)
    else if c.runTask !in s.tasks then Refuse(s, TaskMissing)
    else if c.runSession !in s.sessions then Refuse(s, SessionMissing)
    else if s.sessions[c.runSession].task != c.runTask then Refuse(s, SessionForeign)
    else if c.key.Some? && RunKey(c.runTask, c.executor, c.key.value) in s.index then
      var id := s.index[RunKey(c.runTask, c.executor, c.key.value)];
      if id !in s.runs || s.runs[id].request != c.request then Refuse(s, KeyConflict)
      else Reply(s, Existing(id))
    else
      var guard := ExecutionRefusal(s, c.runTask, c.runSession, HasUnknownRun(s, c.runTask));
      if guard.Some? then Refuse(s, guard.value)
      else if c.newRun in s.runs then Refuse(s, DuplicateId)
      else
        Reply(InsertRun(s, c.newRun, Run(c.runTask, c.runSession, s.tasks[c.runTask].revision, c.executor, Planned,
                                         None, c.key, c.request)), Accepted)
  }

  function ApplyTransitionRun(s: Store, c: Call): Reply
    requires c.TransitionRun?
  {
    if c.operation.Some? && Blank(c.operation.value) then Refuse(s, InvalidInput)
    else if c.run !in s.runs || s.runs[c.run].task !in s.tasks || s.runs[c.run].session !in s.sessions then
      Refuse(s, RunMissing)
    else
      var row := s.runs[c.run];
      if c.runTarget !in RunTargets(row.state) then Refuse(s, IllegalTransition)
      else
        var guard :=
          if row.state == Planned && c.runTarget == Executing then
            ExecutionRefusal(s, row.task, row.session, HasOtherUnknownRun(s, row.task, c.run))
          else None;
        if guard.Some? then Refuse(s, guard.value)
        else if row.operation.Some? && c.operation.Some? && row.operation != c.operation then
          Refuse(s, OperationImmutable)
        else
          var effective := if c.operation.Some? then c.operation else row.operation;
          if c.runTarget == Unknown && effective.None? then Refuse(s, OperationRequired)
          else Reply(s.(runs := s.runs[c.run := row.(state := c.runTarget, operation := effective)]), Accepted)
  }

  function ApplyCreateCheckpoint(s: Store, c: Call): Reply
    requires c.CreateCheckpoint?
  {
    if c.ofTask !in s.tasks then Refuse(s, TaskMissing)
    else if c.supersedes.Some? && c.supersedes.value !in s.checkpoints then Refuse(s, CheckpointMissing)
    else if c.supersedes.Some? && s.checkpoints[c.supersedes.value].task != c.ofTask then Refuse(s, CheckpointForeign)
    else if c.supersedes.Some? && Superseded(s, c.supersedes.value) then Refuse(s, CheckpointSuperseded)
    else if c.newCheckpoint in s.checkpoints then Refuse(s, DuplicateId)
    else
      var row := Checkpoint(|s.checkpoints|, c.ofTask, s.tasks[c.ofTask].revision, c.supersedes);
      Reply(s.(checkpoints := s.checkpoints[c.newCheckpoint := row]), Accepted)
  }

  function Apply(s: Store, c: Call): Reply {
    match c
    case CreateTask(_, _) => ApplyCreateTask(s, c)
    case TransitionTask(_, _, _) => ApplyTransitionTask(s, c)
    case CreateSession(_, _, _, _) => ApplyCreateSession(s, c)
    case TransitionSession(_, _) => ApplyTransitionSession(s, c)
    case CreateRun(_, _, _, _, _, _) => ApplyCreateRun(s, c)
    case TransitionRun(_, _, _) => ApplyTransitionRun(s, c)
    case CreateCheckpoint(_, _, _) => ApplyCreateCheckpoint(s, c)
  }

  /** The store after a sequence of calls, refused ones included. */
  function Execute(s: Store, calls: seq<Call>): Store
    decreases |calls|
  {
    if calls == [] then s else Execute(Apply(s, calls[0]).store, calls[1..])
  }

  predicate LeadsTo(calls: seq<Call>, s: Store) {
    Execute(Empty(), calls) == s
  }

  ghost predicate Reachable(s: Store) {
    exists calls :: LeadsTo(calls, s)
  }
}
