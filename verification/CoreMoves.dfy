module CoreMoves {

  // Which calls the core store accepts, said of its rows alone, and what never moves again.

  import opened Options
  import opened CoreModels
  import opened CoreStore

  // ------------------------------------------------------------------ tasks

  /** The twelve moves of a task. */
  predicate TaskMove(before: TaskState, after: TaskState) {
    (before, after) in {
      (Draft, Ready), (Draft, Cancelled), (Ready, Running), (Ready, Cancelled), (Running, Blocked),
      (Running, ReviewPending), (Running, Cancelled), (Blocked, Ready), (Blocked, Cancelled),
      (ReviewPending, Done), (ReviewPending, Ready), (ReviewPending, Cancelled)}
  }

  /** Every run of the task has a result. */
  ghost predicate RunsResolved(s: Store, t: TaskId) {
    forall r :: r in s.runs && s.runs[r].task == t ==> s.runs[r].state in {Succeeded, Failed, Interrupted}
  }

  /** Every session of the task has been checkpointed or closed. */
  ghost predicate SessionsEnded(s: Store, t: TaskId) {
    forall x :: x in s.sessions && s.sessions[x].task == t ==> s.sessions[x].state in {Checkpointed, Closed}
  }

  lemma UnresolvedMeans(s: Store, t: TaskId)
    ensures HasUnresolvedRun(s, t) <==> !RunsResolved(s, t)
    ensures HasOpenSession(s, t) <==> !SessionsEnded(s, t)
  {
  }

  /**
   A task moves exactly along one of its twelve moves, from the revision expected, and into review
   or completion only when its runs are resolved and its sessions ended; the refusal names what
   failed first.
   */
  lemma TaskMoves(s: Store, t: TaskId, target: TaskState, expected: int)
    ensures var reply := Apply(s, Call.TransitionTask(t, target, expected));
            && (reply.outcome == Accepted <==>
                  t in s.tasks && s.tasks[t].revision == expected && TaskMove(s.tasks[t].state, target) &&
                  (target == ReviewPending || target == Done ==> RunsResolved(s, t) && SessionsEnded(s, t)))
            && reply.store == (if reply.outcome == Accepted
                               then s.(tasks := s.tasks[t := Task(target, s.tasks[t].revision + 1)]) else s)
            && (reply.outcome == Refused(TaskMissing) <==> t !in s.tasks)
            && (reply.outcome == Refused(RevisionConflict) <==> t in s.tasks && s.tasks[t].revision != expected)
            && (reply.outcome == Refused(IllegalTransition) <==>
                  t in s.tasks && s.tasks[t].revision == expected && !TaskMove(s.tasks[t].state, target))
            && (reply.outcome == Refused(UnresolvedRun) <==>
                  t in s.tasks && s.tasks[t].revision == expected && TaskMove(s.tasks[t].state, target) &&
                  (target == ReviewPending || target == Done) && !RunsResolved(s, t))
            && (reply.outcome == Refused(OpenSession) <==>
                  t in s.tasks && s.tasks[t].revision == expected && TaskMove(s.tasks[t].state, target) &&
                  (target == ReviewPending || target == Done) && RunsResolved(s, t) && !SessionsEnded(s, t))
  {
    UnresolvedMeans(s, t);
  }

  // --------------------------------------------------------------- sessions

  predicate SessionMove(before: SessionState, after: SessionState) {
    (before, after) in {
      (Created, Active), (Created, Closed), (Active, Quiescing), (Quiescing, Checkpointed), (Checkpointed, Closed)}
  }

  /** The checkpoint is the task's, of the revision, and nothing supersedes it. */
  ghost predicate Recovers(s: Store, c: CheckpointId, t: TaskId, revision: nat) {
    c in s.checkpoints && s.checkpoints[c].task == t && s.checkpoints[c].revision == revision &&
    forall d :: d in s.checkpoints ==> s.checkpoints[d].supersedes != Some(c)
  }

  lemma RecoversMeans(s: Store, c: CheckpointId, t: TaskId, revision: nat)
    ensures RecoveryRefusal(s, c, t, revision).None? <==> Recovers(s, c, t, revision)
  {
    assert Superseded(s, c) <==> exists d :: d in s.checkpoints && s.checkpoints[d].supersedes == Some(c);
  }

  /** What an activation asks of a session and the task it belongs to, as they are now. */
  ghost predicate MayActivate(s: Store, x: SessionId)
    requires x in s.sessions && s.sessions[x].task in s.tasks
  {
    var row := s.sessions[x];
    var task := s.tasks[row.task];
    && task.state == Running && row.context == task.revision
    && (row.source.Some? ==> Recovers(s, row.source.value, row.task, task.revision))
    && (row.source.None? ==> forall y :: y in s.sessions && y != x ==> s.sessions[y].task != row.task)
    && forall y :: y in s.sessions && y != x && s.sessions[y].task == row.task ==>
                     s.sessions[y].state in {Checkpointed, Closed}
  }

  lemma ActivationMeans(s: Store, x: SessionId)
    requires x in s.sessions && s.sessions[x].task in s.tasks
    ensures ActivationRefusal(s, x).None? <==> MayActivate(s, x)
  {
    var row := s.sessions[x];
    if row.source.Some? { RecoversMeans(s, row.source.value, row.task, s.tasks[row.task].revision); }
    assert HasOtherSession(s, row.task, x) <==>
           exists y :: y in s.sessions && y != x && s.sessions[y].task == row.task;
  }

  /** The runs of a session that hold it back: planned or executing ones. */
  ghost predicate SessionRunsAtRest(s: Store, x: SessionId) {
    forall r :: r in s.runs && s.runs[r].session == x ==> s.runs[r].state != Planned && s.runs[r].state != Executing
  }

  /**
   A session moves exactly along one of its five moves: into activity when it may be activated,
   out of quiescence and into closure when none of its runs is planned or executing.
   */
  lemma SessionMoves(s: Store, x: SessionId, target: SessionState)
    ensures var reply := Apply(s, Call.TransitionSession(x, target));
            && (reply.outcome == Accepted <==>
                  x in s.sessions && s.sessions[x].task in s.tasks && SessionMove(s.sessions[x].state, target) &&
                  (target == Active ==> MayActivate(s, x)) &&
                  (target == Checkpointed || target == Closed ==> SessionRunsAtRest(s, x)))
            && reply.store == (if reply.outcome == Accepted
                               then s.(sessions := s.sessions[x := s.sessions[x].(state := target)]) else s)
            && (reply.outcome == Refused(SessionMissing) <==> x !in s.sessions || s.sessions[x].task !in s.tasks)
            && (reply.outcome == Refused(IllegalTransition) <==>
                  x in s.sessions && s.sessions[x].task in s.tasks && !SessionMove(s.sessions[x].state, target))
  {
    if x in s.sessions && s.sessions[x].task in s.tasks { ActivationMeans(s, x); }
    assert SessionHasRunInFlight(s, x) <==> !SessionRunsAtRest(s, x);
  }

  /**
   A session is created exactly for a running task under a new identifier: without a source only as
   its first, with one only from a checkpoint it may recover from, while all its sessions have ended
   and none of its runs is planned or executing.
   */
  lemma SessionBegins(s: Store, x: SessionId, t: TaskId, wellFormed: bool, source: Option<CheckpointId>)
    ensures var reply := Apply(s, Call.CreateSession(x, t, wellFormed, source));
            && (reply.outcome == Accepted <==>
                  wellFormed && t in s.tasks && s.tasks[t].state == Running && x !in s.sessions &&
                  (source.None? ==> forall y :: y in s.sessions ==> s.sessions[y].task != t) &&
                  (source.Some? ==>
                     Recovers(s, source.value, t, s.tasks[t].revision) && SessionsEnded(s, t) &&
                     forall r :: r in s.runs && s.runs[r].task == t ==>
                                   s.runs[r].state != Planned && s.runs[r].state != Executing))
            && reply.store == (if reply.outcome == Accepted
                               then s.(sessions := s.sessions[x := Session(t, s.tasks[t].revision, Created, source)])
                               else s)
  {
    if t in s.tasks && source.Some? { RecoversMeans(s, source.value, t, s.tasks[t].revision); }
    UnresolvedMeans(s, t);
    assert HasSession(s, t) <==> exists y :: y in s.sessions && s.sessions[y].task == t;
    assert HasRunInFlight(s, t) <==>
           exists r :: r in s.runs && s.runs[r].task == t &&
                       (s.runs[r].state == Planned || s.runs[r].state == Executing);
  }

  // ------------------------------------------------------------------- runs

  predicate RunMove(before: RunState, after: RunState) {
    (before, after) in {
      (Planned, Executing), (Planned, Interrupted), (Executing, Succeeded), (Executing, Failed),
      (Executing, Interrupted), (Executing, Unknown), (Unknown, Succeeded), (Unknown, Failed)}
  }

  /** Work on a task may go on in a session: both are at work on one revision, and nothing is left elsewhere. */
  ghost predicate MayExecute(s: Store, t: TaskId, x: SessionId, except: Option<RunId>)
    requires t in s.tasks && x in s.sessions
  {
    && s.tasks[t].state == Running && s.sessions[x].state == Active && s.sessions[x].context == s.tasks[t].revision
    && (forall r :: r in s.runs && s.runs[r].task == t && except != Some(r) ==> s.runs[r].state != Unknown)
    && (forall r :: r in s.runs && s.runs[r].task == t && s.runs[r].session != x ==>
                      s.runs[r].state != Planned && s.runs[r].state != Executing)
  }

  lemma ExecutionMeans(s: Store, t: TaskId, x: SessionId, except: Option<RunId>)
    requires t in s.tasks && x in s.sessions
    ensures var unknown := if except.Some? then HasOtherUnknownRun(s, t, except.value) else HasUnknownRun(s, t);
            ExecutionRefusal(s, t, x, unknown).None? <==> MayExecute(s, t, x, except)
  {
    assert HasForeignRunInFlight(s, t, x) <==>
           exists r :: r in s.runs && s.runs[r].task == t && s.runs[r].session != x &&
                       (s.runs[r].state == Planned || s.runs[r].state == Executing);
  }

  predicate Written(text: string) {
    exists i :: 0 <= i < |text| && text[i] !in " \t\n\r"
  }

  lemma WrittenMeans(text: string)
    ensures Blank(text) <==> !Written(text)
  {
    assert forall c: char :: c in " \t\n\r" <==> c in {' ', '\t', '\n', '\r'};
    assert forall i :: 0 <= i < |text| ==> text[i] in text;
    if !Blank(text) {
      var c :| c in text && c !in {' ', '\t', '\n', '\r'};
      var i :| 0 <= i < |text| && text[i] == c;
      assert text[i] !in " \t\n\r";
    }
  }

  /**
   A run moves exactly along one of its eight moves, starts only where work may go on, keeps the
   operation it has, and becomes unknown only with an operation to look for.
   */
  lemma RunMoves(s: Store, r: RunId, target: RunState, operation: Option<string>)
    ensures var reply := Apply(s, Call.TransitionRun(r, target, operation));
            && (reply.outcome == Accepted <==>
                  (operation.Some? ==> Written(operation.value)) &&
                  r in s.runs && s.runs[r].task in s.tasks && s.runs[r].session in s.sessions &&
                  RunMove(s.runs[r].state, target) &&
                  (target == Executing ==> MayExecute(s, s.runs[r].task, s.runs[r].session, Some(r))) &&
                  (s.runs[r].operation.Some? && operation.Some? ==> operation == s.runs[r].operation) &&
                  (target == Unknown ==> operation.Some? || s.runs[r].operation.Some?))
            && (reply.outcome == Accepted ==>
                  reply.store == s.(runs := s.runs[r := s.runs[r].(state := target, operation :=
                                                   if s.runs[r].operation.Some? then s.runs[r].operation
                                                   else operation)]))
            && (reply.outcome != Accepted ==> reply.store == s)
  {
    if operation.Some? { WrittenMeans(operation.value); }
    if r in s.runs && s.runs[r].task in s.tasks && s.runs[r].session in s.sessions {
      ExecutionMeans(s, s.runs[r].task, s.runs[r].session, Some(r));
    }
  }

  /**
   A run is planned exactly for a new identifier where work may go on and no run has its key yet;
   a used key gives its run back to the same request, and nothing to another.
   */
  lemma RunBegins(s: Store, r: RunId, t: TaskId, x: SessionId, executor: string, key: Option<string>,
                  request: Option<nat>)
    ensures var reply := Apply(s, Call.CreateRun(r, t, x, executor, key, request));
            var sound := Written(executor) && (key.Some? ==> Written(key.value)) && t in s.tasks && x in s.sessions &&
                         s.sessions[x].task == t;
            var used := key.Some? && RunKey(t, executor, key.value) in s.index;
            && (reply.outcome == Accepted <==> sound && !used && MayExecute(s, t, x, None) && r !in s.runs)
            && (reply.outcome == Accepted ==>
                  reply.store == s.(runs := s.runs[r := Run(t, x, s.tasks[t].revision, executor, Planned, None, key,
                                                            request)],
                                    index := if key.Some? then s.index[RunKey(t, executor, key.value) := r]
                                             else s.index))
            && (reply.outcome != Accepted ==> reply.store == s)
            && (reply.outcome.Existing? <==>
                  sound && used && s.index[RunKey(t, executor, key.value)] in s.runs &&
                  s.runs[s.index[RunKey(t, executor, key.value)]].request == request)
            && (reply.outcome.Existing? ==> reply.outcome.run == s.index[RunKey(t, executor, key.value)])
            && (reply.outcome == Refused(KeyConflict) <==> sound && used && !reply.outcome.Existing?)
  {
    WrittenMeans(executor);
    if key.Some? { WrittenMeans(key.value); }
    if t in s.tasks && x in s.sessions { ExecutionMeans(s, t, x, None); }
  }

  // ------------------------------------------------- tasks and checkpoints

  lemma TaskBegins(s: Store, t: TaskId, wellFormed: bool)
    ensures var reply := Apply(s, Call.CreateTask(t, wellFormed));
            && (reply.outcome == Accepted <==> wellFormed && t !in s.tasks)
            && (reply.outcome == Refused(InvalidInput) <==> !wellFormed)
            && (reply.outcome == Refused(DuplicateId) <==> wellFormed && t in s.tasks)
            && reply.store == (if reply.outcome == Accepted then s.(tasks := s.tasks[t := Task(Draft, 1)]) else s)
  {
  }

  /** A checkpoint is taken of an existing task at its revision, and supersedes at most a current one of it. */
  lemma CheckpointBegins(s: Store, c: CheckpointId, t: TaskId, supersedes: Option<CheckpointId>)
    ensures var reply := Apply(s, Call.CreateCheckpoint(c, t, supersedes));
            && (reply.outcome == Accepted <==>
                  t in s.tasks && c !in s.checkpoints &&
                  (supersedes.Some? ==>
                     supersedes.value in s.checkpoints && s.checkpoints[supersedes.value].task == t &&
                     forall d :: d in s.checkpoints ==> s.checkpoints[d].supersedes != supersedes))
            && reply.store == (if reply.outcome == Accepted
                               then s.(checkpoints := s.checkpoints[c := Checkpoint(|s.checkpoints|, t,
                                                                                   s.tasks[t].revision, supersedes)])
                               else s)
  {
    if supersedes.Some? {
      assert Superseded(s, supersedes.value) <==>
             exists d :: d in s.checkpoints && s.checkpoints[d].supersedes == supersedes;
    }
  }

  // --------------------------------------------------------------- refusals

  function Why(outcome: Outcome): Option<Refusal> {
    if outcome.Refused? then Some(outcome.why) else None
  }

  /** What is wrong with a source checkpoint, if anything: the first thing that is. */
  ghost function SourceFault(s: Store, c: CheckpointId, t: TaskId, revision: nat): Option<Refusal> {
    if c !in s.checkpoints then Some(CheckpointMissing)
    else if s.checkpoints[c].task != t then Some(CheckpointForeign)
    else if s.checkpoints[c].revision != revision then Some(CheckpointStale)
    else if exists d :: d in s.checkpoints && s.checkpoints[d].supersedes == Some(c) then Some(CheckpointSuperseded)
    else None
  }

  lemma SourceFaults(s: Store, c: CheckpointId, t: TaskId, revision: nat)
    ensures RecoveryRefusal(s, c, t, revision) == SourceFault(s, c, t, revision)
  {
    assert Superseded(s, c) <==> exists d :: d in s.checkpoints && s.checkpoints[d].supersedes == Some(c);
  }

  /** No run of the task is planned or executing. */
  ghost predicate TaskRunsAtRest(s: Store, t: TaskId) {
    forall r :: r in s.runs && s.runs[r].task == t ==> s.runs[r].state != Planned && s.runs[r].state != Executing
  }

  ghost predicate NoSessionOf(s: Store, t: TaskId, except: Option<SessionId>) {
    forall x :: x in s.sessions && except != Some(x) ==> s.sessions[x].task != t
  }

  ghost predicate NoOpenSessionOf(s: Store, t: TaskId, except: SessionId) {
    forall x :: x in s.sessions && x != except && s.sessions[x].task == t ==>
                  s.sessions[x].state in {Checkpointed, Closed}
  }

  /** A session that cannot begin is refused for the first thing that stands against it. */
  lemma SessionRefusals(s: Store, x: SessionId, t: TaskId, wellFormed: bool, source: Option<CheckpointId>)
    ensures Why(Apply(s, Call.CreateSession(x, t, wellFormed, source)).outcome) ==
              if !wellFormed then Some(InvalidInput)
              else if t !in s.tasks then Some(TaskMissing)
              else if s.tasks[t].state != Running then Some(TaskNotRunning)
              else if source.None? && !NoSessionOf(s, t, None) then Some(SourceRequired)
              else if source.Some? && SourceFault(s, source.value, t, s.tasks[t].revision).Some? then
                SourceFault(s, source.value, t, s.tasks[t].revision)
              else if source.Some? && !SessionsEnded(s, t) then Some(SessionStillOpen)
              else if source.Some? && !TaskRunsAtRest(s, t) then Some(RunStillInFlight)
              else if x in s.sessions then Some(DuplicateId)
              else None
  {
    UnresolvedMeans(s, t);
    assert HasSession(s, t) <==> !NoSessionOf(s, t, None);
    assert HasRunInFlight(s, t) <==> !TaskRunsAtRest(s, t);
    if t in s.tasks && source.Some? { SourceFaults(s, source.value, t, s.tasks[t].revision); }
  }

  /** Why a session may not be activated: the first reason there is. */
  ghost function ActivationFault(s: Store, x: SessionId): Option<Refusal>
    requires x in s.sessions && s.sessions[x].task in s.tasks
  {
    var row, task := s.sessions[x], s.tasks[s.sessions[x].task];
    if task.state != Running then Some(TaskNotRunning)
    else if row.context != task.revision then Some(ContextStale)
    else if row.source.None? && !NoSessionOf(s, row.task, Some(x)) then Some(SourceRequired)
    else if row.source.Some? && SourceFault(s, row.source.value, row.task, task.revision).Some? then
      SourceFault(s, row.source.value, row.task, task.revision)
    else if !NoOpenSessionOf(s, row.task, x) then Some(OtherSessionOpen)
    else None
  }

  lemma ActivationFaults(s: Store, x: SessionId)
    requires x in s.sessions && s.sessions[x].task in s.tasks
    ensures ActivationRefusal(s, x) == ActivationFault(s, x)
  {
    var row := s.sessions[x];
    assert HasOtherSession(s, row.task, x) <==> !NoSessionOf(s, row.task, Some(x));
    assert HasOtherOpenSession(s, row.task, x) <==> !NoOpenSessionOf(s, row.task, x);
    if row.source.Some? { SourceFaults(s, row.source.value, row.task, s.tasks[row.task].revision); }
  }

  /** A session that cannot move is refused for the first thing that stands against it. */
  lemma SessionMoveRefusals(s: Store, x: SessionId, target: SessionState)
    requires x in s.sessions && s.sessions[x].task in s.tasks && SessionMove(s.sessions[x].state, target)
    ensures Why(Apply(s, Call.TransitionSession(x, target)).outcome) ==
              if target == Active then ActivationFault(s, x)
              else if (target == Checkpointed || target == Closed) && !SessionRunsAtRest(s, x) then
                Some(SessionRunInFlight)
              else None
  {
    ActivationFaults(s, x);
    assert SessionHasRunInFlight(s, x) <==> !SessionRunsAtRest(s, x);
  }

  /** Why work on a task may not go on in a session: the first reason there is. */
  ghost function ExecutionFault(s: Store, t: TaskId, x: SessionId, except: Option<RunId>): Option<Refusal>
    requires t in s.tasks && x in s.sessions
  {
    if s.tasks[t].state != Running then Some(TaskNotRunning)
    else if s.sessions[x].state != Active then Some(SessionNotActive)
    else if s.sessions[x].context != s.tasks[t].revision then Some(ContextStale)
    else if exists r :: r in s.runs && s.runs[r].task == t && except != Some(r) && s.runs[r].state == Unknown
      then Some(UnknownRun)
    else if !MayExecute(s, t, x, except) then Some(ForeignRunInFlight)
    else None
  }

  lemma ExecutionFaults(s: Store, t: TaskId, x: SessionId, except: Option<RunId>)
    requires t in s.tasks && x in s.sessions
    ensures var unknown := if except.Some? then HasOtherUnknownRun(s, t, except.value) else HasUnknownRun(s, t);
            ExecutionRefusal(s, t, x, unknown) == ExecutionFault(s, t, x, except)
  {
    ExecutionMeans(s, t, x, except);
  }

  /** A run that cannot begin is refused for the first thing that stands against it. */
  lemma RunRefusals(s: Store, r: RunId, t: TaskId, x: SessionId, executor: string, key: Option<string>,
                    request: Option<nat>)
    requires key.Some? ==> RunKey(t, executor, key.value) !in s.index
    ensures Why(Apply(s, Call.CreateRun(r, t, x, executor, key, request)).outcome) ==
              if !Written(executor) || (key.Some? && !Written(key.value)) then Some(InvalidInput)
              else if t !in s.tasks then Some(TaskMissing)
              else if x !in s.sessions then Some(SessionMissing)
              else if s.sessions[x].task != t then Some(SessionForeign)
              else if ExecutionFault(s, t, x, None).Some? then ExecutionFault(s, t, x, None)
              else if r in s.runs then Some(DuplicateId)
              else None
  {
    WrittenMeans(executor);
    if key.Some? { WrittenMeans(key.value); }
    if t in s.tasks && x in s.sessions { ExecutionFaults(s, t, x, None); }
  }

  /** A run that cannot move is refused for the first thing that stands against it. */
  lemma RunMoveRefusals(s: Store, r: RunId, target: RunState, operation: Option<string>)
    ensures Why(Apply(s, Call.TransitionRun(r, target, operation)).outcome) ==
              if operation.Some? && !Written(operation.value) then Some(InvalidInput)
              else if r !in s.runs || s.runs[r].task !in s.tasks || s.runs[r].session !in s.sessions then
                Some(RunMissing)
              else if !RunMove(s.runs[r].state, target) then Some(IllegalTransition)
              else if target == Executing && ExecutionFault(s, s.runs[r].task, s.runs[r].session, Some(r)).Some? then
                ExecutionFault(s, s.runs[r].task, s.runs[r].session, Some(r))
              else if s.runs[r].operation.Some? && operation.Some? && operation != s.runs[r].operation then
                Some(OperationImmutable)
              else if target == Unknown && operation.None? && s.runs[r].operation.None? then Some(OperationRequired)
              else None
  {
    if operation.Some? { WrittenMeans(operation.value); }
    if r in s.runs && s.runs[r].task in s.tasks && s.runs[r].session in s.sessions {
      ExecutionFaults(s, s.runs[r].task, s.runs[r].session, Some(r));
    }
  }

  lemma CheckpointRefusals(s: Store, c: CheckpointId, t: TaskId, supersedes: Option<CheckpointId>)
    ensures Why(Apply(s, Call.CreateCheckpoint(c, t, supersedes)).outcome) ==
              if t !in s.tasks then Some(TaskMissing)
              else if supersedes.Some? && supersedes.value !in s.checkpoints then Some(CheckpointMissing)
              else if supersedes.Some? && s.checkpoints[supersedes.value].task != t then Some(CheckpointForeign)
              else if supersedes.Some? && exists d :: d in s.checkpoints && s.checkpoints[d].supersedes == supersedes
                then Some(CheckpointSuperseded)
              else if c in s.checkpoints then Some(DuplicateId)
              else None
  {
    if supersedes.Some? {
      assert Superseded(s, supersedes.value) <==>
             exists d :: d in s.checkpoints && s.checkpoints[d].supersedes == supersedes;
    }
  }

  // --------------------------------------------------------------- finality

  predicate TaskIsFinal(s: Store, t: TaskId) {
    t in s.tasks && (s.tasks[t].state == Done || s.tasks[t].state == Cancelled)
  }

  predicate SessionIsFinal(s: Store, x: SessionId) {
    x in s.sessions && s.sessions[x].state == Closed
  }

  predicate RunIsFinal(s: Store, r: RunId) {
    r in s.runs && (s.runs[r].state == Succeeded || s.runs[r].state == Failed || s.runs[r].state == Interrupted)
  }

  lemma TaskStaysFinal(s: Store, c: Call, t: TaskId)
    requires TaskIsFinal(s, t)
    ensures t in Apply(s, c).store.tasks && Apply(s, c).store.tasks[t] == s.tasks[t]
  {
    if c.TransitionTask? { TaskMoves(s, c.task, c.taskTarget, c.expectedRevision); }
  }

  lemma SessionStaysFinal(s: Store, c: Call, x: SessionId)
    requires SessionIsFinal(s, x)
    ensures x in Apply(s, c).store.sessions && Apply(s, c).store.sessions[x] == s.sessions[x]
  {
    if c.TransitionSession? { SessionMoves(s, c.session, c.sessionTarget); }
  }

  lemma RunStaysFinal(s: Store, c: Call, r: RunId)
    requires RunIsFinal(s, r)
    ensures r in Apply(s, c).store.runs && Apply(s, c).store.runs[r] == s.runs[r]
  {
    if c.TransitionRun? { RunMoves(s, c.run, c.runTarget, c.operation); }
  }

  /**
   The end of a task, of a session and of a run is final: whatever is called, from any store on, a
   task that is done or cancelled, a closed session and a run with a result keep their rows.
   */
  lemma {:induction false} EndsAreFinal(s: Store, calls: seq<Call>, t: TaskId, x: SessionId, r: RunId)
    ensures TaskIsFinal(s, t) ==> t in Execute(s, calls).tasks && Execute(s, calls).tasks[t] == s.tasks[t]
    ensures SessionIsFinal(s, x) ==> x in Execute(s, calls).sessions && Execute(s, calls).sessions[x] == s.sessions[x]
    ensures RunIsFinal(s, r) ==> r in Execute(s, calls).runs && Execute(s, calls).runs[r] == s.runs[r]
    decreases |calls|
  {
    if calls != [] {
      var c := calls[0];
      if TaskIsFinal(s, t) { TaskStaysFinal(s, c, t); }
      if SessionIsFinal(s, x) { SessionStaysFinal(s, c, x); }
      if RunIsFinal(s, r) { RunStaysFinal(s, c, r); }
      EndsAreFinal(Apply(s, c).store, calls[1..], t, x, r);
    }
  }
}
