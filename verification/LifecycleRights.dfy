module LifecycleRights {

  // Who may move what: over any steps of any processes a handoff is answered by its recipient and
  // resolved by its sender, an execution lives by its executor and ends by it or by the owner of its
  // task, and a run ends by the process that holds it.

  import opened Options
  import opened Lifecycle
  import opened LifecycleInvariant
  import opened LifecycleDue
  import opened LifecycleActions

  // ---------------------------------------------------------------- handoffs

  /** The step is the recipient's answer to the offer, in time and with its manifest. */
  ghost predicate Answers(db: Db, s: Step, h: HandoffId) {
    Handles(db, s) && (s.request.action.Accept? || s.request.action.Reject?) && s.request.action.handoff == h &&
    MayAnswer(db, s.task, h, s.request.action.manifest, s.request.actor) &&
    (s.request.action.Accept? ==> s.task in db.tasks && Workable(db.tasks[s.task]))
  }

  /** The step is the sender's resolution of the handoff. */
  ghost predicate Resolves(db: Db, s: Step, h: HandoffId) {
    Handles(db, s) && s.request.action.Resolve? && s.request.action.handoff == h &&
    h in db.handoffs && s.task == db.handoffs[h].task && s.request.actor == db.handoffs[h].sender &&
    db.handoffs[h].status != Resolved && (s.request.action.completed ==> db.handoffs[h].status == Accepted)
  }

  /** The step is an offer of the handoff, with what it stays to be about. */
  ghost predicate Offers(db: Db, s: Step, h: HandoffId) {
    Handles(db, s) && s.request.action.Offer? && s.id == h && h !in db.handoffs &&
    s.request.action.recipient != s.request.actor && db.clock < s.request.action.deadline
  }

  lemma OtherActionsKeepHandoffs(db: Db, s: Step)
    requires Handles(db, s)
    requires var a := s.request.action; !a.Offer? && !a.Accept? && !a.Reject? && !a.Resolve?
    ensures Next(db, s).handoffs == db.handoffs
  {
    if s.request.action.Amend? {
      AmendSets(db, s);
    } else if s.request.action.Register? {
      RegisterIsExact(db, s);
    } else if s.request.action.Activity? {
      ActivityIsExact(db, s);
    } else if s.request.action.Finish? {
      FinishIsExact(db, s);
    } else {
      OutboxActionsLeave(db, s);
    }
  }

  lemma OutboxActionsLeave(db: Db, s: Step)
    requires Handles(db, s) && (s.request.action.Claim? || s.request.action.Acknowledge? || s.request.action.Reconcile?)
    ensures Next(db, s).handoffs == db.handoffs
    ensures !s.request.action.Reconcile? ==> Next(db, s).executions == db.executions
  {
    if s.request.action.Claim? {
      ClaimIsExact(db, s);
    } else if s.request.action.Acknowledge? {
      AcknowledgeIsExact(db, s);
    } else {
      ReconcileIsExact(db, s);
    }
  }

  lemma UnhandledKeeps(db: Db, s: Step)
    requires !Handles(db, s)
    ensures Next(db, s).handoffs == db.handoffs && Next(db, s).executions == db.executions
  {
    if s.Call? { UnhandledIsIdle(db, s); } else { StepFrame(db, s); }
  }

  /** What a step makes of a handoff: an offer, an answer of its recipient, a resolution of its sender, or nothing. */
  ghost predicate HandoffMoved(db: Db, s: Step, h: HandoffId, row: Handoff) {
    if Offers(db, s, h) then
      var a := s.request.action;
      row == Handoff(s.task, s.request.actor, a.recipient, a.deadline, a.manifest, Offered, None)
    else
      h in db.handoffs &&
      row == if Answers(db, s, h) then
               if s.request.action.Accept? then db.handoffs[h].(status := Accepted, acceptedAt := Some(db.clock))
               else db.handoffs[h].(status := Rejected)
             else if Resolves(db, s, h) then db.handoffs[h].(status := Resolved)
             else db.handoffs[h]
  }

  lemma OfferMoves(db: Db, s: Step, h: HandoffId)
    requires Handles(db, s) && s.request.action.Offer? && h in Next(db, s).handoffs
    ensures HandoffMoved(db, s, h, Next(db, s).handoffs[h])
  {
    OfferIsExact(db, s);
  }

  lemma AnswerMoves(db: Db, s: Step, h: HandoffId)
    requires Handles(db, s) && (s.request.action.Accept? || s.request.action.Reject?) && h in Next(db, s).handoffs
    ensures HandoffMoved(db, s, h, Next(db, s).handoffs[h])
  {
    if s.request.action.Accept? { AcceptIsExact(db, s); } else { RejectIsExact(db, s); }
  }

  lemma ResolutionMoves(db: Db, s: Step, h: HandoffId)
    requires Handles(db, s) && s.request.action.Resolve? && h in Next(db, s).handoffs
    ensures HandoffMoved(db, s, h, Next(db, s).handoffs[h])
  {
    ResolveIsExact(db, s);
  }

  lemma HandoffMoves(db: Db, s: Step, h: HandoffId)
    requires h in Next(db, s).handoffs
    ensures HandoffMoved(db, s, h, Next(db, s).handoffs[h])
  {
    if !Handles(db, s) {
      UnhandledKeeps(db, s);
    } else if s.request.action.Offer? {
      OfferMoves(db, s, h);
    } else if s.request.action.Accept? || s.request.action.Reject? {
      AnswerMoves(db, s, h);
    } else if s.request.action.Resolve? {
      ResolutionMoves(db, s, h);
    } else {
      OtherActionsKeepHandoffs(db, s);
    }
  }

  ghost predicate AnsweredAt(db: Db, steps: seq<Step>, h: HandoffId, i: int) {
    0 <= i < |steps| && Answers(Before(db, steps, i), steps[i], h)
  }

  ghost predicate ResolvedAt(db: Db, steps: seq<Step>, h: HandoffId, i: int) {
    0 <= i < |steps| && Resolves(Before(db, steps, i), steps[i], h)
  }

  ghost predicate OfferedAt(db: Db, steps: seq<Step>, h: HandoffId, i: int) {
    0 <= i < |steps| && Offers(Before(db, steps, i), steps[i], h)
  }

  /** Its status was come by rightly. */
  ghost predicate Rightful(db: Db, steps: seq<Step>, h: HandoffId, status: HandoffStatus) {
    && (exists i :: OfferedAt(db, steps, h, i))
    && (status == Accepted || status == Rejected ==> exists i :: AnsweredAt(db, steps, h, i))
    && (status == Resolved ==> exists i :: ResolvedAt(db, steps, h, i))
  }

  lemma SameRights(db: Db, steps: seq<Step>, s: Step, h: HandoffId)
    ensures forall i :: AnsweredAt(db, steps, h, i) ==> AnsweredAt(db, steps + [s], h, i)
    ensures forall i :: ResolvedAt(db, steps, h, i) ==> ResolvedAt(db, steps + [s], h, i)
    ensures forall i :: OfferedAt(db, steps, h, i) ==> OfferedAt(db, steps + [s], h, i)
  {
    forall i | 0 <= i < |steps| ensures Before(db, steps + [s], i) == Before(db, steps, i) {
      SameBefore(db, steps, s, i);
    }
  }

  /**
   Over any run of any processes: every handoff was offered, one that is accepted or rejected was
   answered by its recipient before its deadline and with its manifest, and one that is resolved was
   resolved by its sender.
   */
  lemma {:induction false} HandoffsAreRightful(clock: int, steps: seq<Step>, h: HandoffId)
    requires h in Execute(Start(clock), steps).handoffs
    ensures Rightful(Start(clock), steps, h, Execute(Start(clock), steps).handoffs[h].status)
    decreases |steps|
  {
    if steps == [] { return; }
    var n := |steps| - 1;
    var init, last := steps[..n], steps[n];
    assert steps == init + [last];
    ExecuteOneMore(Start(clock), init, last);
    var db := Execute(Start(clock), init);
    assert Before(Start(clock), steps, n) == db;
    HandoffMoves(db, last, h);
    SameRights(Start(clock), init, last, h);
    if Offers(db, last, h) {
      assert OfferedAt(Start(clock), steps, h, n);
    } else {
      HandoffsAreRightful(clock, init, h);
      assert Answers(db, last, h) ==> AnsweredAt(Start(clock), steps, h, n);
      assert Resolves(db, last, h) ==> ResolvedAt(Start(clock), steps, h, n);
    }
  }

  // -------------------------------------------------------------- executions

  /** The step is a report of the executor, newer than what was known. */
  ghost predicate Reports(db: Db, s: Step, e: ExecutionId) {
    Handles(db, s) && s.request.action.Activity? && s.request.action.execution == e &&
    OngoingExecution(db, s.task, e) && s.request.actor == db.executions[e].executor &&
    db.executions[e].activity < s.request.action.at <= db.clock
  }

  /** The step ends the execution, made by its executor or the owner of its task. */
  ghost predicate Ends(db: Db, s: Step, e: ExecutionId) {
    Handles(db, s) && s.request.action.Finish? && s.request.action.execution == e && s.task in db.tasks &&
    OngoingExecution(db, s.task, e) &&
    (s.request.actor == db.executions[e].executor || db.tasks[s.task].owner == Some(s.request.actor)) &&
    s.request.action.outcome in {Finished, Broken, Abandoned}
  }

  /** The step finds it out of date. */
  ghost predicate Loses(db: Db, s: Step, e: ExecutionId) {
    Handles(db, s) && s.request.action.Reconcile? && OutOfDate(db, s.task, e)
  }

  ghost predicate Registers(db: Db, s: Step, e: ExecutionId) {
    Handles(db, s) && s.request.action.Register? && s.id == e && s.task in db.tasks && MayRegister(db, s)
  }

  lemma OtherActionsKeepExecutions(db: Db, s: Step)
    requires Handles(db, s)
    requires var a := s.request.action; !a.Register? && !a.Activity? && !a.Finish? && !a.Reconcile?
    ensures Next(db, s).executions == db.executions
  {
    if s.request.action.Amend? {
      AmendSets(db, s);
    } else if s.request.action.Offer? {
      OfferIsExact(db, s);
    } else if s.request.action.Accept? {
      AcceptIsExact(db, s);
    } else if s.request.action.Reject? {
      RejectIsExact(db, s);
    } else if s.request.action.Resolve? {
      ResolveIsExact(db, s);
    } else {
      OutboxActionsLeave(db, s);
    }
  }

  /** What a step makes of an execution: a registration, a report of its executor, an end, a loss, or nothing. */
  ghost predicate ExecutionMoved(db: Db, s: Step, e: ExecutionId, row: Execution) {
    if Registers(db, s, e) then
      var a := s.request.action;
      row == Execution(s.task, a.executor, a.thread, a.turn, Active, a.at, a.ref, a.binding, None)
    else
      e in db.executions &&
      row == if Reports(db, s, e) then
               db.executions[e].(status := Active, activity := s.request.action.at, ref := s.request.action.ref)
             else if Ends(db, s, e) then
               db.executions[e].(status := s.request.action.outcome, finishedAt := Some(s.request.action.at))
             else if Loses(db, s, e) then db.executions[e].(status := Lost)
             else db.executions[e]
  }

  lemma RegistrationMoves(db: Db, s: Step, e: ExecutionId)
    requires Handles(db, s) && s.request.action.Register? && e in Next(db, s).executions
    ensures ExecutionMoved(db, s, e, Next(db, s).executions[e])
  {
    RegisterIsExact(db, s);
  }

  lemma ReportMoves(db: Db, s: Step, e: ExecutionId)
    requires Handles(db, s) && s.request.action.Activity? && e in Next(db, s).executions
    ensures ExecutionMoved(db, s, e, Next(db, s).executions[e])
  {
    ActivityIsExact(db, s);
  }

  lemma EndMoves(db: Db, s: Step, e: ExecutionId)
    requires Handles(db, s) && s.request.action.Finish? && e in Next(db, s).executions
    ensures ExecutionMoved(db, s, e, Next(db, s).executions[e])
  {
    FinishIsExact(db, s);
  }

  lemma LossMoves(db: Db, s: Step, e: ExecutionId)
    requires Handles(db, s) && s.request.action.Reconcile? && e in Next(db, s).executions
    ensures ExecutionMoved(db, s, e, Next(db, s).executions[e])
  {
    ReconcileIsExact(db, s);
  }

  lemma ExecutionMoves(db: Db, s: Step, e: ExecutionId)
    requires e in Next(db, s).executions
    ensures ExecutionMoved(db, s, e, Next(db, s).executions[e])
  {
    if !Handles(db, s) {
      UnhandledKeeps(db, s);
    } else if s.request.action.Register? {
      RegistrationMoves(db, s, e);
    } else if s.request.action.Activity? {
      ReportMoves(db, s, e);
    } else if s.request.action.Finish? {
      EndMoves(db, s, e);
    } else if s.request.action.Reconcile? {
      LossMoves(db, s, e);
    } else {
      OtherActionsKeepExecutions(db, s);
    }
  }

  ghost predicate EndedAt(db: Db, steps: seq<Step>, e: ExecutionId, i: int) {
    0 <= i < |steps| && Ends(Before(db, steps, i), steps[i], e)
  }

  ghost predicate RegisteredAt(db: Db, steps: seq<Step>, e: ExecutionId, i: int) {
    0 <= i < |steps| && Registers(Before(db, steps, i), steps[i], e)
  }

  ghost predicate LostAt(db: Db, steps: seq<Step>, e: ExecutionId, i: int) {
    0 <= i < |steps| && Loses(Before(db, steps, i), steps[i], e)
  }

  lemma SameLife(db: Db, steps: seq<Step>, s: Step, e: ExecutionId)
    ensures forall i :: EndedAt(db, steps, e, i) ==> EndedAt(db, steps + [s], e, i)
    ensures forall i :: RegisteredAt(db, steps, e, i) ==> RegisteredAt(db, steps + [s], e, i)
    ensures forall i :: LostAt(db, steps, e, i) ==> LostAt(db, steps + [s], e, i)
  {
    forall i | 0 <= i < |steps| ensures Before(db, steps + [s], i) == Before(db, steps, i) {
      SameBefore(db, steps, s, i);
    }
  }

  /**
   Over any run: every execution was registered, one that has ended was ended by its executor or by
   who owned its task then, and one that is lost had been silent for more than the grace.
   */
  lemma {:induction false} ExecutionsAreRightful(clock: int, steps: seq<Step>, e: ExecutionId)
    requires e in Execute(Start(clock), steps).executions
    ensures exists i :: RegisteredAt(Start(clock), steps, e, i)
    ensures Execute(Start(clock), steps).executions[e].status in {Finished, Broken, Abandoned} ==>
              exists i :: EndedAt(Start(clock), steps, e, i)
    ensures Execute(Start(clock), steps).executions[e].status == Lost ==> exists i :: LostAt(Start(clock), steps, e, i)
    decreases |steps|
  {
    if steps == [] { return; }
    var n := |steps| - 1;
    var init, last := steps[..n], steps[n];
    assert steps == init + [last];
    ExecuteOneMore(Start(clock), init, last);
    var db := Execute(Start(clock), init);
    assert Before(Start(clock), steps, n) == db;
    ExecutionMoves(db, last, e);
    SameLife(Start(clock), init, last, e);
    if Registers(db, last, e) {
      assert RegisteredAt(Start(clock), steps, e, n);
    } else {
      ExecutionsAreRightful(clock, init, e);
      assert Ends(db, last, e) ==> EndedAt(Start(clock), steps, e, n);
      assert Loses(db, last, e) ==> LostAt(Start(clock), steps, e, n);
    }
  }

  // ------------------------------------------------------------ managed runs

  /** A managed run of the task may be at work. */
  predicate MayWork(row: Task) {
    !row.pausedByUser && !row.forbidden && !row.environment.live && !row.onMainBranch && row.state == Open
  }

  ghost predicate IsLatest(db: Db, t: TaskId, attempt: int) {
    forall r :: r in db.runs && db.runs[r].task == t ==> db.runs[r].attempt <= attempt
  }

  /** The process holds the latest, running attempt of a task that may be worked on. */
  ghost predicate HoldsRun(db: Db, r: RunId, pid: nat, attempt: int) {
    r in db.runs && db.runs[r].task in db.tasks && MayWork(db.tasks[db.runs[r].task]) &&
    db.runs[r].status == Running && db.runs[r].pid == Some(pid) && db.runs[r].attempt == attempt &&
    IsLatest(db, db.runs[r].task, attempt)
  }

  ghost predicate MayStart(db: Db, r: RunId, pid: nat) {
    r in db.runs && db.runs[r].task in db.tasks && MayWork(db.tasks[db.runs[r].task]) &&
    db.runs[r].status == Queued && (db.runs[r].pid.None? || db.runs[r].pid == Some(pid)) &&
    IsLatest(db, db.runs[r].task, db.runs[r].attempt)
  }

  lemma LatestMeans(db: Db, t: TaskId, attempt: int)
    ensures HasNewerRun(db, t, attempt) <==> !IsLatest(db, t, attempt)
  {
  }

  /** A run starts for a process that may hold it and ends, as that process says, by the one that holds it. */
  lemma RunsMove(db: Db, r: RunId, pid: nat, attempt: int, succeeded: bool)
    ensures Next(db, ClaimRun(r, pid)) ==
              if MayStart(db, r, pid) then db.(runs := db.runs[r := db.runs[r].(status := Running, pid := Some(pid))])
              else db
    ensures Next(db, FinishRun(r, pid, attempt, succeeded)) ==
              if HoldsRun(db, r, pid, attempt)
              then db.(runs := db.runs[r := db.runs[r].(status := if succeeded then Succeeded else RunFailed)])
              else db
  {
    if r in db.runs {
      LatestMeans(db, db.runs[r].task, db.runs[r].attempt);
      LatestMeans(db, db.runs[r].task, attempt);
    }
    NextOfRunTable(db, ClaimRun(r, pid));
    NextOfRunTable(db, FinishRun(r, pid, attempt, succeeded));
  }

  /** Nothing is left to anybody else: no execution going on, no handoff open. */
  ghost predicate Unburdened(db: Db, t: TaskId) {
    (forall e :: e in db.executions && db.executions[e].task == t ==> db.executions[e].status !in {Active, Lost}) &&
    (forall h :: h in db.handoffs && db.handoffs[h].task == t ==> db.handoffs[h].status == Resolved)
  }

  lemma UnburdenedMeans(db: Db, t: TaskId)
    ensures Unburdened(db, t) <==> !HasUnfinishedExecution(db, t) && !HasUnresolvedHandoff(db, t)
  {
  }

  ghost predicate MayInsert(db: Db, p: nat, r: RunId) {
    p in db.plans && r !in db.runs && Unburdened(db, db.plans[p].task) && NoRunActive(db, db.plans[p].task) &&
    forall q :: q in db.runs && db.runs[q].task == db.plans[p].task ==> db.runs[q].attempt != db.plans[p].attempt
  }

  /** An attempt is inserted beside no responsibility of others and no active run, under a number not yet taken. */
  lemma RunsBegin(db: Db, p: nat, r: RunId)
    ensures Next(db, Enqueue(p, r)) ==
              if MayInsert(db, p, r)
              then db.(runs := db.runs[r := Run(db.plans[p].task, db.plans[p].attempt, Queued, None)]) else db
  {
    NextOfRunTable(db, Enqueue(p, r));
    if p in db.plans {
      var t, attempt := db.plans[p].task, db.plans[p].attempt;
      UnburdenedMeans(db, t);
      assert HasActiveRun(db, t) <==> !NoRunActive(db, t);
      assert HasAttempt(db, t, attempt) <==>
             exists q :: q in db.runs && db.runs[q].task == t && db.runs[q].attempt == attempt;
    }
  }

  /** `newest` is the run of the task that no other exceeds, or there is none. */
  ghost predicate TellsLatest(db: Db, t: TaskId, newest: Option<RunId>) {
    if newest.Some? then
      newest.value in db.runs && db.runs[newest.value].task == t && IsLatest(db, t, db.runs[newest.value].attempt)
    else forall r :: r in db.runs ==> db.runs[r].task != t
  }

  /** The next attempt planned is one past the latest of the task, or the first. */
  lemma PlansAre(db: Db, p: nat, t: TaskId, newest: Option<RunId>)
    ensures var after := Next(db, PlanAttempt(p, t, newest));
            if !TellsLatest(db, t, newest) then after == db
            else
              && p in after.plans && after == db.(plans := db.plans[p := after.plans[p]]) && after.plans[p].task == t
              && IsLatest(db, t, after.plans[p].attempt - 1)
              && after.plans[p].attempt == if newest.Some? then db.runs[newest.value].attempt + 1 else 1
  {
    NextOfRunTable(db, PlanAttempt(p, t, newest));
    if newest.Some? && newest.value in db.runs { LatestMeans(db, t, db.runs[newest.value].attempt); }
  }

  /** A run is overwritten as failed or cancelled at any time, and as nothing else; its process is noted. */
  lemma RunsAreOverwritten(db: Db, r: RunId, pid: nat, status: RunStatus)
    ensures Next(db, OverwriteRun(r, status)) ==
              if r in db.runs && status in {RunFailed, RunCanceled}
              then db.(runs := db.runs[r := db.runs[r].(status := status)]) else db
    ensures Next(db, SetPid(r, pid)) ==
              if r in db.runs then db.(runs := db.runs[r := db.runs[r].(pid := Some(pid))]) else db
  {
    NextOfRunTable(db, OverwriteRun(r, status));
    NextOfRunTable(db, SetPid(r, pid));
  }

  /**
   A task row is inserted at revision zero, and written as given, except that it is not completed under
   a responsibility or without proof.
   */
  lemma EditsAre(db: Db, t: TaskId, row: Task, bump: nat)
    ensures t !in db.tasks && t !in db.versions ==>
              Next(db, NewTask(t, row)) == db.(tasks := db.tasks[t := row], versions := db.versions[t := 0])
    ensures Next(db, EditTask(t, row, bump)) ==
              if t in db.tasks && t in db.versions &&
                 (row.state == Done && db.tasks[t].state != Done ==>
                    Unburdened(db, t) && (row.requiresDeploy ==> row.deployProven))
              then db.(tasks := db.tasks[t := row], versions := db.versions[t := db.versions[t] + bump + 1]) else db
  {
    UnburdenedMeans(db, t);
  }
}
