/**
 Why a request in its turn is refused: for the first thing that stands against it, in the order
 in which they are looked at.
 */
module LifecycleRefusals {
  import opened Options
  import opened Lifecycle
  import opened LifecycleDue
  import opened LifecycleActions

  function AnswerTo(db: Db, s: Step): Answer
    requires s.Call?
  {
    Apply(db, s.task, s.request, s.wellFormed, s.id, s.bump + 1).answer
  }

  /** What stands against amending a row, first things first. */
  ghost predicate AmendFault(db: Db, t: TaskId, c: Changes, e: Error)
    requires t in db.tasks
  {
    if !Workable(db.tasks[t]) then e == Forbidden
    else if !NamesColumn(c) && c.stage.None? then e == Invalid
    else if (c.owner.Some? || c.environment.Some?) && !NoRunActive(db, t) then e == Conflict
    else if db.tasks[t].requiresDeploy && c.requiresDeploy == Some(false) then e == Forbidden
    else !MayAmend(db, t, c) && e == Invalid
  }

  lemma AmendRefusals(db: Db, s: Step, e: Error)
    requires InTurn(db, s) && s.request.action.Amend?
    ensures AnswerTo(db, s) == Rejection(e) <==> AmendFault(db, s.task, s.request.action.changes, e)
  {
    AmendedColumns(db.tasks[s.task], s.request.action.changes);
    assert HasActiveRun(db, s.task) <==> !NoRunActive(db, s.task);
  }

  /** What is wrong with the handoff an execution is to be bound to, if anything. */
  function BindingFault(db: Db, t: TaskId, a: Action): Option<Error>
    requires a.Register?
  {
    if a.binding.None? then None
    else
      var h := a.binding.value;
      if h !in db.handoffs || db.handoffs[h].task != t then Some(Missing)
      else if db.handoffs[h].status != Accepted || db.handoffs[h].recipient != a.executor then Some(IdentityMismatch)
      else if db.handoffs[h].acceptedAt.None? || a.at < db.handoffs[h].acceptedAt.value then Some(Invalid)
      else None
  }

  lemma RegisterRefusals(db: Db, s: Step, e: Error)
    requires InTurn(db, s) && s.request.action.Register?
    ensures var a := s.request.action;
            AnswerTo(db, s) == Rejection(e) <==>
              if !Workable(db.tasks[s.task]) then e == Forbidden
              else if !NoRunActive(db, s.task) then e == Conflict
              else if a.at > db.clock then e == Invalid
              else if BindingFault(db, s.task, a).Some? then e == BindingFault(db, s.task, a).value
              else !MayRegister(db, s) && e == Conflict
  {
    assert BindingError(db, s.task, s.request.action) == BindingFault(db, s.task, s.request.action);
    RegisterIsExact(db, s);
    assert HasActiveRun(db, s.task) <==> !NoRunActive(db, s.task);
  }

  predicate ExecutionFault(db: Db, t: TaskId, x: ExecutionId, e: Error) {
    if x !in db.executions || db.executions[x].task != t then e == Missing
    else db.executions[x].status !in {Active, Lost} && e == Conflict
  }

  lemma ActivityRefusals(db: Db, s: Step, e: Error)
    requires InTurn(db, s) && s.request.action.Activity?
    ensures var a, x := s.request.action, s.request.action.execution;
            AnswerTo(db, s) == Rejection(e) <==>
              if !Workable(db.tasks[s.task]) then e == Forbidden
              else if !OngoingExecution(db, s.task, x) then ExecutionFault(db, s.task, x, e)
              else if s.request.actor != db.executions[x].executor then e == IdentityMismatch
              else
                e == Invalid &&
                (a.at <= db.executions[x].activity || a.at > db.clock || a.ref == db.executions[x].ref)
  {
  }

  lemma FinishRefusals(db: Db, s: Step, e: Error)
    requires InTurn(db, s) && s.request.action.Finish?
    ensures var a, x := s.request.action, s.request.action.execution;
            AnswerTo(db, s) == Rejection(e) <==>
              if !OngoingExecution(db, s.task, x) then ExecutionFault(db, s.task, x, e)
              else if s.request.actor != db.executions[x].executor && db.tasks[s.task].owner != Some(s.request.actor)
                then e == IdentityMismatch
              else (a.outcome in {Active, Lost} || a.at < db.executions[x].activity || a.at > db.clock) && e == Invalid
  {
  }

  lemma OfferRefusals(db: Db, s: Step, e: Error)
    requires InTurn(db, s) && s.request.action.Offer?
    ensures var a := s.request.action;
            AnswerTo(db, s) == Rejection(e) <==>
              if !Workable(db.tasks[s.task]) then e == Forbidden
              else if a.recipient == s.request.actor || a.deadline <= db.clock then e == Invalid
              else s.id in db.handoffs && e == Conflict
  {
  }

  /** What stands against an answer: the offer, the task, the actor, the time, the manifest. */
  predicate AnswerFault(db: Db, t: TaskId, h: HandoffId, manifest: nat, actor: Name, accepted: bool, e: Error)
    requires t in db.tasks
  {
    if h !in db.handoffs || db.handoffs[h].task != t then e == Missing
    else if accepted && !Workable(db.tasks[t]) then e == Forbidden
    else if actor != db.handoffs[h].recipient then e == IdentityMismatch
    else if db.handoffs[h].status != Offered || db.handoffs[h].deadline <= db.clock then e == StaleReceipt
    else manifest != db.handoffs[h].manifest && e == ManifestMismatch
  }

  lemma AnswerRefusals(db: Db, s: Step, e: Error)
    requires InTurn(db, s) && (s.request.action.Accept? || s.request.action.Reject?)
    ensures var a := s.request.action;
            AnswerTo(db, s) == Rejection(e) <==>
              AnswerFault(db, s.task, a.handoff, a.manifest, s.request.actor, a.Accept?, e)
  {
  }

  lemma ResolveRefusals(db: Db, s: Step, e: Error)
    requires InTurn(db, s) && s.request.action.Resolve?
    ensures var a, h := s.request.action, s.request.action.handoff;
            AnswerTo(db, s) == Rejection(e) <==>
              if h !in db.handoffs || db.handoffs[h].task != s.task then e == Missing
              else if s.request.actor != db.handoffs[h].sender then e == IdentityMismatch
              else if db.handoffs[h].status == Resolved then e == Conflict
              else a.completed && db.handoffs[h].status != Accepted && e == Invalid
  {
  }

  lemma OutboxRefusals(db: Db, s: Step, e: Error)
    requires InTurn(db, s)
    ensures s.request.action.Claim? ==>
              var a := s.request.action;
              (AnswerTo(db, s) == Rejection(e) <==>
                 if a.seconds < 1 || a.seconds > 300 then e == Invalid
                 else if a.notice !in db.outbox || a.notice.task != s.task then e == Missing
                 else (db.outbox[a.notice] == Delivered ||
                       (db.outbox[a.notice].Claimed? && db.outbox[a.notice].until > db.clock)) && e == Conflict)
    ensures s.request.action.Acknowledge? ==>
              var a := s.request.action;
              (AnswerTo(db, s) == Rejection(e) <==>
                 if a.notice !in db.outbox || a.notice.task != s.task then e == Missing
                 else !(db.outbox[a.notice].Claimed? && db.outbox[a.notice].holder == s.request.actor &&
                        db.outbox[a.notice].token == a.token && db.outbox[a.notice].until > db.clock) && e == StaleAck)
    ensures s.request.action.Reconcile? ==> AnswerTo(db, s).Fresh?
  {
  }

  /** A request out of its turn is refused before it is looked at, or replayed. */
  lemma TurnRefusals(db: Db, s: Step, e: Error)
    requires s.Call? && !InTurn(db, s)
    ensures var id := RequestId(s.task, s.request.key);
            AnswerTo(db, s) == Rejection(e) <==>
              if !s.wellFormed then e == Invalid
              else if id in db.requests then db.requests[id].request != s.request && e == IdempotencyConflict
              else if s.task !in db.tasks || s.task !in db.versions then e == Missing
              else e == StaleRevision
  {
  }
}
