/**
 What each request asks of the tables and what it leaves of them, said of rows and columns: a
 request is handled exactly under the conditions written out here, and changes exactly what is
 written out here.
 */
module LifecycleActions {
  import opened Options
  import opened Lifecycle
  import opened LifecycleDue

  /** Work on the task may go on. */
  predicate Workable(row: Task) {
    !row.pausedByUser && !row.forbidden && row.state in {Open, PlanOnly}
  }

  ghost predicate NoRunActive(db: Db, t: TaskId) {
    forall r :: r in db.runs && db.runs[r].task == t ==> db.runs[r].status !in {Queued, Running}
  }

  /** The request is new under its key and expects the revision its task has. */
  ghost predicate InTurn(db: Db, s: Step) {
    s.Call? && s.wellFormed && RequestId(s.task, s.request.key) !in db.requests &&
    s.task in db.tasks && s.task in db.versions && db.versions[s.task] == s.request.expected
  }

  /** The step wrote what `after` says, raised the revision by one and remembers its response. */
  ghost predicate Leaves(db: Db, s: Step, after: Db, result: Result)
    requires s.Call?
  {
    var response := Response(RevisionAfter(s), result);
    Next(db, s) == after.(versions := db.versions[s.task := RevisionAfter(s)],
                          requests := db.requests[RequestId(s.task, s.request.key) := Stored(s.request, response)])
  }

  function RevisionAfter(s: Step): nat
    requires s.Call?
  {
    if s.request.expected >= 0 then s.request.expected + 1 else 0
  }

  /** A notice comes into the outbox unless it is there. */
  function Told(outbox: map<Notice, Delivery>, notice: Notice): map<Notice, Delivery> {
    if notice in outbox then outbox else outbox[notice := Waiting]
  }

  // -------------------------------------------------------------- executions

  ghost predicate MayRegister(db: Db, s: Step)
    requires s.Call? && s.request.action.Register? && s.task in db.tasks
  {
    var a := s.request.action;
    && Workable(db.tasks[s.task]) && NoRunActive(db, s.task) && a.at <= db.clock && s.id !in db.executions
    && (forall e :: e in db.executions && db.executions[e].task == s.task ==>
          db.executions[e].executor != a.executor || db.executions[e].thread != a.thread ||
          db.executions[e].turn != a.turn)
    && (a.binding.Some? ==>
          var h := a.binding.value;
          && h in db.handoffs && db.handoffs[h].task == s.task && db.handoffs[h].status == Accepted
          && db.handoffs[h].recipient == a.executor
          && db.handoffs[h].acceptedAt.Some? && db.handoffs[h].acceptedAt.value <= a.at)
  }

  /** An execution is registered only beside no managed run, bound only to an accepted handoff of its executor. */
  lemma RegisterIsExact(db: Db, s: Step)
    requires s.Call? && s.request.action.Register?
    ensures Handles(db, s) <==> InTurn(db, s) && MayRegister(db, s)
    ensures Handles(db, s) ==>
              var a := s.request.action;
              var row := Execution(s.task, a.executor, a.thread, a.turn, Active, a.at, a.ref, a.binding, None);
              Leaves(db, s, db.(executions := db.executions[s.id := row]), Created(s.id))
  {
    if Handles(db, s) { HandlesMeans(db, s); }
    assert InTurn(db, s) ==> (HasActiveRun(db, s.task) <==> !NoRunActive(db, s.task));
  }

  /** The execution belongs to the task and has not ended. */
  predicate OngoingExecution(db: Db, t: TaskId, e: ExecutionId) {
    e in db.executions && db.executions[e].task == t && db.executions[e].status in {Active, Lost}
  }

  /** Activity is reported by the executor alone, each report newer than the last and not ahead of the clock. */
  lemma ActivityIsExact(db: Db, s: Step)
    requires s.Call? && s.request.action.Activity?
    ensures var a := s.request.action; var e := a.execution;
            Handles(db, s) <==>
              InTurn(db, s) && Workable(db.tasks[s.task]) && OngoingExecution(db, s.task, e) &&
              s.request.actor == db.executions[e].executor &&
              db.executions[e].activity < a.at <= db.clock && a.ref != db.executions[e].ref
    ensures Handles(db, s) ==>
              var a := s.request.action; var e := a.execution;
              e in db.executions &&
              var row := db.executions[e].(status := Active, activity := a.at, ref := a.ref);
              Leaves(db, s, db.(executions := db.executions[e := row]), Recorded)
  {
    if Handles(db, s) { HandlesMeans(db, s); }
  }

  /** An execution is ended by its executor or by the owner of its task, not before its last activity. */
  lemma FinishIsExact(db: Db, s: Step)
    requires s.Call? && s.request.action.Finish?
    ensures var a := s.request.action; var e := a.execution;
            Handles(db, s) <==>
              InTurn(db, s) && OngoingExecution(db, s.task, e) &&
              (s.request.actor == db.executions[e].executor || db.tasks[s.task].owner == Some(s.request.actor)) &&
              a.outcome in {Finished, Broken, Abandoned} && db.executions[e].activity <= a.at <= db.clock
    ensures Handles(db, s) ==>
              var a := s.request.action; var e := a.execution;
              e in db.executions &&
              var row := db.executions[e].(status := a.outcome, finishedAt := Some(a.at));
              Leaves(db, s, db.(executions := db.executions[e := row]), Recorded)
  {
    if Handles(db, s) { HandlesMeans(db, s); }
  }

  // ---------------------------------------------------------------- handoffs

  /** A handoff is offered to somebody else, with time left, and the recipient is told. */
  lemma OfferIsExact(db: Db, s: Step)
    requires s.Call? && s.request.action.Offer?
    ensures var a := s.request.action;
            Handles(db, s) <==>
              InTurn(db, s) && Workable(db.tasks[s.task]) && a.recipient != s.request.actor && a.deadline > db.clock &&
              s.id !in db.handoffs
    ensures Handles(db, s) ==>
              var a, actor := s.request.action, s.request.actor;
              var row := Handoff(s.task, actor, a.recipient, a.deadline, a.manifest, Offered, None);
              Leaves(db, s, db.(handoffs := db.handoffs[s.id := row],
                                outbox := Told(db.outbox, Notice(s.task, OfHandoff(s.id), a.recipient,
                                                                 HandoffOffered))), Created(s.id))
  {
    if Handles(db, s) { HandlesMeans(db, s); }
  }

  /** The actor is the recipient of an open offer of the task, in time and with its manifest. */
  predicate MayAnswer(db: Db, t: TaskId, h: HandoffId, manifest: nat, actor: Name) {
    h in db.handoffs && db.handoffs[h].task == t && db.handoffs[h].status == Offered &&
    actor == db.handoffs[h].recipient && db.clock < db.handoffs[h].deadline && manifest == db.handoffs[h].manifest
  }

  /** An offer is accepted by its recipient alone, before its deadline, with its manifest; the sender is told. */
  lemma AcceptIsExact(db: Db, s: Step)
    requires s.Call? && s.request.action.Accept?
    ensures var a := s.request.action;
            Handles(db, s) <==>
              InTurn(db, s) && Workable(db.tasks[s.task]) &&
              MayAnswer(db, s.task, a.handoff, a.manifest, s.request.actor)
    ensures Handles(db, s) ==>
              var h := s.request.action.handoff;
              h in db.handoffs &&
              Leaves(db, s, db.(handoffs := db.handoffs[h := db.handoffs[h].(status := Accepted,
                                                                             acceptedAt := Some(db.clock))],
                                outbox := Told(db.outbox, Notice(s.task, OfHandoff(h), db.handoffs[h].sender,
                                                                 HandoffAccepted))), Recorded)
  {
    if Handles(db, s) { HandlesMeans(db, s); }
  }

  /** It is rejected under the same conditions, whatever the state of the task. */
  lemma RejectIsExact(db: Db, s: Step)
    requires s.Call? && s.request.action.Reject?
    ensures var a := s.request.action;
            Handles(db, s) <==> InTurn(db, s) && MayAnswer(db, s.task, a.handoff, a.manifest, s.request.actor)
    ensures Handles(db, s) ==>
              var h := s.request.action.handoff;
              h in db.handoffs &&
              Leaves(db, s, db.(handoffs := db.handoffs[h := db.handoffs[h].(status := Rejected)],
                                outbox := Told(db.outbox, Notice(s.task, OfHandoff(h), db.handoffs[h].sender,
                                                                 HandoffRejected))), Recorded)
  {
    if Handles(db, s) { HandlesMeans(db, s); }
  }

  /** A handoff is resolved by its sender alone, once, and as completed only after acceptance; the recipient is told. */
  lemma ResolveIsExact(db: Db, s: Step)
    requires s.Call? && s.request.action.Resolve?
    ensures var a := s.request.action; var h := a.handoff;
            Handles(db, s) <==>
              InTurn(db, s) && h in db.handoffs && db.handoffs[h].task == s.task &&
              s.request.actor == db.handoffs[h].sender && db.handoffs[h].status != Resolved &&
              (a.completed ==> db.handoffs[h].status == Accepted)
    ensures Handles(db, s) ==>
              var h := s.request.action.handoff;
              h in db.handoffs &&
              Leaves(db, s, db.(handoffs := db.handoffs[h := db.handoffs[h].(status := Resolved)],
                                outbox := Told(db.outbox, Notice(s.task, OfHandoff(h), db.handoffs[h].recipient,
                                                                 HandoffResolved))), Recorded)
  {
    if Handles(db, s) { HandlesMeans(db, s); }
  }

  // ------------------------------------------------------------------ outbox

  /** An undelivered notice nobody holds is leased to the claimant for what it asked, up to five minutes. */
  lemma ClaimIsExact(db: Db, s: Step)
    requires s.Call? && s.request.action.Claim?
    ensures var a := s.request.action;
            Handles(db, s) <==>
              InTurn(db, s) && (forall i :: 0 <= i < |db.grants| ==> db.grants[i].token != s.id) &&
              1 <= a.seconds <= 300 && a.notice in db.outbox && a.notice.task == s.task &&
              (db.outbox[a.notice] == Waiting ||
               (db.outbox[a.notice].Claimed? && db.outbox[a.notice].until <= db.clock))
    ensures Handles(db, s) ==>
              var a := s.request.action; var until := db.clock + a.seconds;
              Leaves(db, s, db.(outbox := db.outbox[a.notice := Claimed(s.request.actor, s.id, until)],
                                grants := db.grants + [Grant(a.notice, s.id, db.clock, until)]), Lease(s.id, until))
  {
    if Handles(db, s) { HandlesMeans(db, s); }
    assert TokenUsed(db, s.id) <==> exists i :: 0 <= i < |db.grants| && db.grants[i].token == s.id;
  }

  /** A notice is delivered by the holder of its running lease, with the token of that lease. */
  lemma AcknowledgeIsExact(db: Db, s: Step)
    requires s.Call? && s.request.action.Acknowledge?
    ensures var a := s.request.action;
            Handles(db, s) <==>
              InTurn(db, s) && a.notice in db.outbox && a.notice.task == s.task && db.outbox[a.notice].Claimed? &&
              db.outbox[a.notice].holder == s.request.actor && db.outbox[a.notice].token == a.token &&
              db.clock < db.outbox[a.notice].until
    ensures Handles(db, s) ==>
              var a := s.request.action;
              Leaves(db, s, db.(outbox := db.outbox[a.notice := Delivered],
                                acks := db.acks + [Ack(a.notice, a.token, db.clock)]), Recorded)
  {
    if Handles(db, s) { HandlesMeans(db, s); }
  }

  // ---------------------------------------------------------- reconciliation

  predicate OutOfDate(db: Db, t: TaskId, e: ExecutionId) {
    e in db.executions && db.executions[e].task == t && db.executions[e].status == Active &&
    db.executions[e].activity + 900 < db.clock
  }

  predicate PastDeadline(db: Db, t: TaskId, h: HandoffId, status: HandoffStatus) {
    h in db.handoffs && db.handoffs[h].task == t && db.handoffs[h].status == status &&
    db.handoffs[h].deadline < db.clock
  }

  ghost predicate NeverStarted(db: Db, h: HandoffId) {
    forall e :: e in db.executions ==> db.executions[e].handoff != Some(h)
  }

  /** The notice tells of a loss or a lapse of the task at this moment, to the one it concerns. */
  ghost predicate TellsOf(db: Db, t: TaskId, n: Notice)
    requires t in db.tasks
  {
    n.task == t &&
    match n.subject
    case OfActivity(e, at) =>
      OutOfDate(db, t, e) && n.kind == ExecutionLost && at == db.executions[e].activity &&
      n.recipient == (if db.tasks[t].owner.Some? then db.tasks[t].owner.value else db.executions[e].executor)
    case OfHandoff(h) =>
      (n.kind == HandoffOverdue && PastDeadline(db, t, h, Offered) && n.recipient == db.handoffs[h].sender) ||
      (n.kind == StartOverdue && PastDeadline(db, t, h, Accepted) && NeverStarted(db, h) &&
       n.recipient == db.handoffs[h].recipient)
  }

  lemma StartedMeans(db: Db, h: HandoffId)
    ensures HasExecution(db, h) <==> !NeverStarted(db, h)
  {
  }

  lemma NoticesDue(db: Db, t: TaskId, n: Notice)
    requires t in db.tasks
    ensures n in DueNotices(db, t) <==> TellsOf(db, t, n)
  {
    if n.subject.OfHandoff? {
      var h := n.subject.handoff;
      StartedMeans(db, h);
      assert h in LapsedOffersOf(db, t) <==> PastDeadline(db, t, h, Offered);
      assert h in LapsedStartsOf(db, t) <==> PastDeadline(db, t, h, Accepted) && NeverStarted(db, h);
    } else {
      assert n.subject.execution in StaleOf(db, t) <==> OutOfDate(db, t, n.subject.execution);
    }
  }

  lemma LossesAre(db: Db, t: TaskId)
    ensures LoseStale(db, t) ==
            map e | e in db.executions :: if OutOfDate(db, t, e) then db.executions[e].(status := Lost)
                                          else db.executions[e]
    ensures StaleOf(db, t) == set e | e in db.executions && OutOfDate(db, t, e)
    ensures LapsedOffersOf(db, t) == set h | h in db.handoffs && PastDeadline(db, t, h, Offered)
    ensures LapsedStartsOf(db, t) == set h | h in db.handoffs && PastDeadline(db, t, h, Accepted) && NeverStarted(db, h)
  {
    forall h ensures HasExecution(db, h) <==> !NeverStarted(db, h) { StartedMeans(db, h); }
  }

  /** Whose outbox holds the notices of the losses and lapses of a task besides those it held. */
  ghost predicate ToldAll(db: Db, t: TaskId, outbox: map<Notice, Delivery>)
    requires t in db.tasks
  {
    (forall n :: n in outbox <==> n in db.outbox || TellsOf(db, t, n)) &&
    (forall n :: n in outbox ==> outbox[n] == if n in db.outbox then db.outbox[n] else Waiting)
  }

  lemma ReconcileLeaves(db: Db, t: TaskId)
    requires t in db.tasks
    ensures var handled := HandleReconcile(db, t);
            handled.Handled? && ToldAll(db, t, handled.db.outbox) &&
            handled.db == db.(executions := handled.db.executions, outbox := handled.db.outbox)
  {
    forall n ensures n in DueNotices(db, t) <==> TellsOf(db, t, n) { NoticesDue(db, t, n); }
  }

  /** Executions out of date are lost, and what is lost or lapsed is told once, to the one it concerns. */
  lemma ReconcileIsExact(db: Db, s: Step)
    requires s.Call? && s.request.action.Reconcile?
    ensures Handles(db, s) <==> InTurn(db, s)
    ensures Handles(db, s) ==>
              var t, outbox := s.task, Next(db, s).outbox;
              ToldAll(db, t, outbox) &&
              Leaves(db, s, db.(executions := map e | e in db.executions ::
                                  if OutOfDate(db, t, e) then db.executions[e].(status := Lost) else db.executions[e],
                                outbox := outbox),
                     Reconciled(set e | e in db.executions && OutOfDate(db, t, e),
                                set h | h in db.handoffs && PastDeadline(db, t, h, Offered),
                                set h | h in db.handoffs && PastDeadline(db, t, h, Accepted) && NeverStarted(db, h)))
  {
    if Handles(db, s) {
      HandlesMeans(db, s);
      LossesAre(db, s.task);
      ReconcileLeaves(db, s.task);
    }
  }

  // --------------------------------------------------------------- amendment

  predicate NamesColumn(c: Changes) {
    c.owner.Some? || c.environment.Some? || c.requiresDeploy.Some? || c.kind.Some? || c.actor.Some? || c.text.Some? ||
    c.due.Some?
  }

  /** Every named column has its new value and every other the old one. */
  ghost predicate ColumnsSet(was: Task, now: Task, c: Changes) {
    && now == was.(owner := now.owner, environment := now.environment, requiresDeploy := now.requiresDeploy,
                   todo := now.todo, stage := now.stage)
    && now.owner == (if c.owner.Some? then c.owner.value else was.owner)
    && now.environment == (if c.environment.Some? then c.environment.value else was.environment)
    && now.requiresDeploy == (if c.requiresDeploy.Some? then c.requiresDeploy.value else was.requiresDeploy)
    && now.todo.kind == (if c.kind.Some? then c.kind.value else was.todo.kind)
    && now.todo.actor == (if c.actor.Some? then c.actor.value else was.todo.actor)
    && now.todo.text == (if c.text.Some? then c.text.value else was.todo.text)
    && now.todo.due == (if c.due.Some? then c.due.value else was.todo.due)
    && now.stage == (if c.stage.Some? then c.stage.value else was.stage)
  }

  /** Nobody has nothing to do; anybody else has something, and a name. */
  predicate SoundTodo(todo: Todo) {
    (todo.kind == NOBODY ==> todo.actor.None? && todo.text.None? && todo.due.None?) &&
    (todo.kind != NOBODY ==> todo.actor.Some? && todo.text.Some?)
  }

  lemma AmendedColumns(was: Task, c: Changes)
    ensures ColumnsSet(was, Amended(was, c), c)
    ensures forall now :: ColumnsSet(was, now, c) ==> now == Amended(was, c)
    ensures Coherent(AmendedTodo(was.todo, c)) <==> exists now :: ColumnsSet(was, now, c) && SoundTodo(now.todo)
  {
    forall now | ColumnsSet(was, now, c) ensures now == Amended(was, c) {
      assert now.todo == AmendedTodo(was.todo, c);
    }
    assert Amended(was, c).todo == AmendedTodo(was.todo, c);
  }

  ghost predicate MayAmend(db: Db, t: TaskId, c: Changes)
    requires t in db.tasks
  {
    && Workable(db.tasks[t]) && (NamesColumn(c) || c.stage.Some?)
    && (c.owner.Some? || c.environment.Some? ==> NoRunActive(db, t))
    && (db.tasks[t].requiresDeploy ==> c.requiresDeploy != Some(false))
    && exists now :: ColumnsSet(db.tasks[t], now, c) && SoundTodo(now.todo)
  }

  lemma AmendMeans(db: Db, t: TaskId, c: Changes, bump: nat)
    requires t in db.tasks && t in db.versions && bump >= 1
    ensures HandleAmend(db, t, c, bump).Handled? <==> MayAmend(db, t, c)
  {
    AmendedColumns(db.tasks[t], c);
    assert HasActiveRun(db, t) <==> !NoRunActive(db, t);
  }

  lemma AmendLeaves(db: Db, t: TaskId, c: Changes, bump: nat)
    requires t in db.tasks && t in db.versions && bump >= 1 && HandleAmend(db, t, c, bump).Handled?
    ensures var after := HandleAmend(db, t, c, bump).db;
            && t in after.tasks && ColumnsSet(db.tasks[t], after.tasks[t], c)
            && after == db.(tasks := db.tasks[t := after.tasks[t]],
                            versions := db.versions[t := db.versions[t] + if NamesColumn(c) then bump else 0])
            && HandleAmend(db, t, c, bump).result == Recorded
  {
    AmendedColumns(db.tasks[t], c);
  }

  /**
   Columns are amended while work may go on, those that a managed run depends on only beside none;
   deployment once required stays so, and somebody who is to act is named with something to do.
   */
  lemma AmendIsAllowed(db: Db, s: Step)
    requires s.Call? && s.request.action.Amend?
    ensures Handles(db, s) <==> InTurn(db, s) && MayAmend(db, s.task, s.request.action.changes)
  {
    if InTurn(db, s) { AmendMeans(db, s.task, s.request.action.changes, s.bump + 1); }
  }

  /** The named columns are set, and the revision rises by the triggers if one of the row is named, else by one. */
  lemma AmendSets(db: Db, s: Step)
    requires Handles(db, s) && s.request.action.Amend?
    ensures var t, after, c := s.task, Next(db, s), s.request.action.changes;
            && t in db.tasks && t in db.versions && t in after.tasks && ColumnsSet(db.tasks[t], after.tasks[t], c)
            && var revision := db.versions[t] + if NamesColumn(c) then s.bump + 1 else 1;
               after == db.(tasks := db.tasks[t := after.tasks[t]], versions := db.versions[t := revision],
                            requests := db.requests[RequestId(t, s.request.key) :=
                                                      Stored(s.request, Response(revision, Recorded))])
  {
    HandlesMeans(db, s);
    AmendLeaves(db, s.task, s.request.action.changes, s.bump + 1);
  }

  // ------------------------------------------------------------ the answer

  /** What a request is answered, before and after it is handled. */
  lemma AnswersAre(db: Db, t: TaskId, q: Request, wellFormed: bool, id: nat, bump: nat)
    requires bump >= 1
    ensures var reply := Apply(db, t, q, wellFormed, id, bump); var key := RequestId(t, q.key);
            && (reply.answer.Replayed? <==> wellFormed && key in db.requests && db.requests[key].request == q)
            && (reply.answer.Replayed? ==> reply.answer.response == db.requests[key].response)
            && (reply.answer == Rejection(IdempotencyConflict) <==>
                  wellFormed && key in db.requests && db.requests[key].request != q)
            && (reply.answer == Rejection(StaleRevision) <==>
                  wellFormed && key !in db.requests && t in db.tasks && t in db.versions &&
                  db.versions[t] != q.expected)
            && (reply.answer.Fresh? ==>
                  key in reply.db.requests && reply.answer.response == reply.db.requests[key].response)
            && (!reply.answer.Fresh? ==> reply.db == db)
  {
  }
}
