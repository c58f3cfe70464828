/**
 The lifecycle tables as an object updated in place: one method per handler, the
 transaction around them, the watchdog's loops, and the writers of managed runs.
 */
module LifecycleServices {
  import opened Options
  import opened Lifecycle
  import opened LifecycleInvariant
  import opened LifecycleDue
  import opened LifecycleRevisions
  import opened LifecycleWatchdog

  datatype Verdict = Passed(result: Result) | Raised(error: Error)

  datatype Settled = Settled(db: Db, verdict: Verdict)

  /** A handler that fails leaves the tables as they were. */
  function Settle(db: Db, handled: Handled): Settled {
    match handled
    case Handled(db', result) => Settled(db', Passed(result))
    case Failure(error) => Settled(db, Raised(error))
  }

  function Lose(executions: map<ExecutionId, Execution>, lost: set<ExecutionId>): map<ExecutionId, Execution> {
    map e | e in executions :: if e in lost then executions[e].(status := Lost) else executions[e]
  }

  lemma NotifyOneMore(outbox: map<Notice, Delivery>, notices: set<Notice>, n: Notice)
    ensures Notify(NotifyAll(outbox, notices), n) == NotifyAll(outbox, notices + {n})
  {
    assert outbox.Keys + (notices + {n}) == (outbox.Keys + notices) + {n};
  }

  lemma OneLess<T>(all: set<T>, todo: set<T>, x: T)
    requires x in todo && todo <= all
    ensures (all - todo) + {x} == all - (todo - {x})
  {
  }

  lemma AllDone<T>(all: set<T>)
    ensures all - all == {} && all - {} == all
  {
  }

  lemma NotifyNothing(outbox: map<Notice, Delivery>)
    ensures NotifyAll(outbox, {}) == outbox
  {
    assert outbox.Keys + {} == outbox.Keys;
  }

  lemma LoseOneMore(executions: map<ExecutionId, Execution>, lost: set<ExecutionId>, e: ExecutionId)
    requires e in executions && e !in lost
    ensures var now := Lose(executions, lost);
            now[e] == executions[e] && now[e := now[e].(status := Lost)] == Lose(executions, lost + {e})
  {
    var now := Lose(executions, lost);
    var next := now[e := now[e].(status := Lost)];
    assert next.Keys == executions.Keys;
  }

  lemma LosesStale(db: Db, t: TaskId)
    ensures Lose(db.executions, StaleOf(db, t)) == LoseStale(db, t)
  {
  }

  /** The tasks of a set in some order. */
  method Listed(tasks: set<TaskId>) returns (ids: seq<TaskId>)
    ensures forall t :: t in ids <==> t in tasks
    ensures forall i, j :: 0 <= i < j < |ids| ==> ids[i] != ids[j]
  {
    var todo := tasks;
    ids := [];
    while todo != {}
      invariant todo <= tasks && forall t :: t in ids <==> t in tasks - todo
      invariant forall i, j :: 0 <= i < j < |ids| ==> ids[i] != ids[j]
      decreases |todo|
    {
      var t :| t in todo;
      ids, todo := ids + [t], todo - {t};
    }
  }

  function ErrandsOf(db: Db, ids: seq<TaskId>): seq<Errand> {
    seq(|ids|, i requires 0 <= i < |ids| => Errand(ids[i], DueOf(db, ids[i])))
  }

  lemma ErrandsScan(db: Db, ids: seq<TaskId>)
    requires forall t :: t in ids <==> t in DueTasks(db)
    requires forall i, j :: 0 <= i < j < |ids| ==> ids[i] != ids[j]
    ensures Scan(db, ErrandsOf(db, ids)) && Covers(db, ErrandsOf(db, ids))
  {
    var errands := ErrandsOf(db, ids);
    forall i | 0 <= i < |errands| ensures errands[i].task in DueTasks(db) {
      assert ids[i] in ids;
    }
    forall t | t in DueTasks(db) ensures Names(errands, t) {
      var i :| 0 <= i < |ids| && ids[i] == t;
      assert errands[i].task == t;
    }
  }

  /** The tasks of a pass are all there. */
  ghost predicate Present(db: Db, errands: seq<Errand>) {
    forall i :: 0 <= i < |errands| ==> errands[i].task in db.versions
  }

  lemma ScanHasVersions(db: Db, errands: seq<Errand>)
    requires Reachable(db) && Scan(db, errands)
    ensures Present(db, errands)
  {
    ReachableInv(db);
    forall i | 0 <= i < |errands| ensures errands[i].task in db.versions { assert TaskRow(db, errands[i].task); }
  }

  lemma TasksStay(db: Db, errands: seq<Errand>, gaps: seq<Gap>)
    requires Reachable(db) && Present(db, errands) && errands != []
    ensures Present(FirstReply(db, errands[0], gaps).db, errands[1..])
  {
    ReachableInv(db);
    forall i | 0 <= i < |errands| ensures errands[i].task in FirstReply(db, errands[0], gaps).db.versions {
      AfterFirst(db, errands[0], gaps, errands[i].task);
    }
  }

  /** The two newest attempts a reader may find have the same number, so the next one is the same. */
  lemma NewestIsEnough(db: Db, p: nat, t: TaskId, a: Option<RunId>, b: Option<RunId>)
    requires IsNewest(db, t, a) && IsNewest(db, t, b)
    ensures RunStep(db, PlanAttempt(p, t, a)) == RunStep(db, PlanAttempt(p, t, b))
  {
  }

  lemma UsedTokenIsSkipped(db: Db, s: Step)
    requires s.Call? && s.request.action.Claim? && TokenUsed(db, s.id)
    ensures Next(db, s) == db
  {
    NextOfCall(db, s);
  }

  lemma OneStep(db: Db, s: Step)
    ensures Execute(db, [s] + []) == Execute(db, [s]) == Next(db, s)
  {
    assert [s] + [] == [s];
    ExecuteOneMore(db, [], s);
    assert [] + [s] == [s];
  }

  lemma TwoSteps(db: Db, s: Step, u: Step)
    ensures Execute(db, [s] + []) == Next(db, s) && Execute(db, [s] + [u]) == Next(Next(db, s), u)
  {
    OneStep(db, s);
    ExecuteOneMore(db, [s], u);
  }

  /** Whether a task may be completed does not depend on the runs. */
  lemma SameGuards(db: Db, db': Db, t: TaskId, row: Task)
    requires db'.handoffs == db.handoffs && db'.executions == db.executions
    ensures MayComplete(db', t, row) <==> MayComplete(db, t, row)
  {
  }

  /** What the end of a run makes of the row of its task: nothing but its state and what is proven. */
  predicate AfterRun(was: Task, row: Task, succeeded: bool) {
    row == was.(state := row.state, deployProven := row.deployProven) &&
    (row.state == Open || (succeeded && row.state == Done))
  }

  datatype Edit = Edit(row: Task, bump: nat)

  function EditSteps(t: TaskId, edit: Option<Edit>): seq<Step> {
    if edit.Some? then [EditTask(t, edit.value.row, edit.value.bump)] else []
  }

  /** Sets the columns an amendment names, one after the other. */
  method AmendRow(task: Task, changes: Changes, todo: Todo) returns (row: Task)
    ensures todo == AmendedTodo(task.todo, changes) ==> row == Amended(task, changes)
  {
    var owner, environment, requiresDeploy, stage := task.owner, task.environment, task.requiresDeploy, task.stage;
    if changes.owner.Some? { owner := changes.owner.value; }
    if changes.environment.Some? { environment := changes.environment.value; }
    if changes.requiresDeploy.Some? { requiresDeploy := changes.requiresDeploy.value; }
    if changes.stage.Some? { stage := changes.stage.value; }
    return task.(owner := owner, environment := environment, requiresDeploy := requiresDeploy, todo := todo,
                 stage := stage);
  }

  class LifecycleService {
    var tasks: map<TaskId, Task>
    var versions: map<TaskId, nat>
    var requests: map<RequestId, Stored>
    var executions: map<ExecutionId, Execution>
    var handoffs: map<HandoffId, Handoff>
    var outbox: map<Notice, Delivery>
    var grants: seq<Grant>
    var acks: seq<Ack>
    var runs: map<RunId, Run>
    var plans: map<nat, Plan>
    var clock: int

    function Tables(): Db
      reads this
    {
      Db(tasks, versions, requests, executions, handoffs, outbox, grants, acks, runs, plans, clock)
    }

    ghost predicate Valid()
      reads this
    {
      Reachable(Tables())
    }

    constructor (now: int)
      ensures Valid() && Tables() == Start(now)
    {
      tasks, versions, requests, executions, handoffs := map[], map[], map[], map[], map[];
      outbox, grants, acks, runs, plans, clock := map[], [], [], map[], map[], now;
      new;
      assert LeadsTo(now, [], Start(now));
    }

    // ------------------------------------------------------------- handlers

    method Announce(notice: Notice)
      modifies this`outbox
      ensures outbox == Notify(old(outbox), notice)
    {
      if notice !in outbox { outbox := outbox[notice := Waiting]; }
    }

    method Amend(t: TaskId, changes: Changes, bump: nat) returns (verdict: Verdict)
      requires t in tasks && t in versions && bump >= 1
      modifies this
      ensures Settled(Tables(), verdict) == Settle(old(Tables()), HandleAmend(old(Tables()), t, changes, bump))
    {
      var row := tasks[t];
      if !Executable(row) { return Raised(Forbidden); }
      if !Native(changes) && changes.stage.None? { return Raised(Invalid); }
      if (changes.owner.Some? || changes.environment.Some?) && HasActiveRun(Tables(), t) { return Raised(Conflict); }
      if row.requiresDeploy && changes.requiresDeploy == Some(false) { return Raised(Forbidden); }
      var todo := AmendedTodo(row.todo, changes);
      if !Coherent(todo) { return Raised(Invalid); }
      row := AmendRow(row, changes, todo);
      tasks := tasks[t := row];
      var raised := versions[t] + if Native(changes) then bump else 0;
      versions := versions[t := raised];
      return Passed(Recorded);
    }

    method RegisterExecution(t: TaskId, a: Action, id: ExecutionId) returns (verdict: Verdict)
      requires t in tasks && a.Register?
      modifies this
      ensures Settled(Tables(), verdict) == Settle(old(Tables()), HandleRegister(old(Tables()), t, a, id))
    {
      if !Executable(tasks[t]) { return Raised(Forbidden); }
      if HasActiveRun(Tables(), t) { return Raised(Conflict); }
      if a.at > clock { return Raised(Invalid); }
      if a.binding.Some? {
        var h := a.binding.value;
        if h !in handoffs || handoffs[h].task != t { return Raised(Missing); }
        if handoffs[h].status != Accepted || handoffs[h].recipient != a.executor { return Raised(IdentityMismatch); }
        if handoffs[h].acceptedAt.None? || a.at < handoffs[h].acceptedAt.value { return Raised(Invalid); }
      }
      if Registered(Tables(), t, a.executor, a.thread, a.turn) || id in executions { return Raised(Conflict); }
      executions := executions[id := Execution(t, a.executor, a.thread, a.turn, Active, a.at, a.ref, a.binding, None)];
      return Passed(Created(id));
    }

    method RecordActivity(t: TaskId, a: Action, actor: Name) returns (verdict: Verdict)
      requires t in tasks && a.Activity?
      modifies this`executions
      ensures Settled(Tables(), verdict) == Settle(old(Tables()), HandleActivity(old(Tables()), t, a, actor))
    {
      if !Executable(tasks[t]) { return Raised(Forbidden); }
      var e := a.execution;
      if e !in executions || executions[e].task != t { return Raised(Missing); }
      if !Unfinished(executions[e].status) { return Raised(Conflict); }
      if actor != executions[e].executor { return Raised(IdentityMismatch); }
      if a.at <= executions[e].activity || a.at > clock || a.ref == executions[e].ref { return Raised(Invalid); }
      executions := executions[e := executions[e].(status := Active, activity := a.at, ref := a.ref)];
      return Passed(Recorded);
    }

    method FinishExecution(t: TaskId, a: Action, actor: Name) returns (verdict: Verdict)
      requires t in tasks && a.Finish?
      modifies this`executions
      ensures Settled(Tables(), verdict) == Settle(old(Tables()), HandleFinish(old(Tables()), t, a, actor))
    {
      var e := a.execution;
      if e !in executions || executions[e].task != t { return Raised(Missing); }
      if !Unfinished(executions[e].status) { return Raised(Conflict); }
      if actor != executions[e].executor && tasks[t].owner != Some(actor) { return Raised(IdentityMismatch); }
      if Unfinished(a.outcome) { return Raised(Invalid); }
      if a.at < executions[e].activity || a.at > clock { return Raised(Invalid); }
      executions := executions[e := executions[e].(status := a.outcome, finishedAt := Some(a.at))];
      return Passed(Recorded);
    }

    method OfferHandoff(t: TaskId, a: Action, actor: Name, id: HandoffId) returns (verdict: Verdict)
      requires t in tasks && a.Offer?
      modifies this
      ensures Settled(Tables(), verdict) == Settle(old(Tables()), HandleOffer(old(Tables()), t, a, actor, id))
    {
      if !Executable(tasks[t]) { return Raised(Forbidden); }
      if a.recipient == actor || a.deadline <= clock { return Raised(Invalid); }
      if id in handoffs { return Raised(Conflict); }
      handoffs := handoffs[id := Handoff(t, actor, a.recipient, a.deadline, a.manifest, Offered, None)];
      Announce(Notice(t, OfHandoff(id), a.recipient, HandoffOffered));
      return Passed(Created(id));
    }

    method AnswerHandoff(t: TaskId, h: HandoffId, manifest: nat, actor: Name, accepted: bool) returns (verdict: Verdict)
      requires t in tasks
      modifies this
      ensures Settled(Tables(), verdict) ==
                Settle(old(Tables()), HandleReceipt(old(Tables()), t, h, manifest, actor, accepted))
    {
      if h !in handoffs || handoffs[h].task != t { return Raised(Missing); }
      var row := handoffs[h];
      if accepted && !Executable(tasks[t]) { return Raised(Forbidden); }
      if actor != row.recipient { return Raised(IdentityMismatch); }
      if row.status != Offered || row.deadline <= clock { return Raised(StaleReceipt); }
      if manifest != row.manifest { return Raised(ManifestMismatch); }
      if accepted {
        handoffs := handoffs[h := row.(status := Accepted, acceptedAt := Some(clock))];
        Announce(Notice(t, OfHandoff(h), row.sender, HandoffAccepted));
      } else {
        handoffs := handoffs[h := row.(status := Rejected)];
        Announce(Notice(t, OfHandoff(h), row.sender, HandoffRejected));
      }
      return Passed(Recorded);
    }

    method ResolveHandoff(t: TaskId, a: Action, actor: Name) returns (verdict: Verdict)
      requires a.Resolve?
      modifies this
      ensures Settled(Tables(), verdict) == Settle(old(Tables()), HandleResolve(old(Tables()), t, a, actor))
    {
      var h := a.handoff;
      if h !in handoffs || handoffs[h].task != t { return Raised(Missing); }
      if actor != handoffs[h].sender { return Raised(IdentityMismatch); }
      if handoffs[h].status == Resolved { return Raised(Conflict); }
      if a.completed && handoffs[h].status != Accepted { return Raised(Invalid); }
      handoffs := handoffs[h := handoffs[h].(status := Resolved)];
      Announce(Notice(t, OfHandoff(h), handoffs[h].recipient, HandoffResolved));
      return Passed(Recorded);
    }

    method ClaimNotice(t: TaskId, a: Action, actor: Name, token: Token) returns (verdict: Verdict)
      requires a.Claim? && !TokenUsed(Tables(), token)
      modifies this
      ensures Settled(Tables(), verdict) == Settle(old(Tables()), HandleClaim(old(Tables()), t, a, actor, token))
    {
      if a.seconds < 1 || a.seconds > 300 { return Raised(Invalid); }
      if a.notice !in outbox || a.notice.task != t { return Raised(Missing); }
      var delivery := outbox[a.notice];
      if delivery.Delivered? || (delivery.Claimed? && delivery.until > clock) { return Raised(Conflict); }
      outbox := outbox[a.notice := Claimed(actor, token, clock + a.seconds)];
      grants := grants + [Grant(a.notice, token, clock, clock + a.seconds)];
      return Passed(Lease(token, clock + a.seconds));
    }

    method AcknowledgeNotice(t: TaskId, a: Action, actor: Name) returns (verdict: Verdict)
      requires a.Acknowledge?
      modifies this
      ensures Settled(Tables(), verdict) == Settle(old(Tables()), HandleAcknowledge(old(Tables()), t, a, actor))
    {
      if a.notice !in outbox || a.notice.task != t { return Raised(Missing); }
      match outbox[a.notice] {
        case Claimed(holder, token, until) =>
          if actor != holder || a.token != token || until <= clock { return Raised(StaleAck); }
        case _ => return Raised(StaleAck);
      }
      outbox := outbox[a.notice := Delivered];
      acks := acks + [Ack(a.notice, a.token, clock)];
      return Passed(Recorded);
    }

    // ------------------------------------------------------- reconciliation

    method LoseExecutions(stale: set<ExecutionId>)
      requires stale <= executions.Keys
      modifies this`executions
      ensures executions == Lose(old(executions), stale)
    {
      ghost var lost: set<ExecutionId> := {};
      var todo := stale;
      while todo != {}
        invariant lost !! todo && lost + todo == stale
        invariant executions == Lose(old(executions), lost)
        decreases |todo|
      {
        var e :| e in todo;
        LoseOneMore(old(executions), lost, e);
        executions := executions[e := executions[e].(status := Lost)];
        lost, todo := lost + {e}, todo - {e};
      }
    }

    method AnnounceAll(notices: set<Notice>)
      modifies this`outbox
      ensures outbox == NotifyAll(old(outbox), notices)
    {
      ghost var was := outbox;
      var todo := notices;
      NotifyNothing(was);
      AllDone(notices);
      while todo != {}
        invariant todo <= notices
        invariant outbox == NotifyAll(was, notices - todo)
        decreases |todo|
      {
        var n :| n in todo;
        NotifyOneMore(was, notices - todo, n);
        OneLess(notices, todo, n);
        Announce(n);
        todo := todo - {n};
      }
    }

    method ReconcileTask(t: TaskId) returns (verdict: Verdict)
      requires t in tasks
      modifies this`executions, this`outbox
      ensures Settled(Tables(), verdict) == Settle(old(Tables()), HandleReconcile(old(Tables()), t))
    {
      ghost var before := Tables();
      verdict := Passed(Reconciled(StaleOf(Tables(), t), LapsedOffersOf(Tables(), t), LapsedStartsOf(Tables(), t)));
      AnnounceAll(DueNotices(Tables(), t));
      LoseExecutions(verdict.result.lost);
      assert Tables() == before.(executions := Lose(before.executions, StaleOf(before, t)),
                                 outbox := NotifyAll(before.outbox, DueNotices(before, t)));
      LosesStale(before, t);
    }

    // ---------------------------------------------------------- transaction

    method HandleRequest(t: TaskId, q: Request, id: nat, bump: nat) returns (verdict: Verdict)
      requires t in tasks && t in versions && bump >= 1 && (q.action.Claim? ==> !TokenUsed(Tables(), id))
      modifies this
      ensures Settled(Tables(), verdict) == Settle(old(Tables()), Handle(old(Tables()), t, q, id, bump))
    {
      if q.action.Amend? {
        verdict := Amend(t, q.action.changes, bump);
      } else if q.action.Register? || q.action.Activity? || q.action.Finish? {
        verdict := HandleExecution(t, q, id, bump);
      } else if q.action.Offer? || q.action.Accept? || q.action.Reject? || q.action.Resolve? {
        verdict := HandleHandoff(t, q, id, bump);
      } else if q.action.Reconcile? {
        verdict := ReconcileTask(t);
      } else {
        verdict := HandleOutbox(t, q, id, bump);
      }
    }

    method HandleExecution(t: TaskId, q: Request, id: nat, bump: nat) returns (verdict: Verdict)
      requires t in tasks && t in versions && bump >= 1
      requires q.action.Register? || q.action.Activity? || q.action.Finish?
      modifies this
      ensures Settled(Tables(), verdict) == Settle(old(Tables()), Handle(old(Tables()), t, q, id, bump))
    {
      match q.action {
        case Register(_, _, _, _, _, _) => verdict := RegisterExecution(t, q.action, id);
        case Activity(_, _, _) => verdict := RecordActivity(t, q.action, q.actor);
        case Finish(_, _, _) => verdict := FinishExecution(t, q.action, q.actor);
      }
    }

    method HandleOutbox(t: TaskId, q: Request, id: nat, bump: nat) returns (verdict: Verdict)
      requires t in tasks && t in versions && bump >= 1
      requires (q.action.Claim? && !TokenUsed(Tables(), id)) || q.action.Acknowledge?
      modifies this
      ensures Settled(Tables(), verdict) == Settle(old(Tables()), Handle(old(Tables()), t, q, id, bump))
    {
      if q.action.Claim? {
        verdict := ClaimNotice(t, q.action, q.actor, id);
      } else {
        verdict := AcknowledgeNotice(t, q.action, q.actor);
      }
    }

    method HandleHandoff(t: TaskId, q: Request, id: nat, bump: nat) returns (verdict: Verdict)
      requires t in tasks && t in versions && bump >= 1
      requires q.action.Offer? || q.action.Accept? || q.action.Reject? || q.action.Resolve?
      modifies this
      ensures Settled(Tables(), verdict) == Settle(old(Tables()), Handle(old(Tables()), t, q, id, bump))
    {
      match q.action {
        case Offer(_, _, _) => verdict := OfferHandoff(t, q.action, q.actor, id);
        case Accept(h, manifest) => verdict := AnswerHandoff(t, h, manifest, q.actor, true);
        case Reject(h, manifest) => verdict := AnswerHandoff(t, h, manifest, q.actor, false);
        case Resolve(_, _) => verdict := ResolveHandoff(t, q.action, q.actor);
      }
    }

    /** The revision moves unless a trigger has moved it, and the response is remembered. */
    method SealRequest(t: TaskId, q: Request, result: Result) returns (answer: Answer)
      requires t in versions
      modifies this
      ensures Reply(Tables(), answer) == Seal(old(Tables()), t, q, result)
    {
      if versions[t] == q.expected { versions := versions[t := versions[t] + 1]; }
      var response := Response(versions[t], result);
      requests := requests[RequestId(t, q.key) := Stored(q, response)];
      return Fresh(response);
    }

    /** One request in one transaction: replay, compare, handle, raise the revision, remember. */
    method Transact(t: TaskId, q: Request, wellFormed: bool, id: nat, bump: nat) returns (answer: Answer)
      requires bump >= 1 && (q.action.Claim? ==> !TokenUsed(Tables(), id))
      modifies this
      ensures Reply(Tables(), answer) == Apply(old(Tables()), t, q, wellFormed, id, bump)
    {
      if !wellFormed { return Rejection(Invalid); }
      var key := RequestId(t, q.key);
      if key in requests {
        if requests[key].request != q { return Rejection(IdempotencyConflict); }
        return Replayed(requests[key].response);
      }
      if t !in tasks || t !in versions { return Rejection(Missing); }
      if versions[t] != q.expected { return Rejection(StaleRevision); }
      var verdict := HandleRequest(t, q, id, bump);
      if verdict.Raised? { return Rejection(verdict.error); }
      answer := SealRequest(t, q, verdict.result);
    }

    /** A token is drawn at random: one that was drawn before is drawn by nobody again. */
    method ApplyRequest(t: TaskId, q: Request, wellFormed: bool, id: nat, bump: nat) returns (answer: Answer)
      requires Valid() && (q.action.Claim? ==> !TokenUsed(Tables(), id))
      modifies this
      ensures Valid()
      ensures Reply(Tables(), answer) == Apply(old(Tables()), t, q, wellFormed, id, bump + 1)
      ensures Tables() == Next(old(Tables()), Call(t, q, wellFormed, id, bump))
    {
      StaysReachable(Tables(), Call(t, q, wellFormed, id, bump));
      NextOfCall(Tables(), Call(t, q, wellFormed, id, bump));
      answer := Transact(t, q, wellFormed, id, bump + 1);
    }

    // -------------------------------------------------------------- watchdog

    method DueErrands() returns (errands: seq<Errand>)
      ensures Scan(Tables(), errands) && Covers(Tables(), errands)
    {
      var ids := Listed(DueTasks(Tables()));
      ErrandsScan(Tables(), ids);
      return ErrandsOf(Tables(), ids);
    }

    /** One task of a pass: its revision is read, and the request made later is judged against what holds by then. */
    method VisitErrand(s: Errand, gaps: seq<Gap>) returns (answer: Answer)
      requires Valid() && s.task in versions
      modifies this
      ensures Valid()
      ensures Reply(Tables(), answer) == FirstReply(old(Tables()), s, gaps)
      ensures PutOff(answer) ==> answer.error in {IdempotencyConflict, StaleRevision}
    {
      ghost var before := Tables();
      ReachableInv(before);
      VersionsStay(before, First(gaps).before, s.task);
      OthersAct(First(gaps).before);
      var revision := versions[s.task];
      OthersAct(First(gaps).within);
      answer := ApplyRequest(s.task, WatchdogRequest(s.due, revision), true, 0, 0);
      VisitSettles(AtRead(before, gaps), s, First(gaps).within);
    }

    /** The next visit of a pass. */
    method VisitNext(rest: seq<Errand>, gaps: seq<Gap>, ghost whole: Pass, ghost answers: seq<Answer>)
      returns (answer: Answer)
      requires Valid() && rest != [] && Present(Tables(), rest) && GoesOn(whole, Tables(), rest, gaps, answers)
      modifies this
      ensures Valid() && Present(Tables(), rest[1..])
      ensures GoesOn(whole, Tables(), rest[1..], Rest(gaps), answers + [answer])
      ensures PutOff(answer) ==> answer.error in {IdempotencyConflict, StaleRevision}
    {
      TasksStay(Tables(), rest, gaps);
      PassGoesOn(whole, Tables(), rest, gaps, answers);
      answer := VisitErrand(rest[0], gaps);
    }

    /** A request that is refused is put off, and the pass goes on. */
    method VisitAll(errands: seq<Errand>, gaps: seq<Gap>)
      returns (reconciled: nat, deferred: nat, ghost answers: seq<Answer>)
      requires Valid() && Present(Tables(), errands)
      modifies this
      ensures Valid()
      ensures Pass(Tables(), answers) == RunPass(old(Tables()), errands, gaps)
      ensures deferred == Deferred(answers) && reconciled + deferred == |answers|
    {
      ghost var whole := RunPass(Tables(), errands, gaps);
      var rest, left := errands, gaps;
      answers, reconciled, deferred := [], 0, 0;
      while rest != []
        invariant Valid() && Present(Tables(), rest)
        invariant GoesOn(whole, Tables(), rest, left, answers)
        invariant deferred == Deferred(answers) && reconciled + deferred == |answers|
        decreases |rest|
      {
        var answer := VisitNext(rest, left, whole, answers);
        OneMoreAnswer(answers, answer);
        if answer == Rejection(StaleRevision) || answer == Rejection(IdempotencyConflict) {
          deferred := deferred + 1;
        } else {
          reconciled := reconciled + 1;
        }
        answers, rest, left := answers + [answer], rest[1..], Rest(left);
      }
      PassGoesOn(whole, Tables(), rest, left, answers);
    }

    /** The watchdog's pass: one look at what is due, then one visit after the other. */
    method ReconcileDue(gaps: seq<Gap>)
      returns (reconciled: nat, deferred: nat, ghost errands: seq<Errand>, ghost answers: seq<Answer>)
      requires Valid()
      modifies this
      ensures Valid()
      ensures Scan(old(Tables()), errands) && Covers(old(Tables()), errands)
      ensures Pass(Tables(), answers) == RunPass(old(Tables()), errands, gaps)
      ensures deferred == Deferred(answers) && reconciled + deferred == |answers|
    {
      var found := DueErrands();
      errands := found;
      ScanHasVersions(Tables(), errands);
      reconciled, deferred, answers := VisitAll(found, gaps);
    }

    // --------------------------------------------------------- managed runs

    /** The newest attempt of a task, if it has any. */
    method NewestRun(t: TaskId) returns (newest: Option<RunId>)
      ensures IsNewest(Tables(), t, newest)
    {
      newest := None;
      var todo := runs.Keys;
      while todo != {}
        invariant todo <= runs.Keys
        invariant newest.None? ==> forall r :: r in runs.Keys - todo ==> runs[r].task != t
        invariant newest.Some? ==> newest.value in runs && runs[newest.value].task == t
        invariant newest.Some? ==>
                    forall r :: r in runs.Keys - todo && runs[r].task == t ==>
                        runs[r].attempt <= runs[newest.value].attempt
        decreases |todo|
      {
        var r :| r in todo;
        if runs[r].task == t && (newest.None? || runs[newest.value].attempt < runs[r].attempt) { newest := Some(r); }
        todo := todo - {r};
      }
    }

    method SetPlan(p: nat, t: TaskId, newest: Option<RunId>)
      requires IsNewest(Tables(), t, newest)
      modifies this`plans
      ensures Tables() == Next(old(Tables()), PlanAttempt(p, t, newest))
    {
      plans := plans[p := Plan(t, if newest.Some? then runs[newest.value].attempt + 1 else 1)];
    }

    /** A dispatcher reads the newest attempt before, and outside, the transaction that inserts the next. */
    method PlanNextAttempt(p: nat, t: TaskId) returns (ghost newest: Option<RunId>)
      requires Valid()
      modifies this`plans
      ensures Valid()
      ensures IsNewest(old(Tables()), t, newest) && Tables() == Next(old(Tables()), PlanAttempt(p, t, newest))
    {
      var latest := NewestRun(t);
      newest := latest;
      StaysReachable(Tables(), PlanAttempt(p, t, newest));
      SetPlan(p, t, latest);
    }

    /** The insert, refused by the trigger, the unique attempt or the one-active-run index. */
    method EnqueueRun(p: nat, r: RunId) returns (inserted: bool)
      requires Valid()
      modifies this`runs
      ensures Valid()
      ensures Tables() == Next(old(Tables()), Enqueue(p, r))
      ensures inserted <==> r !in old(runs) && r in runs
    {
      StaysReachable(Tables(), Enqueue(p, r));
      if p !in plans || r in runs { return false; }
      var t, attempt := plans[p].task, plans[p].attempt;
      if HasUnfinishedExecution(Tables(), t) || HasUnresolvedHandoff(Tables(), t) { return false; }
      if HasAttempt(Tables(), t, attempt) || HasActiveRun(Tables(), t) { return false; }
      runs := runs[r := Run(t, attempt, Queued, None)];
      return true;
    }

    /** The claim, and what it makes of the row of the task, in one transaction. */
    method ClaimQueuedRun(r: RunId, pid: nat, bump: Option<nat>) returns (claimed: bool)
      requires Valid()
      modifies this
      ensures Valid()
      ensures claimed ==> r in old(runs) && old(runs[r].task) in old(tasks)
      ensures claimed ==>
                var t := old(runs[r].task);
                var edit := if bump.Some? then Some(Edit(old(tasks[t]), bump.value)) else None;
                Tables() == Execute(old(Tables()), [ClaimRun(r, pid)] + EditSteps(t, edit))
      ensures claimed ==> r in runs && runs[r].status == Running && runs[r].pid == Some(pid)
      ensures !claimed ==> Tables() == old(Tables()) == Next(old(Tables()), ClaimRun(r, pid))
    {
      if r !in runs || runs[r].task !in tasks || !MayRun(tasks[runs[r].task]) { return false; }
      var row := runs[r];
      if row.status != Queued || (row.pid.Some? && row.pid.value != pid) { return false; }
      if HasNewerRun(Tables(), row.task, row.attempt) { return false; }
      ghost var before := Tables();
      StaysReachable(before, ClaimRun(r, pid));
      runs := runs[r := row.(status := Running, pid := Some(pid))];
      if bump.Some? { WriteTask(row.task, tasks[row.task], bump.value); }
      TwoSteps(before, ClaimRun(r, pid),
          EditTask(row.task, before.tasks[row.task], if bump.Some? then bump.value else 0));
      return true;
    }

    /** Only the process that owns the newest, running attempt may end it. */
    predicate OwnsRun(r: RunId, attempt: int, pid: nat)
      reads this
    {
      r in runs && runs[r].attempt == attempt && runs[r].pid == Some(pid) && runs[r].status == Running &&
      runs[r].task in tasks && MayRun(tasks[runs[r].task]) && !HasNewerRun(Tables(), runs[r].task, attempt)
    }

    /**
     The end of a run, the evidence it brought and the move of its task in one transaction: a task
     that may not be completed yet takes the whole of it back.
     */
    method FinishOwnedRun(r: RunId, pid: nat, attempt: int, succeeded: bool, edit: Option<Edit>)
        returns (finished: bool)
      requires Valid()
      requires edit.Some? && r in runs && runs[r].task in tasks ==>
                 AfterRun(tasks[runs[r].task], edit.value.row, succeeded)
      modifies this
      ensures Valid()
      ensures finished <==> old(OwnsRun(r, attempt, pid)) &&
                            (edit.Some? && edit.value.row.state == Done ==>
                               MayComplete(old(Tables()), old(runs[r].task), edit.value.row))
      ensures finished ==>
                Tables() == Execute(old(Tables()),
                                    [FinishRun(r, pid, attempt, succeeded)] + EditSteps(old(runs[r].task), edit))
      ensures !finished ==> Tables() == old(Tables())
    {
      if !OwnsRun(r, attempt, pid) { return false; }
      var t := runs[r].task;
      if edit.Some? && edit.value.row.state == Done && !MayComplete(Tables(), t, edit.value.row) { return false; }
      ghost var before, last := Tables(), FinishRun(r, pid, attempt, succeeded);
      StaysReachable(before, last);
      runs := runs[r := runs[r].(status := if succeeded then Succeeded else RunFailed)];
      if edit.Some? {
        SameGuards(before, Tables(), t, edit.value.row);
        WriteTask(t, edit.value.row, edit.value.bump);
        TwoSteps(before, last, EditTask(t, edit.value.row, edit.value.bump));
      } else {
        TwoSteps(before, last, Tick(0));
      }
      return true;
    }

    /** Cancellation and crash recovery overwrite a status whatever it has become since they looked. */
    method OverwriteStatus(r: RunId, status: RunStatus)
      requires Valid() && (status == RunFailed || status == RunCanceled)
      modifies this`runs
      ensures Valid()
      ensures Tables() == Next(old(Tables()), OverwriteRun(r, status))
    {
      StaysReachable(Tables(), OverwriteRun(r, status));
      if r in runs { runs := runs[r := runs[r].(status := status)]; }
    }

    /** A dispatcher notes the process it has started. */
    method NotePid(r: RunId, pid: nat)
      requires Valid()
      modifies this`runs
      ensures Valid()
      ensures Tables() == Next(old(Tables()), SetPid(r, pid))
    {
      StaysReachable(Tables(), SetPid(r, pid));
      if r in runs { runs := runs[r := runs[r].(pid := Some(pid))]; }
    }

    // -------------------------------------------------- tasks and the clock

    method Wait(seconds: nat)
      requires Valid()
      modifies this`clock
      ensures Valid()
      ensures Tables() == Next(old(Tables()), Tick(seconds))
    {
      StaysReachable(Tables(), Tick(seconds));
      clock := clock + seconds;
    }

    method InsertTask(t: TaskId, row: Task)
      requires Valid()
      modifies this`tasks, this`versions
      ensures Valid()
      ensures Tables() == Next(old(Tables()), NewTask(t, row))
    {
      StaysReachable(Tables(), NewTask(t, row));
      AddRow(t, row);
    }

    /** The insert and the trigger that gives the task its first revision. */
    method AddRow(t: TaskId, row: Task)
      modifies this`tasks, this`versions
      ensures Tables() == Next(old(Tables()), NewTask(t, row))
    {
      if t in tasks || t in versions { return; }
      tasks := tasks[t := row];
      versions := versions[t := 0];
    }

    /** The update of a row, with the trigger that guards its completion and the one that raises its revision. */
    method SetRow(t: TaskId, row: Task, bump: nat)
      modifies this`tasks, this`versions
      ensures Tables() == Next(old(Tables()), EditTask(t, row, bump))
    {
      if t !in tasks || t !in versions { return; }
      if row.state == Done && tasks[t].state != Done && !MayComplete(Tables(), t, row) { return; }
      tasks := tasks[t := row];
      versions := versions[t := versions[t] + bump + 1];
    }

    method WriteTask(t: TaskId, row: Task, bump: nat)
      requires Valid()
      modifies this`tasks, this`versions
      ensures Valid()
      ensures Tables() == Next(old(Tables()), EditTask(t, row, bump))
    {
      StaysReachable(Tables(), EditTask(t, row, bump));
      SetRow(t, row, bump);
    }

    // ----------------------------------------------------- any step at all

    /** Every step of a run is one call of a method above. */
    method Perform(s: Step)
      requires Valid()
      modifies this
      ensures Valid()
      ensures Tables() == Next(old(Tables()), s)
    {
      match s {
        case Tick(seconds) => Wait(seconds);
        case NewTask(t, row) => InsertTask(t, row);
        case EditTask(t, row, bump) => WriteTask(t, row, bump);
        case Call(t, q, wellFormed, id, bump) =>
          if q.action.Claim? && TokenUsed(Tables(), id) {
            UsedTokenIsSkipped(Tables(), s);
          } else {
            var _ := ApplyRequest(t, q, wellFormed, id, bump);
          }
        case _ => PerformOnRuns(s);
      }
    }

    method PerformOnRuns(s: Step)
      requires Valid() && OfRunTable(s)
      modifies this
      ensures Valid()
      ensures Tables() == Next(old(Tables()), s)
    {
      ghost var before := Tables();
      match s {
        case PlanAttempt(p, t, newest) =>
          if IsNewest(Tables(), t, newest) {
            ghost var found := PlanNextAttempt(p, t);
            NewestIsEnough(before, p, t, newest, found);
          }
        case Enqueue(p, r) => var _ := EnqueueRun(p, r);
        case SetPid(r, pid) => NotePid(r, pid);
        case ClaimRun(r, pid) =>
          var _ := ClaimQueuedRun(r, pid, None);
          OneStep(before, s);
        case FinishRun(r, pid, attempt, succeeded) =>
          var _ := FinishOwnedRun(r, pid, attempt, succeeded, None);
          OneStep(before, s);
        case OverwriteRun(r, status) => if status == RunFailed || status == RunCanceled { OverwriteStatus(r, status); }
      }
    }

    /** Any steps of other processes. */
    method OthersAct(steps: seq<Step>)
      requires Valid()
      modifies this
      ensures Valid()
      ensures Tables() == Execute(old(Tables()), steps)
    {
      var rest := steps;
      while rest != []
        invariant Valid() && Execute(Tables(), rest) == Execute(old(Tables()), steps)
        decreases |rest|
      {
        Perform(rest[0]);
        rest := rest[1..];
      }
    }
  }
}
