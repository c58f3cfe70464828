/** The relations between the lifecycle tables that every step keeps, with a lemma for each handler and step. */
module LifecycleInvariant {
  import opened Options
  import opened Lifecycle

  // ----------------------------------------------------- responsibilities

  ghost predicate TaskRow(db: Db, t: TaskId) {
    t in db.tasks <==> t in db.versions
  }

  /**
   An unfinished execution keeps its task from being done. One bound to a handoff
   is carried out by its recipient, after the recipient accepted it.
   */
  ghost predicate ExecutionRow(db: Db, e: ExecutionId) {
    e in db.executions ==>
      var row := db.executions[e];
      && row.task in db.tasks
      && row.activity <= db.clock
      && (Unfinished(row.status) ==> db.tasks[row.task].state != Done)
      && (row.handoff.Some? ==>
            row.handoff.value in db.handoffs &&
            var h := db.handoffs[row.handoff.value];
            h.task == row.task && h.recipient == row.executor && (h.status == Accepted || h.status == Resolved) &&
            h.acceptedAt.Some? && h.acceptedAt.value <= row.activity)
  }

  /** A handoff that is not resolved keeps its task from being done. */
  ghost predicate HandoffRow(db: Db, h: HandoffId) {
    h in db.handoffs ==>
      && db.handoffs[h].task in db.tasks
      && (db.handoffs[h].status != Resolved ==> db.tasks[db.handoffs[h].task].state != Done)
      && (db.handoffs[h].status == Accepted ==> db.handoffs[h].acceptedAt.Some?)
  }

  ghost predicate Responsible(db: Db) {
    && (forall t {:trigger TaskRow(db, t)} :: TaskRow(db, t))
    && (forall e {:trigger ExecutionRow(db, e)} :: ExecutionRow(db, e))
    && (forall h {:trigger HandoffRow(db, h)} :: HandoffRow(db, h))
  }

  // --------------------------------------------------------- managed runs

  /** Attempts count up from one without gaps. */
  ghost predicate RunRow(db: Db, r: RunId) {
    r in db.runs ==>
      db.runs[r].attempt >= 1 && (db.runs[r].attempt > 1 ==> HasAttempt(db, db.runs[r].task, db.runs[r].attempt - 1))
  }

  /** No attempt is numbered twice, and an active run is newer than every other. */
  ghost predicate RunPair(db: Db, r: RunId, q: RunId) {
    r in db.runs && q in db.runs && r != q && db.runs[r].task == db.runs[q].task ==>
      db.runs[r].attempt != db.runs[q].attempt &&
      (ActiveRun(db.runs[r].status) ==> db.runs[q].attempt < db.runs[r].attempt)
  }

  /** A remembered attempt was the next one when it was read. */
  ghost predicate PlanRow(db: Db, p: nat) {
    p in db.plans ==>
      db.plans[p].attempt >= 1 &&
      (db.plans[p].attempt > 1 ==> HasAttempt(db, db.plans[p].task, db.plans[p].attempt - 1))
  }

  /** A task is never worked on by a managed run and an external execution at once. */
  ghost predicate Exclusive(db: Db, r: RunId, e: ExecutionId) {
    r in db.runs && e in db.executions && ActiveRun(db.runs[r].status) && Unfinished(db.executions[e].status) ==>
      db.runs[r].task != db.executions[e].task
  }

  ghost predicate Managed(db: Db) {
    && (forall r {:trigger RunRow(db, r)} :: RunRow(db, r))
    && (forall r, q {:trigger RunPair(db, r, q)} :: RunPair(db, r, q))
    && (forall p {:trigger PlanRow(db, p)} :: PlanRow(db, p))
    && (forall r, e {:trigger Exclusive(db, r, e)} :: Exclusive(db, r, e))
  }

  // --------------------------------------------------------------- notices

  /** Who is told of what happens to a handoff. */
  function Addressee(handoff: Handoff, kind: Kind): Option<Name> {
    match kind
    case HandoffOffered => Some(handoff.recipient)
    case HandoffAccepted => Some(handoff.sender)
    case HandoffRejected => Some(handoff.sender)
    case HandoffResolved => Some(handoff.recipient)
    case HandoffOverdue => Some(handoff.sender)
    case StartOverdue => Some(handoff.recipient)
    case ExecutionLost => None
  }

  /** A loss is announced about an activity that the execution has not shown again as its latest. */
  ghost predicate NoticeRow(db: Db, n: Notice) {
    n in db.outbox ==>
      match n.subject
      case OfHandoff(h) =>
        h in db.handoffs && db.handoffs[h].task == n.task && Addressee(db.handoffs[h], n.kind) == Some(n.recipient)
      case OfActivity(e, at) =>
        && n.kind == ExecutionLost && e in db.executions && db.executions[e].task == n.task
        && at <= db.executions[e].activity
        && (at == db.executions[e].activity ==> db.executions[e].status != Active)
  }

  /** One subject is announced once per kind, to whomever it is announced. */
  ghost predicate NoticePair(db: Db, n: Notice, m: Notice) {
    n in db.outbox && m in db.outbox && n.subject == m.subject && n.kind == m.kind ==> n == m
  }

  ghost predicate Announced(db: Db) {
    && (forall n {:trigger NoticeRow(db, n)} :: NoticeRow(db, n))
    && (forall n, m {:trigger NoticePair(db, n, m)} :: NoticePair(db, n, m))
  }

  // -------------------------------------------------------------- requests

  /** A stored response carries a revision above the one its request expected. */
  ghost predicate RequestRow(db: Db, id: RequestId) {
    id in db.requests ==>
      && id.task in db.versions
      && db.requests[id].request.key == id.key
      && db.requests[id].request.expected < db.requests[id].response.revision <= db.versions[id.task]
  }

  ghost predicate Remembered(db: Db) {
    forall id {:trigger RequestRow(db, id)} :: RequestRow(db, id)
  }

  ghost predicate Inv(db: Db) {
    Responsible(db) && Managed(db) && Announced(db) && Remembered(db)
  }

  // ----------------------------------------------------------------- frames

  lemma ResponsibleFramed(db: Db, db': Db)
    requires Responsible(db) && db'.executions == db.executions && db'.handoffs == db.handoffs && db'.clock >= db.clock
    requires db'.tasks.Keys == db'.versions.Keys
    requires forall t :: t in db.tasks ==> t in db'.tasks && (db'.tasks[t].state == Done ==> db.tasks[t].state == Done)
    ensures Responsible(db')
  {
    forall t ensures TaskRow(db', t) {}
    forall e ensures ExecutionRow(db', e) { assert ExecutionRow(db, e); }
    forall h ensures HandoffRow(db', h) { assert HandoffRow(db, h); }
  }

  lemma ManagedFramed(db: Db, db': Db)
    requires Managed(db) && db'.runs == db.runs && db'.plans == db.plans
    requires forall e :: e in db'.executions && Unfinished(db'.executions[e].status) ==>
                           e in db.executions && Unfinished(db.executions[e].status) &&
                           db'.executions[e].task == db.executions[e].task
    ensures Managed(db')
  {
    forall r ensures RunRow(db', r) {
      assert RunRow(db, r);
      assert r in db.runs && HasAttempt(db, db.runs[r].task, db.runs[r].attempt - 1) ==>
          HasAttempt(db', db.runs[r].task, db.runs[r].attempt - 1);
    }
    forall r, q ensures RunPair(db', r, q) { assert RunPair(db, r, q); }
    forall p ensures PlanRow(db', p) {
      assert PlanRow(db, p);
      assert p in db.plans && HasAttempt(db, db.plans[p].task, db.plans[p].attempt - 1) ==>
          HasAttempt(db', db.plans[p].task, db.plans[p].attempt - 1);
    }
    forall r, e ensures Exclusive(db', r, e) { assert Exclusive(db, r, e); }
  }

  lemma AnnouncedFramed(db: Db, db': Db)
    requires Announced(db) && db'.outbox.Keys == db.outbox.Keys
    requires forall h :: h in db.handoffs ==>
                           h in db'.handoffs && db'.handoffs[h].task == db.handoffs[h].task &&
                           db'.handoffs[h].sender == db.handoffs[h].sender &&
                           db'.handoffs[h].recipient == db.handoffs[h].recipient
    requires forall e :: e in db.executions ==>
                           e in db'.executions && db'.executions[e].task == db.executions[e].task &&
                           db'.executions[e].activity >= db.executions[e].activity &&
                           (db'.executions[e].activity == db.executions[e].activity &&
                            db'.executions[e].status == Active ==>
                              db.executions[e].status == Active)
    ensures Announced(db')
  {
    forall n ensures NoticeRow(db', n) { assert NoticeRow(db, n); }
    forall n, m ensures NoticePair(db', n, m) { assert NoticePair(db, n, m); }
  }

  lemma RememberedFramed(db: Db, db': Db)
    requires Remembered(db) && db'.requests == db.requests
    requires forall t :: t in db.versions ==> t in db'.versions && db'.versions[t] >= db.versions[t]
    ensures Remembered(db')
  {
    forall id ensures RequestRow(db', id) { assert RequestRow(db, id); }
  }

  // -------------------------------------------------------------- requests

  lemma AmendKeeps(db: Db, t: TaskId, c: Changes, bump: nat)
    requires Inv(db) && t in db.tasks && t in db.versions && bump >= 1 && HandleAmend(db, t, c, bump).Handled?
    ensures Inv(HandleAmend(db, t, c, bump).db)
  {
    var db' := HandleAmend(db, t, c, bump).db;
    forall u ensures u in db.tasks <==> u in db.versions { assert TaskRow(db, u); }
    ResponsibleFramed(db, db');
    ManagedFramed(db, db');
    AnnouncedFramed(db, db');
    RememberedFramed(db, db');
  }

  lemma RegisterKeeps(db: Db, t: TaskId, a: Action, id: nat)
    requires Inv(db) && t in db.tasks && a.Register? && HandleRegister(db, t, a, id).Handled?
    ensures Inv(HandleRegister(db, t, a, id).db)
  {
    var db' := HandleRegister(db, t, a, id).db;
    forall u ensures TaskRow(db', u) { assert TaskRow(db, u); }
    forall e ensures ExecutionRow(db', e) { assert ExecutionRow(db, e); }
    forall h ensures HandoffRow(db', h) { assert HandoffRow(db, h); }
    forall r ensures RunRow(db', r) {
      assert RunRow(db, r);
      assert r in db.runs && HasAttempt(db, db.runs[r].task, db.runs[r].attempt - 1) ==>
          HasAttempt(db', db.runs[r].task, db.runs[r].attempt - 1);
    }
    forall r, q ensures RunPair(db', r, q) { assert RunPair(db, r, q); }
    forall p ensures PlanRow(db', p) {
      assert PlanRow(db, p);
      assert p in db.plans && HasAttempt(db, db.plans[p].task, db.plans[p].attempt - 1) ==>
          HasAttempt(db', db.plans[p].task, db.plans[p].attempt - 1);
    }
    forall r, e ensures Exclusive(db', r, e) {
      assert Exclusive(db, r, e);
      assert r in db.runs && db.runs[r].task == t && ActiveRun(db.runs[r].status) ==> HasActiveRun(db, t);
    }
    AnnouncedFramed(db, db');
    RememberedFramed(db, db');
  }

  /** Activity and finishing change one unfinished execution, and only forward in time. */
  lemma ProgressKeeps(db: Db, db': Db, e: ExecutionId, row: Execution)
    requires Inv(db) && db' == db.(executions := db.executions[e := row])
    requires e in db.executions && Unfinished(db.executions[e].status) && row.task == db.executions[e].task
    requires row.executor == db.executions[e].executor && row.handoff == db.executions[e].handoff
    requires db.executions[e].activity <= row.activity <= db.clock
    requires row.status == Active ==> db.executions[e].activity < row.activity
    ensures Inv(db')
  {
    forall u ensures TaskRow(db', u) { assert TaskRow(db, u); }
    forall x ensures ExecutionRow(db', x) { assert ExecutionRow(db, x); }
    forall h ensures HandoffRow(db', h) { assert HandoffRow(db, h); }
    ManagedFramed(db, db');
    AnnouncedFramed(db, db');
    RememberedFramed(db, db');
  }

  lemma HandoffKeeps(db: Db, db': Db, h: HandoffId, row: Handoff, notice: Notice)
    requires Inv(db)
    requires db' == db.(handoffs := db.handoffs[h := row], outbox := Notify(db.outbox, notice))
    requires row.task in db.tasks && (row.status != Resolved ==> db.tasks[row.task].state != Done)
    requires row.status == Accepted ==> row.acceptedAt.Some?
    requires h in db.handoffs ==>
               var before := db.handoffs[h];
               row.task == before.task && row.sender == before.sender && row.recipient == before.recipient &&
               (before.status == Accepted || before.status == Resolved ==>
                  row.acceptedAt == before.acceptedAt && (row.status == Accepted || row.status == Resolved))
    requires notice.task == row.task && notice.subject == OfHandoff(h) &&
             Addressee(row, notice.kind) == Some(notice.recipient)
    ensures Inv(db')
  {
    forall u ensures TaskRow(db', u) { assert TaskRow(db, u); }
    forall e ensures ExecutionRow(db', e) { assert ExecutionRow(db, e); }
    forall k ensures HandoffRow(db', k) { assert HandoffRow(db, k); }
    ManagedFramed(db, db');
    forall n ensures NoticeRow(db', n) { assert NoticeRow(db, n); }
    forall n, m ensures NoticePair(db', n, m) { assert NoticePair(db, n, m) && NoticeRow(db', n) && NoticeRow(db', m); }
    RememberedFramed(db, db');
  }

  lemma ReconciledNotice(db: Db, t: TaskId, n: Notice)
    requires Announced(db) && t in db.tasks
    ensures NoticeRow(HandleReconcile(db, t).db, n)
  {
    assert NoticeRow(db, n);
  }

  lemma ReconciledPair(db: Db, t: TaskId, n: Notice, m: Notice)
    requires Announced(db) && t in db.tasks
    ensures NoticePair(HandleReconcile(db, t).db, n, m)
  {
    assert NoticePair(db, n, m) && NoticeRow(db, n) && NoticeRow(db, m);
    ReconciledNotice(db, t, n);
    ReconciledNotice(db, t, m);
  }

  lemma ReconcileAnnounces(db: Db, t: TaskId)
    requires Announced(db) && t in db.tasks
    ensures Announced(HandleReconcile(db, t).db)
  {
    var db' := HandleReconcile(db, t).db;
    forall n ensures NoticeRow(db', n) { ReconciledNotice(db, t, n); }
    forall n, m ensures NoticePair(db', n, m) { ReconciledPair(db, t, n, m); }
  }

  lemma ReconcileKeeps(db: Db, t: TaskId)
    requires Inv(db) && t in db.tasks
    ensures Inv(HandleReconcile(db, t).db)
  {
    var db' := HandleReconcile(db, t).db;
    forall u ensures TaskRow(db', u) { assert TaskRow(db, u); }
    forall e ensures ExecutionRow(db', e) { assert ExecutionRow(db, e); }
    forall h ensures HandoffRow(db', h) { assert HandoffRow(db, h); }
    ManagedFramed(db, db');
    ReconcileAnnounces(db, t);
    RememberedFramed(db, db');
  }

  lemma ActivityKeeps(db: Db, t: TaskId, a: Action, actor: Name)
    requires Inv(db) && t in db.tasks && a.Activity? && HandleActivity(db, t, a, actor).Handled?
    ensures Inv(HandleActivity(db, t, a, actor).db)
  {
    var db' := HandleActivity(db, t, a, actor).db;
    ProgressKeeps(db, db', a.execution, db'.executions[a.execution]);
  }

  lemma FinishKeeps(db: Db, t: TaskId, a: Action, actor: Name)
    requires Inv(db) && t in db.tasks && a.Finish? && HandleFinish(db, t, a, actor).Handled?
    ensures Inv(HandleFinish(db, t, a, actor).db)
  {
    var db' := HandleFinish(db, t, a, actor).db;
    assert ExecutionRow(db, a.execution);
    ProgressKeeps(db, db', a.execution, db'.executions[a.execution]);
  }

  lemma OfferKeeps(db: Db, t: TaskId, a: Action, actor: Name, id: nat)
    requires Inv(db) && t in db.tasks && a.Offer? && HandleOffer(db, t, a, actor, id).Handled?
    ensures Inv(HandleOffer(db, t, a, actor, id).db)
  {
    var db' := HandleOffer(db, t, a, actor, id).db;
    HandoffKeeps(db, db', id, db'.handoffs[id], Notice(t, OfHandoff(id), a.recipient, HandoffOffered));
  }

  lemma ReceiptKeeps(db: Db, t: TaskId, h: HandoffId, manifest: nat, actor: Name, accepted: bool)
    requires Inv(db) && t in db.tasks && HandleReceipt(db, t, h, manifest, actor, accepted).Handled?
    ensures Inv(HandleReceipt(db, t, h, manifest, actor, accepted).db)
  {
    var db' := HandleReceipt(db, t, h, manifest, actor, accepted).db;
    assert HandoffRow(db, h);
    HandoffKeeps(db, db', h, db'.handoffs[h],
                 Notice(t, OfHandoff(h), db.handoffs[h].sender, if accepted then HandoffAccepted else HandoffRejected));
  }

  lemma ResolveKeeps(db: Db, t: TaskId, a: Action, actor: Name)
    requires Inv(db) && t in db.tasks && a.Resolve? && HandleResolve(db, t, a, actor).Handled?
    ensures Inv(HandleResolve(db, t, a, actor).db)
  {
    var db' := HandleResolve(db, t, a, actor).db;
    HandoffKeeps(db, db', a.handoff, db'.handoffs[a.handoff],
                 Notice(t, OfHandoff(a.handoff), db.handoffs[a.handoff].recipient, HandoffResolved));
  }

  lemma OutboxKeeps(db: Db, db': Db)
    requires Inv(db) && db' == db.(outbox := db'.outbox, grants := db'.grants, acks := db'.acks)
    requires db'.outbox.Keys == db.outbox.Keys
    ensures Inv(db')
  {
    forall u ensures u in db.tasks <==> u in db.versions { assert TaskRow(db, u); }
    ResponsibleFramed(db, db');
    ManagedFramed(db, db');
    AnnouncedFramed(db, db');
    RememberedFramed(db, db');
  }

  lemma ClaimKeeps(db: Db, t: TaskId, a: Action, actor: Name, token: Token)
    requires Inv(db) && a.Claim? && HandleClaim(db, t, a, actor, token).Handled?
    ensures Inv(HandleClaim(db, t, a, actor, token).db)
  {
    OutboxKeeps(db, HandleClaim(db, t, a, actor, token).db);
  }

  lemma AcknowledgeKeeps(db: Db, t: TaskId, a: Action, actor: Name)
    requires Inv(db) && a.Acknowledge? && HandleAcknowledge(db, t, a, actor).Handled?
    ensures Inv(HandleAcknowledge(db, t, a, actor).db)
  {
    OutboxKeeps(db, HandleAcknowledge(db, t, a, actor).db);
  }

  lemma HandleKeeps(db: Db, t: TaskId, q: Request, id: nat, bump: nat)
    requires Inv(db) && t in db.tasks && t in db.versions && bump >= 1 && Handle(db, t, q, id, bump).Handled?
    ensures Inv(Handle(db, t, q, id, bump).db)
  {
    match q.action
    case Amend(c) => AmendKeeps(db, t, c, bump);
    case Register(_, _, _, _, _, _) => RegisterKeeps(db, t, q.action, id);
    case Activity(_, _, _) => ActivityKeeps(db, t, q.action, q.actor);
    case Finish(_, _, _) => FinishKeeps(db, t, q.action, q.actor);
    case Offer(_, _, _) => OfferKeeps(db, t, q.action, q.actor, id);
    case Accept(h, manifest) => ReceiptKeeps(db, t, h, manifest, q.actor, true);
    case Reject(h, manifest) => ReceiptKeeps(db, t, h, manifest, q.actor, false);
    case Resolve(_, _) => ResolveKeeps(db, t, q.action, q.actor);
    case Claim(_, _) => ClaimKeeps(db, t, q.action, q.actor, id);
    case Acknowledge(_, _) => AcknowledgeKeeps(db, t, q.action, q.actor);
    case Reconcile => ReconcileKeeps(db, t);
  }

  lemma SealKeeps(db: Db, t: TaskId, q: Request, result: Result)
    requires Inv(db) && t in db.versions && q.expected <= db.versions[t]
    ensures Inv(Seal(db, t, q, result).db)
  {
    var db' := Seal(db, t, q, result).db;
    forall u ensures u in db.tasks <==> u in db.versions { assert TaskRow(db, u); }
    ResponsibleFramed(db, db');
    ManagedFramed(db, db');
    AnnouncedFramed(db, db');
    forall id ensures RequestRow(db', id) { assert RequestRow(db, id); }
  }

  lemma ApplyKeeps(db: Db, t: TaskId, q: Request, wellFormed: bool, id: nat, bump: nat)
    requires Inv(db) && bump >= 1
    ensures Inv(Apply(db, t, q, wellFormed, id, bump).db)
  {
    if Apply(db, t, q, wellFormed, id, bump).answer.Fresh? {
      HandleKeeps(db, t, q, id, bump);
      var handled := Handle(db, t, q, id, bump);
      SealKeeps(handled.db, t, q, handled.result);
    }
  }

  // ---------------------------------------------------------- managed runs

  /** Every attempt below a known one exists. */
  lemma {:induction false} AttemptsAreContiguous(db: Db, t: TaskId, high: int, low: int)
    requires Managed(db) && 1 <= low <= high && HasAttempt(db, t, high)
    ensures HasAttempt(db, t, low)
    decreases high - low
  {
    if low < high {
      var r :| r in db.runs && db.runs[r].task == t && db.runs[r].attempt == high;
      assert RunRow(db, r);
      AttemptsAreContiguous(db, t, high - 1, low);
    }
  }

  /** A new managed run, with the guards of its insertion. */
  lemma EnqueueKeeps(db: Db, p: nat, r: RunId)
    requires Managed(db) && p in db.plans && r !in db.runs && MayEnqueue(db, db.plans[p].task, db.plans[p].attempt)
    ensures Managed(RunStep(db, Enqueue(p, r)))
  {
    var db' := RunStep(db, Enqueue(p, r));
    var t, attempt := db.plans[p].task, db.plans[p].attempt;
    assert PlanRow(db, p);
    forall u, a | HasAttempt(db, u, a) ensures HasAttempt(db', u, a) {
      var q :| q in db.runs && db.runs[q].task == u && db.runs[q].attempt == a;
      assert db'.runs[q] == db.runs[q];
    }
    forall q ensures RunRow(db', q) { assert RunRow(db, q); }
    forall q | q in db.runs && db.runs[q].task == t
      ensures db.runs[q].attempt < attempt && !ActiveRun(db.runs[q].status)
    {
      assert HasAttempt(db, t, db.runs[q].attempt);
      if db.runs[q].attempt > attempt { AttemptsAreContiguous(db, t, db.runs[q].attempt, attempt); }
      assert ActiveRun(db.runs[q].status) ==> HasActiveRun(db, t);
    }
    forall q, o ensures RunPair(db', q, o) { assert RunPair(db, q, o); }
    forall o ensures PlanRow(db', o) { assert PlanRow(db, o); }
    forall q, e ensures Exclusive(db', q, e) {
      assert Exclusive(db, q, e);
      assert e in db.executions && db.executions[e].task == t && Unfinished(db.executions[e].status) ==>
          HasUnfinishedExecution(db, t);
    }
  }

  /** Writes to one run that leave it active only if it was, guarded or not. */
  lemma RunWriteKeeps(db: Db, db': Db, r: RunId, row: Run)
    requires Managed(db) && r in db.runs && db' == db.(runs := db.runs[r := row])
    requires row.task == db.runs[r].task && row.attempt == db.runs[r].attempt
    requires ActiveRun(row.status) ==> ActiveRun(db.runs[r].status)
    ensures Managed(db')
  {
    forall u, a | HasAttempt(db, u, a) ensures HasAttempt(db', u, a) {
      var q :| q in db.runs && db.runs[q].task == u && db.runs[q].attempt == a;
      assert q in db'.runs && db'.runs[q].task == u && db'.runs[q].attempt == a;
    }
    forall q ensures RunRow(db', q) { assert RunRow(db, q); }
    forall q, o ensures RunPair(db', q, o) { assert RunPair(db, q, o); }
    forall o ensures PlanRow(db', o) { assert PlanRow(db, o); }
    forall q, e ensures Exclusive(db', q, e) { assert Exclusive(db, q, e); }
  }

  lemma PlanKeeps(db: Db, p: nat, plan: Plan)
    requires Managed(db)
    requires plan.attempt >= 1 && (plan.attempt > 1 ==> HasAttempt(db, plan.task, plan.attempt - 1))
    ensures Managed(db.(plans := db.plans[p := plan]))
  {
    var db' := db.(plans := db.plans[p := plan]);
    forall u, a | HasAttempt(db, u, a) ensures HasAttempt(db', u, a) {
      var q :| q in db.runs && db.runs[q].task == u && db.runs[q].attempt == a;
      assert q in db'.runs;
    }
    forall q ensures RunRow(db', q) { assert RunRow(db, q); }
    forall q, o ensures RunPair(db', q, o) { assert RunPair(db, q, o); }
    forall o ensures PlanRow(db', o) { assert PlanRow(db, o); }
    forall q, e ensures Exclusive(db', q, e) { assert Exclusive(db, q, e); }
  }

  /** A step of the run table leaves everything else as it was. */
  lemma RunStepKeeps(db: Db, db': Db)
    requires Inv(db) && db' == db.(runs := db'.runs, plans := db'.plans) && Managed(db')
    ensures Inv(db')
  {
    forall u ensures u in db.tasks <==> u in db.versions { assert TaskRow(db, u); }
    ResponsibleFramed(db, db');
    AnnouncedFramed(db, db');
    RememberedFramed(db, db');
  }

  /** Edits of a task row, its trigger included. */
  lemma EditKeeps(db: Db, t: TaskId, row: Task, bump: nat)
    requires Inv(db)
    ensures Inv(Next(db, EditTask(t, row, bump)))
  {
    var db' := Next(db, EditTask(t, row, bump));
    if db' == db { return; }
    forall u ensures TaskRow(db', u) { assert TaskRow(db, u); }
    forall e ensures ExecutionRow(db', e) {
      assert ExecutionRow(db, e);
      assert e in db.executions && db.executions[e].task == t && Unfinished(db.executions[e].status) ==>
          HasUnfinishedExecution(db, t);
    }
    forall h ensures HandoffRow(db', h) {
      assert HandoffRow(db, h);
      assert h in db.handoffs && db.handoffs[h].task == t && db.handoffs[h].status != Resolved ==>
          HasUnresolvedHandoff(db, t);
    }
    ManagedFramed(db, db');
    AnnouncedFramed(db, db');
    RememberedFramed(db, db');
  }

  lemma NewTaskKeeps(db: Db, t: TaskId, row: Task)
    requires Inv(db)
    ensures Inv(Next(db, NewTask(t, row)))
  {
    var db' := Next(db, NewTask(t, row));
    if t in db.tasks || t in db.versions { return; }
    forall u ensures TaskRow(db', u) { assert TaskRow(db, u); }
    forall e ensures ExecutionRow(db', e) { assert ExecutionRow(db, e); }
    forall h ensures HandoffRow(db', h) { assert HandoffRow(db, h); }
    ManagedFramed(db, db');
    AnnouncedFramed(db, db');
    RememberedFramed(db, db');
  }

  lemma TickKeeps(db: Db, seconds: nat)
    requires Inv(db)
    ensures Inv(Next(db, Tick(seconds)))
  {
    var db' := Next(db, Tick(seconds));
    forall u ensures u in db.tasks <==> u in db.versions { assert TaskRow(db, u); }
    ResponsibleFramed(db, db');
    ManagedFramed(db, db');
    AnnouncedFramed(db, db');
    RememberedFramed(db, db');
  }

  lemma PlanStepKeeps(db: Db, p: nat, t: TaskId, newest: Option<RunId>)
    requires Managed(db)
    ensures Managed(RunStep(db, PlanAttempt(p, t, newest)))
  {
    if !IsNewest(db, t, newest) { return; }
    if newest.Some? { assert RunRow(db, newest.value) && HasAttempt(db, t, db.runs[newest.value].attempt); }
    PlanKeeps(db, p, RunStep(db, PlanAttempt(p, t, newest)).plans[p]);
  }

  /** A step that writes one run leaves which attempt it is, and wakes no run that had ended. */
  lemma StatusStepKeeps(db: Db, s: Step, r: RunId)
    requires Managed(db) && (s.SetPid? || s.ClaimRun? || s.FinishRun? || s.OverwriteRun?) && s.run == r
    ensures Managed(RunStep(db, s))
  {
    if r in db.runs {
      var row := RunStep(db, s).runs[r];
      assert RunStep(db, s) == db.(runs := db.runs[r := row]);
      RunWriteKeeps(db, RunStep(db, s), r, row);
    }
  }

  lemma RunTableKeeps(db: Db, s: Step)
    requires Managed(db) && OfRunTable(s)
    ensures Managed(RunStep(db, s))
  {
    if s.PlanAttempt? {
      PlanStepKeeps(db, s.plan, s.task, s.newest);
    } else if s.Enqueue? {
      var p, r := s.plan, s.run;
      if p in db.plans && r !in db.runs && MayEnqueue(db, db.plans[p].task, db.plans[p].attempt) {
        EnqueueKeeps(db, p, r);
      }
    } else {
      StatusStepKeeps(db, s, s.run);
    }
  }

  lemma RunTableStepKeeps(db: Db, s: Step)
    requires Inv(db) && OfRunTable(s)
    ensures Inv(RunStep(db, s))
  {
    RunTableKeeps(db, s);
    RunStepKeeps(db, RunStep(db, s));
  }

  lemma CallKeeps(db: Db, s: Step)
    requires Inv(db) && s.Call?
    ensures Inv(TakeCall(db, s))
  {
    var after := TakeCall(db, s);
    if !(s.request.action.Claim? && TokenUsed(db, s.id)) {
      ApplyKeeps(db, s.task, s.request, s.wellFormed, s.id, s.bump + 1);
      assert after == Apply(db, s.task, s.request, s.wellFormed, s.id, s.bump + 1).db;
    }
  }

  lemma NextKeeps(db: Db, s: Step)
    requires Inv(db)
    ensures Inv(Next(db, s))
  {
    if s.Tick? {
      TickKeeps(db, s.seconds);
    } else if s.NewTask? {
      NewTaskKeeps(db, s.task, s.row);
    } else if s.EditTask? {
      EditKeeps(db, s.task, s.row, s.bump);
    } else if s.Call? {
      NextOfCall(db, s);
      CallKeeps(db, s);
    } else {
      NextOfRunTable(db, s);
      RunTableStepKeeps(db, s);
    }
  }

  lemma {:induction false} ExecuteKeeps(db: Db, steps: seq<Step>)
    requires Inv(db)
    ensures Inv(Execute(db, steps))
    decreases |steps|
  {
    if steps != [] {
      NextKeeps(db, steps[0]);
      ExecuteKeeps(Next(db, steps[0]), steps[1..]);
    }
  }

  lemma ReachableInv(db: Db)
    requires Reachable(db)
    ensures Inv(db)
  {
    var clock, steps :| LeadsTo(clock, steps, db);
    ExecuteKeeps(Start(clock), steps);
  }
}
