/** What is due, item by item: which steps make an item due, which settle it, and what is left of it after a run. */
module LifecycleDue {
  import opened Options
  import opened Lifecycle
  import opened LifecycleInvariant

  /** What the watchdog would act on for a task: nothing it has already announced. */
  function DueOf(db: Db, t: TaskId): set<DueItem> {
    (set e | e in StaleOf(db, t) :: StaleExecution(e, db.executions[e].activity)) +
    (set h | h in LapsedOffersOf(db, t) && OverdueNotice(db, h) !in db.outbox ::
        OverdueOffer(h, db.handoffs[h].deadline)) +
    (set h | h in LapsedStartsOf(db, t) && StartNotice(db, h) !in db.outbox :: OverdueStart(h, db.handoffs[h].deadline))
  }

  function DueTasks(db: Db): set<TaskId> {
    set t | t in db.tasks && DueOf(db, t) != {}
  }

  /** The same, asked of one item. */
  predicate Due(db: Db, d: DueItem) {
    match d
    case StaleExecution(e, at) => IsStale(db, e) && db.executions[e].activity == at
    case OverdueOffer(h, deadline) =>
      OfferLapsed(db, h) && db.handoffs[h].deadline == deadline && OverdueNotice(db, h) !in db.outbox
    case OverdueStart(h, deadline) =>
      StartLapsed(db, h) && db.handoffs[h].deadline == deadline && StartNotice(db, h) !in db.outbox
  }

  /** The item concerns something that belongs to the task. */
  predicate About(db: Db, d: DueItem, t: TaskId) {
    match d
    case StaleExecution(e, _) => e in db.executions && db.executions[e].task == t
    case OverdueOffer(h, _) => h in db.handoffs && db.handoffs[h].task == t
    case OverdueStart(h, _) => h in db.handoffs && db.handoffs[h].task == t
  }

  lemma DueOfMeans(db: Db, t: TaskId, d: DueItem)
    ensures d in DueOf(db, t) <==> Due(db, d) && About(db, d, t)
  {
  }

  /** No task is due exactly when no item is. */
  lemma NothingDue(db: Db)
    requires Inv(db)
    ensures DueTasks(db) == {} <==> forall d :: !Due(db, d)
  {
    forall d | Due(db, d) ensures exists t :: t in DueTasks(db) {
      var t := if d.StaleExecution? then db.executions[d.execution].task else db.handoffs[d.handoff].task;
      DueOfMeans(db, t, d);
      assert d.StaleExecution? ==> ExecutionRow(db, d.execution);
      assert !d.StaleExecution? ==> HandoffRow(db, d.handoff);
      assert t in DueTasks(db);
    }
    forall t | t in DueTasks(db) ensures exists d :: Due(db, d) {
      var d :| d in DueOf(db, t);
      DueOfMeans(db, t, d);
    }
  }

  // ------------------------------------------------- what makes an item due

  /** A request that is handled, and not refused or replayed. */
  predicate Handles(db: Db, s: Step) {
    s.Call? && !(s.request.action.Claim? && TokenUsed(db, s.id)) &&
    Apply(db, s.task, s.request, s.wellFormed, s.id, s.bump + 1).answer.Fresh?
  }

  /** An accepted report of activity that is out of date when it arrives. */
  predicate ReportsLate(db: Db, s: Step, d: DueItem) {
    Handles(db, s) &&
    match s.request.action
    case Register(_, _, _, at, _, _) => at + GRACE < db.clock && d == StaleExecution(s.id, at)
    case Activity(e, at, _) => at + GRACE < db.clock && d == StaleExecution(e, at)
    case _ => false
  }

  predicate Within(db: Db, seconds: nat, at: int) {
    db.clock <= at < db.clock + seconds
  }

  /** A period of grace or a deadline, of something still open and not announced, ends while the clock moves. */
  predicate RunsOut(db: Db, seconds: nat, d: DueItem) {
    match d
    case StaleExecution(e, at) =>
      e in db.executions && db.executions[e].status == Active && db.executions[e].activity == at &&
      Within(db, seconds, at + GRACE)
    case OverdueOffer(h, deadline) =>
      h in db.handoffs && db.handoffs[h].status == Offered && db.handoffs[h].deadline == deadline &&
      Within(db, seconds, deadline) && OverdueNotice(db, h) !in db.outbox
    case OverdueStart(h, deadline) =>
      h in db.handoffs && db.handoffs[h].status == Accepted && db.handoffs[h].deadline == deadline &&
      Within(db, seconds, deadline) && !HasExecution(db, h) && StartNotice(db, h) !in db.outbox
  }

  predicate Raises(db: Db, s: Step, d: DueItem) {
    ReportsLate(db, s, d) || (s.Tick? && RunsOut(db, s.seconds, d))
  }

  // ------------------------------------------------------ what settles it

  /** A handled request that reconciles the task, or moves on what the item is about. */
  predicate Settles(db: Db, s: Step, d: DueItem) {
    Handles(db, s) &&
    match s.request.action
    case Reconcile => About(db, d, s.task)
    case Finish(e, _, _) => d.StaleExecution? && d.execution == e
    case Activity(e, _, _) => d.StaleExecution? && d.execution == e
    case Resolve(h, _) => !d.StaleExecution? && d.handoff == h
    case Register(_, _, _, _, _, binding) => d.OverdueStart? && binding == Some(d.handoff)
    case _ => false
  }

  // ---------------------------------------------------------- step by step

  /** Only the rows an item is about, the clock and the notices of lapses decide whether it is due. */
  lemma DueFramed(db: Db, db': Db, d: DueItem)
    requires db'.executions == db.executions && db'.handoffs == db.handoffs && db'.clock == db.clock
    requires forall n: Notice :: n.kind == HandoffOverdue || n.kind == StartOverdue ==>
              (n in db'.outbox <==> n in db.outbox)
    ensures Due(db', d) <==> Due(db, d)
  {
    assert forall h :: HasExecution(db', h) <==> HasExecution(db, h);
  }

  lemma SealKeepsDue(db: Db, t: TaskId, q: Request, result: Result, d: DueItem)
    requires t in db.versions
    ensures Due(Seal(db, t, q, result).db, d) <==> Due(db, d)
  {
    DueFramed(db, Seal(db, t, q, result).db, d);
  }

  /** Whether an item will be due once a request has been handled. */
  predicate DueAfter(db: Db, s: Step, d: DueItem) {
    Raises(db, s, d) || (Due(db, d) && !Settles(db, s, d))
  }

  /** A new execution starts the handoff it is bound to, and no other. */
  lemma OneMoreStart(db: Db, db': Db, id: ExecutionId)
    requires id !in db.executions && id in db'.executions
    requires db'.executions == db.executions[id := db'.executions[id]]
    ensures forall h: HandoffId ::
              HasExecution(db', h) <==> HasExecution(db, h) || db'.executions[id].handoff == Some(h)
  {
    forall h: HandoffId
      ensures HasExecution(db', h) <==> HasExecution(db, h) || db'.executions[id].handoff == Some(h)
    {
      if HasExecution(db, h) {
        var e :| e in db.executions && db.executions[e].handoff == Some(h);
        assert e in db'.executions && db'.executions[e].handoff == Some(h);
      }
    }
  }

  lemma RegisterStale(db: Db, s: Step, d: DueItem)
    requires Handles(db, s) && s.request.action.Register? && d.StaleExecution?
    ensures s.task in db.tasks
    ensures var handled := HandleRegister(db, s.task, s.request.action, s.id);
            handled.Handled? && (Due(handled.db, d) <==> DueAfter(db, s, d))
  {
  }

  lemma RegisterStart(db: Db, s: Step, d: DueItem)
    requires Handles(db, s) && s.request.action.Register? && !d.StaleExecution?
    ensures s.task in db.tasks
    ensures var handled := HandleRegister(db, s.task, s.request.action, s.id);
            handled.Handled? && (Due(handled.db, d) <==> DueAfter(db, s, d))
  {
    OneMoreStart(db, HandleRegister(db, s.task, s.request.action, s.id).db, s.id);
  }

  lemma RegisterDue(db: Db, s: Step, d: DueItem)
    requires Handles(db, s) && s.request.action.Register?
    ensures s.task in db.tasks
    ensures var handled := HandleRegister(db, s.task, s.request.action, s.id);
            handled.Handled? && (Due(handled.db, d) <==> DueAfter(db, s, d))
  {
    if d.StaleExecution? { RegisterStale(db, s, d); } else { RegisterStart(db, s, d); }
  }

  /** As long as executions keep what they were bound to, the same handoffs have been started. */
  lemma StartsKept(db: Db, db': Db)
    requires db'.executions.Keys == db.executions.Keys
    requires forall e :: e in db.executions ==> db'.executions[e].handoff == db.executions[e].handoff
    ensures forall h :: HasExecution(db', h) <==> HasExecution(db, h)
  {
    forall h: HandoffId ensures HasExecution(db', h) <==> HasExecution(db, h) {
      if HasExecution(db, h) {
        var e :| e in db.executions && db.executions[e].handoff == Some(h);
        assert e in db'.executions && db'.executions[e].handoff == Some(h);
      }
      if HasExecution(db', h) {
        var e :| e in db'.executions && db'.executions[e].handoff == Some(h);
        assert e in db.executions && db.executions[e].handoff == Some(h);
      }
    }
  }

  /** Writing one execution, without changing which handoff it was bound to. */
  lemma ExecutionWriteDue(db: Db, db': Db, e: ExecutionId, d: DueItem)
    requires e in db.executions && e in db'.executions &&
             db' == db.(executions := db.executions[e := db'.executions[e]])
    requires db'.executions[e].handoff == db.executions[e].handoff
    ensures !(d.StaleExecution? && d.execution == e) ==> (Due(db', d) <==> Due(db, d))
  {
    StartsKept(db, db');
  }

  lemma ActivityDue(db: Db, s: Step, d: DueItem)
    requires Handles(db, s) && s.request.action.Activity?
    ensures s.task in db.tasks
    ensures var handled := HandleActivity(db, s.task, s.request.action, s.request.actor);
            handled.Handled? && (Due(handled.db, d) <==> DueAfter(db, s, d))
  {
    var db' := HandleActivity(db, s.task, s.request.action, s.request.actor).db;
    ExecutionWriteDue(db, db', s.request.action.execution, d);
  }

  lemma FinishDue(db: Db, s: Step, d: DueItem)
    requires Handles(db, s) && s.request.action.Finish?
    ensures s.task in db.tasks
    ensures var handled := HandleFinish(db, s.task, s.request.action, s.request.actor);
            handled.Handled? && (Due(handled.db, d) <==> DueAfter(db, s, d))
  {
    var db' := HandleFinish(db, s.task, s.request.action, s.request.actor).db;
    ExecutionWriteDue(db, db', s.request.action.execution, d);
  }

  /** Writing one handoff, with a notice that is not of a lapse. */
  lemma HandoffWriteDue(db: Db, db': Db, h: HandoffId, d: DueItem)
    requires h in db'.handoffs && db'.handoffs == db.handoffs[h := db'.handoffs[h]]
    requires db'.executions == db.executions && db'.clock == db.clock
    requires forall n: Notice :: n.kind == HandoffOverdue || n.kind == StartOverdue ==>
              (n in db'.outbox <==> n in db.outbox)
    ensures d.StaleExecution? || d.handoff != h ==> (Due(db', d) <==> Due(db, d))
  {
    assert forall x :: HasExecution(db', x) <==> HasExecution(db, x);
  }

  lemma OfferDue(db: Db, s: Step, d: DueItem)
    requires Handles(db, s) && s.request.action.Offer?
    ensures s.task in db.tasks
    ensures var handled := HandleOffer(db, s.task, s.request.action, s.request.actor, s.id);
            handled.Handled? && (Due(handled.db, d) <==> DueAfter(db, s, d))
  {
    var db' := HandleOffer(db, s.task, s.request.action, s.request.actor, s.id).db;
    HandoffWriteDue(db, db', s.id, d);
  }

  lemma ReceiptDue(db: Db, t: TaskId, h: HandoffId, manifest: nat, actor: Name, accepted: bool, d: DueItem)
    requires t in db.tasks && HandleReceipt(db, t, h, manifest, actor, accepted).Handled?
    ensures Due(HandleReceipt(db, t, h, manifest, actor, accepted).db, d) <==> Due(db, d)
  {
    HandoffWriteDue(db, HandleReceipt(db, t, h, manifest, actor, accepted).db, h, d);
  }

  lemma ResolveDue(db: Db, s: Step, d: DueItem)
    requires Handles(db, s) && s.request.action.Resolve?
    ensures var handled := HandleResolve(db, s.task, s.request.action, s.request.actor);
            handled.Handled? && (Due(handled.db, d) <==> DueAfter(db, s, d))
  {
    var db' := HandleResolve(db, s.task, s.request.action, s.request.actor).db;
    HandoffWriteDue(db, db', s.request.action.handoff, d);
  }

  lemma ReconcileSettles(db: Db, t: TaskId, d: DueItem)
    requires t in db.tasks && About(db, d, t)
    ensures !Due(HandleReconcile(db, t).db, d)
  {
    StartsKept(db, HandleReconcile(db, t).db);
    if d.OverdueOffer? && Due(db, d) {
      assert d.handoff in LapsedOffersOf(db, t) && OverdueNotice(db, d.handoff) in DueNotices(db, t);
    }
    if d.OverdueStart? && Due(db, d) {
      assert d.handoff in LapsedStartsOf(db, t) && StartNotice(db, d.handoff) in DueNotices(db, t);
    }
  }

  lemma ReconcileLeaves(db: Db, t: TaskId, d: DueItem)
    requires t in db.tasks && !About(db, d, t)
    ensures Due(HandleReconcile(db, t).db, d) <==> Due(db, d)
  {
    StartsKept(db, HandleReconcile(db, t).db);
    assert forall n :: n in DueNotices(db, t) ==> n.task == t;
  }

  lemma ReconcileDue(db: Db, t: TaskId, d: DueItem)
    requires t in db.tasks
    ensures Due(HandleReconcile(db, t).db, d) <==> Due(db, d) && !About(db, d, t)
  {
    if About(db, d, t) { ReconcileSettles(db, t, d); } else { ReconcileLeaves(db, t, d); }
  }

  lemma UnhandledIsIdle(db: Db, s: Step)
    requires s.Call? && !Handles(db, s)
    ensures Next(db, s) == db
  {
    NextOfCall(db, s);
  }

  /** A handled request is one handler's work, sealed. */
  lemma HandlesMeans(db: Db, s: Step)
    requires Handles(db, s)
    ensures s.task in db.tasks && s.task in db.versions
    ensures var handled := Handle(db, s.task, s.request, s.id, s.bump + 1);
            handled.Handled? && Next(db, s) == Seal(handled.db, s.task, s.request, handled.result).db
  {
    NextOfCall(db, s);
  }

  /** The actions that neither raise nor settle anything. */
  lemma OtherActionsDue(db: Db, s: Step, d: DueItem)
    requires Handles(db, s)
    requires var a := s.request.action; a.Amend? || a.Accept? || a.Reject? || a.Claim? || a.Acknowledge?
    ensures s.task in db.tasks && s.task in db.versions
    ensures var handled := Handle(db, s.task, s.request, s.id, s.bump + 1);
            handled.Handled? && (Due(handled.db, d) <==> Due(db, d))
  {
    HandlesMeans(db, s);
    var q := s.request;
    if q.action.Accept? {
      ReceiptDue(db, s.task, q.action.handoff, q.action.manifest, q.actor, true, d);
    } else if q.action.Reject? {
      ReceiptDue(db, s.task, q.action.handoff, q.action.manifest, q.actor, false, d);
    } else {
      DueFramed(db, Handle(db, s.task, q, s.id, s.bump + 1).db, d);
    }
  }

  lemma HandleDue(db: Db, s: Step, d: DueItem)
    requires Handles(db, s)
    ensures s.task in db.tasks && s.task in db.versions
    ensures var handled := Handle(db, s.task, s.request, s.id, s.bump + 1);
            handled.Handled? && (Due(handled.db, d) <==> DueAfter(db, s, d))
  {
    HandlesMeans(db, s);
    var a := s.request.action;
    if a.Register? {
      RegisterDue(db, s, d);
    } else if a.Activity? {
      ActivityDue(db, s, d);
    } else if a.Finish? {
      FinishDue(db, s, d);
    } else if a.Offer? {
      OfferDue(db, s, d);
    } else if a.Resolve? {
      ResolveDue(db, s, d);
    } else if a.Reconcile? {
      ReconcileDue(db, s.task, d);
    } else {
      OtherActionsDue(db, s, d);
    }
  }

  lemma TickDue(db: Db, seconds: nat, d: DueItem)
    ensures Due(Next(db, Tick(seconds)), d) <==> RunsOut(db, seconds, d) || Due(db, d)
  {
    assert forall h :: HasExecution(db.(clock := db.clock + seconds), h) <==> HasExecution(db, h);
  }

  lemma OtherStepsDue(db: Db, s: Step, d: DueItem)
    requires !s.Tick? && !Handles(db, s)
    ensures Due(Next(db, s), d) <==> Due(db, d)
  {
    if s.Call? {
      UnhandledIsIdle(db, s);
    } else {
      StepFrame(db, s);
      DueFramed(db, Next(db, s), d);
    }
  }

  /** After a step an item is due exactly if the step raised it, or it was due and the step did not settle it. */
  lemma StepDue(db: Db, s: Step, d: DueItem)
    ensures Due(Next(db, s), d) <==> DueAfter(db, s, d)
  {
    if s.Tick? {
      TickDue(db, s.seconds, d);
    } else if Handles(db, s) {
      HandlesMeans(db, s);
      HandleDue(db, s, d);
      var handled := Handle(db, s.task, s.request, s.id, s.bump + 1);
      SealKeepsDue(handled.db, s.task, s.request, handled.result, d);
    } else {
      OtherStepsDue(db, s, d);
    }
  }

  // ---------------------------------------------------------- whole runs

  /** The state a run is in before its step `i`. */
  function Before(db: Db, steps: seq<Step>, i: nat): Db
    requires i <= |steps|
  {
    Execute(db, steps[..i])
  }

  ghost predicate RaisedAt(db: Db, steps: seq<Step>, d: DueItem, i: int) {
    0 <= i < |steps| && Raises(Before(db, steps, i), steps[i], d)
  }

  ghost predicate SettledAt(db: Db, steps: seq<Step>, d: DueItem, i: int) {
    0 <= i < |steps| && Settles(Before(db, steps, i), steps[i], d)
  }

  /** Nothing settles the item from step `i` on. */
  ghost predicate LeftFrom(db: Db, steps: seq<Step>, d: DueItem, i: int) {
    forall j :: i <= j ==> !SettledAt(db, steps, d, j)
  }

  lemma {:induction false} ExecuteJoins(db: Db, a: seq<Step>, b: seq<Step>)
    ensures Execute(db, a + b) == Execute(Execute(db, a), b)
    decreases |a|
  {
    if a == [] {
      assert a + b == b;
    } else {
      assert (a + b)[0] == a[0] && (a + b)[1..] == a[1..] + b;
      ExecuteJoins(Next(db, a[0]), a[1..], b);
    }
  }

  lemma ExecuteOneMore(db: Db, steps: seq<Step>, s: Step)
    ensures Execute(db, steps + [s]) == Next(Execute(db, steps), s)
  {
    ExecuteJoins(db, steps, [s]);
    assert [s][1..] == [];
    assert Execute(Execute(db, steps), [s]) == Execute(Next(Execute(db, steps), s), []);
  }

  /** A step taken in a reachable state leads to one. */
  lemma StaysReachable(db: Db, s: Step)
    requires Reachable(db)
    ensures Reachable(Next(db, s))
  {
    var clock, steps :| LeadsTo(clock, steps, db);
    ExecuteOneMore(Start(clock), steps, s);
    assert LeadsTo(clock, steps + [s], Next(db, s));
  }

  lemma SameBefore(db: Db, steps: seq<Step>, s: Step, i: nat)
    requires i <= |steps|
    ensures Before(db, steps + [s], i) == Before(db, steps, i)
  {
    assert (steps + [s])[..i] == steps[..i];
  }

  lemma LeftOneMore(db: Db, steps: seq<Step>, s: Step, d: DueItem)
    ensures forall i :: i <= |steps| ==>
              (LeftFrom(db, steps + [s], d, i) <==>
               LeftFrom(db, steps, d, i) && !SettledAt(db, steps + [s], d, |steps|))
  {
    var more, n := steps + [s], |steps|;
    forall j ensures j != n ==> (SettledAt(db, more, d, j) <==> SettledAt(db, steps, d, j)) {
      if 0 <= j < n { SameBefore(db, steps, s, j); }
    }
    forall i | i <= n
      ensures LeftFrom(db, more, d, i) <==> LeftFrom(db, steps, d, i) && !SettledAt(db, more, d, n)
    {
      if LeftFrom(db, more, d, i) {
        forall j | i <= j ensures !SettledAt(db, steps, d, j) { assert !SettledAt(db, more, d, j); }
      }
      if LeftFrom(db, steps, d, i) && !SettledAt(db, more, d, n) {
        forall j | i <= j ensures !SettledAt(db, more, d, j) { assert !SettledAt(db, steps, d, j); }
      }
    }
  }

  lemma SameEvents(db: Db, steps: seq<Step>, s: Step, d: DueItem, i: int)
    requires i < |steps|
    ensures RaisedAt(db, steps + [s], d, i) <==> RaisedAt(db, steps, d, i)
    ensures SettledAt(db, steps + [s], d, i) <==> SettledAt(db, steps, d, i)
  {
    if 0 <= i { SameBefore(db, steps, s, i); }
  }

  /** Some step raised the item and nothing has settled it since. */
  ghost predicate RaisedAndLeft(db: Db, steps: seq<Step>, d: DueItem) {
    exists i :: RaisedAt(db, steps, d, i) && LeftFrom(db, steps, d, i + 1)
  }

  lemma RaisedOneMore(db: Db, steps: seq<Step>, s: Step, d: DueItem)
    ensures RaisedAndLeft(db, steps + [s], d) <==>
            RaisedAt(db, steps + [s], d, |steps|) ||
            (RaisedAndLeft(db, steps, d) && !SettledAt(db, steps + [s], d, |steps|))
  {
    var more, n := steps + [s], |steps|;
    LeftOneMore(db, steps, s, d);
    if RaisedAndLeft(db, more, d) {
      var i :| RaisedAt(db, more, d, i) && LeftFrom(db, more, d, i + 1);
      if i < n {
        SameEvents(db, steps, s, d, i);
        assert RaisedAt(db, steps, d, i) && LeftFrom(db, steps, d, i + 1);
      }
    }
    if RaisedAndLeft(db, steps, d) && !SettledAt(db, more, d, n) {
      var i :| RaisedAt(db, steps, d, i) && LeftFrom(db, steps, d, i + 1);
      SameEvents(db, steps, s, d, i);
      assert RaisedAt(db, more, d, i) && LeftFrom(db, more, d, i + 1);
    }
    if RaisedAt(db, more, d, n) { assert LeftFrom(db, more, d, n + 1); }
  }

  /**
   After any steps of any processes an item is due exactly if it was due at the start, or was
   raised by some step, and nothing has settled it since.
   */
  lemma {:induction false} DueIffLeft(db: Db, steps: seq<Step>, d: DueItem)
    ensures Due(Execute(db, steps), d) <==> (Due(db, d) && LeftFrom(db, steps, d, 0)) || RaisedAndLeft(db, steps, d)
    decreases |steps|
  {
    if steps == [] { return; }
    var n := |steps| - 1;
    var init, last := steps[..n], steps[n];
    assert steps == init + [last];
    DueIffLeft(db, init, d);
    ExecuteOneMore(db, init, last);
    StepDue(Execute(db, init), last, d);
    assert Before(db, steps, n) == Execute(db, init);
    LeftOneMore(db, init, last, d);
    RaisedOneMore(db, init, last, d);
  }
}
