module LifecycleRaces {

  // Why a pass of the watchdog need not be the last: a step of another process after the visit of its task.

  import opened Options
  import opened Lifecycle
  import opened LifecycleInvariant
  import opened LifecycleDue
  import opened LifecycleWatchdog

  /** A late report leaves something due, and one accepted after the visit of its task is not seen by the pass. */
  lemma LateReportIsDue(db: Db, s: Step)
    requires Inv(db) && Handles(db, s) && s.request.action.Register? && s.request.action.at + GRACE < db.clock
    ensures DueTasks(Next(db, s)) != {}
  {
    var d := StaleExecution(s.id, s.request.action.at);
    StepDue(db, s, d);
    NextKeeps(db, s);
    NothingDue(Next(db, s));
    assert Raises(db, s, d);
  }

  /** A registration by execution `e` of an activity at time zero. */
  function LateRegistration(e: ExecutionId, revision: nat): Step {
    Call(1, Request(Register(2, 3, e, 0, 4, None), revision, Chosen(e), 2), true, e, 0)
  }

  function OneTask(): Task {
    Task(Open, false, false, Environment(0, false), false, None, Todo(NOBODY, None, None, None), 0, false, false)
  }

  function Registering(): Db {
    Next(Start(1000), NewTask(1, OneTask()))
  }

  function Disturbed(): Db {
    Next(Registering(), LateRegistration(5, 0))
  }

  /** One task, one execution of it that was out of date when it was registered, and nothing else. */
  ghost predicate Prepared(db: Db) {
    && db.tasks == map[1 := OneTask()] && db.versions == map[1 := 1] && db.clock == 1000
    && db.executions == map[5 := Execution(1, 2, 3, 5, Active, 0, 4, None, None)]
    && db.handoffs == map[] && db.runs == map[] && db.outbox == map[]
    && db.requests.Keys == {RequestId(1, Chosen(5))}
  }

  /** What a visit that reconciles leaves of the tables that decide on a registration. */
  lemma FreshTables(db: Db, s: Errand)
    requires s.task in db.versions && VisitReply(db, s, db.versions[s.task]).answer.Fresh?
    ensures var after := VisitReply(db, s, db.versions[s.task]).db;
            && after.tasks == db.tasks && after.runs == db.runs && after.clock == db.clock
            && after.versions == db.versions[s.task := db.versions[s.task] + 1]
            && after.executions.Keys == db.executions.Keys
            && (forall e :: e in db.executions ==> after.executions[e].turn == db.executions[e].turn)
            && after.requests.Keys == db.requests.Keys + {RequestId(s.task, Watchdog(s.due))}
  {
  }

  lemma RegistrationIsHandled(db: Db, e: ExecutionId, revision: nat)
    requires 1 in db.tasks && db.tasks[1] == OneTask() && 1 in db.versions && db.versions[1] == revision
    requires RequestId(1, Chosen(e)) !in db.requests && db.runs == map[] && db.clock >= 0
    requires e !in db.executions && forall x :: x in db.executions ==> db.executions[x].turn != e
    ensures Handles(db, LateRegistration(e, revision))
  {
  }

  lemma DisturbedIsReachable()
    ensures Reachable(Disturbed())
  {
    assert LeadsTo(1000, [], Start(1000));
    StaysReachable(Start(1000), NewTask(1, OneTask()));
    StaysReachable(Registering(), LateRegistration(5, 0));
  }

  lemma DisturbedIsPrepared()
    ensures Prepared(Disturbed())
  {
    var before, late := Registering(), LateRegistration(5, 0);
    assert before == Start(1000).(tasks := map[1 := OneTask()], versions := map[1 := 0]);
    RegistrationIsHandled(before, 5, 0);
    HandlesMeans(before, late);
  }

  lemma FreeKeyIsFresh(db: Db, s: Errand)
    requires s.task in db.tasks && s.task in db.versions && RequestId(s.task, Watchdog(s.due)) !in db.requests
    ensures VisitReply(db, s, db.versions[s.task]).answer.Fresh?
  {
  }

  lemma SingleVisit(db: Db, s: Errand)
    requires s.task in db.versions
    ensures var reply := VisitReply(db, s, db.versions[s.task]);
            RunPass(db, [s], []) == Pass(reply.db, [reply.answer])
  {
    var reply := FirstReply(db, s, []);
    assert [s][1..] == [];
    assert RunPass(reply.db, [], []) == Pass(reply.db, []);
  }

  lemma VisitKeeps(db: Db, s: Errand, revision: nat)
    requires Inv(db)
    ensures Inv(VisitReply(db, s, revision).db)
  {
    VisitIsStep(db, s, revision);
    NextKeeps(db, VisitStep(s, revision));
  }

  lemma OneDueTask(db: Db)
    requires Prepared(db)
    ensures Scan(db, [Errand(1, DueOf(db, 1))]) && Covers(db, [Errand(1, DueOf(db, 1))])
  {
    DueOfMeans(db, 1, StaleExecution(5, 0));
    assert DueTasks(db) == {1};
    assert [Errand(1, DueOf(db, 1))][0].task == 1;
  }

  lemma SecondReportIsDue(db: Db, s: Errand)
    requires Inv(db) && Prepared(db) && s.task == 1
    ensures VisitReply(db, s, 1).answer.Fresh?
    ensures var end := Next(VisitReply(db, s, 1).db, LateRegistration(6, 2)); end.clock == 1000 && DueTasks(end) != {}
  {
    FreeKeyIsFresh(db, s);
    FreshTables(db, s);
    VisitKeeps(db, s, 1);
    var after := VisitReply(db, s, 1).db;
    RegistrationIsHandled(after, 6, 2);
    LateReportIsDue(after, LateRegistration(6, 2));
    HandlesMeans(after, LateRegistration(6, 2));
  }

  /**
   Without that condition the pass does not quieten: here a pass over the one due task puts
   nothing off, and a report registered by another process before it ends is due at the same clock.
   */
  lemma LateReportDisturbsPass() returns (db: Db, errands: seq<Errand>, tail: seq<Step>)
    ensures Reachable(db) && Scan(db, errands) && Covers(db, errands)
    ensures Deferred(RunPass(db, errands, []).answers) == 0
    ensures var end := Execute(RunPass(db, errands, []).db, tail);
            end.clock == db.clock && DueTasks(end) != {}
  {
    DisturbedIsReachable();
    DisturbedIsPrepared();
    db := Disturbed();
    ReachableInv(db);
    var s, late := Errand(1, DueOf(db, 1)), LateRegistration(6, 2);
    errands, tail := [s], [late];
    OneDueTask(db);
    SecondReportIsDue(db, s);
    SingleVisit(db, s);
    var reply := VisitReply(db, s, 1);
    assert [reply.answer][..0] == [];
    ExecuteOneMore(reply.db, [], late);
    assert [] + [late] == [late];
  }
}
