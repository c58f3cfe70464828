module LifecycleWatchdog {

  // The watchdog. A pass looks once at what is due, and then, for one task after the other,
  // reads the revision and asks for a reconciliation. Other processes, a second watchdog
  // among them, may take any steps between any two of these.

  import opened Options
  import opened Lifecycle
  import opened LifecycleInvariant
  import opened LifecycleDue
  import opened LifecycleRevisions

  const WATCHDOG: Name := 0

  /** The request names what was due when the pass looked and the revision read since. */
  function WatchdogRequest(due: set<DueItem>, revision: nat): Request {
    Request(Reconcile, revision, Watchdog(due), WATCHDOG)
  }

  datatype Errand = Errand(task: TaskId, due: set<DueItem>)

  /** What others do before the revision of a task is read, and between that and the request. */
  datatype Gap = Gap(before: seq<Step>, within: seq<Step>)

  function First(gaps: seq<Gap>): Gap {
    if gaps == [] then Gap([], []) else gaps[0]
  }

  function Rest(gaps: seq<Gap>): seq<Gap> {
    if gaps == [] then [] else gaps[1..]
  }

  function RevisionOf(db: Db, t: TaskId): nat {
    if t in db.versions then db.versions[t] else 0
  }

  function VisitStep(s: Errand, revision: nat): Step {
    Call(s.task, WatchdogRequest(s.due, revision), true, 0, 0)
  }

  function VisitReply(db: Db, s: Errand, revision: nat): Reply {
    Apply(db, s.task, WatchdogRequest(s.due, revision), true, 0, 1)
  }

  /** The tables as the first revision is read, and as the first request is made. */
  function AtRead(db: Db, gaps: seq<Gap>): Db {
    Execute(db, First(gaps).before)
  }

  function AtRequest(db: Db, gaps: seq<Gap>): Db {
    Execute(AtRead(db, gaps), First(gaps).within)
  }

  function FirstReply(db: Db, s: Errand, gaps: seq<Gap>): Reply {
    VisitReply(AtRequest(db, gaps), s, RevisionOf(AtRead(db, gaps), s.task))
  }

  datatype Pass = Pass(db: Db, answers: seq<Answer>)

  /** A pass and everything that happens meanwhile. */
  function RunPass(db: Db, subjects: seq<Errand>, gaps: seq<Gap>): Pass
    decreases |subjects|
  {
    if subjects == [] then Pass(db, [])
    else
      var reply := FirstReply(db, subjects[0], gaps);
      var rest := RunPass(reply.db, subjects[1..], Rest(gaps));
      Pass(rest.db, [reply.answer] + rest.answers)
  }

  /** The same as the one run of steps it is. */
  function Trace(db: Db, subjects: seq<Errand>, gaps: seq<Gap>): seq<Step>
    decreases |subjects|
  {
    if subjects == [] then []
    else
      var visit := VisitStep(subjects[0], RevisionOf(AtRead(db, gaps), subjects[0].task));
      var rest := Trace(FirstReply(db, subjects[0], gaps).db, subjects[1..], Rest(gaps));
      First(gaps).before + (First(gaps).within + ([visit] + rest))
  }

  lemma VisitIsStep(db: Db, s: Errand, revision: nat)
    ensures Next(db, VisitStep(s, revision)) == VisitReply(db, s, revision).db
  {
  }

  lemma {:induction false} TraceIsPass(db: Db, subjects: seq<Errand>, gaps: seq<Gap>)
    ensures Execute(db, Trace(db, subjects, gaps)) == RunPass(db, subjects, gaps).db
    ensures |RunPass(db, subjects, gaps).answers| == |subjects|
    decreases |subjects|
  {
    if subjects == [] { return; }
    var revision := RevisionOf(AtRead(db, gaps), subjects[0].task);
    var visit, after := VisitStep(subjects[0], revision), FirstReply(db, subjects[0], gaps).db;
    var rest := Trace(after, subjects[1..], Rest(gaps));
    VisitIsStep(AtRequest(db, gaps), subjects[0], revision);
    TraceIsPass(after, subjects[1..], Rest(gaps));
    ExecuteJoins(db, First(gaps).before, First(gaps).within + ([visit] + rest));
    ExecuteJoins(AtRead(db, gaps), First(gaps).within, [visit] + rest);
    assert ([visit] + rest)[1..] == rest;
  }

  /** What is left to do of a pass, after which answers. */
  ghost predicate GoesOn(whole: Pass, db: Db, subjects: seq<Errand>, gaps: seq<Gap>, answers: seq<Answer>) {
    var rest := RunPass(db, subjects, gaps);
    whole == Pass(rest.db, answers + rest.answers)
  }

  lemma PassGoesOn(whole: Pass, db: Db, subjects: seq<Errand>, gaps: seq<Gap>, answers: seq<Answer>)
    requires GoesOn(whole, db, subjects, gaps, answers)
    ensures subjects == [] ==> whole == Pass(db, answers)
    ensures subjects != [] ==>
              var reply := FirstReply(db, subjects[0], gaps);
              GoesOn(whole, reply.db, subjects[1..], Rest(gaps), answers + [reply.answer])
  {
    if subjects != [] {
      var reply := FirstReply(db, subjects[0], gaps);
      var rest := RunPass(reply.db, subjects[1..], Rest(gaps));
      assert answers + ([reply.answer] + rest.answers) == (answers + [reply.answer]) + rest.answers;
    }
  }

  /** A conflict of revisions or of keys is put off to the next pass; a replay counts as done. */
  predicate PutOff(answer: Answer) {
    answer.Rejection?
  }

  function Deferred(answers: seq<Answer>): nat
    decreases |answers|
  {
    if answers == [] then 0
    else Deferred(answers[..|answers| - 1]) + if PutOff(answers[|answers| - 1]) then 1 else 0
  }

  lemma OneMoreAnswer(answers: seq<Answer>, answer: Answer)
    ensures Deferred(answers + [answer]) == Deferred(answers) + if PutOff(answer) then 1 else 0
  {
    assert (answers + [answer])[..|answers|] == answers;
  }

  /** The subjects of a pass: each due task once, in some order, with what is due for it. */
  ghost predicate Scan(db: Db, subjects: seq<Errand>) {
    && (forall i :: 0 <= i < |subjects| ==>
          subjects[i].task in DueTasks(db) && subjects[i].due == DueOf(db, subjects[i].task))
    && (forall i, j :: 0 <= i < j < |subjects| ==> subjects[i].task != subjects[j].task)
  }

  ghost predicate Names(subjects: seq<Errand>, t: TaskId) {
    exists i :: 0 <= i < |subjects| && subjects[i].task == t
  }

  ghost predicate Covers(db: Db, subjects: seq<Errand>) {
    forall t :: t in DueTasks(db) ==> Names(subjects, t)
  }

  // --------------------------------------------------------------- one visit

  /** Somebody made exactly this request in between, and it was handled. */
  ghost predicate AppliedWithin(db: Db, steps: seq<Step>, t: TaskId, q: Request) {
    exists i :: HandledAt(db, steps, t, q, i)
  }

  ghost predicate HandledAt(db: Db, steps: seq<Step>, t: TaskId, q: Request, i: int) {
    0 <= i < |steps| && Handles(Before(db, steps, i), steps[i]) && steps[i].task == t && steps[i].request == q
  }

  predicate Holds(db: Db, t: TaskId, q: Request) {
    RequestId(t, q.key) in db.requests && db.requests[RequestId(t, q.key)].request == q
  }

  lemma HandledStores(db: Db, s: Step, t: TaskId, q: Request)
    requires Handles(db, s)
    ensures Holds(Next(db, s), t, q) <==> Holds(db, t, q) || (s.task == t && s.request == q)
  {
    HandlesMeans(db, s);
  }

  lemma StepStores(db: Db, s: Step, t: TaskId, q: Request)
    ensures Holds(Next(db, s), t, q) <==> Holds(db, t, q) || (Handles(db, s) && s.task == t && s.request == q)
  {
    if Handles(db, s) {
      HandledStores(db, s, t, q);
    } else if s.Call? {
      UnhandledIsIdle(db, s);
    } else {
      StepFrame(db, s);
    }
  }

  /** A request is stored exactly when it was stored before or handled in between. */
  lemma {:induction false} StoredIffHandled(db: Db, steps: seq<Step>, t: TaskId, q: Request)
    ensures Holds(Execute(db, steps), t, q) <==> Holds(db, t, q) || AppliedWithin(db, steps, t, q)
    decreases |steps|
  {
    if steps == [] { return; }
    var n := |steps| - 1;
    var init, last := steps[..n], steps[n];
    assert steps == init + [last];
    StoredIffHandled(db, init, t, q);
    ExecuteOneMore(db, init, last);
    StepStores(Execute(db, init), last, t, q);
    assert Before(db, steps, n) == Execute(db, init);
    forall i ensures i < n ==> (HandledAt(db, steps, t, q, i) <==> HandledAt(db, init, t, q, i)) {
      if 0 <= i < n { SameBefore(db, init, last, i); }
    }
    if AppliedWithin(db, init, t, q) {
      var i :| HandledAt(db, init, t, q, i);
      assert HandledAt(db, steps, t, q, i);
    }
    if AppliedWithin(db, steps, t, q) {
      var i :| HandledAt(db, steps, t, q, i);
      assert i < n ==> HandledAt(db, init, t, q, i);
    }
    assert Handles(Execute(db, init), last) && last.task == t && last.request == q ==> HandledAt(db, steps, t, q, n);
  }

  /**
   What becomes of a visit, whatever others do between the reading of the revision and the
   request. It is put off exactly if its key holds another request, or is free and the revision
   has moved; it finds itself replayed exactly if the identical request was handled in between;
   and otherwise it reconciles, which leaves nothing due for its task at that instant.
   */
  lemma VisitSettles(atRead: Db, s: Errand, within: seq<Step>)
    requires Inv(atRead) && s.task in atRead.versions
    ensures var q := WatchdogRequest(s.due, atRead.versions[s.task]);
            var id, now := RequestId(s.task, q.key), Execute(atRead, within);
            var reply := VisitReply(now, s, atRead.versions[s.task]);
            && s.task in now.versions && now.versions[s.task] >= q.expected
            && (reply.answer == Rejection(IdempotencyConflict) <==> id in now.requests && now.requests[id].request != q)
            && (reply.answer == Rejection(StaleRevision) <==> id !in now.requests && now.versions[s.task] > q.expected)
            && (PutOff(reply.answer) ==> reply.answer.error in {IdempotencyConflict, StaleRevision})
            && (reply.answer.Replayed? <==> AppliedWithin(atRead, within, s.task, q))
            && (reply.answer.Fresh? ==> DueOf(reply.db, s.task) == {})
            && (!reply.answer.Fresh? ==> reply.db == now)
  {
    var t, q := s.task, WatchdogRequest(s.due, atRead.versions[s.task]);
    var now := Execute(atRead, within);
    VersionsStay(atRead, within, t);
    StoredIffHandled(atRead, within, t, q);
    assert RequestRow(atRead, RequestId(t, q.key));
    assert !Holds(atRead, t, q);
    if VisitReply(now, s, q.expected).answer.Fresh? { FreshVisitSettles(now, s, q.expected); }
  }

  lemma SealedReconcileDue(db: Db, t: TaskId, q: Request, d: DueItem)
    requires t in db.tasks && t in db.versions
    ensures var handled := HandleReconcile(db, t);
            handled.Handled? && d !in DueOf(Seal(handled.db, t, q, handled.result).db, t)
  {
    var handled := HandleReconcile(db, t);
    ReconcileDue(db, t, d);
    SealKeepsDue(handled.db, t, q, handled.result, d);
    DueOfMeans(Seal(handled.db, t, q, handled.result).db, t, d);
  }

  lemma FreshVisitSettles(db: Db, s: Errand, revision: nat)
    requires VisitReply(db, s, revision).answer.Fresh?
    ensures DueOf(VisitReply(db, s, revision).db, s.task) == {}
  {
    var db', q, handled := VisitReply(db, s, revision).db, WatchdogRequest(s.due, revision),
        HandleReconcile(db, s.task);
    assert db' == Seal(handled.db, s.task, q, handled.result).db;
    forall d ensures d !in DueOf(db', s.task) { SealedReconcileDue(db, s.task, q, d); }
  }

  /** What an item is about, and to which task that belongs, never changes. */
  lemma AboutStays(db: Db, s: Step, d: DueItem, t: TaskId)
    requires About(db, d, t)
    ensures About(Next(db, s), d, t)
  {
    if Handles(db, s) {
      HandlesMeans(db, s);
      assert KeepsTasks(db, Handle(db, s.task, s.request, s.id, s.bump + 1));
    }
  }

  lemma {:induction false} AboutStaysOn(db: Db, steps: seq<Step>, d: DueItem, t: TaskId)
    requires About(db, d, t)
    ensures About(Execute(db, steps), d, t)
    decreases |steps|
  {
    if steps != [] {
      AboutStays(db, steps[0], d, t);
      AboutStaysOn(Next(db, steps[0]), steps[1..], d, t);
    }
  }

  // ---------------------------------------------------------- a whole pass

  function GapOf(gaps: seq<Gap>, k: nat): Gap {
    if k < |gaps| then gaps[k] else Gap([], [])
  }

  /** The tables as they are when the revision for subject `k` is read. */
  function ReadAt(db: Db, subjects: seq<Errand>, gaps: seq<Gap>, k: nat): Db
    requires k < |subjects|
    decreases k
  {
    if k == 0 then AtRead(db, gaps) else ReadAt(FirstReply(db, subjects[0], gaps).db, subjects[1..], Rest(gaps), k - 1)
  }

  /** After a visit and its gap every task is still there, and every item about what it was about. */
  lemma AfterFirst(db: Db, s: Errand, gaps: seq<Gap>, t: TaskId)
    requires Inv(db) && t in db.versions
    ensures Inv(AtRead(db, gaps)) && t in AtRead(db, gaps).versions
    ensures Inv(FirstReply(db, s, gaps).db) && t in FirstReply(db, s, gaps).db.versions
  {
    var revision, now := RevisionOf(AtRead(db, gaps), s.task), AtRequest(db, gaps);
    VersionsStay(db, First(gaps).before, t);
    VersionsStay(AtRead(db, gaps), First(gaps).within, t);
    VisitIsStep(now, s, revision);
    NextKeeps(now, VisitStep(s, revision));
    VersionStays(now, VisitStep(s, revision), t);
  }

  lemma AboutAfterFirst(db: Db, s: Errand, gaps: seq<Gap>, d: DueItem, t: TaskId)
    requires About(db, d, t)
    ensures About(AtRead(db, gaps), d, t) && About(FirstReply(db, s, gaps).db, d, t)
  {
    var revision, now := RevisionOf(AtRead(db, gaps), s.task), AtRequest(db, gaps);
    AboutStaysOn(db, First(gaps).before, d, t);
    AboutStaysOn(AtRead(db, gaps), First(gaps).within, d, t);
    VisitIsStep(now, s, revision);
    AboutStays(now, VisitStep(s, revision), d, t);
  }

  /** The answer is that of one visit, given the tables its revision is read from and what comes between. */
  ghost predicate AnswersVisit(atRead: Db, s: Errand, within: seq<Step>, answer: Answer) {
    s.task in atRead.versions && answer == VisitReply(Execute(atRead, within), s, atRead.versions[s.task]).answer
  }

  lemma FirstAnswer(db: Db, subjects: seq<Errand>, gaps: seq<Gap>) returns (atRead: Db, answer: Answer)
    requires subjects != [] && Inv(db) && subjects[0].task in db.versions
    ensures atRead == ReadAt(db, subjects, gaps, 0) && Inv(atRead)
    ensures |RunPass(db, subjects, gaps).answers| == |subjects| && answer == RunPass(db, subjects, gaps).answers[0]
    ensures AnswersVisit(atRead, subjects[0], GapOf(gaps, 0).within, answer)
  {
    TraceIsPass(db, subjects, gaps);
    AfterFirst(db, subjects[0], gaps, subjects[0].task);
    atRead, answer := AtRead(db, gaps), RunPass(db, subjects, gaps).answers[0];
  }

  /** The tables that the rest of a pass starts from. */
  lemma RestOfPass(db: Db, subjects: seq<Errand>, gaps: seq<Gap>, k: nat) returns (after: Db)
    requires 0 < k < |subjects| && Inv(db) && subjects[k].task in db.versions
    ensures Inv(after) && subjects[1..][k - 1] == subjects[k] && subjects[k].task in after.versions
    ensures ReadAt(db, subjects, gaps, k) == ReadAt(after, subjects[1..], Rest(gaps), k - 1)
    ensures GapOf(Rest(gaps), k - 1) == GapOf(gaps, k)
    ensures |RunPass(db, subjects, gaps).answers| == |subjects|
    ensures |RunPass(after, subjects[1..], Rest(gaps)).answers| == |subjects| - 1
    ensures RunPass(db, subjects, gaps).answers[k] == RunPass(after, subjects[1..], Rest(gaps)).answers[k - 1]
  {
    AfterFirst(db, subjects[0], gaps, subjects[k].task);
    AnswersAfterFirst(db, subjects, gaps, k);
    after := FirstReply(db, subjects[0], gaps).db;
  }

  /** Every answer of a pass is that of one visit, so what is known of visits is known of it. */
  lemma {:induction false} PassVisits(db: Db, subjects: seq<Errand>, gaps: seq<Gap>, k: nat)
    returns (atRead: Db, answer: Answer)
    requires k < |subjects| && Inv(db) && subjects[k].task in db.versions
    ensures atRead == ReadAt(db, subjects, gaps, k) && Inv(atRead)
    ensures |RunPass(db, subjects, gaps).answers| == |subjects| && answer == RunPass(db, subjects, gaps).answers[k]
    ensures AnswersVisit(atRead, subjects[k], GapOf(gaps, k).within, answer)
    decreases k
  {
    if k == 0 {
      atRead, answer := FirstAnswer(db, subjects, gaps);
    } else {
      var after := RestOfPass(db, subjects, gaps, k);
      atRead, answer := PassVisits(after, subjects[1..], Rest(gaps), k - 1);
      assert AnswersVisit(atRead, subjects[k], GapOf(gaps, k).within, answer);
    }
  }

  lemma AnswersAfterFirst(db: Db, subjects: seq<Errand>, gaps: seq<Gap>, k: nat)
    requires 0 < k < |subjects|
    ensures ReadAt(db, subjects, gaps, k) ==
            ReadAt(FirstReply(db, subjects[0], gaps).db, subjects[1..], Rest(gaps), k - 1)
    ensures subjects[1..][k - 1] == subjects[k] && GapOf(Rest(gaps), k - 1) == GapOf(gaps, k)
    ensures var rest := RunPass(FirstReply(db, subjects[0], gaps).db, subjects[1..], Rest(gaps)).answers;
            |rest| == |subjects| - 1 && |RunPass(db, subjects, gaps).answers| == |subjects| &&
            RunPass(db, subjects, gaps).answers[k] == rest[k - 1]
  {
    TraceIsPass(db, subjects, gaps);
    TraceIsPass(FirstReply(db, subjects[0], gaps).db, subjects[1..], Rest(gaps));
  }

  /** What a pass counts as deferred is the number of its visits that were put off. */
  lemma {:induction false} PassCounts(answers: seq<Answer>)
    ensures Deferred(answers) == |set k | 0 <= k < |answers| && PutOff(answers[k])|
    decreases |answers|
  {
    var here := set k | 0 <= k < |answers| && PutOff(answers[k]);
    if answers == [] {
      assert here == {};
      return;
    }
    var n := |answers| - 1;
    var init := answers[..n];
    var earlier := set k | 0 <= k < |init| && PutOff(init[k]);
    PassCounts(init);
    assert here == if PutOff(answers[n]) then earlier + {n} else earlier;
  }

  // -------------------------------------------------------------- quiescence

  ghost predicate SettledIn(db: Db, steps: seq<Step>, d: DueItem) {
    exists j :: SettledAt(db, steps, d, j)
  }

  lemma SettledEarly(db: Db, a: seq<Step>, b: seq<Step>, d: DueItem)
    requires SettledIn(db, a, d)
    ensures SettledIn(db, a + b, d)
  {
    var j :| SettledAt(db, a, d, j);
    assert (a + b)[..j] == a[..j];
    assert SettledAt(db, a + b, d, j);
  }

  lemma BeforeShifted(db: Db, a: seq<Step>, b: seq<Step>, j: nat)
    requires j < |b|
    ensures Before(db, a + b, |a| + j) == Before(Execute(db, a), b, j) && (a + b)[|a| + j] == b[j]
  {
    assert (a + b)[..|a| + j] == a + b[..j];
    ExecuteJoins(db, a, b[..j]);
  }

  lemma SettledLate(db: Db, a: seq<Step>, b: seq<Step>, d: DueItem)
    requires SettledIn(Execute(db, a), b, d)
    ensures SettledIn(db, a + b, d)
  {
    var j :| SettledAt(Execute(db, a), b, d, j);
    BeforeShifted(db, a, b, j);
    assert SettledAt(db, a + b, d, |a| + j);
  }

  /** A visit that is not put off settles all of its task, itself or through the request it finds replayed. */
  lemma VisitSettlesItem(atRead: Db, s: Errand, within: seq<Step>, rest: seq<Step>, d: DueItem)
    requires Inv(atRead) && s.task in atRead.versions && About(atRead, d, s.task)
    requires !PutOff(VisitReply(Execute(atRead, within), s, atRead.versions[s.task]).answer)
    ensures SettledIn(atRead, within + ([VisitStep(s, atRead.versions[s.task])] + rest), d)
  {
    var t, revision := s.task, atRead.versions[s.task];
    var q, now, visit := WatchdogRequest(s.due, revision), Execute(atRead, within), VisitStep(s, revision);
    VisitSettles(atRead, s, within);
    if AppliedWithin(atRead, within, t, q) {
      var i :| HandledAt(atRead, within, t, q, i);
      AboutStaysOn(atRead, within[..i], d, t);
      assert SettledAt(atRead, within, d, i);
      SettledEarly(atRead, within, [visit] + rest, d);
    } else {
      AboutStaysOn(atRead, within, d, t);
      VisitHandles(now, s, revision);
      assert ([visit] + rest)[..0] == [];
      assert SettledAt(now, [visit] + rest, d, 0);
      SettledLate(atRead, within, [visit] + rest, d);
    }
  }

  lemma VisitHandles(db: Db, s: Errand, revision: nat)
    requires VisitReply(db, s, revision).answer.Fresh?
    ensures Handles(db, VisitStep(s, revision))
  {
  }

  /** What was due for a visited task when the pass began has been settled, if the visit was not put off. */
  lemma {:induction false} PassSettles(db: Db, subjects: seq<Errand>, gaps: seq<Gap>, k: nat, d: DueItem)
    requires Inv(db) && k < |subjects| && subjects[k].task in db.versions && About(db, d, subjects[k].task)
    requires |RunPass(db, subjects, gaps).answers| == |subjects| && !PutOff(RunPass(db, subjects, gaps).answers[k])
    ensures SettledIn(db, Trace(db, subjects, gaps), d)
    decreases k
  {
    var s, gap, atRead := subjects[0], First(gaps), AtRead(db, gaps);
    var visit, after := VisitStep(s, RevisionOf(atRead, s.task)), FirstReply(db, s, gaps).db;
    var rest := Trace(after, subjects[1..], Rest(gaps));
    AfterFirst(db, s, gaps, subjects[k].task);
    AboutAfterFirst(db, s, gaps, d, subjects[k].task);
    if k == 0 {
      VisitSettlesItem(atRead, s, gap.within, rest, d);
    } else {
      AnswersAfterFirst(db, subjects, gaps, k);
      PassSettles(after, subjects[1..], Rest(gaps), k - 1, d);
      RestIsAfter(db, s, gaps);
      SettledLate(AtRequest(db, gaps), [visit], rest, d);
      SettledLate(atRead, gap.within, [visit] + rest, d);
    }
    SettledLate(db, gap.before, gap.within + ([visit] + rest), d);
  }

  lemma RestIsAfter(db: Db, s: Errand, gaps: seq<Gap>)
    ensures Execute(AtRequest(db, gaps), [VisitStep(s, RevisionOf(AtRead(db, gaps), s.task))]) ==
              FirstReply(db, s, gaps).db
  {
    var visit := VisitStep(s, RevisionOf(AtRead(db, gaps), s.task));
    VisitIsStep(AtRequest(db, gaps), s, RevisionOf(AtRead(db, gaps), s.task));
    ExecuteOneMore(AtRequest(db, gaps), [], visit);
    assert [] + [visit] == [visit];
  }

  /** Something is due at the end exactly if an item due at the start, or raised since, was left. */
  lemma QuietIffNothingLeft(db: Db, steps: seq<Step>)
    requires Reachable(db)
    ensures DueTasks(Execute(db, steps)) == {} <==>
            forall d :: !(Due(db, d) && LeftFrom(db, steps, d, 0)) && !RaisedAndLeft(db, steps, d)
  {
    ReachableInv(db);
    ExecuteKeeps(db, steps);
    NothingDue(Execute(db, steps));
    forall d ensures Due(Execute(db, steps), d) <==>
                     (Due(db, d) && LeftFrom(db, steps, d, 0)) || RaisedAndLeft(db, steps, d) {
      DueIffLeft(db, steps, d);
    }
  }

  lemma {:induction false} NothingPutOff(answers: seq<Answer>, k: nat)
    requires k < |answers| && Deferred(answers) == 0
    ensures !PutOff(answers[k])
    decreases |answers|
  {
    if k < |answers| - 1 { NothingPutOff(answers[..|answers| - 1], k); }
  }

  lemma DueItemHasTask(db: Db, d: DueItem) returns (t: TaskId)
    requires Inv(db) && Due(db, d)
    ensures About(db, d, t) && t in DueTasks(db) && t in db.versions
  {
    t := if d.StaleExecution? then db.executions[d.execution].task else db.handoffs[d.handoff].task;
    assert d.StaleExecution? ==> ExecutionRow(db, d.execution);
    assert !d.StaleExecution? ==> HandoffRow(db, d.handoff);
    assert TaskRow(db, t);
    DueOfMeans(db, t, d);
  }

  /** After a pass in which nothing was put off, nothing that was due when it began is left. */
  lemma NothingLeftOver(db: Db, subjects: seq<Errand>, gaps: seq<Gap>, tail: seq<Step>, d: DueItem)
    requires Inv(db) && Covers(db, subjects) && Deferred(RunPass(db, subjects, gaps).answers) == 0 && Due(db, d)
    ensures !LeftFrom(db, Trace(db, subjects, gaps) + tail, d, 0)
  {
    var t := DueItemHasTask(db, d);
    var k :| 0 <= k < |subjects| && subjects[k].task == t;
    TraceIsPass(db, subjects, gaps);
    NothingPutOff(RunPass(db, subjects, gaps).answers, k);
    PassSettles(db, subjects, gaps, k, d);
    SettledEarly(db, Trace(db, subjects, gaps), tail, d);
    var j :| SettledAt(db, Trace(db, subjects, gaps) + tail, d, j);
    assert 0 <= j;
  }

  /**
   Quiescence, exactly: take a pass over all that is due in which nothing was put off, with any
   steps of other processes before, within and after its visits. The next scan finds nothing to
   do, and the pass over it writes nothing, if and only if everything that those steps raised (by
   a report already out of date when it was accepted, or by time running out) was settled again.
   */
  lemma WatchdogIsQuiet(db: Db, subjects: seq<Errand>, gaps: seq<Gap>, tail: seq<Step>, again: seq<Errand>)
    requires Reachable(db) && Covers(db, subjects) && Deferred(RunPass(db, subjects, gaps).answers) == 0
    requires var end := Execute(RunPass(db, subjects, gaps).db, tail); Scan(end, again) && Covers(end, again)
    ensures var steps, end := Trace(db, subjects, gaps) + tail, Execute(RunPass(db, subjects, gaps).db, tail);
            && (again == [] <==> forall d :: !RaisedAndLeft(db, steps, d))
            && (again == [] ==> RunPass(end, again, []) == Pass(end, []))
  {
    ReachableInv(db);
    var steps, end := Trace(db, subjects, gaps) + tail, Execute(RunPass(db, subjects, gaps).db, tail);
    TraceIsPass(db, subjects, gaps);
    ExecuteJoins(db, Trace(db, subjects, gaps), tail);
    QuietIffNothingLeft(db, steps);
    forall d | Due(db, d) ensures !LeftFrom(db, steps, d, 0) { NothingLeftOver(db, subjects, gaps, tail, d); }
    assert again != [] ==> again[0].task in DueTasks(end);
    if DueTasks(end) != {} {
      var t :| t in DueTasks(end);
      assert Names(again, t);
    }
  }

  // --------------------------------------------------- a condition on steps

  /** The step moves no time and reports no activity out of date at the given time. */
  predicate Calm(clock: int, s: Step) {
    match s
    case Tick(seconds) => seconds == 0
    case Call(_, q, _, _, _) =>
      (match q.action
       case Register(_, _, _, at, _, _) => clock <= at + GRACE
       case Activity(_, at, _) => clock <= at + GRACE
       case _ => true)
    case _ => true
  }

  predicate AllCalm(clock: int, steps: seq<Step>) {
    forall s <- steps :: Calm(clock, s)
  }

  lemma HandleKeepsClock(db: Db, t: TaskId, q: Request, id: nat, bump: nat)
    requires t in db.tasks && t in db.versions && bump >= 1 && Handle(db, t, q, id, bump).Handled?
    ensures Handle(db, t, q, id, bump).db.clock == db.clock
  {
  }

  lemma CalmKeepsClock(db: Db, s: Step)
    requires Calm(db.clock, s)
    ensures Next(db, s).clock == db.clock
  {
    if Handles(db, s) {
      HandlesMeans(db, s);
      HandleKeepsClock(db, s.task, s.request, s.id, s.bump + 1);
    } else if s.Call? {
      UnhandledIsIdle(db, s);
    } else {
      StepFrame(db, s);
    }
  }

  lemma {:induction false} CalmRunKeepsClock(db: Db, steps: seq<Step>)
    requires AllCalm(db.clock, steps)
    ensures Execute(db, steps).clock == db.clock
    decreases |steps|
  {
    if steps != [] {
      assert steps[0] in steps && forall s :: s in steps[1..] ==> s in steps;
      CalmKeepsClock(db, steps[0]);
      CalmRunKeepsClock(Next(db, steps[0]), steps[1..]);
    }
  }

  lemma CalmRaisesNothing(db: Db, steps: seq<Step>, d: DueItem)
    requires AllCalm(db.clock, steps)
    ensures !RaisedAndLeft(db, steps, d)
  {
    forall i ensures !RaisedAt(db, steps, d, i) {
      if 0 <= i < |steps| {
        assert steps[i] in steps && forall s :: s in steps[..i] ==> s in steps;
        CalmRunKeepsClock(db, steps[..i]);
      }
    }
  }

  ghost predicate CalmGaps(clock: int, gaps: seq<Gap>) {
    forall gap <- gaps :: AllCalm(clock, gap.before) && AllCalm(clock, gap.within)
  }

  lemma {:induction false} CalmTrace(clock: int, db: Db, subjects: seq<Errand>, gaps: seq<Gap>)
    requires CalmGaps(clock, gaps)
    ensures AllCalm(clock, Trace(db, subjects, gaps))
    decreases |subjects|
  {
    if subjects != [] {
      assert gaps != [] ==> gaps[0] in gaps && forall gap :: gap in Rest(gaps) ==> gap in gaps;
      CalmTrace(clock, FirstReply(db, subjects[0], gaps).db, subjects[1..], Rest(gaps));
    }
  }

  /**
   A condition on the steps of others alone: if none of them, in or after a pass that put nothing
   off, moves time or reports activity out of date, the pass was the last one needed.
   */
  lemma CalmPassIsLast(db: Db, subjects: seq<Errand>, gaps: seq<Gap>, tail: seq<Step>, again: seq<Errand>)
    requires Reachable(db) && Covers(db, subjects) && Deferred(RunPass(db, subjects, gaps).answers) == 0
    requires CalmGaps(db.clock, gaps) && AllCalm(db.clock, tail)
    requires var end := Execute(RunPass(db, subjects, gaps).db, tail); Scan(end, again) && Covers(end, again)
    ensures var end := Execute(RunPass(db, subjects, gaps).db, tail);
            again == [] && RunPass(end, again, []) == Pass(end, [])
  {
    WatchdogIsQuiet(db, subjects, gaps, tail, again);
    CalmTrace(db.clock, db, subjects, gaps);
    forall d ensures !RaisedAndLeft(db, Trace(db, subjects, gaps) + tail, d) {
      CalmRaisesNothing(db, Trace(db, subjects, gaps) + tail, d);
    }
  }
}
