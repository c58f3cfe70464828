module AdmissionGates {

  // What a dispatch needs to reach the dispatcher, and a call to count as bound, said of the
  // columns of the task and the rows of its runs and receipts.

  import opened Options
  import opened Admission
  import opened AdmissionSafety

  /** Nothing about the task stands against a dispatch. */
  predicate Unprotected(facts: Facts) {
    !facts.paused && !facts.terminal && !facts.forbidden && !facts.lifecycleBlocked && !facts.sensitive &&
    !facts.releaseScope && facts.owner != User && facts.owner != External && facts.dependenciesDone
  }

  /** The first thing that stands against it, in the order of their weight. */
  predicate Protects(facts: Facts, state: State, reason: Reason) {
    match reason
    case UserPaused => state == Rejected && facts.paused
    case TaskTerminal => state == Rejected && facts.terminal && !facts.paused
    case ExecutionForbidden => state == Rejected && facts.forbidden && !facts.paused && !facts.terminal
    case LifecycleUnresolved =>
      state == Deferred && facts.lifecycleBlocked && !facts.paused && !facts.terminal && !facts.forbidden
    case SensitiveApproval =>
      state == Rejected && facts.sensitive && !facts.paused && !facts.terminal && !facts.forbidden &&
      !facts.lifecycleBlocked
    case ReleaseScopeForbidden =>
      state == Rejected && facts.releaseScope && !facts.paused && !facts.terminal && !facts.forbidden &&
      !facts.lifecycleBlocked && !facts.sensitive
    case UserActionPending =>
      state == Deferred && facts.owner == User && !facts.paused && !facts.terminal && !facts.forbidden &&
      !facts.lifecycleBlocked && !facts.sensitive && !facts.releaseScope
    case ExternalActionPending =>
      state == Deferred && facts.owner == External && !facts.paused && !facts.terminal && !facts.forbidden &&
      !facts.lifecycleBlocked && !facts.sensitive && !facts.releaseScope
    case DependencyUnresolved =>
      state == Deferred && !facts.dependenciesDone && !facts.paused && !facts.terminal && !facts.forbidden &&
      !facts.lifecycleBlocked && !facts.sensitive && !facts.releaseScope && facts.owner != User &&
      facts.owner != External
    case _ => false
  }

  predicate IsActive(run: RunRow, t: TaskId) {
    run.task == t && (run.status == Queued || run.status == Running)
  }

  ghost predicate NoActiveRun(w: World, t: TaskId) {
    forall r :: r in w.runs ==> !IsActive(w.runs[r], t)
  }

  ghost predicate AtMostOneActive(w: World, t: TaskId) {
    forall a, b :: a in w.runs && b in w.runs && IsActive(w.runs[a], t) && IsActive(w.runs[b], t) ==> a == b
  }

  /** Receipt `i` is the newest of its request. */
  ghost predicate IsNewest(receipts: seq<Receipt>, i: int) {
    0 <= i < |receipts| && forall j :: i < j < |receipts| ==> receipts[j].request != receipts[i].request
  }

  /** No request of the task is left pending or in doubt. */
  ghost predicate AllConfirmed(w: World, t: TaskId) {
    forall i :: IsNewest(w.receipts, i) && w.receipts[i].request in w.requests &&
                w.requests[w.receipts[i].request].task == t ==>
                  w.receipts[i].state != Pending && w.receipts[i].state != Uncertain
  }

  lemma {:induction false} LatestMeans(receipts: seq<Receipt>, q: RequestId)
    ensures Latest(receipts, q).None? <==> forall i :: 0 <= i < |receipts| ==> receipts[i].request != q
    ensures Latest(receipts, q).Some? ==>
              exists i :: IsNewest(receipts, i) && receipts[i].request == q && Latest(receipts, q) == Some(receipts[i])
    ensures forall i :: IsNewest(receipts, i) && receipts[i].request == q ==> Latest(receipts, q) == Some(receipts[i])
    decreases |receipts|
  {
    if receipts == [] { return; }
    var n := |receipts| - 1;
    var init := receipts[..n];
    LatestMeans(init, q);
    if receipts[n].request == q {
      assert IsNewest(receipts, n);
    } else {
      forall i | 0 <= i < n && receipts[i].request == q ensures IsNewest(receipts, i) <==> IsNewest(init, i) {
        assert forall j :: i < j < n ==> init[j] == receipts[j];
      }
    }
  }

  lemma ConfirmedMeans(w: World, t: TaskId)
    ensures TaskUnconfirmed(w, t) <==> !AllConfirmed(w, t)
  {
    if TaskUnconfirmed(w, t) {
      var q :| q in w.requests && w.requests[q].task == t && Unconfirmed(w, q);
      LatestMeans(w.receipts, q);
      var i :| IsNewest(w.receipts, i) && w.receipts[i].request == q && Latest(w.receipts, q) == Some(w.receipts[i]);
    }
    if !AllConfirmed(w, t) {
      var i :| IsNewest(w.receipts, i) && w.receipts[i].request in w.requests &&
               w.requests[w.receipts[i].request].task == t &&
               (w.receipts[i].state == Pending || w.receipts[i].state == Uncertain);
      LatestMeans(w.receipts, w.receipts[i].request);
      assert Unconfirmed(w, w.receipts[i].request);
    }
  }

  lemma ActiveMeans(w: World, t: TaskId)
    ensures ActiveRuns(w, t) == {} <==> NoActiveRun(w, t)
    ensures |ActiveRuns(w, t)| <= 1 <==> AtMostOneActive(w, t)
  {
    var active := ActiveRuns(w, t);
    forall r ensures r in active <==> r in w.runs && IsActive(w.runs[r], t) {}
    if |active| <= 1 {
      forall a, b | a in active && b in active ensures a == b { assert |active - {a}| == 0; }
    }
    if AtMostOneActive(w, t) && active != {} {
      var a :| a in active;
      assert active == {a};
    }
  }

  // ------------------------------------------------------- the first receipt

  /** The task is free for a dispatch at the expected revision. */
  ghost predicate Clear(w: World, t: TaskId, expected: int) {
    t in w.tasks && w.tasks[t].revision.Some? && w.tasks[t].revision.value == expected &&
    Unprotected(w.tasks[t]) && NoActiveRun(w, t) && AllConfirmed(w, t)
  }

  /** A well-formed request that repeats no key and no identifier. */
  ghost predicate IsNew(w: World, s: Step) {
    s.Reserve? && s.wellFormed && s.payload.expected >= 1 && s.id !in w.requests &&
    forall q :: q in w.requests && w.requests[q].task == s.task ==> w.requests[q].payload.key != s.payload.key
  }

  /** The receipt shows that a run was admitted for this intent, scope and target. */
  ghost predicate Admits(receipt: Receipt, t: TaskId, facts: Facts, intent: Intent, run: RunId) {
    receipt.task == t && (receipt.state == Bound || receipt.state == Coalesced) && receipt.intent == intent &&
    receipt.scope == facts.scope && receipt.target == facts.target && receipt.run == Some(run)
  }

  ghost predicate MayCoalesce(w: World, t: TaskId, intent: Intent, run: RunId)
    requires t in w.tasks
  {
    run in w.runs && IsActive(w.runs[run], t) && AtMostOneActive(w, t) &&
    w.runs[run].target == Some(w.tasks[t].target) &&
    exists i :: 0 <= i < |w.receipts| && Admits(w.receipts[i], t, w.tasks[t], intent, run)
  }

  lemma CoalescingMeans(w: World, t: TaskId, intent: Intent, run: RunId)
    requires t in w.tasks
    ensures MayCoalesce(w, t, intent, run) <==>
              ActiveRuns(w, t) == {run} && run in w.runs && Reusable(w, t, intent, run)
  {
    ActiveMeans(w, t);
    forall i: nat | i < |w.receipts| ensures Matches(w, i, t, intent, run) <==>
                                        Admits(w.receipts[i], t, w.tasks[t], intent, run) {}
    if MayCoalesce(w, t, intent, run) {
      assert run in ActiveRuns(w, t);
      forall r | r in ActiveRuns(w, t) ensures r == run { assert IsActive(w.runs[r], t); }
      assert ActiveRuns(w, t) == {run};
      var i :| 0 <= i < |w.receipts| && Admits(w.receipts[i], t, w.tasks[t], intent, run);
      assert Matches(w, i, t, intent, run);
    }
    if ActiveRuns(w, t) == {run} && run in w.runs && Reusable(w, t, intent, run) {
      assert run in ActiveRuns(w, t) && |ActiveRuns(w, t)| == 1;
      var i: nat :| i < |w.receipts| && Matches(w, i, t, intent, run);
      assert Admits(w.receipts[i], t, w.tasks[t], intent, run);
    }
  }

  lemma NoKeyHolder(w: World, s: Step)
    requires IsNew(w, s)
    ensures KeyHolder(w, s.task, s.payload.key) == {}
  {
    forall q ensures q !in KeyHolder(w, s.task, s.payload.key) {}
  }

  lemma DecideMeans(w: World, t: TaskId, intent: Intent)
    requires t in w.tasks
    ensures var decided := Decide(w, t, intent); var facts := w.tasks[t];
            && (!Unprotected(facts) ==> Protects(facts, decided.0, decided.1) && decided.2.None?)
            && (Unprotected(facts) ==>
                  && (decided == (Uncertain, AlreadyUnconfirmed, None) <==> !AllConfirmed(w, t))
                  && (decided == (Pending, ConfirmationPending, None) <==> AllConfirmed(w, t) && NoActiveRun(w, t))
                  && (decided.0 == Pending <==> AllConfirmed(w, t) && NoActiveRun(w, t))
                  && (decided.0 == Coalesced <==>
                        AllConfirmed(w, t) && exists run :: MayCoalesce(w, t, intent, run))
                  && (decided.0 == Coalesced ==>
                        decided.1 == ActiveRunReused && decided.2.Some? && MayCoalesce(w, t, intent, decided.2.value))
                  && (decided == (Uncertain, RunBindingAmbiguous, None) <==>
                        AllConfirmed(w, t) && !NoActiveRun(w, t) &&
                        forall run :: !MayCoalesce(w, t, intent, run)))
  {
    ConfirmedMeans(w, t);
    ActiveMeans(w, t);
    forall run: RunId ensures MayCoalesce(w, t, intent, run) <==>
                       ActiveRuns(w, t) == {run} && run in w.runs && Reusable(w, t, intent, run) {
      CoalescingMeans(w, t, intent, run);
    }
    assert forall run: RunId :: ActiveRuns(w, t) == {run} ==> run in ActiveRuns(w, t);
  }

  /** What a new request is told, exactly, and what is kept of it. */
  lemma FirstReceipt(w: World, s: Step)
    requires IsNew(w, s)
    ensures var reply := Apply(w, s); var t, intent := s.task, s.payload.intent;
            && (reply.answer == TaskMissing <==> t !in w.tasks)
            && (reply.answer == StaleRevision <==>
                  t in w.tasks && w.tasks[t].revision != Some(s.payload.expected as nat))
            && (reply.answer == ParametersRefused <==> Clear(w, t, s.payload.expected) && !s.parametersOk)
            && (reply.answer.Recorded? <==>
                  t in w.tasks && w.tasks[t].revision == Some(s.payload.expected as nat) &&
                  (Clear(w, t, s.payload.expected) ==> s.parametersOk))
            && (!reply.answer.Recorded? ==> reply.world == w)
            && (reply.answer.Recorded? ==>
                  var receipt, facts := reply.answer.receipt, w.tasks[t];
                  && receipt.request == s.id && receipt.task == t && receipt.intent == intent
                  && receipt.scope == facts.scope && receipt.target == facts.target
                  && reply.world.receipts == w.receipts + [receipt]
                  && reply.world.requests == w.requests[s.id := Request(t, s.payload)]
                  && (!Unprotected(facts) ==> Protects(facts, receipt.state, receipt.reason) && receipt.run.None?)
                  && (receipt.state == Pending <==> Clear(w, t, s.payload.expected))
                  && (receipt.state == Coalesced <==>
                        Unprotected(facts) && AllConfirmed(w, t) && exists run :: MayCoalesce(w, t, intent, run))
                  && (receipt.state == Coalesced ==>
                        receipt.run.Some? && MayCoalesce(w, t, intent, receipt.run.value))
                  && (receipt.reason == AlreadyUnconfirmed <==> Unprotected(facts) && !AllConfirmed(w, t))
                  && (receipt.reason == RunBindingAmbiguous <==>
                        Unprotected(facts) && AllConfirmed(w, t) && !NoActiveRun(w, t) &&
                        forall run :: !MayCoalesce(w, t, intent, run)))
  {
    NoKeyHolder(w, s);
    if s.task in w.tasks { DecideMeans(w, s.task, s.payload.intent); }
  }

  /** A request is invalid, of an unknown task or stale whatever its key is; what is not recorded writes nothing. */
  lemma RequestsAreChecked(w: World, s: Step)
    requires s.Reserve?
    ensures var reply := Apply(w, s); var sound := s.wellFormed && s.payload.expected >= 1;
            && (reply.answer == Invalid <==> !sound) && (reply.answer == TaskMissing <==> sound && s.task !in w.tasks)
            && (reply.answer == StaleRevision ==> w.tasks[s.task].revision != Some(s.payload.expected as nat))
            && (reply.answer == Silent ==> s.id in w.requests)
            && (!reply.answer.Recorded? ==> reply.world == w)
  {
    if s.wellFormed && s.payload.expected >= 1 && s.task in w.tasks && s.id !in w.requests {
      if IsNew(w, s) { FirstReceipt(w, s); }
    }
  }

  /** What a dispatch in progress holds when it begins. */
  ghost predicate BeginsFlight(w: World, s: Step) {
    IsNew(w, s) && s.parametersOk && Clear(w, s.task, s.payload.expected)
  }

  /** A dispatch begins exactly with a new request for a task that is free for it. */
  lemma FlightBegins(w: World, s: Step, q: RequestId)
    requires q !in w.flights
    ensures q in Apply(w, s).world.flights <==> BeginsFlight(w, s) && s.id == q
    ensures q in Apply(w, s).world.flights ==>
              Apply(w, s).world.flights[q] ==
                Flight(w.tasks[s.task].scope, (set r | r in w.runs && w.runs[r].task == s.task), Reserved)
  {
    if s.Reserve? {
      if IsNew(w, s) {
        NoKeyHolder(w, s);
        if s.task in w.tasks { DecideMeans(w, s.task, s.payload.intent); }
      } else if s.wellFormed && s.payload.expected >= 1 && s.id !in w.requests {
        var p :| p in w.requests && w.requests[p].task == s.task && w.requests[p].payload.key == s.payload.key;
        assert p in KeyHolder(w, s.task, s.payload.key);
      }
    }
  }

  // -------------------------------------------------------------- whole runs

  ghost function Before(steps: seq<Step>, i: nat): World
    requires i <= |steps|
  {
    Execute(Start(), steps[..i])
  }

  /** Step `i` began the dispatch of a request. */
  ghost predicate BegunAt(steps: seq<Step>, q: RequestId, i: int) {
    0 <= i < |steps| && BeginsFlight(Before(steps, i), steps[i]) && steps[i].id == q
  }

  /** It began with this scope and these runs known. */
  ghost predicate BegunWith(steps: seq<Step>, q: RequestId, i: int, flight: Flight) {
    BegunAt(steps, q, i) &&
    var w, t := Before(steps, i), steps[i].task;
    flight.scope == w.tasks[t].scope && flight.knownRuns == set r | r in w.runs && w.runs[r].task == t
  }

  ghost predicate WasBegun(steps: seq<Step>, q: RequestId) {
    exists i :: BegunAt(steps, q, i)
  }

  lemma SameBegin(steps: seq<Step>, s: Step, q: RequestId, i: int)
    requires i < |steps|
    ensures BegunAt(steps + [s], q, i) <==> BegunAt(steps, q, i)
    ensures forall flight :: BegunWith(steps + [s], q, i, flight) <==> BegunWith(steps, q, i, flight)
  {
    if 0 <= i { assert (steps + [s])[..i] == steps[..i]; }
  }

  lemma FlightContinues(w: World, s: Step, q: RequestId)
    requires q in w.flights && q in Apply(w, s).world.flights && q in w.requests
    ensures Apply(w, s).world.flights[q].scope == w.flights[q].scope
    ensures Apply(w, s).world.flights[q].knownRuns == w.flights[q].knownRuns
  {
  }

  /** Every dispatch in progress began when its task was free for it, and remembers the scope and runs of then. */
  lemma {:induction false} FlightsBegan(steps: seq<Step>, q: RequestId)
    requires q in Execute(Start(), steps).flights
    ensures exists i :: BegunWith(steps, q, i, Execute(Start(), steps).flights[q])
    decreases |steps|
  {
    if steps == [] { return; }
    var n := |steps| - 1;
    var init, last := steps[..n], steps[n];
    assert steps == init + [last];
    ExecuteOneMore(Start(), init, last);
    var w := Execute(Start(), init);
    assert Before(steps, n) == w;
    if q in w.flights {
      FlightsBegan(init, q);
      var i :| BegunWith(init, q, i, w.flights[q]);
      StartedInv(init);
      assert FlightRow(w, q);
      FlightContinues(w, last, q);
      SameBegin(init, last, q, i);
      assert BegunWith(steps, q, i, Execute(Start(), steps).flights[q]);
    } else {
      FlightBegins(w, last, q);
      assert BegunWith(steps, q, n, Execute(Start(), steps).flights[q]);
    }
  }

  lemma StartedInv(steps: seq<Step>)
    ensures Inv(Execute(Start(), steps))
  {
    assert LeadsTo(steps, Execute(Start(), steps));
    ReachableInv(Execute(Start(), steps));
  }

  lemma CallsGrow(w: World, s: Step, q: RequestId)
    requires q in Apply(w, s).world.calls && q !in w.calls
    ensures q in w.flights
  {
  }

  /**
   Whatever happens, the dispatcher is called only for requests made while their task was neither
   paused, terminal, forbidden, blocked, sensitive nor in release scope, with nobody else's action
   and no dependency open, at the revision they expected, with no run active and none in doubt.
   */
  lemma {:induction false} CallsWereClear(steps: seq<Step>, q: RequestId)
    requires q in Execute(Start(), steps).calls
    ensures WasBegun(steps, q)
    decreases |steps|
  {
    if steps == [] { return; }
    var n := |steps| - 1;
    var init, last := steps[..n], steps[n];
    assert steps == init + [last];
    ExecuteOneMore(Start(), init, last);
    var w := Execute(Start(), init);
    if q in w.calls {
      CallsWereClear(init, q);
      var i :| BegunAt(init, q, i);
      SameBegin(init, last, q, i);
      assert BegunAt(steps, q, i);
    } else {
      CallsGrow(w, last, q);
      FlightsBegan(init, q);
      var i :| BegunWith(init, q, i, w.flights[q]);
      SameBegin(init, last, q, i);
      assert BegunAt(steps, q, i);
    }
  }

  // ---------------------------------------------------------------- between

  /** Between its two transactions a dispatch calls once and returns once, or is cut off. */
  lemma DispatchSteps(w: World, q: RequestId, result: Result)
    ensures Apply(w, StartCall(q)) ==
              Reply(if q in w.flights && w.flights[q].phase == Reserved
                    then w.(flights := w.flights[q := w.flights[q].(phase := Calling)], calls := w.calls + [q]) else w,
                    Silent)
    ensures Apply(w, ReturnCall(q, result)) ==
              Reply(if q in w.flights && w.flights[q].phase == Calling
                    then w.(flights := w.flights[q := w.flights[q].(phase := Returned(result))]) else w, Silent)
    ensures Apply(w, Crash(q)) == Reply(w.(flights := map p | p in w.flights && p != q :: w.flights[p]), Silent)
  {
  }

  /** What everybody else does: tasks change, runs appear with the target of their task and change status. */
  lemma OutsideSteps(w: World, t: TaskId, facts: Facts, r: RunId, status: RunStatus, captured: bool)
    ensures Apply(w, EditTask(t, facts)) == Reply(w.(tasks := w.tasks[t := facts]), Silent)
    ensures t in w.tasks && r !in w.runs ==>
              var row := RunRow(t, status, if captured then Some(w.tasks[t].target) else None);
              Apply(w, InsertRun(r, t, status, captured)) == Reply(w.(runs := w.runs[r := row]), Silent)
    ensures t !in w.tasks || r in w.runs ==> Apply(w, InsertRun(r, t, status, captured)) == Reply(w, Silent)
    ensures Apply(w, SetRunStatus(r, status)) ==
              Reply(if r in w.runs then w.(runs := w.runs[r := w.runs[r].(status := status)]) else w, Silent)
  {
  }

  // ------------------------------------------------------ the second receipt

  /** The call named a run that appeared for the task since, and nothing about the task has changed. */
  ghost predicate Binds(w: World, q: RequestId, run: RunId)
    requires q in w.flights && q in w.requests && w.requests[q].task in w.tasks
  {
    var t, flight := w.requests[q].task, w.flights[q];
    && flight.phase == Returned(Named(run))
    && Unprotected(w.tasks[t]) && w.tasks[t].scope == flight.scope
    && run in w.runs && w.runs[run].task == t && w.runs[run].target == Some(w.tasks[t].target)
    && run !in flight.knownRuns && w.runs[run].status in {Queued, Running, Done} && AtMostOneActive(w, t)
  }

  ghost predicate MayConfirm(w: World, q: RequestId) {
    q in w.flights && q in w.requests && w.flights[q].phase.Returned? && w.requests[q].task in w.tasks
  }

  /** The second receipt, exactly: bound to the run the call named, or uncertain, and for which reason. */
  lemma SecondReceipt(w: World, q: RequestId)
    ensures var reply := Apply(w, Step.Confirm(q));
            && (if MayConfirm(w, q) then reply.answer.Recorded? else reply == Reply(w, Silent))
            && (MayConfirm(w, q) ==>
                  var receipt, t, flight := reply.answer.receipt, w.requests[q].task, w.flights[q];
                  var result, facts := flight.phase.result, w.tasks[t];
                  var changed := !Unprotected(facts) || facts.scope != flight.scope;
                  var retargeted := result.Named? && result.run in w.runs && w.runs[result.run].task == t &&
                                    w.runs[result.run].target.Some? &&
                                    w.runs[result.run].target.value != facts.target;
                  && receipt.request == q && receipt.task == t && receipt.scope == facts.scope
                  && receipt.target == facts.target && receipt.intent == w.requests[q].payload.intent
                  && reply.world == w.(receipts := w.receipts + [receipt], flights := w.flights - {q})
                  && (receipt.state == Bound || receipt.state == Uncertain)
                  && (receipt.state == Bound <==> exists run :: Binds(w, q, run))
                  && (receipt.state == Bound ==> receipt.run.Some? && Binds(w, q, receipt.run.value))
                  && (receipt.state == Uncertain ==> receipt.run.None?)
                  && (receipt.reason == TaskChanged <==> changed || retargeted)
                  && (receipt.reason == ResultUnknown <==> !changed && result == Raised)
                  && (receipt.reason == ExternalAckMissing <==> !changed && result == Nothing)
                  && (receipt.reason == RunBindingAmbiguous <==>
                        !changed && !retargeted && result.Named? && receipt.state == Uncertain)
                  && (receipt.reason == LocalRunRecorded <==> receipt.state == Bound))
  {
    if MayConfirm(w, q) {
      ActiveMeans(w, w.requests[q].task);
      var result := w.flights[q].phase.result;
      assert result.Named? && Binds(w, q, result.run) ==> exists run :: Binds(w, q, run);
    }
  }

  /** Nothing but a confirmation writes a bound receipt. */
  lemma BoundByConfirmation(w: World, s: Step, i: nat)
    requires i < |Apply(w, s).world.receipts| && Apply(w, s).world.receipts[i].state == Bound
    requires i < |w.receipts| ==> Apply(w, s).world.receipts[i] != w.receipts[i]
    ensures s.Confirm? && MayConfirm(w, s.request) && i == |w.receipts|
    ensures Apply(w, s).world.receipts[i].run.Some? && Binds(w, s.request, Apply(w, s).world.receipts[i].run.value)
  {
    if s.Confirm? { SecondReceipt(w, s.request); }
  }

  /** Step `k` confirmed the request of the receipt, whose dispatch step `j` had begun. */
  ghost predicate BoundAt(steps: seq<Step>, j: int, k: int, receipt: Receipt) {
    0 <= j < k < |steps| && steps[k] == Step.Confirm(receipt.request) && receipt.run.Some? &&
    var w := Before(steps, k);
    MayConfirm(w, receipt.request) && Binds(w, receipt.request, receipt.run.value) &&
    BegunWith(steps, receipt.request, j, w.flights[receipt.request])
  }

  lemma SameBound(steps: seq<Step>, s: Step, j: int, k: int, receipt: Receipt)
    requires BoundAt(steps, j, k, receipt)
    ensures BoundAt(steps + [s], j, k, receipt)
  {
    assert (steps + [s])[..k] == steps[..k];
    SameBegin(steps, s, receipt.request, j);
  }

  lemma PrefixBegin(steps: seq<Step>, k: nat, q: RequestId, j: int, flight: Flight)
    requires k <= |steps| && BegunWith(steps[..k], q, j, flight)
    ensures BegunWith(steps, q, j, flight) && j < k
  {
    assert steps[..k][..j] == steps[..j];
  }

  /**
   A bound receipt was written by a confirmation: its dispatch had begun with the task free for it,
   the scope was still that of then and the task still unprotected, and the run it names was not
   there when the dispatch began.
   */
  lemma {:induction false} BoundWasDispatched(steps: seq<Step>, i: nat)
    requires i < |Execute(Start(), steps).receipts| && Execute(Start(), steps).receipts[i].state == Bound
    ensures exists j, k :: BoundAt(steps, j, k, Execute(Start(), steps).receipts[i])
    decreases |steps|
  {
    if steps == [] { return; }
    var n := |steps| - 1;
    var init, last := steps[..n], steps[n];
    assert steps == init + [last];
    ExecuteOneMore(Start(), init, last);
    var w, after := Execute(Start(), init), Execute(Start(), steps);
    assert Before(steps, n) == w;
    if i < |w.receipts| && after.receipts[i] == w.receipts[i] {
      BoundWasDispatched(init, i);
      var j, k :| BoundAt(init, j, k, w.receipts[i]);
      SameBound(init, last, j, k, w.receipts[i]);
      assert BoundAt(steps, j, k, after.receipts[i]);
    } else {
      BoundByConfirmation(w, last, i);
      SecondReceipt(w, last.request);
      FlightsBegan(init, last.request);
      var j :| BegunWith(init, last.request, j, w.flights[last.request]);
      PrefixBegin(steps, n, last.request, j, w.flights[last.request]);
      assert BoundAt(steps, j, n, after.receipts[i]);
    }
  }
}
