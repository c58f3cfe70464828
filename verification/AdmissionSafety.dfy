module AdmissionSafety {

  // What the admission protocol guarantees in every world, under any interleaving and crash.

  import opened Options
  import opened Admission

  lemma LatestAppend(receipts: seq<Receipt>, receipt: Receipt, q: RequestId)
    ensures Latest(receipts + [receipt], q) == if receipt.request == q then Some(receipt) else Latest(receipts, q)
  {
    assert (receipts + [receipt])[..|receipts|] == receipts;
  }

  /** Every request has a receipt. */
  ghost predicate RequestRow(w: World, q: RequestId) {
    q in w.requests ==> Latest(w.receipts, q).Some?
  }

  /** A key belongs to one request of its task, and a task has at most one pending request. */
  ghost predicate RequestPair(w: World, p: RequestId, q: RequestId) {
    p in w.requests && q in w.requests && p != q && w.requests[p].task == w.requests[q].task ==>
      && w.requests[p].payload.key != w.requests[q].payload.key
      && !(Stands(w, p, Pending) && Stands(w, q, Pending))
  }

  ghost predicate AdmittedBefore(receipts: seq<Receipt>, i: nat)
    requires i < |receipts|
  {
    exists j :: 0 <= j < i && SameAdmission(receipts[j], receipts[i])
  }

  ghost predicate SameAdmission(first: Receipt, later: Receipt) {
    && first.state == Bound
    && first.task == later.task && first.run == later.run
    && first.intent == later.intent && first.scope == later.scope && first.target == later.target
  }

  /** A bound receipt names a run of its task; a coalesced one repeats an admission made before it. */
  ghost predicate ReceiptRow(w: World, i: int) {
    0 <= i < |w.receipts| ==>
      var receipt := w.receipts[i];
      && receipt.request in w.requests
      && w.requests[receipt.request].task == receipt.task
      && w.requests[receipt.request].payload.intent == receipt.intent
      && (receipt.state == Bound ==>
            receipt.run.Some? && receipt.run.value in w.runs && w.runs[receipt.run.value].task == receipt.task)
      && (receipt.state == Coalesced ==> receipt.run.Some? && AdmittedBefore(w.receipts, i))
  }

  ghost predicate BoundPair(w: World, i: int, j: int) {
    0 <= i < j < |w.receipts| && w.receipts[i].state == Bound && w.receipts[j].state == Bound ==>
      w.receipts[i].run != w.receipts[j].run
  }

  /** A dispatch in progress is the pending one of its task and has not been called while reserved. */
  ghost predicate FlightRow(w: World, q: RequestId) {
    q in w.flights ==>
      && q in w.requests
      && Stands(w, q, Pending)
      && (w.flights[q].phase.Reserved? <==> q !in w.calls)
  }

  /** A dispatch in progress knows every run bound for its task so far. */
  ghost predicate FlightKnows(w: World, q: RequestId, i: int) {
    q in w.flights && q in w.requests && 0 <= i < |w.receipts| && w.receipts[i].state == Bound &&
    w.receipts[i].task == w.requests[q].task ==>
      w.receipts[i].run.Some? && w.receipts[i].run.value in w.flights[q].knownRuns
  }

  ghost predicate CallRow(w: World, k: int) {
    0 <= k < |w.calls| ==>
      && w.calls[k] in w.requests
      && (Stands(w, w.calls[k], Pending) || Stands(w, w.calls[k], Bound) || Stands(w, w.calls[k], Uncertain))
  }

  predicate SameTask(w: World, p: RequestId, q: RequestId) {
    p in w.requests && q in w.requests && w.requests[p].task == w.requests[q].task
  }

  /** Of two calls for a task, the earlier one ended bound. No request is called twice. */
  ghost predicate CallPair(w: World, k: int, l: int) {
    0 <= k < l < |w.calls| ==>
      && w.calls[k] != w.calls[l]
      && (SameTask(w, w.calls[k], w.calls[l]) ==> Stands(w, w.calls[k], Bound))
  }

  /** While a request is pending, every other call made for its task ended bound. */
  ghost predicate PendingAfter(w: World, q: RequestId, k: int) {
    Stands(w, q, Pending) && 0 <= k < |w.calls| && w.calls[k] != q && SameTask(w, w.calls[k], q) ==>
      Stands(w, w.calls[k], Bound)
  }

  ghost predicate RequestsOk(w: World) {
    && (forall q {:trigger RequestRow(w, q)} :: RequestRow(w, q))
    && (forall p, q {:trigger RequestPair(w, p, q)} :: RequestPair(w, p, q))
  }

  ghost predicate ReceiptsOk(w: World) {
    && (forall i {:trigger ReceiptRow(w, i)} :: ReceiptRow(w, i))
    && (forall i, j {:trigger BoundPair(w, i, j)} :: BoundPair(w, i, j))
  }

  ghost predicate FlightsOk(w: World) {
    && (forall q {:trigger FlightRow(w, q)} :: FlightRow(w, q))
    && (forall q, i {:trigger FlightKnows(w, q, i)} :: FlightKnows(w, q, i))
  }

  ghost predicate CallsOk(w: World) {
    && (forall k {:trigger CallRow(w, k)} :: CallRow(w, k))
    && (forall k, l {:trigger CallPair(w, k, l)} :: CallPair(w, k, l))
    && (forall q, k {:trigger PendingAfter(w, q, k)} :: PendingAfter(w, q, k))
  }

  ghost predicate Inv(w: World) {
    RequestsOk(w) && ReceiptsOk(w) && FlightsOk(w) && CallsOk(w)
  }

  // ----------------------------------------------------------- preservation

  /** Steps that write neither requests nor receipts, and add no dispatch and no call. */
  lemma OutsideKeepsInv(w: World, w': World)
    requires Inv(w) && w'.requests == w.requests && w'.receipts == w.receipts && w'.calls == w.calls
    requires forall q :: q in w'.flights ==>
                           q in w.flights && w'.flights[q].knownRuns == w.flights[q].knownRuns &&
                           (w'.flights[q].phase.Reserved? <==> w.flights[q].phase.Reserved?)
    requires forall r :: r in w.runs ==> r in w'.runs && w'.runs[r].task == w.runs[r].task
    ensures Inv(w')
  {
    forall q ensures RequestRow(w', q) { assert RequestRow(w, q); }
    forall p, q ensures RequestPair(w', p, q) { assert RequestPair(w, p, q); }
    forall i ensures ReceiptRow(w', i) { assert ReceiptRow(w, i); }
    forall i, j ensures BoundPair(w', i, j) { assert BoundPair(w, i, j); }
    forall q ensures FlightRow(w', q) { assert FlightRow(w, q); }
    forall q, i ensures FlightKnows(w', q, i) { assert FlightKnows(w, q, i); }
    forall k ensures CallRow(w', k) { assert CallRow(w, k); }
    forall k, l ensures CallPair(w', k, l) { assert CallPair(w, k, l); }
    forall q, k ensures PendingAfter(w', q, k) { assert PendingAfter(w, q, k); }
  }

  lemma StartCallKeepsInv(w: World, q: RequestId)
    requires Inv(w) && q in w.flights && w.flights[q].phase.Reserved?
    ensures Inv(Apply(w, StartCall(q)).world)
  {
    var w' := Apply(w, StartCall(q)).world;
    var n := |w.calls|;
    assert FlightRow(w, q);
    forall p ensures RequestRow(w', p) { assert RequestRow(w, p); }
    forall p, r ensures RequestPair(w', p, r) { assert RequestPair(w, p, r); }
    forall i ensures ReceiptRow(w', i) { assert ReceiptRow(w, i); }
    forall i, j ensures BoundPair(w', i, j) { assert BoundPair(w, i, j); }
    forall p ensures FlightRow(w', p) { assert FlightRow(w, p); }
    forall p, i ensures FlightKnows(w', p, i) { assert FlightKnows(w, p, i); }
    forall k ensures CallRow(w', k) { assert CallRow(w, k); }
    forall k, l ensures CallPair(w', k, l) { assert CallPair(w, k, l) && PendingAfter(w, q, k); }
    forall p, k ensures PendingAfter(w', p, k) { assert PendingAfter(w, p, k) && RequestPair(w, p, q); }
  }

  lemma StandsAfter(w: World, w': World, receipt: Receipt, q: RequestId)
    requires w'.receipts == w.receipts + [receipt]
    ensures q != receipt.request ==> Latest(w'.receipts, q) == Latest(w.receipts, q)
    ensures q == receipt.request ==> Latest(w'.receipts, q) == Some(receipt)
  {
    LatestAppend(w.receipts, receipt, q);
  }

  lemma OldReceipts(w: World, w': World, receipt: Receipt, i: int)
    requires ReceiptsOk(w) && w'.receipts == w.receipts + [receipt] && w'.runs == w.runs && i < |w.receipts|
    requires forall q :: q in w.requests ==> q in w'.requests && w'.requests[q] == w.requests[q]
    ensures ReceiptRow(w', i)
  {
    assert ReceiptRow(w, i);
    if 0 <= i && AdmittedBefore(w.receipts, i) {
      var j :| 0 <= j < i && SameAdmission(w.receipts[j], w.receipts[i]);
      assert SameAdmission(w'.receipts[j], w'.receipts[i]);
    }
  }

  /** What the first receipt of a request may say. */
  lemma DecisionIsSound(w: World, t: TaskId, intent: Intent)
    requires ReceiptsOk(w) && t in w.tasks
    ensures var d := Decide(w, t, intent);
            && d.0 != Bound
            && (d.0 == Pending ==> !TaskUnconfirmed(w, t))
            && (d.0 == Coalesced ==>
                  d.2.Some? &&
                  exists i :: 0 <= i < |w.receipts| &&
                              SameAdmission(w.receipts[i], NewReceipt(w, 0, Request(t, Payload(intent, "", 0)), d)))
  {
    var d := Decide(w, t, intent);
    if d.0 == Coalesced {
      var run := d.2.value;
      var i :| 0 <= i < |w.receipts| && Matches(w, i, t, intent, run);
      if w.receipts[i].state == Coalesced {
        assert ReceiptRow(w, i);
        var j :| 0 <= j < i && SameAdmission(w.receipts[j], w.receipts[i]);
        assert w.receipts[j].state == Bound;
      }
    }
  }

  lemma ReserveNewKeepsInv(w: World, t: TaskId, payload: Payload, id: RequestId)
    requires Inv(w) && t in w.tasks && id !in w.requests && KeyHolder(w, t, payload.key) == {}
    ensures Inv(ReserveNew(w, t, payload, id).world)
  {
    var w' := ReserveNew(w, t, payload, id).world;
    var receipt, n := w'.receipts[|w.receipts|], |w.receipts|;
    DecisionIsSound(w, t, payload.intent);
    assert FlightRow(w, id);
    forall k | 0 <= k < |w.calls| ensures w.calls[k] != id { assert CallRow(w, k); }
    forall q ensures RequestRow(w', q) { assert RequestRow(w, q); StandsAfter(w, w', receipt, q); }
    forall p, q ensures RequestPair(w', p, q) {
      assert RequestPair(w, p, q);
      StandsAfter(w, w', receipt, p);
      StandsAfter(w, w', receipt, q);
      assert p in w.requests ==> p !in KeyHolder(w, t, payload.key);
      assert q in w.requests ==> q !in KeyHolder(w, t, payload.key);
      assert p in w.requests && w.requests[p].task == t && Stands(w, p, Pending) ==> Unconfirmed(w, p);
      assert q in w.requests && w.requests[q].task == t && Stands(w, q, Pending) ==> Unconfirmed(w, q);
    }
    forall i ensures ReceiptRow(w', i) {
      if i < n {
        OldReceipts(w, w', receipt, i);
      } else if i == n && receipt.state == Coalesced {
        var j :| 0 <= j < n &&
                 SameAdmission(w.receipts[j], NewReceipt(w, 0, Request(t, Payload(payload.intent, "", 0)),
                                                         Decide(w, t, payload.intent)));
        assert SameAdmission(w'.receipts[j], w'.receipts[i]);
      }
    }
    forall i, j ensures BoundPair(w', i, j) { assert BoundPair(w, i, j); }
    forall q ensures FlightRow(w', q) {
      assert FlightRow(w, q);
      StandsAfter(w, w', receipt, q);
    }
    forall q, i ensures FlightKnows(w', q, i) { assert FlightKnows(w, q, i) && ReceiptRow(w, i); }
    ReserveNewKeepsCalls(w, t, payload, id);
  }

  lemma ReserveNewKeepsCalls(w: World, t: TaskId, payload: Payload, id: RequestId)
    requires Inv(w) && t in w.tasks && id !in w.requests
    ensures CallsOk(ReserveNew(w, t, payload, id).world)
  {
    var w' := ReserveNew(w, t, payload, id).world;
    var receipt := w'.receipts[|w.receipts|];
    DecisionIsSound(w, t, payload.intent);
    forall k ensures CallRow(w', k) {
      assert CallRow(w, k);
      if 0 <= k < |w.calls| { StandsAfter(w, w', receipt, w.calls[k]); }
    }
    forall k, l ensures CallPair(w', k, l) {
      assert CallPair(w, k, l) && CallRow(w, k) && CallRow(w, l);
      if 0 <= k < |w.calls| { StandsAfter(w, w', receipt, w.calls[k]); }
    }
    forall q, k ensures PendingAfter(w', q, k) {
      assert PendingAfter(w, q, k) && CallRow(w, k);
      StandsAfter(w, w', receipt, q);
      if 0 <= k < |w.calls| {
        StandsAfter(w, w', receipt, w.calls[k]);
        assert w.calls[k] in w.requests;
        assert w.requests[w.calls[k]].task == t && !Stands(w, w.calls[k], Bound) ==> Unconfirmed(w, w.calls[k]);
      }
    }
  }

  lemma ConfirmKeepsInv(w: World, q: RequestId)
    requires Inv(w)
    ensures Inv(Apply(w, Confirm(q)).world)
  {
    var w' := Apply(w, Confirm(q)).world;
    if w' == w { return; }
    var receipt, n := w'.receipts[|w.receipts|], |w.receipts|;
    assert FlightRow(w, q);
    assert receipt.state == Bound || receipt.state == Uncertain;
    forall p ensures RequestRow(w', p) { assert RequestRow(w, p); StandsAfter(w, w', receipt, p); }
    forall p, r ensures RequestPair(w', p, r) {
      assert RequestPair(w, p, r);
      StandsAfter(w, w', receipt, p);
      StandsAfter(w, w', receipt, r);
    }
    forall i ensures ReceiptRow(w', i) { if i < n { OldReceipts(w, w', receipt, i); } }
    forall i, j ensures BoundPair(w', i, j) { assert BoundPair(w, i, j) && FlightKnows(w, q, i) && ReceiptRow(w, i); }
    forall p ensures FlightRow(w', p) { assert FlightRow(w, p); StandsAfter(w, w', receipt, p); }
    forall p, i ensures FlightKnows(w', p, i) {
      assert FlightKnows(w, p, i) && FlightRow(w, p) && RequestPair(w, p, q);
    }
    forall k ensures CallRow(w', k) {
      assert CallRow(w, k);
      if 0 <= k < |w.calls| { StandsAfter(w, w', receipt, w.calls[k]); }
    }
    forall k, l ensures CallPair(w', k, l) {
      assert CallPair(w, k, l);
      if 0 <= k < |w.calls| { StandsAfter(w, w', receipt, w.calls[k]); }
    }
    forall p, k ensures PendingAfter(w', p, k) {
      assert PendingAfter(w, p, k) && RequestPair(w, p, q);
      StandsAfter(w, w', receipt, p);
      if 0 <= k < |w.calls| { StandsAfter(w, w', receipt, w.calls[k]); }
    }
  }

  lemma ApplyKeepsInv(w: World, s: Step)
    requires Inv(w)
    ensures Inv(Apply(w, s).world)
  {
    var w' := Apply(w, s).world;
    match s
    case Reserve(t, payload, _, id, _) =>
      if w' != w { ReserveNewKeepsInv(w, t, payload, id); }
    case StartCall(q) =>
      if w' != w { StartCallKeepsInv(w, q); }
    case Confirm(q) => ConfirmKeepsInv(w, q);
    case _ => OutsideKeepsInv(w, w');
  }

  lemma {:induction false} ExecuteKeepsInv(w: World, steps: seq<Step>)
    requires Inv(w)
    ensures Inv(Execute(w, steps))
    decreases |steps|
  {
    if steps != [] {
      ApplyKeepsInv(w, steps[0]);
      ExecuteKeepsInv(Apply(w, steps[0]).world, steps[1..]);
    }
  }

  lemma ReachableInv(w: World)
    requires Reachable(w)
    ensures Inv(w)
  {
    var steps :| LeadsTo(steps, w);
    ExecuteKeepsInv(Start(), steps);
  }

  lemma {:induction false} ExecuteOneMore(w: World, steps: seq<Step>, s: Step)
    ensures Execute(w, steps + [s]) == Apply(Execute(w, steps), s).world
    decreases |steps|
  {
    if steps == [] {
      assert [] + [s] == [s] && [s][1..] == [];
      assert Execute(w, [s]) == Execute(Apply(w, s).world, []);
    } else {
      assert (steps + [s])[0] == steps[0] && (steps + [s])[1..] == steps[1..] + [s];
      ExecuteOneMore(Apply(w, steps[0]).world, steps[1..], s);
    }
  }

  /** A step taken in a reachable world leads to one. */
  lemma StaysReachable(w: World, s: Step)
    requires Reachable(w)
    ensures Inv(w) && Reachable(Apply(w, s).world)
  {
    ReachableInv(w);
    var steps :| LeadsTo(steps, w);
    ExecuteOneMore(Start(), steps, s);
    assert LeadsTo(steps + [s], Apply(w, s).world);
  }

  // --------------------------------------------------------------- theorems

  /**
   At most once: however dispatches interleave, fail or crash, a task has at most one
   pending request and at most one dispatch in progress, no key reaches the dispatcher
   twice, and a call is made only when every earlier call for its task has been
   recorded as bound, so calls for a task never overlap.
   */
  lemma AtMostOnceDispatch(w: World)
    requires Reachable(w)
    ensures forall p, q :: Stands(w, p, Pending) && Stands(w, q, Pending) && SameTask(w, p, q) ==> p == q
    ensures forall p, q :: p in w.flights && q in w.flights && SameTask(w, p, q) ==> p == q
    ensures forall k :: 0 <= k < |w.calls| ==> w.calls[k] in w.requests
    ensures forall k, l :: 0 <= k < l < |w.calls| && SameTask(w, w.calls[k], w.calls[l]) ==>
                             w.requests[w.calls[k]].payload.key != w.requests[w.calls[l]].payload.key
    ensures forall k, l :: 0 <= k < l < |w.calls| && SameTask(w, w.calls[k], w.calls[l]) ==>
                             Stands(w, w.calls[k], Bound) && w.calls[k] !in w.flights
  {
    ReachableInv(w);
    forall p, q | Stands(w, p, Pending) && Stands(w, q, Pending) && SameTask(w, p, q) ensures p == q {
      assert RequestPair(w, p, q);
    }
    forall p, q | p in w.flights && q in w.flights && SameTask(w, p, q) ensures p == q {
      assert RequestPair(w, p, q) && FlightRow(w, p) && FlightRow(w, q);
    }
    forall k | 0 <= k < |w.calls| ensures w.calls[k] in w.requests { assert CallRow(w, k); }
    forall k, l | 0 <= k < l < |w.calls| && SameTask(w, w.calls[k], w.calls[l])
      ensures w.requests[w.calls[k]].payload.key != w.requests[w.calls[l]].payload.key
      ensures Stands(w, w.calls[k], Bound) && w.calls[k] !in w.flights
    {
      assert CallPair(w, k, l) && RequestPair(w, w.calls[k], w.calls[l]) && FlightRow(w, w.calls[k]);
    }
  }

  /** A request whose call came to no bound run and that no process is working on any more. */
  ghost predicate Dead(w: World, d: RequestId) {
    Unconfirmed(w, d) && d !in w.flights
  }

  lemma DeadStepKeeps(w: World, s: Step, d: RequestId)
    requires Inv(w) && Dead(w, d)
    ensures Dead(Apply(w, s).world, d)
    ensures forall q :: q in Apply(w, s).world.flights && q !in w.flights ==>
                          q in Apply(w, s).world.requests && q !in w.requests &&
                          Apply(w, s).world.requests[q].task != w.requests[d].task
    ensures forall q :: q in w.requests ==>
                          q in Apply(w, s).world.requests && Apply(w, s).world.requests[q] == w.requests[q]
  {
    var w' := Apply(w, s).world;
    match s
    case Reserve(t, payload, _, id, _) =>
      if w' != w {
        StandsAfter(w, w', w'.receipts[|w.receipts|], d);
        assert w.requests[d].task == t ==> TaskUnconfirmed(w, t);
      }
    case Confirm(q) =>
      if w' != w { StandsAfter(w, w', w'.receipts[|w.receipts|], d); }
    case _ =>
  }

  /** The calls made for the task of `d`, and the flights that could still make one, are among these. */
  ghost predicate OnlyCalled(w: World, d: RequestId, known: set<RequestId>)
    requires d in w.requests
  {
    && (forall q :: q in w.flights && q in w.requests && w.requests[q].task == w.requests[d].task ==> q in known)
    && (forall k :: 0 <= k < |w.calls| && SameTask(w, w.calls[k], d) ==> w.calls[k] in known)
  }

  lemma DeadStepCallsKnown(w: World, s: Step, d: RequestId, known: set<RequestId>)
    requires Inv(w) && Dead(w, d) && OnlyCalled(w, d, known)
    ensures d in Apply(w, s).world.requests && OnlyCalled(Apply(w, s).world, d, known)
  {
    var next := Apply(w, s).world;
    DeadStepKeeps(w, s, d);
    forall k | 0 <= k < |next.calls| && SameTask(next, next.calls[k], d) ensures next.calls[k] in known {
      if k < |w.calls| { assert CallRow(w, k); } else { assert FlightRow(w, next.calls[k]); }
    }
    forall q | q in next.flights && q in next.requests && next.requests[q].task == next.requests[d].task
      ensures q in known
    {
      assert FlightRow(w, q);
    }
  }

  /**
   No call after a doubtful one: once a request of a task stands unconfirmed with no
   process working on it, because its call failed, ended unproven or its process died,
   no request made for that task from then on ever reaches the dispatcher.
   */
  lemma {:induction false} NoCallAfterDoubt(w: World, steps: seq<Step>, d: RequestId, known: set<RequestId>)
    requires Inv(w) && Dead(w, d) && OnlyCalled(w, d, known)
    ensures Dead(Execute(w, steps), d) && OnlyCalled(Execute(w, steps), d, known)
    decreases |steps|
  {
    if steps != [] {
      DeadStepKeeps(w, steps[0], d);
      ApplyKeepsInv(w, steps[0]);
      DeadStepCallsKnown(w, steps[0], d, known);
      NoCallAfterDoubt(Apply(w, steps[0]).world, steps[1..], d, known);
    }
  }

  /** The same from a reachable world, where only requests already made can still be called. */
  lemma LaterRequestsAreNotCalled(w: World, steps: seq<Step>, d: RequestId)
    requires Reachable(w) && Dead(w, d)
    ensures var w' := Execute(w, steps);
            forall k :: 0 <= k < |w'.calls| && SameTask(w', w'.calls[k], d) ==> w'.calls[k] in w.requests
  {
    ReachableInv(w);
    forall q | q in w.flights ensures q in w.requests { assert FlightRow(w, q); }
    forall k | 0 <= k < |w.calls| ensures w.calls[k] in w.requests { assert CallRow(w, k); }
    NoCallAfterDoubt(w, steps, d, w.requests.Keys);
  }

  /**
   Bindings are injective for any dispatcher: no run is bound by two receipts, a bound
   run belongs to the task of its receipt, and a coalesced receipt names a run that a
   receipt before it bound for the same task, intent, scope and target.
   */
  lemma BindingsAreInjective(w: World, i: nat, j: nat)
    requires Reachable(w) && i < |w.receipts| && j < |w.receipts|
    ensures w.receipts[i].state == Bound ==>
              w.receipts[i].run.Some? && w.receipts[i].run.value in w.runs &&
              w.runs[w.receipts[i].run.value].task == w.receipts[i].task
    ensures w.receipts[i].state == Bound && w.receipts[j].state == Bound && w.receipts[i].run == w.receipts[j].run ==>
              i == j
    ensures w.receipts[i].state == Coalesced ==> AdmittedBefore(w.receipts, i)
  {
    ReachableInv(w);
    assert ReceiptRow(w, i) && BoundPair(w, i, j) && BoundPair(w, j, i);
  }

  /** Repeating a recorded request writes nothing and returns its newest receipt; another payload is refused. */
  lemma RetryWritesNothing(w: World, s: Step, q: RequestId)
    requires Reachable(w) && s.Reserve? && s.wellFormed && s.payload.expected >= 1 && s.task in w.tasks
    requires q in w.requests && w.requests[q].task == s.task && w.requests[q].payload.key == s.payload.key
    ensures Apply(w, s).world == w
    ensures Latest(w.receipts, q).Some?
    ensures Apply(w, s).answer ==
              if w.requests[q].payload == s.payload then Replayed(Latest(w.receipts, q).value) else KeyConflict
  {
    ReachableInv(w);
    assert RequestRow(w, q);
    assert q in KeyHolder(w, s.task, s.payload.key);
    forall p | p in KeyHolder(w, s.task, s.payload.key) ensures p == q { assert RequestPair(w, p, q); }
  }
}
