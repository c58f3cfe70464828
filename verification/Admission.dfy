/**
 Dispatch admission: two transactions around a call that nothing can undo. The world
 holds the shared tables, the dispatches in progress in any number of processes, and
 the log of calls made; every transaction, call, return, crash and outside edit is
 one step, in any interleaving. Digests are modelled as the values they digest.
 */
module Admission {
  import opened Options

  type TaskId = nat
  type RunId = nat
  type RequestId = nat

  datatype RunStatus = Queued | Running | Done | Failed | Canceled

  datatype ActionOwner = Nobody | Agent | User | External

  /** What an admission transaction reads of a task. */
  datatype Facts = Facts(
    revision: Option<nat>, paused: bool, terminal: bool, forbidden: bool, lifecycleBlocked: bool,
    sensitive: bool, releaseScope: bool, owner: ActionOwner, dependenciesDone: bool, scope: nat, target: nat)

  /** `target` is captured when the row is inserted and never changes; older rows have none. */
  datatype RunRow = RunRow(task: TaskId, status: RunStatus, target: Option<nat>)

  datatype Intent = Intent(instruction: string, resume: bool)

  datatype Payload = Payload(intent: Intent, key: string, expected: int)

  datatype Request = Request(task: TaskId, payload: Payload)

  datatype State = Pending | Bound | Coalesced | Uncertain | Rejected | Deferred

  datatype Reason =
    | ConfirmationPending | LocalRunRecorded | ActiveRunReused
    | UserPaused | TaskTerminal | ExecutionForbidden | LifecycleUnresolved | SensitiveApproval | ReleaseScopeForbidden
    | UserActionPending | ExternalActionPending | DependencyUnresolved
    | AlreadyUnconfirmed | RunBindingAmbiguous | TaskChanged | ResultUnknown | ExternalAckMissing

  datatype Receipt = Receipt(
    request: RequestId, task: TaskId, intent: Intent, state: State, reason: Reason, run: Option<RunId>,
    scope: nat, target: nat)

  /** What a dispatcher hands back: an exception, a value without a run id, or a run id. */
  datatype Result = Raised | Nothing | Named(run: RunId)

  datatype Phase = Reserved | Calling | Returned(result: Result)

  /** The local variables of a dispatch between its two transactions. */
  datatype Flight = Flight(scope: nat, knownRuns: set<RunId>, phase: Phase)

  datatype World = World(
    tasks: map<TaskId, Facts>, runs: map<RunId, RunRow>,
    requests: map<RequestId, Request>, receipts: seq<Receipt>,
    flights: map<RequestId, Flight>, calls: seq<RequestId>)

  datatype Step =
    | Reserve(task: TaskId, payload: Payload, wellFormed: bool, id: RequestId, parametersOk: bool)
    | StartCall(request: RequestId)
    | ReturnCall(request: RequestId, result: Result)
    | Confirm(request: RequestId)
    | Crash(request: RequestId)
    | EditTask(task: TaskId, facts: Facts)
    | InsertRun(run: RunId, ofTask: TaskId, status: RunStatus, captured: bool)
    | SetRunStatus(run: RunId, status: RunStatus)

  datatype Answer =
    | Invalid | TaskMissing | KeyConflict | StaleRevision | ParametersRefused
    | Replayed(receipt: Receipt) | Recorded(receipt: Receipt) | Silent

  datatype Reply = Reply(world: World, answer: Answer)

  // ----------------------------------------------------------------- facts

  /** The first reason, if any, that keeps a task from being dispatched. */
  function Guard(facts: Facts): Option<(State, Reason)> {
    if facts.paused then Some((Rejected, UserPaused))
    else if facts.terminal then Some((Rejected, TaskTerminal))
    else if facts.forbidden then Some((Rejected, ExecutionForbidden))
    else if facts.lifecycleBlocked then Some((Deferred, LifecycleUnresolved))
    else if facts.sensitive then Some((Rejected, SensitiveApproval))
    else if facts.releaseScope then Some((Rejected, ReleaseScopeForbidden))
    else if facts.owner == User then Some((Deferred, UserActionPending))
    else if facts.owner == External then Some((Deferred, ExternalActionPending))
    else if !facts.dependenciesDone then Some((Deferred, DependencyUnresolved))
    else None
  }

  function RunsOf(w: World, t: TaskId): set<RunId> {
    set r | r in w.runs && w.runs[r].task == t
  }

  function ActiveRuns(w: World, t: TaskId): set<RunId> {
    set r | r in w.runs && w.runs[r].task == t && w.runs[r].status in {Queued, Running}
  }

  /** The newest receipt of a request. */
  function Latest(receipts: seq<Receipt>, q: RequestId): Option<Receipt> {
    if receipts == [] then None
    else if receipts[|receipts| - 1].request == q then Some(receipts[|receipts| - 1])
    else Latest(receipts[..|receipts| - 1], q)
  }

  predicate Stands(w: World, q: RequestId, state: State) {
    Latest(w.receipts, q).Some? && Latest(w.receipts, q).value.state == state
  }

  predicate Unconfirmed(w: World, q: RequestId) {
    q in w.requests && (Stands(w, q, Pending) || Stands(w, q, Uncertain))
  }

  predicate TaskUnconfirmed(w: World, t: TaskId) {
    exists q :: q in w.requests && w.requests[q].task == t && Unconfirmed(w, q)
  }

  // ---------------------------------------------------------- transactions

  /** The receipt proves that `run` was admitted for the same intent, scope and target. */
  predicate Matches(w: World, i: nat, t: TaskId, intent: Intent, run: RunId)
    requires i < |w.receipts| && t in w.tasks
  {
    var receipt := w.receipts[i];
    && receipt.task == t
    && (receipt.state == Bound || receipt.state == Coalesced)
    && receipt.intent == intent
    && receipt.scope == w.tasks[t].scope
    && receipt.target == w.tasks[t].target
    && receipt.run == Some(run)
  }

  predicate Reusable(w: World, t: TaskId, intent: Intent, run: RunId)
    requires t in w.tasks && run in w.runs
  {
    && w.runs[run].target == Some(w.tasks[t].target)
    && exists i :: 0 <= i < |w.receipts| && Matches(w, i, t, intent, run)
  }

  /** State, reason and bound run of the first receipt of a new request. */
  function Decide(w: World, t: TaskId, intent: Intent): (State, Reason, Option<RunId>)
    requires t in w.tasks
  {
    var guard := Guard(w.tasks[t]);
    if guard.Some? then (guard.value.0, guard.value.1, None)
    else if TaskUnconfirmed(w, t) then (Uncertain, AlreadyUnconfirmed, None)
    else if ActiveRuns(w, t) == {} then (Pending, ConfirmationPending, None)
    else
      assert exists a :: a in ActiveRuns(w, t);
      if exists a :: a in ActiveRuns(w, t) && ActiveRuns(w, t) == {a} && Reusable(w, t, intent, a) then
        var a :| a in ActiveRuns(w, t) && ActiveRuns(w, t) == {a} && Reusable(w, t, intent, a);
        assert forall b :: b in ActiveRuns(w, t) ==> b == a;
        (Coalesced, ActiveRunReused, Some(a))
      else (Uncertain, RunBindingAmbiguous, None)
  }

  function KeyHolder(w: World, t: TaskId, key: string): set<RequestId> {
    set q | q in w.requests && w.requests[q].task == t && w.requests[q].payload.key == key
  }

  function NewReceipt(w: World, q: RequestId, request: Request, decision: (State, Reason, Option<RunId>)): Receipt
    requires request.task in w.tasks
  {
    Receipt(q, request.task, request.payload.intent, decision.0, decision.1, decision.2,
            w.tasks[request.task].scope, w.tasks[request.task].target)
  }

  /** Reserving with a key that is taken: the same payload is replayed, another one conflicts. */
  function ReserveAgain(w: World, payload: Payload, q: RequestId): Reply
    requires q in w.requests
  {
    if w.requests[q].payload != payload || Latest(w.receipts, q).None? then Reply(w, KeyConflict)
    else Reply(w, Replayed(Latest(w.receipts, q).value))
  }

  /** Recording a new request with the receipt of its decision; a pending one may call the dispatcher. */
  function ReserveNew(w: World, t: TaskId, payload: Payload, id: RequestId): Reply
    requires t in w.tasks
  {
    var request := Request(t, payload);
    var receipt := NewReceipt(w, id, request, Decide(w, t, payload.intent));
    Reply(w.(requests := w.requests[id := request], receipts := w.receipts + [receipt],
             flights := if receipt.state == Pending
                        then w.flights[id := Flight(w.tasks[t].scope, RunsOf(w, t), Reserved)] else w.flights),
          Recorded(receipt))
  }

  /** The first transaction. */
  ghost function ApplyReserve(w: World, s: Step): Reply
    requires s.Reserve?
  {
    if !s.wellFormed || s.payload.expected < 1 then Reply(w, Invalid)
    else if s.task !in w.tasks then Reply(w, TaskMissing)
    else if q :| q in KeyHolder(w, s.task, s.payload.key) then ReserveAgain(w, s.payload, q)
    else if w.tasks[s.task].revision.None? || w.tasks[s.task].revision.value != s.payload.expected then
      Reply(w, StaleRevision)
    else if Decide(w, s.task, s.payload.intent).0 == Pending && !s.parametersOk then Reply(w, ParametersRefused)
    else if s.id in w.requests then Reply(w, Silent)
    else ReserveNew(w, s.task, s.payload, s.id)
  }

  /** State, reason and bound run of the receipt that records what a call came to. */
  function Conclude(w: World, t: TaskId, flight: Flight, result: Result): (State, Reason, Option<RunId>)
    requires t in w.tasks
  {
    if Guard(w.tasks[t]).Some? || w.tasks[t].scope != flight.scope then (Uncertain, TaskChanged, None)
    else
      match result
      case Raised => (Uncertain, ResultUnknown, None)
      case Nothing => (Uncertain, ExternalAckMissing, None)
      case Named(run) =>
        var known := run in w.runs && w.runs[run].task == t && w.runs[run].target.Some?;
        if known && w.runs[run].target.value != w.tasks[t].target then (Uncertain, TaskChanged, None)
        else if known && run !in flight.knownRuns && w.runs[run].status in {Queued, Running, Done} &&
                |ActiveRuns(w, t)| <= 1 then
          (Bound, LocalRunRecorded, Some(run))
        else (Uncertain, RunBindingAmbiguous, None)
  }

  /** The second transaction, which ends the dispatch. */
  function ApplyConfirm(w: World, s: Step): Reply
    requires s.Confirm?
  {
    if s.request !in w.flights || s.request !in w.requests || !w.flights[s.request].phase.Returned? ||
       w.requests[s.request].task !in w.tasks then Reply(w, Silent)
    else
      var request, flight := w.requests[s.request], w.flights[s.request];
      var receipt := NewReceipt(w, s.request, request, Conclude(w, request.task, flight, flight.phase.result));
      Reply(w.(receipts := w.receipts + [receipt], flights := w.flights - {s.request}), Recorded(receipt))
  }

  ghost function Apply(w: World, s: Step): Reply {
    match s
    case Reserve(_, _, _, _, _) => ApplyReserve(w, s)
    case StartCall(q) =>
      if q in w.flights && w.flights[q].phase.Reserved? then
        Reply(w.(flights := w.flights[q := w.flights[q].(phase := Calling)], calls := w.calls + [q]), Silent)
      else Reply(w, Silent)
    case ReturnCall(q, result) =>
      if q in w.flights && w.flights[q].phase.Calling? then
        Reply(w.(flights := w.flights[q := w.flights[q].(phase := Returned(result))]), Silent)
      else Reply(w, Silent)
    case Confirm(_) => ApplyConfirm(w, s)
    case Crash(q) => Reply(w.(flights := w.flights - {q}), Silent)
    case EditTask(t, facts) => Reply(w.(tasks := w.tasks[t := facts]), Silent)
    case InsertRun(r, t, status, captured) =>
      if r in w.runs || t !in w.tasks then Reply(w, Silent)
      else Reply(w.(runs := w.runs[r := RunRow(t, status, if captured then Some(w.tasks[t].target) else None)]), Silent)
    case SetRunStatus(r, status) =>
      if r !in w.runs then Reply(w, Silent)
      else Reply(w.(runs := w.runs[r := w.runs[r].(status := status)]), Silent)
  }

  function Start(): World {
    World(map[], map[], map[], [], map[], [])
  }

  ghost function Execute(w: World, steps: seq<Step>): World
    decreases |steps|
  {
    if steps == [] then w else Execute(Apply(w, steps[0]).world, steps[1..])
  }

  ghost predicate LeadsTo(steps: seq<Step>, w: World) {
    Execute(Start(), steps) == w
  }

  ghost predicate Reachable(w: World) {
    exists steps :: LeadsTo(steps, w)
  }
}
