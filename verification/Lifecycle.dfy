module Lifecycle {

  // Lifecycle bookkeeping over shared tables: handoffs, external executions, a leased
  // outbox and the managed runs they exclude. A request is compared with the revision of
  // its task and with what was stored under its key; the table triggers are guards of the
  // writes they watch. Time is an integer clock of seconds that never runs backwards.
  // Payload digests are modelled as the payloads.

  import opened Options

  type TaskId = nat
  type RunId = nat
  type ExecutionId = nat
  type HandoffId = nat
  type Name = nat
  type Token = nat

  const GRACE := 900

  datatype TaskState = Open | PlanOnly | Paused | Failed | Canceled | Done

  /** Whether work in an environment reaches live users. */
  datatype Environment = Environment(name: nat, live: bool)

  const NOBODY: nat := 0

  /** The next action of a task and who is to take it. */
  datatype Todo = Todo(kind: nat, actor: Option<Name>, text: Option<nat>, due: Option<int>)

  datatype Task = Task(
    state: TaskState, pausedByUser: bool, forbidden: bool, environment: Environment, onMainBranch: bool,
    owner: Option<Name>, todo: Todo, stage: nat, requiresDeploy: bool, deployProven: bool)

  datatype ExecutionStatus = Active | Lost | Finished | Broken | Abandoned

  datatype Execution = Execution(
    task: TaskId, executor: Name, thread: Name, turn: Name, status: ExecutionStatus, activity: int, ref: nat,
    handoff: Option<HandoffId>, finishedAt: Option<int>)

  datatype HandoffStatus = Offered | Accepted | Rejected | Resolved

  datatype Handoff = Handoff(
    task: TaskId, sender: Name, recipient: Name, deadline: int, manifest: nat, status: HandoffStatus,
    acceptedAt: Option<int>)

  datatype Kind =
    | HandoffOffered | HandoffAccepted | HandoffRejected | HandoffResolved | HandoffOverdue | StartOverdue
    | ExecutionLost

  datatype Subject = OfHandoff(handoff: HandoffId) | OfActivity(execution: ExecutionId, at: int)

  /** A notice is identified by its dedupe key. */
  datatype Notice = Notice(task: TaskId, subject: Subject, recipient: Name, kind: Kind)

  datatype Delivery = Waiting | Claimed(holder: Name, token: Token, until: int) | Delivered

  datatype Grant = Grant(notice: Notice, token: Token, at: int, until: int)

  datatype Ack = Ack(notice: Notice, token: Token, at: int)

  datatype RunStatus = Queued | Running | Succeeded | RunFailed | RunCanceled

  datatype Run = Run(task: TaskId, attempt: int, status: RunStatus, pid: Option<nat>)

  /** What a dispatcher remembers between reading the newest attempt and inserting the next. */
  datatype Plan = Plan(task: TaskId, attempt: int)

  datatype DueItem = StaleExecution(execution: ExecutionId, at: int) | OverdueOffer(handoff: HandoffId, deadline: int)
                   | OverdueStart(handoff: HandoffId, deadline: int)

  datatype Key = Chosen(name: nat) | Watchdog(due: set<DueItem>)

  /** The columns an amendment sets, each with its new value. */
  datatype Changes = Changes(
    owner: Option<Option<Name>>, environment: Option<Environment>, requiresDeploy: Option<bool>, kind: Option<nat>,
    actor: Option<Option<Name>>, text: Option<Option<nat>>, due: Option<Option<int>>, stage: Option<nat>)

  datatype Action =
    | Amend(changes: Changes)
    | Register(executor: Name, thread: Name, turn: Name, at: int, ref: nat, binding: Option<HandoffId>)
    | Activity(execution: ExecutionId, at: int, ref: nat)
    | Finish(execution: ExecutionId, outcome: ExecutionStatus, at: int)
    | Offer(recipient: Name, deadline: int, manifest: nat)
    | Accept(handoff: HandoffId, manifest: nat)
    | Reject(handoff: HandoffId, manifest: nat)
    | Resolve(handoff: HandoffId, completed: bool)
    | Claim(notice: Notice, seconds: int)
    | Acknowledge(notice: Notice, token: Token)
    | Reconcile

  datatype Request = Request(action: Action, expected: int, key: Key, actor: Name)

  datatype Result =
    | Recorded
    | Created(id: nat)
    | Lease(token: Token, until: int)
    | Reconciled(lost: set<ExecutionId>, overdue: set<HandoffId>, startOverdue: set<HandoffId>)

  datatype Response = Response(revision: nat, result: Result)

  datatype Stored = Stored(request: Request, response: Response)

  datatype RequestId = RequestId(task: TaskId, key: Key)

  datatype Db = Db(
    tasks: map<TaskId, Task>, versions: map<TaskId, nat>, requests: map<RequestId, Stored>,
    executions: map<ExecutionId, Execution>, handoffs: map<HandoffId, Handoff>, outbox: map<Notice, Delivery>,
    grants: seq<Grant>, acks: seq<Ack>, runs: map<RunId, Run>, plans: map<nat, Plan>, clock: int)

  datatype Error =
    | Missing | Invalid | StaleRevision | IdempotencyConflict | Forbidden | Conflict | IdentityMismatch
    | StaleReceipt | ManifestMismatch | StaleAck

  datatype Handled = Handled(db: Db, result: Result) | Failure(error: Error)

  // --------------------------------------------------------------- queries

  predicate Unfinished(status: ExecutionStatus) {
    status == Active || status == Lost
  }

  predicate ActiveRun(status: RunStatus) {
    status == Queued || status == Running
  }

  predicate HasUnfinishedExecution(db: Db, t: TaskId) {
    exists e :: e in db.executions && db.executions[e].task == t && Unfinished(db.executions[e].status)
  }

  predicate HasUnresolvedHandoff(db: Db, t: TaskId) {
    exists h :: h in db.handoffs && db.handoffs[h].task == t && db.handoffs[h].status != Resolved
  }

  predicate HasActiveRun(db: Db, t: TaskId) {
    exists r :: r in db.runs && db.runs[r].task == t && ActiveRun(db.runs[r].status)
  }

  predicate HasAttempt(db: Db, t: TaskId, attempt: int) {
    exists r :: r in db.runs && db.runs[r].task == t && db.runs[r].attempt == attempt
  }

  predicate HasNewerRun(db: Db, t: TaskId, attempt: int) {
    exists r :: r in db.runs && db.runs[r].task == t && db.runs[r].attempt > attempt
  }

  predicate Registered(db: Db, t: TaskId, executor: Name, thread: Name, turn: Name) {
    exists e :: e in db.executions && db.executions[e].task == t && db.executions[e].executor == executor &&
                db.executions[e].thread == thread && db.executions[e].turn == turn
  }

  predicate HasExecution(db: Db, h: HandoffId) {
    exists e :: e in db.executions && db.executions[e].handoff == Some(h)
  }

  predicate TokenUsed(db: Db, token: Token) {
    exists i :: 0 <= i < |db.grants| && db.grants[i].token == token
  }

  predicate Executable(task: Task) {
    !task.pausedByUser && !task.forbidden && (task.state == Open || task.state == PlanOnly)
  }

  predicate Production(task: Task) {
    task.environment.live || task.onMainBranch
  }

  predicate MayRun(task: Task) {
    !task.pausedByUser && !task.forbidden && !Production(task) && task.state == Open
  }

  // -------------------------------------------------------------- handlers

  /** Only an amendment moves a revision inside its handler. */
  ghost predicate KeepsVersions(db: Db, handled: Handled) {
    handled.Handled? ==> handled.db.versions == db.versions && handled.db.requests == db.requests
  }

  /** A handler never writes stored requests, and deliveries only begin to wait. */
  ghost predicate LeavesLeases(db: Db, handled: Handled) {
    handled.Handled? ==>
      var db' := handled.db;
      && db'.requests == db.requests && db'.grants == db.grants && db'.acks == db.acks && db'.clock == db.clock
      && (forall n :: n in db.outbox ==> n in db'.outbox && db'.outbox[n] == db.outbox[n])
      && (forall n :: n in db'.outbox && n !in db.outbox ==> db'.outbox[n] == Waiting)
  }

  /** Executions and handoffs stay with their task. */
  ghost predicate KeepsTasks(db: Db, handled: Handled) {
    handled.Handled? ==>
      (forall e :: e in db.executions ==>
         e in handled.db.executions && handled.db.executions[e].task == db.executions[e].task) &&
      (forall h :: h in db.handoffs ==>
         h in handled.db.handoffs && handled.db.handoffs[h].task == db.handoffs[h].task)
  }

  /** A notice already in the outbox is left as it is. */
  function Notify(outbox: map<Notice, Delivery>, notice: Notice): map<Notice, Delivery> {
    if notice in outbox then outbox else outbox[notice := Waiting]
  }

  function Or<T>(change: Option<T>, was: T): T {
    if change.Some? then change.value else was
  }

  /** Somebody is named with something to do, or nobody with nothing. */
  predicate Coherent(todo: Todo) {
    if todo.kind == NOBODY then todo.actor.None? && todo.text.None? && todo.due.None?
    else todo.actor.Some? && todo.text.Some?
  }

  function AmendedTodo(todo: Todo, c: Changes): Todo {
    Todo(Or(c.kind, todo.kind), Or(c.actor, todo.actor), Or(c.text, todo.text), Or(c.due, todo.due))
  }

  function Amended(task: Task, c: Changes): Task {
    task.(owner := Or(c.owner, task.owner), environment := Or(c.environment, task.environment),
          requiresDeploy := Or(c.requiresDeploy, task.requiresDeploy), todo := AmendedTodo(task.todo, c),
          stage := Or(c.stage, task.stage))
  }

  /** Columns of the task row itself; the stage is kept beside it. */
  predicate Native(c: Changes) {
    c.owner.Some? || c.environment.Some? || c.requiresDeploy.Some? || c.kind.Some? || c.actor.Some? ||
    c.text.Some? || c.due.Some?
  }

  /** Changing columns of a task row fires the triggers that raise its revision, `bump` times. */
  function HandleAmend(db: Db, t: TaskId, c: Changes, bump: nat): (handled: Handled)
    requires t in db.tasks && t in db.versions && bump >= 1
    ensures KeepsTasks(db, handled)
    ensures LeavesLeases(db, handled)
    ensures handled.Handled? ==> t in handled.db.versions && handled.db.versions[t] >= db.versions[t]
  {
    var task := db.tasks[t];
    if !Executable(task) then Failure(Forbidden)
    else if !Native(c) && c.stage.None? then Failure(Invalid)
    else if (c.owner.Some? || c.environment.Some?) && HasActiveRun(db, t) then Failure(Conflict)
    else if task.requiresDeploy && c.requiresDeploy == Some(false) then Failure(Forbidden)
    else if !Coherent(AmendedTodo(task.todo, c)) then Failure(Invalid)
    else
      Handled(db.(tasks := db.tasks[t := Amended(task, c)],
                  versions := db.versions[t := db.versions[t] + if Native(c) then bump else 0]), Recorded)
  }

  function BindingError(db: Db, t: TaskId, a: Action): Option<Error>
    requires a.Register?
  {
    match a.binding
    case None => None
    case Some(h) =>
      if h !in db.handoffs || db.handoffs[h].task != t then Some(Missing)
      else if db.handoffs[h].status != Accepted || db.handoffs[h].recipient != a.executor then Some(IdentityMismatch)
      else if db.handoffs[h].acceptedAt.None? || a.at < db.handoffs[h].acceptedAt.value then Some(Invalid)
      else None
  }

  function HandleRegister(db: Db, t: TaskId, a: Action, id: nat): (handled: Handled)
    requires t in db.tasks && a.Register?
    ensures KeepsTasks(db, handled)
    ensures LeavesLeases(db, handled)
    ensures KeepsVersions(db, handled)
  {
    if !Executable(db.tasks[t]) then Failure(Forbidden)
    else if HasActiveRun(db, t) then Failure(Conflict)
    else if a.at > db.clock then Failure(Invalid)
    else if BindingError(db, t, a).Some? then Failure(BindingError(db, t, a).value)
    else if Registered(db, t, a.executor, a.thread, a.turn) then Failure(Conflict)
    else if id in db.executions then Failure(Conflict)
    else
      var row := Execution(t, a.executor, a.thread, a.turn, Active, a.at, a.ref, a.binding, None);
      Handled(db.(executions := db.executions[id := row]), Created(id))
  }

  /** The execution a request is about, if it is still unfinished. */
  function ExecutionError(db: Db, t: TaskId, e: ExecutionId): Option<Error> {
    if e !in db.executions || db.executions[e].task != t then Some(Missing)
    else if !Unfinished(db.executions[e].status) then Some(Conflict)
    else None
  }

  function HandleActivity(db: Db, t: TaskId, a: Action, actor: Name): (handled: Handled)
    requires t in db.tasks && a.Activity?
    ensures KeepsTasks(db, handled)
    ensures LeavesLeases(db, handled)
    ensures KeepsVersions(db, handled)
  {
    if !Executable(db.tasks[t]) then Failure(Forbidden)
    else if ExecutionError(db, t, a.execution).Some? then Failure(ExecutionError(db, t, a.execution).value)
    else
      var row := db.executions[a.execution];
      if actor != row.executor then Failure(IdentityMismatch)
      else if a.at <= row.activity || a.at > db.clock || a.ref == row.ref then Failure(Invalid)
      else
        var reported := row.(status := Active, activity := a.at, ref := a.ref);
        Handled(db.(executions := db.executions[a.execution := reported]), Recorded)
  }

  function HandleFinish(db: Db, t: TaskId, a: Action, actor: Name): (handled: Handled)
    requires t in db.tasks && a.Finish?
    ensures KeepsTasks(db, handled)
    ensures LeavesLeases(db, handled)
    ensures KeepsVersions(db, handled)
  {
    if ExecutionError(db, t, a.execution).Some? then Failure(ExecutionError(db, t, a.execution).value)
    else
      var row := db.executions[a.execution];
      if actor != row.executor && db.tasks[t].owner != Some(actor) then Failure(IdentityMismatch)
      else if Unfinished(a.outcome) then Failure(Invalid)
      else if a.at < row.activity || a.at > db.clock then Failure(Invalid)
      else Handled(db.(executions := db.executions[a.execution := row.(status := a.outcome, finishedAt := Some(a.at))]),
                   Recorded)
  }

  function HandleOffer(db: Db, t: TaskId, a: Action, actor: Name, id: nat): (handled: Handled)
    requires t in db.tasks && a.Offer?
    ensures KeepsTasks(db, handled)
    ensures LeavesLeases(db, handled)
    ensures KeepsVersions(db, handled)
  {
    if !Executable(db.tasks[t]) then Failure(Forbidden)
    else if a.recipient == actor || a.deadline <= db.clock then Failure(Invalid)
    else if id in db.handoffs then Failure(Conflict)
    else
      Handled(db.(handoffs := db.handoffs[id := Handoff(t, actor, a.recipient, a.deadline, a.manifest, Offered, None)],
                  outbox := Notify(db.outbox, Notice(t, OfHandoff(id), a.recipient, HandoffOffered))),
              Created(id))
  }

  function HandleReceipt(db: Db, t: TaskId, h: HandoffId, manifest: nat, actor: Name, accepted: bool)
    : (handled: Handled)
    requires t in db.tasks
    ensures KeepsTasks(db, handled)
    ensures LeavesLeases(db, handled)
    ensures KeepsVersions(db, handled)
  {
    if h !in db.handoffs || db.handoffs[h].task != t then Failure(Missing)
    else
      var row := db.handoffs[h];
      if accepted && !Executable(db.tasks[t]) then Failure(Forbidden)
      else if actor != row.recipient then Failure(IdentityMismatch)
      else if row.status != Offered || row.deadline <= db.clock then Failure(StaleReceipt)
      else if manifest != row.manifest then Failure(ManifestMismatch)
      else
        var answered := if accepted then row.(status := Accepted, acceptedAt := Some(db.clock))
                        else row.(status := Rejected);
        var kind := if accepted then HandoffAccepted else HandoffRejected;
        Handled(db.(handoffs := db.handoffs[h := answered],
                    outbox := Notify(db.outbox, Notice(t, OfHandoff(h), row.sender, kind))), Recorded)
  }

  function HandleResolve(db: Db, t: TaskId, a: Action, actor: Name): (handled: Handled)
    requires a.Resolve?
    ensures KeepsTasks(db, handled)
    ensures LeavesLeases(db, handled)
    ensures KeepsVersions(db, handled)
  {
    if a.handoff !in db.handoffs || db.handoffs[a.handoff].task != t then Failure(Missing)
    else
      var row := db.handoffs[a.handoff];
      if actor != row.sender then Failure(IdentityMismatch)
      else if row.status == Resolved then Failure(Conflict)
      else if a.completed && row.status != Accepted then Failure(Invalid)
      else
        Handled(db.(handoffs := db.handoffs[a.handoff := row.(status := Resolved)],
                    outbox := Notify(db.outbox, Notice(t, OfHandoff(a.handoff), row.recipient, HandoffResolved))),
                Recorded)
  }

  function HandleClaim(db: Db, t: TaskId, a: Action, actor: Name, token: Token): (handled: Handled)
    requires a.Claim?
    ensures KeepsTasks(db, handled)
    ensures KeepsVersions(db, handled)
  {
    if !(1 <= a.seconds <= 300) then Failure(Invalid)
    else if a.notice !in db.outbox || a.notice.task != t then Failure(Missing)
    else if db.outbox[a.notice].Delivered? ||
            (db.outbox[a.notice].Claimed? && db.outbox[a.notice].until > db.clock) then Failure(Conflict)
    else
      var until := db.clock + a.seconds;
      Handled(db.(outbox := db.outbox[a.notice := Claimed(actor, token, until)],
                  grants := db.grants + [Grant(a.notice, token, db.clock, until)]),
              Lease(token, until))
  }

  predicate Acceptable(db: Db, notice: Notice, actor: Name, token: Token) {
    notice in db.outbox && db.outbox[notice].Claimed? && db.outbox[notice].holder == actor &&
    db.outbox[notice].token == token && db.outbox[notice].until > db.clock
  }

  function HandleAcknowledge(db: Db, t: TaskId, a: Action, actor: Name): (handled: Handled)
    requires a.Acknowledge?
    ensures KeepsTasks(db, handled)
    ensures KeepsVersions(db, handled)
  {
    if a.notice !in db.outbox || a.notice.task != t then Failure(Missing)
    else if !Acceptable(db, a.notice, actor, a.token) then Failure(StaleAck)
    else Handled(db.(outbox := db.outbox[a.notice := Delivered], acks := db.acks + [Ack(a.notice, a.token, db.clock)]),
                 Recorded)
  }

  // ------------------------------------------------------- reconciliation

  predicate IsStale(db: Db, e: ExecutionId) {
    e in db.executions && db.executions[e].status == Active && db.executions[e].activity + GRACE < db.clock
  }

  predicate OfferLapsed(db: Db, h: HandoffId) {
    h in db.handoffs && db.handoffs[h].status == Offered && db.handoffs[h].deadline < db.clock
  }

  predicate StartLapsed(db: Db, h: HandoffId) {
    h in db.handoffs && db.handoffs[h].status == Accepted && db.handoffs[h].deadline < db.clock && !HasExecution(db, h)
  }

  function StaleOf(db: Db, t: TaskId): set<ExecutionId> {
    set e | e in db.executions && db.executions[e].task == t && IsStale(db, e)
  }

  function LapsedOffersOf(db: Db, t: TaskId): set<HandoffId> {
    set h | h in db.handoffs && db.handoffs[h].task == t && OfferLapsed(db, h)
  }

  function LapsedStartsOf(db: Db, t: TaskId): set<HandoffId> {
    set h | h in db.handoffs && db.handoffs[h].task == t && StartLapsed(db, h)
  }

  function LostNotice(db: Db, e: ExecutionId): Notice
    requires e in db.executions && db.executions[e].task in db.tasks
  {
    var row := db.executions[e];
    var owner := db.tasks[row.task].owner;
    Notice(row.task, OfActivity(e, row.activity), if owner.Some? then owner.value else row.executor, ExecutionLost)
  }

  function OverdueNotice(db: Db, h: HandoffId): Notice
    requires h in db.handoffs
  {
    Notice(db.handoffs[h].task, OfHandoff(h), db.handoffs[h].sender, HandoffOverdue)
  }

  function StartNotice(db: Db, h: HandoffId): Notice
    requires h in db.handoffs
  {
    Notice(db.handoffs[h].task, OfHandoff(h), db.handoffs[h].recipient, StartOverdue)
  }

  /** The notices one reconciliation of a task makes sure of. */
  function DueNotices(db: Db, t: TaskId): set<Notice>
    requires t in db.tasks
  {
    (set e | e in StaleOf(db, t) :: LostNotice(db, e)) +
    (set h | h in LapsedOffersOf(db, t) :: OverdueNotice(db, h)) +
    (set h | h in LapsedStartsOf(db, t) :: StartNotice(db, h))
  }

  function NotifyAll(outbox: map<Notice, Delivery>, notices: set<Notice>): map<Notice, Delivery> {
    map n | n in outbox.Keys + notices :: if n in outbox then outbox[n] else Waiting
  }

  function LoseStale(db: Db, t: TaskId): map<ExecutionId, Execution> {
    map e | e in db.executions :: if e in StaleOf(db, t) then db.executions[e].(status := Lost) else db.executions[e]
  }

  function HandleReconcile(db: Db, t: TaskId): (handled: Handled)
    requires t in db.tasks
    ensures KeepsTasks(db, handled)
    ensures LeavesLeases(db, handled)
    ensures KeepsVersions(db, handled)
  {
    Handled(db.(executions := LoseStale(db, t), outbox := NotifyAll(db.outbox, DueNotices(db, t))),
            Reconciled(StaleOf(db, t), LapsedOffersOf(db, t), LapsedStartsOf(db, t)))
  }

  function Handle(db: Db, t: TaskId, q: Request, id: nat, bump: nat): (handled: Handled)
    requires t in db.tasks && t in db.versions && bump >= 1
    ensures KeepsTasks(db, handled)
    ensures handled.Handled? ==> t in handled.db.versions && handled.db.versions[t] >= db.versions[t]
  {
    match q.action
    case Amend(c) => HandleAmend(db, t, c, bump)
    case Register(_, _, _, _, _, _) => HandleRegister(db, t, q.action, id)
    case Activity(_, _, _) => HandleActivity(db, t, q.action, q.actor)
    case Finish(_, _, _) => HandleFinish(db, t, q.action, q.actor)
    case Offer(_, _, _) => HandleOffer(db, t, q.action, q.actor, id)
    case Accept(h, manifest) => HandleReceipt(db, t, h, manifest, q.actor, true)
    case Reject(h, manifest) => HandleReceipt(db, t, h, manifest, q.actor, false)
    case Resolve(_, _) => HandleResolve(db, t, q.action, q.actor)
    case Claim(_, _) => HandleClaim(db, t, q.action, q.actor, id)
    case Acknowledge(_, _) => HandleAcknowledge(db, t, q.action, q.actor)
    case Reconcile => HandleReconcile(db, t)
  }

  // ------------------------------------------------------------------ apply

  datatype Answer = Fresh(response: Response) | Replayed(response: Response) | Rejection(error: Error)

  datatype Reply = Reply(db: Db, answer: Answer)

  /** The revision moves once more unless a trigger has already moved it. */
  function Seal(db: Db, t: TaskId, q: Request, result: Result): Reply
    requires t in db.versions
  {
    var revision := if db.versions[t] == q.expected then db.versions[t] + 1 else db.versions[t];
    var response := Response(revision, result);
    Reply(db.(versions := db.versions[t := revision],
              requests := db.requests[RequestId(t, q.key) := Stored(q, response)]),
          Fresh(response))
  }

  /** One request. `id` is the identifier or token drawn for it; `bump` counts trigger firings. */
  function Apply(db: Db, t: TaskId, q: Request, wellFormed: bool, id: nat, bump: nat): Reply
    requires bump >= 1
  {
    if !wellFormed then Reply(db, Rejection(Invalid))
    else if RequestId(t, q.key) in db.requests then
      if db.requests[RequestId(t, q.key)].request == q then
        Reply(db, Replayed(db.requests[RequestId(t, q.key)].response))
      else Reply(db, Rejection(IdempotencyConflict))
    else if t !in db.tasks || t !in db.versions then Reply(db, Rejection(Missing))
    else if db.versions[t] != q.expected then Reply(db, Rejection(StaleRevision))
    else
      match Handle(db, t, q, id, bump)
      case Failure(error) => Reply(db, Rejection(error))
      case Handled(db', result) => Seal(db', t, q, result)
  }

  // ------------------------------------------------------------------ steps

  datatype Step =
    | Tick(seconds: nat)
    | NewTask(task: TaskId, row: Task)
    | EditTask(task: TaskId, row: Task, bump: nat)
    | Call(task: TaskId, request: Request, wellFormed: bool, id: nat, bump: nat)
    | PlanAttempt(plan: nat, task: TaskId, newest: Option<RunId>)
    | Enqueue(plan: nat, run: RunId)
    | SetPid(run: RunId, pid: nat)
    | ClaimRun(run: RunId, pid: nat)
    | FinishRun(run: RunId, pid: nat, attempt: int, succeeded: bool)
    | OverwriteRun(run: RunId, status: RunStatus)

  predicate IsNewest(db: Db, t: TaskId, newest: Option<RunId>) {
    match newest
    case None => forall r :: r in db.runs ==> db.runs[r].task != t
    case Some(n) => n in db.runs && db.runs[n].task == t && !HasNewerRun(db, t, db.runs[n].attempt)
  }

  /** The trigger on completion, and deployment evidence where it is required. */
  predicate MayComplete(db: Db, t: TaskId, row: Task) {
    !HasUnresolvedHandoff(db, t) && !HasUnfinishedExecution(db, t) && (row.requiresDeploy ==> row.deployProven)
  }

  /** The trigger, the unique attempt and the one-active-run index together. */
  predicate MayEnqueue(db: Db, t: TaskId, attempt: int) {
    !HasUnfinishedExecution(db, t) && !HasUnresolvedHandoff(db, t) && !HasAttempt(db, t, attempt) &&
    !HasActiveRun(db, t)
  }

  predicate OfRunTable(s: Step) {
    !s.Tick? && !s.NewTask? && !s.EditTask? && !s.Call?
  }

  /** Steps of the table of managed runs, and of those about to insert into it. */
  function RunStep(db: Db, s: Step): (db': Db)
    requires OfRunTable(s)
    ensures db' == db.(runs := db'.runs, plans := db'.plans)
  {
    match s
    case PlanAttempt(p, t, newest) =>
      if !IsNewest(db, t, newest) then db
      else db.(plans := db.plans[p := Plan(t, if newest.Some? then db.runs[newest.value].attempt + 1 else 1)])
    case Enqueue(p, r) =>
      if p !in db.plans || r in db.runs || !MayEnqueue(db, db.plans[p].task, db.plans[p].attempt) then db
      else db.(runs := db.runs[r := Run(db.plans[p].task, db.plans[p].attempt, Queued, None)])
    case SetPid(r, pid) =>
      if r !in db.runs then db else db.(runs := db.runs[r := db.runs[r].(pid := Some(pid))])
    case ClaimRun(r, pid) =>
      if r !in db.runs || db.runs[r].task !in db.tasks || !MayRun(db.tasks[db.runs[r].task]) ||
         db.runs[r].status != Queued || (db.runs[r].pid.Some? && db.runs[r].pid.value != pid) ||
         HasNewerRun(db, db.runs[r].task, db.runs[r].attempt) then db
      else db.(runs := db.runs[r := db.runs[r].(status := Running, pid := Some(pid))])
    case FinishRun(r, pid, attempt, succeeded) =>
      if r !in db.runs || db.runs[r].task !in db.tasks || !MayRun(db.tasks[db.runs[r].task]) ||
         db.runs[r].status != Running || db.runs[r].pid != Some(pid) || db.runs[r].attempt != attempt ||
         HasNewerRun(db, db.runs[r].task, attempt) then db
      else db.(runs := db.runs[r := db.runs[r].(status := if succeeded then Succeeded else RunFailed)])
    case OverwriteRun(r, status) =>
      if r !in db.runs || !(status == RunFailed || status == RunCanceled) then db
      else db.(runs := db.runs[r := db.runs[r].(status := status)])
  }

  /** A claim that draws a token drawn before is not a step of any run. */
  function TakeCall(db: Db, s: Step): Db
    requires s.Call?
  {
    if s.request.action.Claim? && TokenUsed(db, s.id) then db
    else Apply(db, s.task, s.request, s.wellFormed, s.id, s.bump + 1).db
  }

  /** One atomic step of any process. A step whose guard fails changes nothing. */
  function Next(db: Db, s: Step): Db {
    match s
    case Tick(seconds) => db.(clock := db.clock + seconds)
    case NewTask(t, row) =>
      if t in db.tasks || t in db.versions then db
      else db.(tasks := db.tasks[t := row], versions := db.versions[t := 0])
    case EditTask(t, row, bump) =>
      if t !in db.tasks || t !in db.versions then db
      else if row.state == Done && db.tasks[t].state != Done && !MayComplete(db, t, row) then db
      else db.(tasks := db.tasks[t := row], versions := db.versions[t := db.versions[t] + bump + 1])
    case Call(_, _, _, _, _) => TakeCall(db, s)
    case _ => RunStep(db, s)
  }

  lemma NextOfCall(db: Db, s: Step)
    requires s.Call?
    ensures Next(db, s) == TakeCall(db, s)
  {
  }

  lemma NextOfRunTable(db: Db, s: Step)
    requires OfRunTable(s)
    ensures Next(db, s) == RunStep(db, s)
  {
  }

  /** What the steps that are not requests may write. */
  lemma StepFrame(db: Db, s: Step)
    requires !s.Call?
    ensures var db' := Next(db, s);
            && db' == db.(tasks := db'.tasks, versions := db'.versions, runs := db'.runs, plans := db'.plans,
                          clock := db'.clock)
            && db'.clock >= db.clock && (!s.Tick? ==> db'.clock == db.clock)
            && (forall t :: t in db.versions ==> t in db'.versions && db'.versions[t] >= db.versions[t])
  {
    if OfRunTable(s) { NextOfRunTable(db, s); }
  }

  function Start(clock: int): Db {
    Db(map[], map[], map[], map[], map[], map[], [], [], map[], map[], clock)
  }

  function Execute(db: Db, steps: seq<Step>): Db
    decreases |steps|
  {
    if steps == [] then db else Execute(Next(db, steps[0]), steps[1..])
  }

  predicate LeadsTo(clock: int, steps: seq<Step>, db: Db) {
    Execute(Start(clock), steps) == db
  }

  ghost predicate Reachable(db: Db) {
    exists clock, steps :: LeadsTo(clock, steps, db)
  }
}
