/** The lifecycle states of the core store and its three transition tables. */
module CoreModels {

  type TaskId = nat
  type SessionId = nat
  type RunId = nat
  type CheckpointId = nat

  datatype TaskState = Draft | Ready | Running | Blocked | ReviewPending | Done | Cancelled
  datatype SessionState = Created | Active | Quiescing | Checkpointed | Closed
  datatype RunState = Planned | Executing | Succeeded | Failed | Interrupted | Unknown

  function TaskTargets(current: TaskState): set<TaskState> {
    match current
    case Draft => {Ready, Cancelled}
    case Ready => {Running, Cancelled}
    case Running => {Blocked, ReviewPending, Cancelled}
    case Blocked => {Ready, Cancelled}
    case ReviewPending => {Done, Ready, Cancelled}
    case Done => {}
    case Cancelled => {}
  }

  function SessionTargets(current: SessionState): set<SessionState> {
    match current
    case Created => {Active, Closed}
    case Active => {Quiescing}
    case Quiescing => {Checkpointed}
    case Checkpointed => {Closed}
    case Closed => {}
  }

  /** Unknown is an observation about an external effect, not permission to retry it. */
  function RunTargets(current: RunState): set<RunState> {
    match current
    case Planned => {Executing, Interrupted}
    case Executing => {Succeeded, Failed, Interrupted, Unknown}
    case Unknown => {Succeeded, Failed}
    case Succeeded => {}
    case Failed => {}
    case Interrupted => {}
  }

  predicate IsOpen(state: SessionState) {
    state == Created || state == Active || state == Quiescing
  }

  predicate InFlight(state: RunState) {
    state == Planned || state == Executing
  }

  predicate Unresolved(state: RunState) {
    InFlight(state) || state == Unknown
  }

  /** Text the store treats as absent: empty, or white space only. */
  predicate Blank(text: string) {
    forall c <- text :: c in {' ', '\t', '\n', '\r'}
  }
}
