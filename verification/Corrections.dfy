module Corrections {

  // Display corrections over native tasks. Triggers keep one version row a task, through
  // edits, deletions, renames and re-insertions; an accepted correction is appended to an
  // immutable log and folded into a stored projection of overrides, which is shown only
  // while the native row is the one the correction was made against.
  // Canonical JSON is modelled as the value it encodes, identifiers as fresh numbers.

  import opened Options

  type TaskId = nat
  type CorrectionId = nat
  type Key = nat
  type Text = string

  datatype Field = Reason | NextAction

  datatype Owner = NoOne | User | External | Agent

  /** The columns of a task that count as native facts; `reportable` stands for its state and origin. */
  datatype Native = Native(reason: Text, action: Text, owner: Owner, sensitive: bool, reportable: bool, rest: nat)

  datatype Version = Version(revision: nat, basis: nat, present: bool, native: Native)

  datatype Override = Override(value: Text, correction: CorrectionId)

  datatype Projection = Projection(revision: nat, basis: nat, native: Native, overrides: map<Field, Override>)

  datatype Payload = Payload(
    key: Key, expected: int, changes: map<Field, Text>, observed: int, reviewed: int, note: nat)

  datatype Correction = Correction(
    id: CorrectionId, task: TaskId, revision: nat, payload: Payload, was: map<Field, Option<Text>>,
    baseRevision: nat, baseBasis: nat, baseNative: Native)

  datatype Report = Report(task: TaskId, revision: nat, key: Key, expected: int, baseBasis: nat)

  datatype Store = Store(
    tasks: map<TaskId, Native>, versions: map<TaskId, Version>, projections: map<TaskId, Projection>,
    corrections: seq<Correction>, reports: seq<Report>)

  datatype Refusal =
    | Invalid | TaskMissing | KeyConflict | BookkeepingMissing | DescriptionDamaged | RevisionBehindAudit
    | RevisionBehindReport | Stale | SourceTooLate | VersionMoved | IdentityTaken | Sensitive | NotReportable
    | NoUserAction

  datatype Answer =
    | Silent
    | Refused(refusal: Refusal)
    | Corrected(correction: Correction)
    | Reported(report: Report)

  datatype Reply = Reply(store: Store, answer: Answer)

  datatype Step =
    | Insert(task: TaskId, native: Native)
    | Update(task: TaskId, native: Native)
    | Delete(task: TaskId)
    | Rename(task: TaskId, target: TaskId)
    | Correct(
        task: TaskId, payload: Payload, wellFormed: bool, id: CorrectionId, received: int,
        declared: map<Field, Text>)
    | Declare(task: TaskId, key: Key, expected: int, running: bool)

  // ---------------------------------------------------------------- triggers

  /** The row a task gets when it appears: the first version, or one past the last it had. */
  function Appear(versions: map<TaskId, Version>, t: TaskId, native: Native): Version {
    if t in versions then Version(versions[t].revision + 1, versions[t].revision + 1, true, native)
    else Version(1, 1, true, native)
  }

  function Disappear(version: Version): Version {
    version.(revision := version.revision + 1, basis := version.revision + 1, present := false)
  }

  /** Any write raises the revision; only a changed native column moves the basis. */
  function Touch(version: Version, was: Native, native: Native): Version {
    Version(version.revision + 1, if native != was then version.revision + 1 else version.basis, true, native)
  }

  function InsertTask(store: Store, t: TaskId, native: Native): Store {
    if t in store.tasks then store
    else store.(tasks := store.tasks[t := native], versions := store.versions[t := Appear(store.versions, t, native)])
  }

  function UpdateTask(store: Store, t: TaskId, native: Native): Store {
    if t !in store.tasks then store
    else
      store.(tasks := store.tasks[t := native],
             versions := if t in store.versions
                         then store.versions[t := Touch(store.versions[t], store.tasks[t], native)] else store.versions)
  }

  function DeleteTask(store: Store, t: TaskId): Store {
    if t !in store.tasks then store
    else
      store.(tasks := store.tasks - {t},
             versions := if t in store.versions then store.versions[t := Disappear(store.versions[t])]
                         else store.versions)
  }

  /** A changed identifier is a disappearance and an appearance in one statement. */
  function RenameTask(store: Store, t: TaskId, u: TaskId): Store {
    if t !in store.tasks || u in store.tasks then store
    else InsertTask(DeleteTask(store, t), u, store.tasks[t])
  }

  // ----------------------------------------------------------------- queries

  predicate CorrectionOf(store: Store, t: TaskId, i: int) {
    0 <= i < |store.corrections| && store.corrections[i].task == t
  }

  predicate ReportOf(store: Store, t: TaskId, i: int) {
    0 <= i < |store.reports| && store.reports[i].task == t
  }

  predicate HasCorrection(store: Store, t: TaskId) {
    exists i :: 0 <= i < |store.corrections| && CorrectionOf(store, t, i)
  }

  predicate CorrectionKnown(store: Store, id: CorrectionId) {
    exists i :: 0 <= i < |store.corrections| && store.corrections[i].id == id
  }

  /** The first correction of a task under a key. */
  function PriorCorrection(corrections: seq<Correction>, t: TaskId, key: Key): (prior: Option<Correction>)
    ensures prior.Some? ==> prior.value in corrections && prior.value.task == t && prior.value.payload.key == key
    ensures prior.None? ==> forall c :: c in corrections ==> c.task != t || c.payload.key != key
  {
    if corrections == [] then None
    else if corrections[0].task == t && corrections[0].payload.key == key then Some(corrections[0])
    else PriorCorrection(corrections[1..], t, key)
  }

  function PriorReport(reports: seq<Report>, t: TaskId, key: Key): (prior: Option<Report>)
    ensures prior.Some? ==> prior.value in reports && prior.value.task == t && prior.value.key == key
    ensures prior.None? ==> forall r :: r in reports ==> r.task != t || r.key != key
  {
    if reports == [] then None
    else if reports[0].task == t && reports[0].key == key then Some(reports[0])
    else PriorReport(reports[1..], t, key)
  }

  /** The version of a task, if its row is present, ordered and about the native row as it is. */
  predicate VersionTrusted(store: Store, t: TaskId)
    requires t in store.tasks
  {
    t in store.versions && store.versions[t].present && 1 <= store.versions[t].basis <= store.versions[t].revision &&
    store.versions[t].native == store.tasks[t]
  }

  /** The newest correction of a task is the one its projection was last written for. */
  predicate ProjectionMatches(store: Store, t: TaskId)
    requires t in store.projections
  {
    && (exists i :: 0 <= i < |store.corrections| && CorrectionOf(store, t, i) &&
                    store.corrections[i].revision == store.projections[t].revision)
    && (forall i :: 0 <= i < |store.corrections| && CorrectionOf(store, t, i) ==>
                    store.corrections[i].revision <= store.projections[t].revision)
  }

  /** The damage checks that precede every write, in their order. */
  function Bookkeeping(store: Store, t: TaskId): Option<Refusal>
    requires t in store.tasks
  {
    if !VersionTrusted(store, t) then Some(BookkeepingMissing)
    else if HasCorrection(store, t) && (t !in store.projections || !ProjectionMatches(store, t)) then
        Some(DescriptionDamaged)
    else if t in store.projections && !HasCorrection(store, t) then Some(DescriptionDamaged)
    else if exists i :: 0 <= i < |store.corrections| && CorrectionOf(store, t, i) &&
                        store.corrections[i].revision > store.versions[t].revision
      then Some(RevisionBehindAudit)
    else if exists i :: 0 <= i < |store.reports| && ReportOf(store, t, i) &&
                        store.reports[i].revision > store.versions[t].revision
      then Some(RevisionBehindReport)
    else None
  }

  // -------------------------------------------------------------- projection

  function NativeText(native: Native, f: Field): Option<Text> {
    var text := match f case Reason => native.reason case NextAction => native.action;
    if text == "" then None else Some(text)
  }

  /** What a reviewed record declares for a field stands before the native text. */
  function Base(native: Native, declared: map<Field, Text>, f: Field): Option<Text> {
    if f in declared then Some(declared[f]) else NativeText(native, f)
  }

  predicate ProjectionCurrent(store: Store, t: TaskId)
    requires t in store.tasks && t in store.projections
  {
    VersionTrusted(store, t) && store.projections[t].basis == store.versions[t].basis &&
    store.projections[t].native == store.tasks[t]
  }

  /** The text shown for a field of a task. */
  function Shown(store: Store, t: TaskId, declared: map<Field, Text>, f: Field): Option<Text>
    requires t in store.tasks
  {
    var base := Base(store.tasks[t], declared, f);
    if t !in store.projections then base
    else if !ProjectionCurrent(store, t) then NativeText(store.tasks[t], f)
    else
      var overrides := store.projections[t].overrides;
      if f in overrides && CorrectionKnown(store, overrides[f].correction) then Some(overrides[f].value) else base
  }

  /** A value overrides its field; an empty value lifts the override. */
  function Revise(overrides: map<Field, Override>, changes: map<Field, Text>, id: CorrectionId): map<Field, Override> {
    map f | f in overrides.Keys + changes.Keys && (f in changes ==> changes[f] != "") ::
      if f in changes then Override(changes[f], id) else overrides[f]
  }

  // -------------------------------------------------------------- correction

  function NewCorrection(store: Store, t: TaskId, p: Payload, id: CorrectionId, declared: map<Field, Text>): Correction
    requires t in store.tasks && t in store.versions
  {
    var version := store.versions[t];
    Correction(id, t, version.revision + 1, p, map f | f in p.changes :: Shown(store, t, declared, f),
               version.revision, version.basis, store.tasks[t])
  }

  /** Overrides made against an older basis are not carried over. */
  function Carried(store: Store, t: TaskId): map<Field, Override>
    requires t in store.versions
  {
    if t in store.projections && store.projections[t].basis == store.versions[t].basis then
        store.projections[t].overrides
    else map[]
  }

  function Record(store: Store, t: TaskId, c: Correction): Store
    requires t in store.tasks && t in store.versions
  {
    var version := store.versions[t];
    store.(versions := store.versions[t := version.(revision := version.revision + 1)],
           corrections := store.corrections + [c],
           projections := store.projections[t := Projection(c.revision, version.basis, store.tasks[t],
                                                            Revise(Carried(store, t), c.payload.changes, c.id))])
  }

  /** The triggers of the log refuse a second row with the identity of a first. */
  predicate IdentityFree(store: Store, c: Correction) {
    forall d :: d in store.corrections ==>
                  d.id != c.id && (d.task == c.task ==> d.payload.key != c.payload.key && d.revision != c.revision)
  }

  function Judge(store: Store, t: TaskId, p: Payload, wellFormed: bool, received: int): Answer {
    if !wellFormed || p.expected < 1 || p.changes == map[] then Refused(Invalid)
    else if t !in store.tasks then Refused(TaskMissing)
    else if PriorCorrection(store.corrections, t, p.key).Some? then
      var prior := PriorCorrection(store.corrections, t, p.key).value;
      if prior.payload != p then Refused(KeyConflict) else Corrected(prior)
    else if Bookkeeping(store, t).Some? then Refused(Bookkeeping(store, t).value)
    else if p.expected != store.versions[t].revision then Refused(Stale)
    else if !(p.observed <= p.reviewed <= received) then Refused(SourceTooLate)
    else Silent
  }

  function Preview(
    store: Store, t: TaskId, p: Payload, wellFormed: bool, id: CorrectionId, received: int,
    declared: map<Field, Text>): Answer
  {
    var judged := Judge(store, t, p, wellFormed, received);
    if judged != Silent then judged else Corrected(NewCorrection(store, t, p, id, declared))
  }

  function ApplyCorrection(
    store: Store, t: TaskId, p: Payload, wellFormed: bool, id: CorrectionId, received: int,
    declared: map<Field, Text>): Reply
  {
    var judged := Judge(store, t, p, wellFormed, received);
    if judged != Silent then Reply(store, judged)
    else if !store.versions[t].present then Reply(store, Refused(VersionMoved))
    else
      var c := NewCorrection(store, t, p, id, declared);
      if !IdentityFree(store, c) then Reply(store, Refused(IdentityTaken))
      else Reply(Record(store, t, c), Corrected(c))
  }

  // ------------------------------------------------------------------ report

  function JudgeReport(store: Store, t: TaskId, key: Key, expected: int, running: bool): Answer {
    if expected < 1 then Refused(Invalid)
    else if t !in store.tasks then Refused(TaskMissing)
    else if PriorReport(store.reports, t, key).Some? then
      var prior := PriorReport(store.reports, t, key).value;
      if prior.expected != expected then Refused(KeyConflict) else Reported(prior)
    else if Bookkeeping(store, t).Some? then Refused(Bookkeeping(store, t).value)
    else if expected != store.versions[t].revision then Refused(Stale)
    else if store.tasks[t].sensitive then Refused(Sensitive)
    else if !store.tasks[t].reportable || running then Refused(NotReportable)
    else if store.tasks[t].owner != User || store.tasks[t].action == "" then Refused(NoUserAction)
    else Silent
  }

  /** What a report of a finished action leaves of the native row. */
  function ActionCleared(native: Native): Native {
    native.(action := "", owner := NoOne, sensitive := false)
  }

  /** The report clears the native action, which moves the version; the row is then numbered by it. */
  function ApplyReport(store: Store, t: TaskId, key: Key, expected: int, running: bool): Reply {
    var judged := JudgeReport(store, t, key, expected, running);
    if judged != Silent then Reply(store, judged)
    else
      var cleared := UpdateTask(store, t, ActionCleared(store.tasks[t]));
      var report := Report(t, cleared.versions[t].revision, key, expected, store.versions[t].basis);
      if exists r :: r in store.reports && r.task == t && r.revision == report.revision then
          Reply(store, Refused(IdentityTaken))
      else Reply(cleared.(reports := store.reports + [report]), Reported(report))
  }

  // -------------------------------------------------------------------- runs

  function Apply(store: Store, step: Step): Reply {
    match step
    case Insert(t, native) => Reply(InsertTask(store, t, native), Silent)
    case Update(t, native) => Reply(UpdateTask(store, t, native), Silent)
    case Delete(t) => Reply(DeleteTask(store, t), Silent)
    case Rename(t, u) => Reply(RenameTask(store, t, u), Silent)
    case Correct(t, p, wellFormed, id, received, declared) =>
        ApplyCorrection(store, t, p, wellFormed, id, received, declared)
    case Declare(t, key, expected, running) => ApplyReport(store, t, key, expected, running)
  }

  /** Identifiers are drawn fresh: a correction reusing one is not a step of any run. */
  predicate DrawsFresh(store: Store, step: Step) {
    step.Correct? ==> !CorrectionKnown(store, step.id)
  }

  function Next(store: Store, step: Step): Store {
    if DrawsFresh(store, step) then Apply(store, step).store else store
  }

  /** Tasks that were there before the tables of this module begin at the first version. */
  function Start(tasks: map<TaskId, Native>): Store {
    Store(tasks, map t | t in tasks :: Version(1, 1, true, tasks[t]), map[], [], [])
  }

  function Execute(store: Store, steps: seq<Step>): Store
    decreases |steps|
  {
    if steps == [] then store else Execute(Next(store, steps[0]), steps[1..])
  }

  predicate LeadsTo(tasks: map<TaskId, Native>, steps: seq<Step>, store: Store) {
    Execute(Start(tasks), steps) == store
  }

  ghost predicate Reachable(store: Store) {
    exists tasks, steps :: LeadsTo(tasks, steps, store)
  }
}
