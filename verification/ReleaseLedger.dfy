/**
 The release ledger: batches of items, an append-only table of receipts, and the projection
 of a batch folded from its receipts. Payload digests are modelled as the payloads,
 identifiers as fresh numbers.
 */
module ReleaseLedger {
  import opened Options
  import opened ReleaseAssessment
  import opened ReleaseDates

  type BatchId = nat
  type ItemKey = nat
  type TaskId = nat
  type Key = nat

  type Facts = map<Dimension, Fact>

  datatype Delta = Delta(item: ItemKey, facts: Facts)

  datatype Creation = Creation(key: Key, about: nat, environment: string, items: seq<Item>, facts: seq<Delta>)

  datatype Append = Append(key: Key, expected: int, deltas: seq<Delta>)

  datatype Payload = OfCreation(creation: Creation) | OfAppend(append: Append)

  datatype Receipt = Receipt(
    batch: BatchId, revision: nat, key: Key, payload: Payload, receivedAt: Option<int>, deltas: seq<Delta>)

  datatype Batch = Batch(key: Key, payload: Creation, environment: string, items: seq<Item>, revision: nat)

  datatype Ledger = Ledger(batches: map<BatchId, Batch>, receipts: seq<Receipt>, revision: nat, tasks: set<TaskId>)

  datatype Refusal = BadPayload | TaskMissing | BatchMissing | ItemMissing | KeyConflict | Stale

  datatype Answer = Silent | Refused(refusal: Refusal) | Shown(batch: BatchId, reused: bool)

  datatype Reply = Reply(ledger: Ledger, answer: Answer)

  // ------------------------------------------------------------- well-formed

  predicate ValidFacts(facts: Facts) {
    forall d :: d in facts ==> facts[d].status in Statuses(d)
  }

  predicate DistinctDeltas(deltas: seq<Delta>) {
    forall i, j :: 0 <= i < j < |deltas| ==> deltas[i].item != deltas[j].item
  }

  predicate DistinctItems(items: seq<Item>) {
    forall i, j :: 0 <= i < j < |items| ==> items[i].key != items[j].key
  }

  /** The facts of a creation are those of its items, one entry each. */
  predicate ValidCreation(c: Creation) {
    && 1 <= |c.items| <= 100 && DistinctItems(c.items) && c.environment in {"dev", "test", "prod"}
    && |c.facts| == |c.items|
    && forall i :: 0 <= i < |c.items| ==> c.facts[i].item == c.items[i].key && ValidFacts(c.facts[i].facts)
  }

  predicate ValidAppend(a: Append) {
    && a.expected >= 1 && 1 <= |a.deltas| <= 100 && DistinctDeltas(a.deltas)
    && forall i :: 0 <= i < |a.deltas| ==> a.deltas[i].facts != map[] && ValidFacts(a.deltas[i].facts)
  }

  // ----------------------------------------------------------------- queries

  function HistoryOf(receipts: seq<Receipt>, b: BatchId): seq<Receipt>
    decreases |receipts|
  {
    if receipts == [] then []
    else
      var last := receipts[|receipts| - 1];
      HistoryOf(receipts[..|receipts| - 1], b) + if last.batch == b then [last] else []
  }

  function CreatedUnder(batches: map<BatchId, Batch>, key: Key): set<BatchId> {
    set b | b in batches && batches[b].key == key
  }

  predicate ReceivedUnder(receipts: seq<Receipt>, b: BatchId, key: Key, i: int) {
    0 <= i < |receipts| && receipts[i].batch == b && receipts[i].key == key
  }

  predicate HasItem(items: seq<Item>, key: ItemKey) {
    exists i :: 0 <= i < |items| && items[i].key == key
  }

  function ItemOf(items: seq<Item>, key: ItemKey): Item
    requires HasItem(items, key)
  {
    if items[0].key == key then items[0]
    else
      assert exists i :: 0 <= i < |items[1..]| && items[1..][i].key == key by {
        var i :| 0 <= i < |items| && items[i].key == key;
        assert items[1..][i - 1].key == key;
      }
      ItemOf(items[1..], key)
  }

  // -------------------------------------------------------------- operations

  ghost function CreateBatch(l: Ledger, data: Creation, wellFormed: bool, id: BatchId, now: int): Reply {
    if !wellFormed || !ValidCreation(data) then Reply(l, Refused(BadPayload))
    else if exists b :: b in CreatedUnder(l.batches, data.key) && l.batches[b].payload == data then
      var b :| b in CreatedUnder(l.batches, data.key) && l.batches[b].payload == data;
      Reply(l, Shown(b, true))
    else if CreatedUnder(l.batches, data.key) != {} then Reply(l, Refused(KeyConflict))
    else if exists i :: 0 <= i < |data.items| && !(data.items[i].tasks <= l.tasks) then Reply(l, Refused(TaskMissing))
    else if id in l.batches then Reply(l, Silent)
    else
      var receipt := Receipt(id, 1, data.key, OfCreation(data), Some(now), data.facts);
      Reply(l.(batches := l.batches[id := Batch(data.key, data, data.environment, data.items, 1)],
               receipts := l.receipts + [receipt], revision := l.revision + 1),
            Shown(id, false))
  }

  function AppendReceipts(l: Ledger, b: BatchId, data: Append, wellFormed: bool, now: int): Reply {
    if !wellFormed || !ValidAppend(data) then Reply(l, Refused(BadPayload))
    else if b !in l.batches then Reply(l, Refused(BatchMissing))
    else if exists i :: 0 <= i < |l.receipts| && ReceivedUnder(l.receipts, b, data.key, i) &&
                        l.receipts[i].payload == OfAppend(data)
      then Reply(l, Shown(b, true))
    else if exists i :: 0 <= i < |l.receipts| && ReceivedUnder(l.receipts, b, data.key, i) then
        Reply(l, Refused(KeyConflict))
    else if l.batches[b].revision != data.expected then Reply(l, Refused(Stale))
    else if exists i :: 0 <= i < |data.deltas| && !HasItem(l.batches[b].items, data.deltas[i].item) then
        Reply(l, Refused(ItemMissing))
    else
      var revision := l.batches[b].revision + 1;
      var receipt := Receipt(b, revision, data.key, OfAppend(data), Some(now), data.deltas);
      Reply(l.(batches := l.batches[b := l.batches[b].(revision := revision)],
               receipts := l.receipts + [receipt], revision := l.revision + 1),
            Shown(b, false))
  }

  // -------------------------------------------------------------- projection

  /** A fact with the moment its receipt arrived. */
  datatype Stamped = Stamped(fact: Fact, at: Option<int>)

  /** What a receipt says of an item, dimension by dimension, over what was known. */
  function Overlay(known: map<Dimension, Stamped>, deltas: seq<Delta>, item: ItemKey, at: Option<int>)
    : map<Dimension, Stamped>
    decreases |deltas|
  {
    if deltas == [] then known
    else
      var facts := deltas[0].facts;
      var now := if deltas[0].item == item
                 then map d | d in known.Keys + facts.Keys :: if d in facts then Stamped(facts[d], at) else known[d]
                 else known;
      Overlay(now, deltas[1..], item, at)
  }

  function KnownFrom(known: map<Dimension, Stamped>, history: seq<Receipt>, item: ItemKey): map<Dimension, Stamped>
    decreases |history|
  {
    if history == [] then known
    else KnownFrom(Overlay(known, history[0].deltas, item, history[0].receivedAt), history[1..], item)
  }

  function Known(history: seq<Receipt>, item: ItemKey): map<Dimension, Stamped> {
    KnownFrom(map[], history, item)
  }

  /** When a delta's deployment was observed, if the delta confirms it by itself. */
  function ConfirmedAt(delta: Delta, items: seq<Item>, environment: string, at: Option<int>): Option<int> {
    if Deployment in delta.facts && HasItem(items, delta.item) &&
       IsConfirmed(Some(delta.facts[Deployment]), ItemOf(items, delta.item), environment, at)
    then delta.facts[Deployment].observedAt else None
  }

  function ReceiptDates(r: Receipt, items: seq<Item>, environment: string): seq<Date> {
    seq(|r.deltas|, j requires 0 <= j < |r.deltas| => ConfirmedAt(r.deltas[j], items, environment, r.receivedAt))
  }

  /** Receipt by receipt and delta by delta, the deployments confirmed on arrival. */
  function DateGrid(history: seq<Receipt>, items: seq<Item>, environment: string): seq<seq<Date>> {
    seq(|history|, i requires 0 <= i < |history| => ReceiptDates(history[i], items, environment))
  }

  function HistoryDates(history: seq<Receipt>, items: seq<Item>, environment: string): seq<Date> {
    MaxEach(DateGrid(history, items, environment))
  }

  /** The assessment of one dimension of an item, at the time of the receipt that last spoke of it. */
  function AssessItem(known: map<Dimension, Stamped>, item: Item, environment: string, d: Dimension): Assessment {
    if d in known then Assess(d, Some(known[d].fact), item, environment, known[d].at)
        else Assess(d, None, item, environment, None)
  }

  /** An item as it is shown, with the date of its deployment if that is confirmed now. */
  datatype Row = Row(deployment: Assessment, enablement: Assessment, acceptance: Assessment, observed: Option<int>)

  function RowOf(known: map<Dimension, Stamped>, item: Item, environment: string): Row {
    var deployment := AssessItem(known, item, environment, Deployment);
    Row(deployment, AssessItem(known, item, environment, Enablement), AssessItem(known, item, environment, Acceptance),
        if deployment.state == Confirmed && Deployment in known then known[Deployment].fact.observedAt else None)
  }

  datatype Counts = Counts(total: nat, deployed: nat, enabled: nat, accepted: nat, rolledBack: nat, unverified: nat)

  datatype Summary = Released | Partial | AllRolledBack | Unverified

  function One(condition: bool): nat {
    if condition then 1 else 0
  }

  function Count(c: Counts, row: Row): Counts {
    var deployment := row.deployment.state;
    Counts(c.total + 1, c.deployed + One(deployment == Confirmed),
           c.enabled + One(row.enablement.state == Plain(Enabled)),
           c.accepted + One(row.acceptance.state == Plain(Passed)), c.rolledBack + One(deployment == Plain(RolledBack)),
           c.unverified + One(deployment == Plain(Unknown) || deployment == Reported))
  }

  function CountAll(c: Counts, rows: seq<Row>): Counts
    decreases |rows|
  {
    if rows == [] then c else CountAll(Count(c, rows[0]), rows[1..])
  }

  const ZERO := Counts(0, 0, 0, 0, 0, 0)

  function SummaryOf(c: Counts): Summary {
    if c.deployed == c.total then Released
    else if c.deployed != 0 then Partial
    else if c.rolledBack == c.total then AllRolledBack
    else Unverified
  }

  function CurrentDates(rows: seq<Row>): seq<Option<int>> {
    seq(|rows|, i requires 0 <= i < |rows| => rows[i].observed)
  }

  datatype Projection = Projection(summary: Summary, counts: Counts, releasedAt: Option<int>, rows: seq<Row>)

  /** `earlier` are the dates history confirmed; what is confirmed now is added to them. */
  function ProjectRows(rows: seq<Row>, earlier: seq<Option<int>>): Projection {
    var counts := CountAll(ZERO, rows);
    Projection(SummaryOf(counts), counts, Max(earlier + CurrentDates(rows)), rows)
  }

  function RowsOf(items: seq<Item>, history: seq<Receipt>, environment: string): seq<Row> {
    seq(|items|, i requires 0 <= i < |items| => RowOf(Known(history, items[i].key), items[i], environment))
  }

  /** The batch as a reader sees it: its receipts folded in the order of their revisions. */
  function Project(batch: Batch, history: seq<Receipt>): Projection {
    ProjectRows(RowsOf(batch.items, history, batch.environment), HistoryDates(history, batch.items, batch.environment))
  }

  function StampAll(facts: Facts, at: int): map<Dimension, Stamped> {
    map d | d in facts :: Stamped(facts[d], Some(at))
  }

  function PreviewRows(data: Creation, now: int): seq<Row>
    requires ValidCreation(data)
  {
    seq(|data.items|, i requires 0 <= i < |data.items| =>
      RowOf(StampAll(data.facts[i].facts, now), data.items[i], data.environment))
  }

  /** A preview has no receipts; the facts it declares are judged against the present. */
  function PreviewBatch(data: Creation, now: int): Projection
    requires ValidCreation(data)
  {
    ProjectRows(PreviewRows(data, now), [])
  }

  // -------------------------------------------------------------------- runs

  datatype Step =
    | SetTasks(tasks: set<TaskId>)
    | Create(data: Creation, wellFormed: bool, id: BatchId, now: int)
    | Register(batch: BatchId, append: Append, wellFormed: bool, now: int)

  ghost function Apply(l: Ledger, step: Step): Reply {
    match step
    case SetTasks(tasks) => Reply(l.(tasks := tasks), Silent)
    case Create(data, wellFormed, id, now) => CreateBatch(l, data, wellFormed, id, now)
    case Register(b, data, wellFormed, now) => AppendReceipts(l, b, data, wellFormed, now)
  }

  ghost function Execute(l: Ledger, steps: seq<Step>): Ledger
    decreases |steps|
  {
    if steps == [] then l else Execute(Apply(l, steps[0]).ledger, steps[1..])
  }

  function Empty(): Ledger {
    Ledger(map[], [], 0, {})
  }

  ghost predicate LeadsTo(steps: seq<Step>, l: Ledger) {
    Execute(Empty(), steps) == l
  }

  ghost predicate Reachable(l: Ledger) {
    exists steps :: LeadsTo(steps, l)
  }
}
