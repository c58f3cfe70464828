/** What holds of the ledger after any sequence of calls: numbering, conservation, retries. */
module ReleaseSafety {
  import opened Options
  import opened ReleaseAssessment
  import opened ReleaseLedger

  /** The sum of the revisions of all batches. */
  ghost function Total(batches: map<BatchId, Batch>): nat
    decreases |batches|
  {
    if batches == map[] then 0
    else
      var b :| b in batches;
      batches[b].revision + Total(batches - {b})
  }

  lemma {:induction false} TotalSplits(batches: map<BatchId, Batch>, b: BatchId)
    requires b in batches
    ensures Total(batches) == batches[b].revision + Total(batches - {b})
    decreases |batches|
  {
    var c :| c in batches && Total(batches) == batches[c].revision + Total(batches - {c});
    if c != b {
      TotalSplits(batches - {c}, b);
      TotalSplits(batches - {b}, c);
      assert (batches - {c}) - {b} == (batches - {b}) - {c};
    }
  }

  lemma TotalSets(batches: map<BatchId, Batch>, b: BatchId, row: Batch)
    ensures Total(batches[b := row]) == row.revision + Total(batches - {b})
  {
    TotalSplits(batches[b := row], b);
    assert batches[b := row] - {b} == batches - {b};
  }

  // --------------------------------------------------------------- invariant

  /** The receipts of a batch are numbered from one to its revision, and the first is its creation. */
  ghost predicate BatchRow(l: Ledger, b: BatchId) {
    var history := HistoryOf(l.receipts, b);
    if b in l.batches then
      var batch := l.batches[b];
      && |history| == batch.revision >= 1
      && (forall i :: 0 <= i < |history| ==> history[i].revision == i + 1 && history[i].batch == b)
      && ValidCreation(batch.payload) && batch.key == batch.payload.key
      && batch.items == batch.payload.items && batch.environment == batch.payload.environment
      && history[0].payload == OfCreation(batch.payload)
    else history == []
  }

  /** A receipt is about items of its batch, each once, and knows when it arrived. */
  ghost predicate ReceiptRow(l: Ledger, i: int) {
    0 <= i < |l.receipts| ==>
      var r := l.receipts[i];
      && r.batch in l.batches && r.receivedAt.Some? && DistinctDeltas(r.deltas)
      && (forall j :: 0 <= j < |r.deltas| ==> ValidFacts(r.deltas[j].facts))
      && forall j :: 0 <= j < |r.deltas| ==> HasItem(l.batches[r.batch].items, r.deltas[j].item)
  }

  ghost predicate ReceiptPair(l: Ledger, i: int, j: int) {
    0 <= i < j < |l.receipts| && l.receipts[i].batch == l.receipts[j].batch ==> l.receipts[i].key != l.receipts[j].key
  }

  ghost predicate BatchPair(l: Ledger, b: BatchId, c: BatchId) {
    b in l.batches && c in l.batches && b != c ==> l.batches[b].key != l.batches[c].key
  }

  ghost predicate Inv(l: Ledger) {
    && l.revision == |l.receipts| == Total(l.batches)
    && (forall b {:trigger BatchRow(l, b)} :: BatchRow(l, b))
    && (forall i {:trigger ReceiptRow(l, i)} :: ReceiptRow(l, i))
    && (forall i, j {:trigger ReceiptPair(l, i, j)} :: ReceiptPair(l, i, j))
    && (forall b, c {:trigger BatchPair(l, b, c)} :: BatchPair(l, b, c))
  }

  lemma HistoryGrows(receipts: seq<Receipt>, r: Receipt, b: BatchId)
    ensures HistoryOf(receipts + [r], b) == HistoryOf(receipts, b) + if r.batch == b then [r] else []
  {
    assert (receipts + [r])[..|receipts|] == receipts;
  }

  /** The key of a new batch is that of no other. */
  lemma NewBatchPairs(l: Ledger, id: BatchId, row: Batch, b: BatchId, c: BatchId)
    requires Inv(l) && id !in l.batches && CreatedUnder(l.batches, row.key) == {}
    ensures BatchPair(l.(batches := l.batches[id := row]), b, c)
  {
    assert BatchPair(l, b, c);
    assert b in l.batches && l.batches[b].key == row.key ==> b in CreatedUnder(l.batches, row.key);
    assert c in l.batches && l.batches[c].key == row.key ==> c in CreatedUnder(l.batches, row.key);
  }

  lemma CreateKeeps(l: Ledger, data: Creation, id: BatchId, now: int)
    requires Inv(l) && ValidCreation(data) && id !in l.batches && CreatedUnder(l.batches, data.key) == {}
    ensures var r := Receipt(id, 1, data.key, OfCreation(data), Some(now), data.facts);
            Inv(l.(batches := l.batches[id := Batch(data.key, data, data.environment, data.items, 1)],
                   receipts := l.receipts + [r], revision := l.revision + 1))
  {
    var r := Receipt(id, 1, data.key, OfCreation(data), Some(now), data.facts);
    var row := Batch(data.key, data, data.environment, data.items, 1);
    var l' := l.(batches := l.batches[id := row], receipts := l.receipts + [r], revision := l.revision + 1);
    TotalSets(l.batches, id, row);
    assert l.batches - {id} == l.batches;
    forall b ensures BatchRow(l', b) {
      assert BatchRow(l, b);
      HistoryGrows(l.receipts, r, b);
    }
    forall i ensures ReceiptRow(l', i) {
      assert ReceiptRow(l, i);
      CreationDeltas(data);
    }
    forall i, j ensures ReceiptPair(l', i, j) {
      assert ReceiptPair(l, i, j) && ReceiptRow(l, i);
    }
    forall b, c ensures BatchPair(l', b, c) { NewBatchPairs(l, id, row, b, c); }
  }

  lemma CreationDeltas(data: Creation)
    requires ValidCreation(data)
    ensures DistinctDeltas(data.facts)
    ensures forall j :: 0 <= j < |data.facts| ==> HasItem(data.items, data.facts[j].item)
  {
    forall j | 0 <= j < |data.facts| ensures HasItem(data.items, data.facts[j].item) {
      assert data.items[j].key == data.facts[j].item;
    }
    forall i, j | 0 <= i < j < |data.facts| ensures data.facts[i].item != data.facts[j].item {
      assert data.items[i].key != data.items[j].key;
    }
  }

  lemma AppendKeeps(l: Ledger, b: BatchId, data: Append, now: int)
    requires Inv(l) && ValidAppend(data) && b in l.batches
    requires forall i :: 0 <= i < |l.receipts| ==> !ReceivedUnder(l.receipts, b, data.key, i)
    requires forall i :: 0 <= i < |data.deltas| ==> HasItem(l.batches[b].items, data.deltas[i].item)
    ensures var revision := l.batches[b].revision + 1;
            var r := Receipt(b, revision, data.key, OfAppend(data), Some(now), data.deltas);
            Inv(l.(batches := l.batches[b := l.batches[b].(revision := revision)],
                   receipts := l.receipts + [r], revision := l.revision + 1))
  {
    var revision := l.batches[b].revision + 1;
    var r := Receipt(b, revision, data.key, OfAppend(data), Some(now), data.deltas);
    var row := l.batches[b].(revision := revision);
    var l' := l.(batches := l.batches[b := row], receipts := l.receipts + [r], revision := l.revision + 1);
    TotalSets(l.batches, b, row);
    TotalSplits(l.batches, b);
    forall c ensures BatchRow(l', c) {
      assert BatchRow(l, c);
      HistoryGrows(l.receipts, r, c);
    }
    forall i ensures ReceiptRow(l', i) { assert ReceiptRow(l, i); }
    forall i, j ensures ReceiptPair(l', i, j) {
      assert ReceiptPair(l, i, j);
      assert 0 <= i < |l.receipts| ==> !ReceivedUnder(l.receipts, b, data.key, i);
    }
    forall c, d ensures BatchPair(l', c, d) { assert BatchPair(l, c, d); }
  }

  lemma ApplyKeeps(l: Ledger, step: Step)
    requires Inv(l)
    ensures Inv(Apply(l, step).ledger)
    ensures l.receipts <= Apply(l, step).ledger.receipts
    ensures forall b :: b in l.batches ==>
              b in Apply(l, step).ledger.batches && Apply(l, step).ledger.batches[b].payload == l.batches[b].payload
  {
    match step
    case SetTasks(tasks) =>
      var l' := l.(tasks := tasks);
      forall b ensures BatchRow(l', b) { assert BatchRow(l, b); }
      forall i ensures ReceiptRow(l', i) { assert ReceiptRow(l, i); }
      forall i, j ensures ReceiptPair(l', i, j) { assert ReceiptPair(l, i, j); }
      forall b, c ensures BatchPair(l', b, c) { assert BatchPair(l, b, c); }
    case Create(data, wellFormed, id, now) =>
      var reply := CreateBatch(l, data, wellFormed, id, now);
      if reply.answer == Shown(id, false) { CreateKeeps(l, data, id, now); }
    case Register(b, data, wellFormed, now) =>
      var reply := AppendReceipts(l, b, data, wellFormed, now);
      if reply.answer == Shown(b, false) { AppendKeeps(l, b, data, now); }
  }

  lemma {:induction false} ExecuteKeeps(l: Ledger, steps: seq<Step>)
    requires Inv(l)
    ensures Inv(Execute(l, steps)) && l.receipts <= Execute(l, steps).receipts
    ensures forall b :: b in l.batches ==>
              b in Execute(l, steps).batches && Execute(l, steps).batches[b].payload == l.batches[b].payload
    decreases |steps|
  {
    if steps != [] {
      ApplyKeeps(l, steps[0]);
      ExecuteKeeps(Apply(l, steps[0]).ledger, steps[1..]);
    }
  }

  lemma EmptyInv()
    ensures Inv(Empty())
  {
    var l := Empty();
    forall b ensures BatchRow(l, b) {}
  }

  lemma {:induction false} ExecuteOneMore(l: Ledger, steps: seq<Step>, step: Step)
    ensures Execute(l, steps + [step]) == Apply(Execute(l, steps), step).ledger
    decreases |steps|
  {
    if steps == [] {
      assert [] + [step] == [step] && [step][1..] == [];
      assert Execute(l, [step]) == Execute(Apply(l, step).ledger, []);
    } else {
      assert (steps + [step])[0] == steps[0] && (steps + [step])[1..] == steps[1..] + [step];
      ExecuteOneMore(Apply(l, steps[0]).ledger, steps[1..], step);
    }
  }

  lemma ReachableInv(l: Ledger)
    requires Reachable(l)
    ensures Inv(l)
  {
    var steps :| LeadsTo(steps, l);
    EmptyInv();
    ExecuteKeeps(Empty(), steps);
  }

  /** A call made on a reachable ledger leads to one. */
  lemma StaysReachable(l: Ledger, step: Step)
    requires Reachable(l)
    ensures Inv(l) && Reachable(Apply(l, step).ledger)
  {
    ReachableInv(l);
    var steps :| LeadsTo(steps, l);
    ExecuteOneMore(Empty(), steps, step);
    assert LeadsTo(steps + [step], Apply(l, step).ledger);
  }

  // --------------------------------------------------------------- theorems

  /**
   Conservation: after any calls the revision of the ledger is the sum of the revisions of
   its batches, each of which counts that batch's receipts, numbered from one without gaps.
   */
  lemma RevisionsAreConserved(steps: seq<Step>, b: BatchId)
    ensures var l := Execute(Empty(), steps);
            && l.revision == Total(l.batches) == |l.receipts|
            && (b in l.batches ==>
                  var history := HistoryOf(l.receipts, b);
                  |history| == l.batches[b].revision && forall i :: 0 <= i < |history| ==> history[i].revision == i + 1)
  {
    EmptyInv();
    ExecuteKeeps(Empty(), steps);
    assert BatchRow(Execute(Empty(), steps), b);
  }

  /** A repeated creation finds its batch at any later time; another under its key is refused; neither writes. */
  lemma CreationRetries(l: Ledger, steps: seq<Step>, b: BatchId, data: Creation, id: BatchId, now: int)
    requires Inv(l) && b in l.batches && data.key == l.batches[b].key && ValidCreation(data)
    ensures var later := Execute(l, steps);
            CreateBatch(later, data, true, id, now) ==
            Reply(later, if data == l.batches[b].payload then Shown(b, true) else Refused(KeyConflict))
  {
    ExecuteKeeps(l, steps);
    var later := Execute(l, steps);
    assert BatchRow(l, b) && BatchRow(later, b);
    forall c | c in CreatedUnder(later.batches, data.key) ensures c == b { assert BatchPair(later, b, c); }
    assert b in CreatedUnder(later.batches, data.key);
  }

  lemma ReceiptFound(l: Ledger, i: nat, data: Append, now: int)
    requires Inv(l) && i < |l.receipts| && data.key == l.receipts[i].key && ValidAppend(data)
    ensures var b := l.receipts[i].batch;
            AppendReceipts(l, b, data, true, now) ==
            Reply(l, if l.receipts[i].payload == OfAppend(data) then Shown(b, true) else Refused(KeyConflict))
  {
    var b := l.receipts[i].batch;
    assert ReceiptRow(l, i) && ReceivedUnder(l.receipts, b, data.key, i);
    forall j | 0 <= j < |l.receipts| && ReceivedUnder(l.receipts, b, data.key, j) ensures j == i {
      assert ReceiptPair(l, i, j) && ReceiptPair(l, j, i);
    }
  }

  /** A repeated receipt is found again however far the batch has moved on. */
  lemma ReceiptRetries(l: Ledger, steps: seq<Step>, i: nat, data: Append, now: int)
    requires Inv(l) && i < |l.receipts| && data.key == l.receipts[i].key && ValidAppend(data)
    ensures var later, b := Execute(l, steps), l.receipts[i].batch;
            AppendReceipts(later, b, data, true, now) ==
            Reply(later, if l.receipts[i].payload == OfAppend(data) then Shown(b, true) else Refused(KeyConflict))
  {
    ExecuteKeeps(l, steps);
    assert Execute(l, steps).receipts[i] == l.receipts[i];
    ReceiptFound(Execute(l, steps), i, data, now);
  }

  // ------------------------------------------------------ what is accepted

  /** A fact is declared with a status of its dimension. */
  predicate SoundFacts(facts: Facts) {
    (Deployment in facts ==> facts[Deployment].status in {Deployed, Status.Failed, RolledBack, Status.Unknown}) &&
    (Enablement in facts ==> facts[Enablement].status in {Enabled, Disabled, Status.Unknown}) &&
    (Acceptance in facts ==> facts[Acceptance].status in {Passed, Status.Failed, NotTested})
  }

  lemma FactsMean(facts: Facts)
    ensures ValidFacts(facts) <==> SoundFacts(facts)
  {
    if SoundFacts(facts) {
      forall d | d in facts ensures facts[d].status in Statuses(d) {
        assert d == Deployment || d == Enablement || d == Acceptance;
      }
    }
  }

  /** One to a hundred items with keys of their own, in a known environment, each with its facts. */
  ghost predicate SoundCreation(c: Creation) {
    && 1 <= |c.items| <= 100 && |c.facts| == |c.items|
    && (c.environment == "dev" || c.environment == "test" || c.environment == "prod")
    && (forall i, j :: 0 <= i < |c.items| && 0 <= j < |c.items| && c.items[i].key == c.items[j].key ==> i == j)
    && (forall i :: 0 <= i < |c.items| ==> c.facts[i].item == c.items[i].key && SoundFacts(c.facts[i].facts))
  }

  /** One to a hundred items, each once and with something said of it, at a positive revision. */
  ghost predicate SoundAppend(a: Append) {
    && a.expected >= 1 && 1 <= |a.deltas| <= 100
    && (forall i, j :: 0 <= i < |a.deltas| && 0 <= j < |a.deltas| && a.deltas[i].item == a.deltas[j].item ==> i == j)
    && (forall i :: 0 <= i < |a.deltas| ==> a.deltas[i].facts != map[] && SoundFacts(a.deltas[i].facts))
  }

  lemma PayloadsMean(c: Creation, a: Append)
    ensures ValidCreation(c) <==> SoundCreation(c)
    ensures ValidAppend(a) <==> SoundAppend(a)
  {
    forall i | 0 <= i < |c.facts| ensures ValidFacts(c.facts[i].facts) <==> SoundFacts(c.facts[i].facts) {
      FactsMean(c.facts[i].facts);
    }
    forall i | 0 <= i < |a.deltas| ensures ValidFacts(a.deltas[i].facts) <==> SoundFacts(a.deltas[i].facts) {
      FactsMean(a.deltas[i].facts);
    }
  }

  ghost predicate KeyIsFree(l: Ledger, key: Key) {
    forall b :: b in l.batches ==> l.batches[b].key != key
  }

  /** A batch is created exactly of a sound payload under a free key for tasks that exist; and how it is refused. */
  lemma CreationIsExact(l: Ledger, c: Creation, wellFormed: bool, id: BatchId, now: int)
    requires Inv(l)
    ensures var reply := CreateBatch(l, c, wellFormed, id, now);
            var sound := wellFormed && SoundCreation(c);
            var known := forall i :: 0 <= i < |c.items| ==> c.items[i].tasks <= l.tasks;
            && (reply.answer == Refused(BadPayload) <==> !sound)
            && (reply.answer == Shown(id, false) <==> sound && KeyIsFree(l, c.key) && known && id !in l.batches)
            && (reply.answer.Shown? && reply.answer.reused <==>
                  sound && exists b :: b in l.batches && l.batches[b].key == c.key && l.batches[b].payload == c)
            && (reply.answer == Refused(KeyConflict) <==>
                  sound && exists b :: b in l.batches && l.batches[b].key == c.key && l.batches[b].payload != c)
            && (reply.answer == Refused(TaskMissing) <==> sound && KeyIsFree(l, c.key) && !known)
            && reply.ledger == (if reply.answer != Shown(id, false) then l else
                 l.(batches := l.batches[id := Batch(c.key, c, c.environment, c.items, 1)],
                    receipts := l.receipts + [Receipt(id, 1, c.key, OfCreation(c), Some(now), c.facts)],
                    revision := l.revision + 1))
  {
    PayloadsMean(c, Append(0, 0, []));
    if wellFormed && SoundCreation(c) {
      forall b ensures b in CreatedUnder(l.batches, c.key) <==> b in l.batches && l.batches[b].key == c.key {}
      forall a, b | a in CreatedUnder(l.batches, c.key) && b in CreatedUnder(l.batches, c.key) ensures a == b {
        assert BatchPair(l, a, b);
      }
    }
  }

  ghost predicate ReceiptKeyIsFree(l: Ledger, b: BatchId, key: Key) {
    forall i :: 0 <= i < |l.receipts| && l.receipts[i].batch == b ==> l.receipts[i].key != key
  }

  lemma ReceiptKeyMeans(l: Ledger, b: BatchId, key: Key)
    ensures ReceiptKeyIsFree(l, b, key) <==> forall i :: !ReceivedUnder(l.receipts, b, key, i)
  {
    if !ReceiptKeyIsFree(l, b, key) {
      var i :| 0 <= i < |l.receipts| && l.receipts[i].batch == b && l.receipts[i].key == key;
      assert ReceivedUnder(l.receipts, b, key, i);
    }
    if i :| ReceivedUnder(l.receipts, b, key, i) { assert l.receipts[i].batch == b && l.receipts[i].key == key; }
  }

  ghost predicate Lists(items: seq<Item>, key: ItemKey) {
    exists i :: 0 <= i < |items| && items[i].key == key
  }

  /** Receipt `i` of a batch has the key, and the payload or another. */
  ghost predicate Holds(l: Ledger, b: BatchId, key: Key, i: int) {
    0 <= i < |l.receipts| && l.receipts[i].batch == b && l.receipts[i].key == key
  }

  /** A receipt is appended exactly of a sound payload at its batch's revision, about its items, under a free key. */
  lemma AppendIsExact(l: Ledger, b: BatchId, a: Append, wellFormed: bool, now: int)
    requires Inv(l)
    ensures var reply := AppendReceipts(l, b, a, wellFormed, now);
            var sound := wellFormed && SoundAppend(a);
            var about := b in l.batches && forall j :: 0 <= j < |a.deltas| ==>
                                             Lists(l.batches[b].items, a.deltas[j].item);
            && (reply.answer == Refused(BadPayload) <==> !sound)
            && (reply.answer == Refused(BatchMissing) <==> sound && b !in l.batches)
            && (reply.answer == Shown(b, false) <==>
                  sound && b in l.batches && ReceiptKeyIsFree(l, b, a.key) && l.batches[b].revision == a.expected &&
                  about)
            && (reply.answer == Shown(b, true) <==>
                  sound && b in l.batches &&
                  exists i :: Holds(l, b, a.key, i) && l.receipts[i].payload == OfAppend(a))
            && (reply.answer == Refused(KeyConflict) <==>
                  sound && b in l.batches &&
                  exists i :: Holds(l, b, a.key, i) && l.receipts[i].payload != OfAppend(a))
            && (reply.answer == Refused(Stale) <==>
                  sound && b in l.batches && ReceiptKeyIsFree(l, b, a.key) && l.batches[b].revision != a.expected)
            && reply.ledger == (if reply.answer != Shown(b, false) then l else
                 l.(batches := l.batches[b := l.batches[b].(revision := a.expected + 1)],
                    receipts := l.receipts + [Receipt(b, a.expected + 1, a.key, OfAppend(a), Some(now), a.deltas)],
                    revision := l.revision + 1))
  {
    PayloadsMean(Creation(0, 0, "", [], []), a);
    forall i, j | ReceivedUnder(l.receipts, b, a.key, i) && ReceivedUnder(l.receipts, b, a.key, j) ensures i == j {
      assert ReceiptPair(l, i, j) && ReceiptPair(l, j, i);
    }
    ReceiptKeyMeans(l, b, a.key);
    forall i ensures Holds(l, b, a.key, i) <==> ReceivedUnder(l.receipts, b, a.key, i) {}
    if b in l.batches {
      forall j | 0 <= j < |a.deltas|
        ensures HasItem(l.batches[b].items, a.deltas[j].item) <==> Lists(l.batches[b].items, a.deltas[j].item)
      {
      }
    }
  }
}
