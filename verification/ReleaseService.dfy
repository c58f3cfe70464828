/** The ledger as an object updated in place, and the loops that project a batch from its receipts. */
module ReleaseServices {
  import opened Options
  import opened ReleaseAssessment
  import opened ReleaseDates
  import opened ReleaseLedger
  import opened ReleaseCounts
  import opened ReleaseSafety
  import opened ReleaseProjection

  lemma RowsGrow(target: seq<Row>, i: nat, row: Row)
    requires i < |target| && target[i] == row
    ensures target[..i + 1] == target[..i] + [row]
  {
  }

  class ReleaseService {
    var batches: map<BatchId, Batch>
    var receipts: seq<Receipt>
    var revision: nat
    var tasks: set<TaskId>

    function Tables(): Ledger
      reads this
    {
      Ledger(batches, receipts, revision, tasks)
    }

    ghost predicate Valid()
      reads this
    {
      Reachable(Tables())
    }

    constructor ()
      ensures Valid() && Tables() == Empty()
    {
      batches, receipts, revision, tasks := map[], [], 0, {};
      new;
      assert LeadsTo([], Empty());
    }

    // -------------------------------------------------------------- reading

    /** The receipts of a batch in the order of their revisions, which is that of their rows. */
    method ReadHistory(b: BatchId) returns (history: seq<Receipt>)
      ensures history == HistoryOf(receipts, b)
    {
      history := [];
      var i := 0;
      while i < |receipts|
        invariant 0 <= i <= |receipts|
        invariant history == HistoryOf(receipts[..i], b)
      {
        assert receipts[..i + 1] == receipts[..i] + [receipts[i]];
        HistoryGrows(receipts[..i], receipts[i], b);
        if receipts[i].batch == b { history := history + [receipts[i]]; }
        i := i + 1;
      }
      assert receipts[..|receipts|] == receipts;
    }

    method OverlayReceipt(known: map<Dimension, Stamped>, r: Receipt, item: ItemKey)
        returns (after: map<Dimension, Stamped>)
      ensures after == Overlay(known, r.deltas, item, r.receivedAt)
    {
      after := known;
      var j := 0;
      assert r.deltas[0..] == r.deltas;
      while j < |r.deltas|
        invariant 0 <= j <= |r.deltas|
        invariant Overlay(known, r.deltas, item, r.receivedAt) == Overlay(after, r.deltas[j..], item, r.receivedAt)
      {
        assert r.deltas[j..][0] == r.deltas[j] && r.deltas[j..][1..] == r.deltas[j + 1..];
        if r.deltas[j].item == item {
          var facts := r.deltas[j].facts;
          after := map d | d in after.Keys + facts.Keys ::
                     if d in facts then Stamped(facts[d], r.receivedAt) else after[d];
        }
        j := j + 1;
      }
    }

    /** What is known of an item: its facts updated receipt by receipt. */
    method ReadKnown(history: seq<Receipt>, item: ItemKey) returns (known: map<Dimension, Stamped>)
      ensures known == Known(history, item)
    {
      known := map[];
      var i := 0;
      assert history[0..] == history;
      while i < |history|
        invariant 0 <= i <= |history|
        invariant Known(history, item) == KnownFrom(known, history[i..], item)
      {
        assert history[i..][0] == history[i] && history[i..][1..] == history[i + 1..];
        known := OverlayReceipt(known, history[i], item);
        i := i + 1;
      }
    }

    method LatestDate(dates: seq<Option<int>>) returns (latest: Option<int>)
      ensures latest == Max(dates)
      ensures IsMax(latest, dates)
    {
      MaxIsMax(dates);
      latest := None;
      var i := |dates|;
      while i > 0
        invariant 0 <= i <= |dates|
        invariant latest == Max(dates[i..])
      {
        i := i - 1;
        assert dates[i..][0] == dates[i] && dates[i..][1..] == dates[i + 1..];
        latest := Later(dates[i], latest);
      }
      assert dates[0..] == dates;
    }

    /** Every item of a batch, assessed from what is known of it. */
    method ReadRows(items: seq<Item>, history: seq<Receipt>, environment: string) returns (rows: seq<Row>)
      ensures rows == RowsOf(items, history, environment)
    {
      ghost var target := RowsOf(items, history, environment);
      rows := [];
      var i := 0;
      while i < |items|
        invariant 0 <= i <= |items| == |target|
        invariant rows == target[..i]
      {
        var known := ReadKnown(history, items[i].key);
        var row := RowOf(known, items[i], environment);
        RowsGrow(target, i, row);
        rows := rows + [row];
        i := i + 1;
      }
    }

    method CountRows(rows: seq<Row>) returns (counts: Counts)
      ensures Counted(counts, rows)
      ensures counts == CountAll(ZERO, rows)
    {
      counts := ZERO;
      var i := 0;
      while i < |rows|
        invariant 0 <= i <= |rows|
        invariant Counted(counts, rows[..i]) && counts == CountAll(ZERO, rows[..i])
      {
        assert rows[..i + 1] == rows[..i] + [rows[i]];
        CountsOneMore(counts, rows[..i], rows[i]);
        CountAppends(ZERO, rows[..i], rows[i]);
        counts := Count(counts, rows[i]);
        i := i + 1;
      }
      assert rows[..|rows|] == rows;
    }

    /** The projection of a batch: its items assessed and counted, and its latest confirmed deployment. */
    method ReadBatch(b: BatchId) returns (shown: Option<Projection>)
      ensures shown == if b in batches then Some(Project(batches[b], HistoryOf(receipts, b))) else None
    {
      if b !in batches { return None; }
      var batch := batches[b];
      var history := ReadHistory(b);
      var rows := ReadRows(batch.items, history, batch.environment);
      var counts := CountRows(rows);
      var latest := LatestDate(HistoryDates(history, batch.items, batch.environment) + CurrentDates(rows));
      return Some(Projection(SummaryOf(counts), counts, latest, rows));
    }

    // -------------------------------------------------------------- writing

    method FindBatch(key: Key) returns (found: Option<BatchId>)
      ensures found.None? <==> CreatedUnder(batches, key) == {}
      ensures found.Some? ==> found.value in CreatedUnder(batches, key)
    {
      var todo := batches.Keys;
      while todo != {}
        invariant todo <= batches.Keys
        invariant forall b :: b in CreatedUnder(batches, key) ==> b in todo
        decreases |todo|
      {
        var b :| b in todo;
        if batches[b].key == key {
          assert b in CreatedUnder(batches, key);
          return Some(b);
        }
        todo := todo - {b};
      }
      return None;
    }

    method FindReceipt(b: BatchId, key: Key) returns (found: int)
      ensures found >= 0 ==> ReceivedUnder(receipts, b, key, found)
      ensures found < 0 ==> forall i :: 0 <= i < |receipts| ==> !ReceivedUnder(receipts, b, key, i)
    {
      found := 0;
      while found < |receipts|
        invariant 0 <= found <= |receipts|
        invariant forall i :: 0 <= i < found ==> !ReceivedUnder(receipts, b, key, i)
      {
        if receipts[found].batch == b && receipts[found].key == key { return; }
        found := found + 1;
      }
      found := -1;
    }

    method AllKnown(items: seq<Item>, deltas: seq<Delta>) returns (known: bool)
      ensures known <==> forall i :: 0 <= i < |deltas| ==> HasItem(items, deltas[i].item)
    {
      var i := 0;
      while i < |deltas|
        invariant 0 <= i <= |deltas|
        invariant forall j :: 0 <= j < i ==> HasItem(items, deltas[j].item)
      {
        if !HasItem(items, deltas[i].item) { return false; }
        i := i + 1;
      }
      return true;
    }

    /** What tasks there are is decided elsewhere. */
    method UseTasks(known: set<TaskId>)
      requires Valid()
      modifies this`tasks
      ensures Valid()
      ensures Tables() == Apply(old(Tables()), SetTasks(known)).ledger
    {
      StaysReachable(Tables(), SetTasks(known));
      tasks := known;
    }

    /** One row of the receipt table, and the revision of the ledger with it. */
    method Record(r: Receipt)
      modifies this`receipts, this`revision
      ensures receipts == old(receipts) + [r] && revision == old(revision) + 1
    {
      receipts := receipts + [r];
      revision := revision + 1;
    }

    method CreateBatchOf(data: Creation, wellFormed: bool, id: BatchId, now: int) returns (answer: Answer)
      requires Valid()
      modifies this
      ensures Valid()
      ensures Reply(Tables(), answer) == CreateBatch(old(Tables()), data, wellFormed, id, now)
    {
      ghost var before := Tables();
      StaysReachable(before, Create(data, wellFormed, id, now));
      if !wellFormed || !ValidCreation(data) { return Refused(BadPayload); }
      var existing := FindBatch(data.key);
      if existing.Some? {
        var b := existing.value;
        forall c | c in CreatedUnder(batches, data.key) ensures c == b { assert BatchPair(before, b, c); }
        if batches[b].payload != data { return Refused(KeyConflict); }
        return Shown(b, true);
      }
      if exists i :: 0 <= i < |data.items| && !(data.items[i].tasks <= tasks) { return Refused(TaskMissing); }
      if id in batches { return Silent; }
      batches := batches[id := Batch(data.key, data, data.environment, data.items, 1)];
      Record(Receipt(id, 1, data.key, OfCreation(data), Some(now), data.facts));
      return Shown(id, false);
    }

    method AppendReceiptsTo(b: BatchId, data: Append, wellFormed: bool, now: int) returns (answer: Answer)
      requires Valid()
      modifies this
      ensures Valid()
      ensures Reply(Tables(), answer) == AppendReceipts(old(Tables()), b, data, wellFormed, now)
    {
      ghost var before := Tables();
      StaysReachable(before, Register(b, data, wellFormed, now));
      if !wellFormed || !ValidAppend(data) { return Refused(BadPayload); }
      if b !in batches { return Refused(BatchMissing); }
      var prior := FindReceipt(b, data.key);
      if prior >= 0 {
        ReceiptFound(before, prior, data, now);
        if receipts[prior].payload != OfAppend(data) { return Refused(KeyConflict); }
        return Shown(b, true);
      }
      if batches[b].revision != data.expected { return Refused(Stale); }
      var known := AllKnown(batches[b].items, data.deltas);
      if !known { return Refused(ItemMissing); }
      var next := batches[b].revision + 1;
      batches := batches[b := batches[b].(revision := next)];
      Record(Receipt(b, next, data.key, OfAppend(data), Some(now), data.deltas));
      return Shown(b, false);
    }
  }
}
