module ReleaseProjection {

  // What the projection of a batch means: the last receipt decides, and a release date never recedes.

  import opened Options
  import opened ReleaseAssessment
  import opened ReleaseDates
  import opened ReleaseLedger
  import opened ReleaseSafety

  // ------------------------------------------------ the last receipt decides

  /** Delta `j` of a receipt says something of a dimension of an item. */
  ghost predicate Carries(deltas: seq<Delta>, item: ItemKey, d: Dimension, j: int) {
    0 <= j < |deltas| && deltas[j].item == item && d in deltas[j].facts
  }

  ghost predicate Silence(deltas: seq<Delta>, item: ItemKey, d: Dimension) {
    forall j :: !Carries(deltas, item, d, j)
  }

  lemma {:induction false} OverlaySays(known: map<Dimension, Stamped>, deltas: seq<Delta>, item: ItemKey,
      at: Option<int>, d: Dimension)
    requires DistinctDeltas(deltas)
    ensures var after := Overlay(known, deltas, item, at);
            && (Silence(deltas, item, d) ==> (d in after <==> d in known) && (d in known ==> after[d] == known[d]))
            && (forall j :: Carries(deltas, item, d, j) ==> d in after && after[d] == Stamped(deltas[j].facts[d], at))
    decreases |deltas|
  {
    if deltas == [] { return; }
    var first, rest := deltas[0], deltas[1..];
    assert forall j :: 0 <= j < |rest| ==> rest[j] == deltas[j + 1];
    var now := if first.item == item
               then map e | e in known.Keys + first.facts.Keys ::
                      if e in first.facts then Stamped(first.facts[e], at) else known[e]
               else known;
    OverlaySays(now, rest, item, at, d);
    assert Carries(deltas, item, d, 0) <==> first.item == item && d in first.facts;
    forall j ensures Carries(rest, item, d, j) <==> j >= 0 && Carries(deltas, item, d, j + 1) {}
    forall j | Carries(deltas, item, d, j)
      ensures d in Overlay(known, deltas, item, at) &&
                Overlay(known, deltas, item, at)[d] == Stamped(deltas[j].facts[d], at)
    {
      if j == 0 {
        forall k ensures !Carries(rest, item, d, k) {
          assert 0 <= k < |rest| ==> deltas[k + 1].item != first.item;
        }
      } else {
        assert Carries(rest, item, d, j - 1);
      }
    }
  }

  lemma {:induction false} KnownAppends(known: map<Dimension, Stamped>, a: seq<Receipt>, b: seq<Receipt>, item: ItemKey)
    ensures KnownFrom(known, a + b, item) == KnownFrom(KnownFrom(known, a, item), b, item)
    decreases |a|
  {
    if a == [] {
      assert a + b == b;
    } else {
      assert (a + b)[0] == a[0] && (a + b)[1..] == a[1..] + b;
      KnownAppends(Overlay(known, a[0].deltas, item, a[0].receivedAt), a[1..], b, item);
    }
  }

  lemma KnownGrows(history: seq<Receipt>, r: Receipt, item: ItemKey)
    ensures Known(history + [r], item) == Overlay(Known(history, item), r.deltas, item, r.receivedAt)
  {
    KnownAppends(map[], history, [r], item);
    assert KnownFrom(Known(history, item), [r], item) ==
           KnownFrom(Overlay(Known(history, item), r.deltas, item, r.receivedAt), [r][1..], item);
  }

  /** Delta `j` of receipt `i` is the last that carries a dimension of an item. */
  ghost predicate LastCarrying(history: seq<Receipt>, item: ItemKey, d: Dimension, i: int, j: int) {
    0 <= i < |history| && Carries(history[i].deltas, item, d, j) &&
    forall k :: i < k < |history| ==> Silence(history[k].deltas, item, d)
  }

  ghost predicate Distinct(history: seq<Receipt>) {
    forall i :: 0 <= i < |history| ==> DistinctDeltas(history[i].deltas)
  }

  lemma {:induction false} LastDecides(history: seq<Receipt>, item: ItemKey, d: Dimension)
    requires Distinct(history)
    ensures d !in Known(history, item) ==> forall i :: 0 <= i < |history| ==> Silence(history[i].deltas, item, d)
    ensures d in Known(history, item) ==> exists i, j :: LastCarrying(history, item, d, i, j)
    ensures forall i, j :: LastCarrying(history, item, d, i, j) ==>
              d in Known(history, item) &&
              Known(history, item)[d] == Stamped(history[i].deltas[j].facts[d], history[i].receivedAt)
    decreases |history|
  {
    if history == [] { return; }
    var n := |history| - 1;
    var init, r := history[..n], history[n];
    assert history == init + [r];
    LastDecides(init, item, d);
    KnownGrows(init, r, item);
    OverlaySays(Known(init, item), r.deltas, item, r.receivedAt, d);
    if Silence(r.deltas, item, d) {
      forall i, j ensures LastCarrying(history, item, d, i, j) <==> LastCarrying(init, item, d, i, j) {
        assert forall k :: i < k < n && 0 <= i ==> history[k] == init[k];
      }
      if d in Known(history, item) {
        var i, j :| LastCarrying(init, item, d, i, j);
        assert LastCarrying(history, item, d, i, j);
      }
    } else {
      var j :| Carries(r.deltas, item, d, j);
      assert LastCarrying(history, item, d, n, j);
      assert !Silence(history[n].deltas, item, d);
      assert forall i, k :: LastCarrying(history, item, d, i, k) ==> i == n;
    }
  }

  /**
   The assessment of a dimension is that of the last receipt that carries it, at the moment
   that receipt arrived; neither later receipts about other things nor reading it later matter.
   */
  lemma AssessmentIsLastReceipt(history: seq<Receipt>, item: Item, environment: string, d: Dimension, i: int, j: int)
    requires Distinct(history) && LastCarrying(history, item.key, d, i, j)
    ensures AssessItem(Known(history, item.key), item, environment, d) ==
            Assess(d, Some(history[i].deltas[j].facts[d]), item, environment, history[i].receivedAt)
  {
    LastDecides(history, item.key, d);
  }

  lemma UnreportedIsDefault(history: seq<Receipt>, item: Item, environment: string, d: Dimension)
    requires Distinct(history) && forall i :: 0 <= i < |history| ==> Silence(history[i].deltas, item.key, d)
    ensures AssessItem(Known(history, item.key), item, environment, d) == Assessment(Plain(Default(d)), [])
  {
    LastDecides(history, item.key, d);
    assert forall i, j :: !LastCarrying(history, item.key, d, i, j);
  }

  // -------------------------------------------------------- the release date

  ghost function Latest(history: seq<Receipt>, items: seq<Item>, environment: string): Date {
    Max(HistoryDates(history, items, environment))
  }

  lemma {:induction false} ItemIsFound(items: seq<Item>, i: nat)
    requires i < |items| && DistinctItems(items)
    ensures HasItem(items, items[i].key) && ItemOf(items, items[i].key) == items[i]
    decreases i
  {
    if i > 0 {
      assert items[0].key != items[i].key && items[1..][i - 1] == items[i];
      ItemIsFound(items[1..], i - 1);
    }
  }

  /** The last receipt to carry the deployment of an item confirmed on arrival what is confirmed now. */
  lemma CurrentIsAt(history: seq<Receipt>, items: seq<Item>, environment: string, i: nat, k: int, j: int)
    requires Distinct(history) && DistinctItems(items) && i < |items|
    requires LastCarrying(history, items[i].key, Deployment, k, j)
    ensures ConfirmedAt(history[k].deltas[j], items, environment, history[k].receivedAt) ==
            RowOf(Known(history, items[i].key), items[i], environment).observed
  {
    LastDecides(history, items[i].key, Deployment);
    ItemIsFound(items, i);
  }

  lemma DateIsBounded(history: seq<Receipt>, items: seq<Item>, environment: string, k: nat, j: nat)
    requires k < |history| && j < |history[k].deltas|
    ensures Bounds(Latest(history, items, environment),
                   ConfirmedAt(history[k].deltas[j], items, environment, history[k].receivedAt))
  {
    var grid := DateGrid(history, items, environment);
    assert grid[k][j] == ConfirmedAt(history[k].deltas[j], items, environment, history[k].receivedAt);
    GridBounds(grid, k, j);
  }

  /** A deployment that is confirmed now was confirmed by the receipt that brought it. */
  lemma CurrentIsInHistory(history: seq<Receipt>, items: seq<Item>, environment: string, i: nat)
    requires Distinct(history) && DistinctItems(items) && i < |items|
    ensures Bounds(Latest(history, items, environment),
              RowOf(Known(history, items[i].key), items[i], environment).observed)
  {
    var known := Known(history, items[i].key);
    if Deployment in known {
      LastDecides(history, items[i].key, Deployment);
      var k, j :| LastCarrying(history, items[i].key, Deployment, k, j);
      CurrentIsAt(history, items, environment, i, k, j);
      DateIsBounded(history, items, environment, k, j);
    }
  }

  ghost function ReleasedAt(l: Ledger, b: BatchId): Option<int>
    requires b in l.batches
  {
    Project(l.batches[b], HistoryOf(l.receipts, b)).releasedAt
  }

  lemma {:induction false} HistoryIsDistinct(l: Ledger, receipts: seq<Receipt>, b: BatchId)
    requires Inv(l) && receipts <= l.receipts
    ensures Distinct(HistoryOf(receipts, b))
    decreases |receipts|
  {
    if receipts != [] {
      assert ReceiptRow(l, |receipts| - 1);
      HistoryIsDistinct(l, receipts[..|receipts| - 1], b);
    }
  }

  /** The release date comes from the history of receipts alone. */
  lemma ReleasedAtIsLatest(l: Ledger, b: BatchId)
    requires Inv(l) && b in l.batches
    ensures ReleasedAt(l, b) == Latest(HistoryOf(l.receipts, b), l.batches[b].items, l.batches[b].environment)
  {
    var batch, history := l.batches[b], HistoryOf(l.receipts, b);
    assert BatchRow(l, b);
    HistoryIsDistinct(l, l.receipts, b);
    var rows := RowsOf(batch.items, history, batch.environment);
    forall i | 0 <= i < |CurrentDates(rows)|
      ensures Bounds(Latest(history, batch.items, batch.environment), CurrentDates(rows)[i])
    {
      CurrentIsInHistory(history, batch.items, batch.environment, i);
    }
    MaxOfBounded(HistoryDates(history, batch.items, batch.environment), CurrentDates(rows));
  }

  /**
   A batch has a release date exactly when some receipt ever confirmed a deployment of one of
   its items, by what was known when that receipt arrived, and it is the latest such date.
   */
  lemma ReleasedAtMeans(l: Ledger, b: BatchId)
    requires Inv(l) && b in l.batches
    ensures var grid := DateGrid(HistoryOf(l.receipts, b), l.batches[b].items, l.batches[b].environment);
            && (ReleasedAt(l, b).Some? ==> Occurs(grid, ReleasedAt(l, b).value))
            && forall date :: Occurs(grid, date) ==> Bounds(ReleasedAt(l, b), Some(date))
  {
    ReleasedAtIsLatest(l, b);
    GridMax(DateGrid(HistoryOf(l.receipts, b), l.batches[b].items, l.batches[b].environment));
  }

  lemma {:induction false} HistoryExtends(a: seq<Receipt>, c: seq<Receipt>, b: BatchId)
    requires a <= c
    ensures HistoryOf(a, b) <= HistoryOf(c, b)
    decreases |c|
  {
    if |a| < |c| { HistoryExtends(a, c[..|c| - 1], b); } else { assert a == c; }
  }

  /** Once released, a batch keeps a release date through any later calls, and the date never recedes. */
  lemma ReleaseDateNeverRecedes(l: Ledger, steps: seq<Step>, b: BatchId)
    requires Inv(l) && b in l.batches
    ensures b in Execute(l, steps).batches && Bounds(ReleasedAt(Execute(l, steps), b), ReleasedAt(l, b))
  {
    var later := Execute(l, steps);
    ExecuteKeeps(l, steps);
    assert BatchRow(l, b) && BatchRow(later, b);
    var items, environment := l.batches[b].items, l.batches[b].environment;
    ReleasedAtIsLatest(l, b);
    ReleasedAtIsLatest(later, b);
    HistoryExtends(l.receipts, later.receipts, b);
    var before, after := HistoryOf(l.receipts, b), HistoryOf(later.receipts, b);
    GridExtends(before, after, items, environment);
    GridGrows(DateGrid(before, items, environment), DateGrid(after[|before|..], items, environment));
  }

  lemma GridExtends(before: seq<Receipt>, after: seq<Receipt>, items: seq<Item>, environment: string)
    requires before <= after
    ensures DateGrid(after, items, environment) ==
            DateGrid(before, items, environment) + DateGrid(after[|before|..], items, environment)
  {
  }

  // ------------------------------------------------------------- the preview

  lemma CreationIsKnown(data: Creation, r: Receipt, now: int, i: nat)
    requires ValidCreation(data) && r.deltas == data.facts && r.receivedAt == Some(now) && i < |data.items|
    ensures Known([r], data.items[i].key) == StampAll(data.facts[i].facts, now)
  {
    CreationDeltas(data);
    var key, facts := data.items[i].key, data.facts[i].facts;
    var known := Known([r], key);
    assert [] + [r] == [r];
    KnownGrows([], r, key);
    forall d ensures d in known <==> d in facts
             ensures d in facts ==> known[d] == Stamped(facts[d], Some(now))
    {
      OverlaySays(map[], r.deltas, key, r.receivedAt, d);
      assert d in facts ==> Carries(r.deltas, key, d, i);
      if d !in facts {
        forall j ensures !Carries(r.deltas, key, d, j) {
          assert 0 <= j < |r.deltas| && r.deltas[j].item == key ==> j == i;
        }
      }
    }
  }

  /** What the receipt of a creation confirms of an item is what is confirmed of it now. */
  lemma CreationDate(data: Creation, r: Receipt, now: int, j: nat)
    requires ValidCreation(data) && r.deltas == data.facts && r.receivedAt == Some(now) && j < |data.items|
    ensures ConfirmedAt(r.deltas[j], data.items, data.environment, r.receivedAt) ==
            RowOf(Known([r], data.items[j].key), data.items[j], data.environment).observed
  {
    CreationIsKnown(data, r, now, j);
    ItemIsFound(data.items, j);
  }

  lemma CreationDates(data: Creation, r: Receipt, now: int)
    requires ValidCreation(data) && r.deltas == data.facts && r.receivedAt == Some(now)
    ensures ReceiptDates(r, data.items, data.environment) == CurrentDates(RowsOf(data.items, [r], data.environment))
  {
    var rows := RowsOf(data.items, [r], data.environment);
    forall j | 0 <= j < |data.items|
      ensures ReceiptDates(r, data.items, data.environment)[j] == CurrentDates(rows)[j]
    {
      CreationDate(data, r, now, j);
    }
  }

  /** The date history adds to those of the rows is their latest. */
  lemma CreationAddsNoDate(data: Creation, r: Receipt, now: int, current: seq<Date>)
    requires ValidCreation(data) && r.deltas == data.facts && r.receivedAt == Some(now)
    requires current == CurrentDates(RowsOf(data.items, [r], data.environment))
    ensures Max(HistoryDates([r], data.items, data.environment) + current) == Max(current)
  {
    CreationDates(data, r, now);
    var grid := DateGrid([r], data.items, data.environment);
    assert grid == [current];
    MaxOfOne(current);
    MaxJoins(MaxEach(grid), current);
  }

  /** The rows of a creation are those its preview shows. */
  lemma CreationRows(data: Creation, r: Receipt, now: int)
    requires ValidCreation(data) && r.deltas == data.facts && r.receivedAt == Some(now)
    ensures RowsOf(data.items, [r], data.environment) == PreviewRows(data, now)
  {
    var rows, previewed := RowsOf(data.items, [r], data.environment), PreviewRows(data, now);
    forall i | 0 <= i < |data.items| ensures rows[i] == previewed[i] { CreationIsKnown(data, r, now, i); }
  }

  lemma CreationShows(data: Creation, r: Receipt, now: int)
    requires ValidCreation(data) && r.deltas == data.facts && r.receivedAt == Some(now)
    ensures Project(Batch(data.key, data, data.environment, data.items, 1), [r]) == PreviewBatch(data, now)
  {
    var rows := PreviewRows(data, now);
    CreationRows(data, r, now);
    CreationAddsNoDate(data, r, now, CurrentDates(rows));
    assert [] + CurrentDates(rows) == CurrentDates(rows);
  }

  /** What a creation leaves of its batch: a row of its own, and its receipt as the whole history. */
  lemma CreationLeaves(l: Ledger, data: Creation, id: BatchId, now: int)
    requires Inv(l) && ValidCreation(data) && CreateBatch(l, data, true, id, now).answer == Shown(id, false)
    ensures var l' := CreateBatch(l, data, true, id, now).ledger;
            id in l'.batches && l'.batches[id] == Batch(data.key, data, data.environment, data.items, 1) &&
            HistoryOf(l'.receipts, id) == [Receipt(id, 1, data.key, OfCreation(data), Some(now), data.facts)]
  {
    var r := Receipt(id, 1, data.key, OfCreation(data), Some(now), data.facts);
    assert BatchRow(l, id);
    HistoryGrows(l.receipts, r, id);
  }

  /** A preview shows what the creation it announces will show if it is made at that moment. */
  lemma PreviewIsCreation(l: Ledger, data: Creation, id: BatchId, now: int)
    requires Inv(l) && ValidCreation(data) && CreateBatch(l, data, true, id, now).answer == Shown(id, false)
    ensures var l' := CreateBatch(l, data, true, id, now).ledger;
            id in l'.batches && Project(l'.batches[id], HistoryOf(l'.receipts, id)) == PreviewBatch(data, now)
  {
    CreationLeaves(l, data, id, now);
    CreationShows(data, Receipt(id, 1, data.key, OfCreation(data), Some(now), data.facts), now);
  }
}
