module ReleaseEvidence {

  // What it takes for a declared fact to be shown as declared, of every kind, said of the columns of
  // the last receipt that carries it; and what the counts of a batch therefore count.

  import opened Options
  import opened ReleaseAssessment
  import opened ReleaseLedger
  import opened ReleaseCounts
  import opened ReleaseDates
  import opened ReleaseSafety
  import opened ReleaseProjection

  /** Text with something in it besides white space. */
  predicate Filled(text: Text) {
    text.Some? && exists i :: 0 <= i < |text.value| && text.value[i] !in {' ', '\t', '\n', '\r'}
  }

  /** Sixty-four hexadecimal digits. */
  predicate IsDigest(text: Text) {
    text.Some? && |text.value| == 64 && forall c <- text.value :: c in "0123456789abcdefABCDEF"
  }

  lemma FilledMeans(text: Text)
    ensures Present(text) <==> Filled(text)
  {
    assert forall c: char :: c in " \t\n\r" <==> c in {' ', '\t', '\n', '\r'};
    if Present(text) {
      var i :| 0 <= i < |text.value| && text.value[i] !in " \t\n\r";
      assert text.value[i] !in {' ', '\t', '\n', '\r'};
    }
    if Filled(text) {
      var i :| 0 <= i < |text.value| && text.value[i] !in {' ', '\t', '\n', '\r'};
      assert text.value[i] !in " \t\n\r";
    }
  }

  lemma HexDigits(c: char)
    ensures HexDigit(c) <==> c in "0123456789abcdefABCDEF"
  {
    var digits := "0123456789abcdefABCDEF";
    if '0' <= c <= '9' { assert digits[c as int - '0' as int] == c; }
    if 'a' <= c <= 'f' { assert digits[10 + (c as int - 'a' as int)] == c; }
    if 'A' <= c <= 'F' { assert digits[16 + (c as int - 'A' as int)] == c; }
  }

  lemma DigestMeans(text: Text)
    ensures IsSha256(text) <==> IsDigest(text)
  {
    forall c: char ensures HexDigit(c) <==> c in "0123456789abcdefABCDEF" { HexDigits(c); }
    if IsSha256(text) {
      forall c | c in text.value ensures c in "0123456789abcdefABCDEF" {
        var i :| 0 <= i < |text.value| && text.value[i] == c;
        assert HexDigit(text.value[i]);
      }
    }
    if IsDigest(text) {
      forall i | 0 <= i < 64 ensures HexDigit(text.value[i]) { assert text.value[i] in text.value; }
    }
  }

  /** Observed, then reviewed, by the time of the receipt; sourced; and about this item in this environment. */
  ghost predicate Witnessed(fact: Fact, item: Item, environment: string, at: Option<int>) {
    && at.Some? && fact.observedAt.Some? && fact.review.checkedAt.Some?
    && fact.observedAt.value <= fact.review.checkedAt.value <= at.value
    && Filled(fact.source.kind) && Filled(fact.source.ref) && IsDigest(fact.source.sha256)
    && Filled(fact.review.reviewer) && Filled(fact.review.procedure)
    && fact.proof.environment == Some(environment) && fact.proof.component == Some(item.component)
  }

  lemma WitnessMeans(fact: Fact, item: Item, environment: string, at: Option<int>)
    ensures CommonReasons(fact, item, environment, at) == [] <==> Witnessed(fact, item, environment, at)
  {
    FilledMeans(fact.source.kind);
    FilledMeans(fact.source.ref);
    FilledMeans(fact.review.reviewer);
    FilledMeans(fact.review.procedure);
    DigestMeans(fact.source.sha256);
  }

  /** Every part of a rollout has ended well. */
  predicate Sound(health: Option<Health>) {
    health.Some? && health.value.sync == Some("Synced") && health.value.health == Some("Healthy") &&
    health.value.operation == Some("Succeeded") && health.value.rollout == Some("Healthy") &&
    health.value.readiness == Some("passed")
  }

  /** A sibling is another component of the environment, named with its artifact and healthy. */
  predicate SoundSibling(s: Sibling, own: string, environment: string) {
    s.Sibling? && Filled(s.component) && s.component != Some(own) && s.environment == Some(environment) &&
    Filled(s.revision) && Filled(s.digest) && Filled(s.ops) && Sound(s.health)
  }

  ghost predicate SoundSiblings(siblings: seq<Sibling>, own: string, environment: string) {
    && (forall i :: 0 <= i < |siblings| ==> SoundSibling(siblings[i], own, environment))
    && (forall i, j :: 0 <= i < j < |siblings| ==> siblings[i].component != siblings[j].component)
  }

  lemma SiblingMeans(s: Sibling, own: string, environment: string)
    ensures CompleteSibling(s, own, environment) <==> SoundSibling(s, own, environment)
  {
    if s.Sibling? {
      FilledMeans(s.component);
      FilledMeans(s.revision);
      FilledMeans(s.digest);
      FilledMeans(s.ops);
    }
  }

  lemma MappingMeans(siblings: seq<Sibling>, own: string, environment: string)
    ensures CompleteMapping(siblings, own, environment) <==> SoundSiblings(siblings, own, environment)
  {
    forall i | 0 <= i < |siblings|
      ensures CompleteSibling(siblings[i], own, environment) <==> SoundSibling(siblings[i], own, environment)
    {
      SiblingMeans(siblings[i], own, environment);
    }
  }

  /** A release of the item's own artifact. */
  ghost predicate ArtifactProof(proof: Proof, item: Item) {
    && proof.profile == Some("cluster_release_v1")
    && Filled(proof.revision) && proof.revision.value == item.artifact.revision
    && Filled(proof.digest) && proof.digest.value == item.artifact.digest
    && Filled(proof.ops) && proof.ops.value == item.artifact.ops
  }

  /** It has ended well. */
  ghost predicate TerminalProof(proof: Proof) {
    Filled(proof.releaseRef) && Filled(proof.terminalRef) && proof.releaseResult == Some("success") &&
    proof.terminalState == Some("Success") && proof.terminalProven
  }

  /** A mapping is given, and is empty exactly if siblings are said not to apply. */
  predicate MappingFits(proof: Proof) {
    proof.siblingsApplicable.Some? && proof.siblings.Some? &&
    (proof.siblings.value == [] <==> proof.siblingsApplicable == Some(false))
  }

  /** Such a release, ended well and healthy, with its siblings if it has any. */
  ghost predicate DeploymentProof(proof: Proof, item: Item, environment: string) {
    ArtifactProof(proof, item) && TerminalProof(proof) && Sound(proof.health) && MappingFits(proof) &&
    SoundSiblings(proof.siblings.value, item.component, environment)
  }

  predicate RollbackProof(proof: Proof) {
    Filled(proof.reason) && Filled(proof.rollbackRef)
  }

  predicate FailureProof(proof: Proof) {
    Filled(proof.reason) && Filled(proof.releaseRef) && proof.releaseResult == Some("failed")
  }

  predicate EnablementProof(proof: Proof, item: Item, enabled: bool) {
    proof.feature == Some(item.feature) && proof.enabled == Some(enabled)
  }

  predicate AcceptanceProof(proof: Proof, item: Item, result: Status) {
    proof.feature == Some(item.feature) && proof.result == Some(result) && Filled(proof.round) &&
    Filled(proof.procedure) && (proof.procedure == Some("fresh_character_e2e") ==> Filled(proof.character))
  }

  /** The statuses that claim something, each of its own dimension. */
  predicate Claims(d: Dimension, status: Status) {
    match d
    case Deployment => status in {Deployed, RolledBack, Status.Failed}
    case Enablement => status in {Enabled, Disabled}
    case Acceptance => status in {Passed, Status.Failed}
  }

  /** The proof that such a claim takes. */
  ghost predicate ClaimProof(d: Dimension, fact: Fact, item: Item, environment: string) {
    match d
    case Deployment =>
      if fact.status == Deployed then DeploymentProof(fact.proof, item, environment)
      else if fact.status == RolledBack then RollbackProof(fact.proof)
      else FailureProof(fact.proof)
    case Enablement => EnablementProof(fact.proof, item, fact.status == Enabled)
    case Acceptance => AcceptanceProof(fact.proof, item, fact.status)
  }

  lemma DeploymentMeans(proof: Proof, item: Item, environment: string)
    ensures DeployedReasons(proof, item, environment) == [] <==> DeploymentProof(proof, item, environment)
  {
    NoDeployedReasons(proof, item, environment);
    FilledMeans(proof.revision);
    FilledMeans(proof.digest);
    FilledMeans(proof.ops);
    FilledMeans(proof.releaseRef);
    FilledMeans(proof.terminalRef);
    if proof.siblings.Some? { MappingMeans(proof.siblings.value, item.component, environment); }
  }

  lemma ClaimMeans(d: Dimension, fact: Fact, item: Item, environment: string)
    requires Claims(d, fact.status)
    ensures KindReasons(d, fact, item, environment) == [] <==> ClaimProof(d, fact, item, environment)
  {
    DeploymentMeans(fact.proof, item, environment);
    FilledMeans(fact.proof.reason);
    FilledMeans(fact.proof.rollbackRef);
    FilledMeans(fact.proof.releaseRef);
    FilledMeans(fact.proof.round);
    FilledMeans(fact.proof.procedure);
    FilledMeans(fact.proof.character);
  }

  /**
   A claim is shown as it was declared exactly if it is witnessed and proven for its kind (a proven
   deployment is called confirmed), and as merely reported otherwise; what claims nothing is shown
   as it is, without reasons.
   */
  lemma ShownIffProven(d: Dimension, fact: Fact, item: Item, environment: string, at: Option<int>)
    requires fact.status in Statuses(d)
    ensures var shown := Assess(d, Some(fact), item, environment, at);
            if Claims(d, fact.status) then
              var proven := Witnessed(fact, item, environment, at) && ClaimProof(d, fact, item, environment);
              && (shown.reasons == [] <==> proven)
              && shown.state == if !proven then Reported
                                else if d == Deployment && fact.status == Deployed then Confirmed
                                else Plain(fact.status)
            else
              shown == Assessment(Plain(if d == Acceptance then NotTested else Status.Unknown), []) &&
              fact.status == if d == Acceptance then NotTested else Status.Unknown
  {
    WitnessMeans(fact, item, environment, at);
    if Claims(d, fact.status) { ClaimMeans(d, fact, item, environment); }
  }

  // ------------------------------------------------------------- of a batch

  function Said(history: seq<Receipt>, d: Dimension, i: int, j: int): Fact
    requires 0 <= i < |history| && 0 <= j < |history[i].deltas| && d in history[i].deltas[j].facts
  {
    history[i].deltas[j].facts[d]
  }

  /** The last receipt to speak of a dimension of the item claims the status, witnessed and proven. */
  ghost predicate ProvenBy(history: seq<Receipt>, item: Item, environment: string, d: Dimension, status: Status,
                           i: int, j: int) {
    LastCarrying(history, item.key, d, i, j) && Said(history, d, i, j).status == status &&
    Witnessed(Said(history, d, i, j), item, environment, history[i].receivedAt) &&
    ClaimProof(d, Said(history, d, i, j), item, environment)
  }

  ghost predicate Proven(history: seq<Receipt>, item: Item, environment: string, d: Dimension, status: Status) {
    exists i, j :: ProvenBy(history, item, environment, d, status, i, j)
  }

  /** Receipts carry only statuses of their dimensions. */
  ghost predicate Declared(history: seq<Receipt>) {
    forall i, j :: 0 <= i < |history| && 0 <= j < |history[i].deltas| ==> ValidFacts(history[i].deltas[j].facts)
  }

  function StateOf(row: Row, d: Dimension): State {
    match d
    case Deployment => row.deployment.state
    case Enablement => row.enablement.state
    case Acceptance => row.acceptance.state
  }

  /** The state in which a proven claim is shown. */
  function Rendered(d: Dimension, status: Status): State {
    if d == Deployment && status == Deployed then Confirmed else Plain(status)
  }

  lemma RowStates(history: seq<Receipt>, item: Item, environment: string, d: Dimension)
    ensures StateOf(RowOf(Known(history, item.key), item, environment), d) ==
            AssessItem(Known(history, item.key), item, environment, d).state
  {
  }

  lemma LastIsOne(history: seq<Receipt>, key: ItemKey, d: Dimension, i: int, j: int)
    requires Distinct(history) && LastCarrying(history, key, d, i, j)
    ensures forall k, l :: LastCarrying(history, key, d, k, l) ==> k == i && l == j
  {
    forall k, l | LastCarrying(history, key, d, k, l) ensures k == i && l == j {
      assert !Silence(history[i].deltas, key, d) && !Silence(history[k].deltas, key, d);
      assert DistinctDeltas(history[i].deltas);
    }
  }

  lemma LastShowsProven(history: seq<Receipt>, item: Item, environment: string, d: Dimension, status: Status,
                        i: int, j: int)
    requires Distinct(history) && Declared(history) && Claims(d, status) && LastCarrying(history, item.key, d, i, j)
    ensures AssessItem(Known(history, item.key), item, environment, d).state == Rendered(d, status) <==>
            ProvenBy(history, item, environment, d, status, i, j)
  {
    AssessmentIsLastReceipt(history, item, environment, d, i, j);
    assert ValidFacts(history[i].deltas[j].facts);
    ShownIffProven(d, Said(history, d, i, j), item, environment, history[i].receivedAt);
  }

  lemma UnsaidShowsNothing(history: seq<Receipt>, item: Item, environment: string, d: Dimension, status: Status)
    requires Distinct(history) && Claims(d, status) && d !in Known(history, item.key)
    ensures AssessItem(Known(history, item.key), item, environment, d).state != Rendered(d, status)
    ensures !Proven(history, item, environment, d, status)
  {
    LastDecides(history, item.key, d);
    UnreportedIsDefault(history, item, environment, d);
    assert forall i, j :: !LastCarrying(history, item.key, d, i, j);
  }

  /** A row shows a claim exactly if the last receipt to speak of it proved it. */
  lemma RowShowsProven(history: seq<Receipt>, item: Item, environment: string, d: Dimension, status: Status)
    requires Distinct(history) && Declared(history) && Claims(d, status)
    ensures StateOf(RowOf(Known(history, item.key), item, environment), d) == Rendered(d, status) <==>
            Proven(history, item, environment, d, status)
  {
    RowStates(history, item, environment, d);
    if d in Known(history, item.key) {
      LastDecides(history, item.key, d);
      var i, j :| LastCarrying(history, item.key, d, i, j);
      OneProof(history, item, environment, d, status, i, j);
      LastShowsProven(history, item, environment, d, status, i, j);
    } else {
      UnsaidShowsNothing(history, item, environment, d, status);
    }
  }

  lemma OneProof(history: seq<Receipt>, item: Item, environment: string, d: Dimension, status: Status, i: int, j: int)
    requires Distinct(history) && LastCarrying(history, item.key, d, i, j)
    ensures Proven(history, item, environment, d, status) <==> ProvenBy(history, item, environment, d, status, i, j)
  {
    LastIsOne(history, item.key, d, i, j);
  }

  ghost function ProvenItems(items: seq<Item>, history: seq<Receipt>, environment: string, d: Dimension, status: Status)
    : set<nat>
  {
    set k: nat | k < |items| && Proven(history, items[k], environment, d, status)
  }

  lemma RowsProven(items: seq<Item>, history: seq<Receipt>, environment: string, d: Dimension, status: Status,
                   which: Row -> bool)
    requires Distinct(history) && Declared(history) && Claims(d, status)
    requires forall row :: which(row) <==> StateOf(row, d) == Rendered(d, status)
    ensures Where(RowsOf(items, history, environment), which) == ProvenItems(items, history, environment, d, status)
  {
    var rows := RowsOf(items, history, environment);
    forall k: nat | k < |items| ensures which(rows[k]) <==> Proven(history, items[k], environment, d, status) {
      RowShowsProven(history, items[k], environment, d, status);
    }
  }

  /** The counts of a batch count its items whose last receipt proved them so. */
  lemma CountsAreProven(items: seq<Item>, history: seq<Receipt>, environment: string)
    requires Distinct(history) && Declared(history)
    ensures var counts := CountAll(ZERO, RowsOf(items, history, environment));
            && counts.total == |items|
            && counts.deployed == |ProvenItems(items, history, environment, Deployment, Deployed)|
            && counts.enabled == |ProvenItems(items, history, environment, Enablement, Enabled)|
            && counts.accepted == |ProvenItems(items, history, environment, Acceptance, Passed)|
            && counts.rolledBack == |ProvenItems(items, history, environment, Deployment, RolledBack)|
  {
    CountsAreCounted(RowsOf(items, history, environment));
    RowsProven(items, history, environment, Deployment, Deployed, IsDeployed);
    RowsProven(items, history, environment, Enablement, Enabled, IsEnabled);
    RowsProven(items, history, environment, Acceptance, Passed, IsAccepted);
    RowsProven(items, history, environment, Deployment, RolledBack, IsRolledBack);
  }

  lemma RowIsProven(items: seq<Item>, history: seq<Receipt>, environment: string, k: nat)
    requires Distinct(history) && Declared(history) && k < |items|
    ensures var row := RowsOf(items, history, environment)[k];
            && (IsDeployed(row) <==> Proven(history, items[k], environment, Deployment, Deployed))
            && (IsRolledBack(row) <==> Proven(history, items[k], environment, Deployment, RolledBack))
  {
    RowShowsProven(history, items[k], environment, Deployment, Deployed);
    RowShowsProven(history, items[k], environment, Deployment, RolledBack);
  }

  /** So it is released when all its deployments are proven, and rolled back when it has items and all rollbacks are. */
  lemma SummaryIsProven(items: seq<Item>, history: seq<Receipt>, environment: string)
    requires Distinct(history) && Declared(history)
    ensures var summary := SummaryOf(CountAll(ZERO, RowsOf(items, history, environment)));
            && (summary == Released <==>
                  forall k :: 0 <= k < |items| ==> Proven(history, items[k], environment, Deployment, Deployed))
            && (summary == AllRolledBack <==>
                  items != [] &&
                  forall k :: 0 <= k < |items| ==> Proven(history, items[k], environment, Deployment, RolledBack))
  {
    var rows := RowsOf(items, history, environment);
    SummaryMeans(rows);
    forall k | 0 <= k < |items|
      ensures IsDeployed(rows[k]) <==> Proven(history, items[k], environment, Deployment, Deployed)
      ensures IsRolledBack(rows[k]) <==> Proven(history, items[k], environment, Deployment, RolledBack)
    {
      RowIsProven(items, history, environment, k);
    }
  }

  lemma {:induction false} HistoryIsDeclared(l: Ledger, receipts: seq<Receipt>, b: BatchId)
    requires Inv(l) && receipts <= l.receipts
    ensures Declared(HistoryOf(receipts, b))
    decreases |receipts|
  {
    if receipts != [] {
      assert ReceiptRow(l, |receipts| - 1);
      HistoryIsDeclared(l, receipts[..|receipts| - 1], b);
    }
  }

  /** What a batch shows, in any ledger that calls have made: its counts and its summary count proven claims. */
  lemma BatchShowsProven(l: Ledger, b: BatchId)
    requires Reachable(l) && b in l.batches
    ensures var batch, history := l.batches[b], HistoryOf(l.receipts, b);
            var shown, items, environment := Project(batch, history), batch.items, batch.environment;
            && shown.counts.total == |items|
            && shown.counts.deployed == |ProvenItems(items, history, environment, Deployment, Deployed)|
            && shown.counts.enabled == |ProvenItems(items, history, environment, Enablement, Enabled)|
            && shown.counts.accepted == |ProvenItems(items, history, environment, Acceptance, Passed)|
            && shown.counts.rolledBack == |ProvenItems(items, history, environment, Deployment, RolledBack)|
            && (shown.summary == Released <==>
                  forall k :: 0 <= k < |items| ==> Proven(history, items[k], environment, Deployment, Deployed))
            && (shown.summary == AllRolledBack <==>
                  items != [] &&
                  forall k :: 0 <= k < |items| ==> Proven(history, items[k], environment, Deployment, RolledBack))
  {
    ReachableInv(l);
    HistoryIsDistinct(l, l.receipts, b);
    HistoryIsDeclared(l, l.receipts, b);
    CountsAreProven(l.batches[b].items, HistoryOf(l.receipts, b), l.batches[b].environment);
    SummaryIsProven(l.batches[b].items, HistoryOf(l.receipts, b), l.batches[b].environment);
  }

  // ---------------------------------------------------------- release dates

  /** Receipt `i` proved in its entry `j` that item `k` was deployed, and observed so at `date`. */
  ghost predicate ReleasedBy(history: seq<Receipt>, items: seq<Item>, environment: string, i: int, j: int, k: int,
                             date: int) {
    0 <= i < |history| && 0 <= j < |history[i].deltas| && 0 <= k < |items| &&
    history[i].deltas[j].item == items[k].key && Deployment in history[i].deltas[j].facts &&
    var fact := Said(history, Deployment, i, j);
    fact.status == Deployed && fact.observedAt == Some(date) &&
    Witnessed(fact, items[k], environment, history[i].receivedAt) &&
    DeploymentProof(fact.proof, items[k], environment)
  }

  ghost predicate WasReleased(history: seq<Receipt>, items: seq<Item>, environment: string, date: int) {
    exists i, j, k :: ReleasedBy(history, items, environment, i, j, k, date)
  }

  lemma ConfirmationMeans(fact: Fact, item: Item, environment: string, at: Option<int>)
    ensures IsConfirmed(Some(fact), item, environment, at) <==>
              fact.status == Deployed && Witnessed(fact, item, environment, at) &&
              DeploymentProof(fact.proof, item, environment)
  {
    if fact.status == Deployed { ShownIffProven(Deployment, fact, item, environment, at); }
  }

  lemma DateMeans(history: seq<Receipt>, items: seq<Item>, environment: string, i: nat, j: nat, date: int)
    requires DistinctItems(items) && i < |history| && j < |history[i].deltas|
    ensures ConfirmedAt(history[i].deltas[j], items, environment, history[i].receivedAt) == Some(date) <==>
            exists k :: ReleasedBy(history, items, environment, i, j, k, date)
  {
    var delta, at := history[i].deltas[j], history[i].receivedAt;
    if Deployment in delta.facts && HasItem(items, delta.item) {
      var k :| 0 <= k < |items| && items[k].key == delta.item;
      ItemIsFound(items, k);
      ConfirmationMeans(delta.facts[Deployment], items[k], environment, at);
      assert ConfirmedAt(delta, items, environment, at) == Some(date) <==>
             ReleasedBy(history, items, environment, i, j, k, date);
      assert forall l :: ReleasedBy(history, items, environment, i, j, l, date) ==> l == k;
    }
  }

  lemma GridMeans(history: seq<Receipt>, items: seq<Item>, environment: string, i: nat, j: nat, date: int)
    requires DistinctItems(items) && i < |history| && j < |history[i].deltas|
    ensures var grid := DateGrid(history, items, environment);
            |grid| == |history| && |grid[i]| == |history[i].deltas| &&
            (grid[i][j] == Some(date) <==> exists k :: ReleasedBy(history, items, environment, i, j, k, date))
  {
    DateMeans(history, items, environment, i, j, date);
  }

  lemma OccurringIsReleased(history: seq<Receipt>, items: seq<Item>, environment: string, date: int)
    requires DistinctItems(items) && Occurs(DateGrid(history, items, environment), date)
    ensures WasReleased(history, items, environment, date)
  {
    var grid := DateGrid(history, items, environment);
    var i, j :| 0 <= i < |grid| && 0 <= j < |grid[i]| && grid[i][j] == Some(date);
    GridMeans(history, items, environment, i, j, date);
    var k :| ReleasedBy(history, items, environment, i, j, k, date);
  }

  lemma ReleasedOccurs(history: seq<Receipt>, items: seq<Item>, environment: string, date: int)
    requires DistinctItems(items) && WasReleased(history, items, environment, date)
    ensures Occurs(DateGrid(history, items, environment), date)
  {
    var i, j, k :| ReleasedBy(history, items, environment, i, j, k, date);
    GridMeans(history, items, environment, i, j, date);
  }

  lemma LatestReleased(history: seq<Receipt>, items: seq<Item>, environment: string, shown: Option<int>)
    requires DistinctItems(items)
    requires shown.Some? ==> Occurs(DateGrid(history, items, environment), shown.value)
    requires forall date :: Occurs(DateGrid(history, items, environment), date) ==> Bounds(shown, Some(date))
    ensures shown.Some? ==> WasReleased(history, items, environment, shown.value)
    ensures forall date :: WasReleased(history, items, environment, date) ==> shown.Some? && date <= shown.value
  {
    if shown.Some? { OccurringIsReleased(history, items, environment, shown.value); }
    forall date | WasReleased(history, items, environment, date) ensures shown.Some? && date <= shown.value {
      ReleasedOccurs(history, items, environment, date);
    }
  }

  /**
   The release date of a batch, in any ledger that calls have made, is the latest at which some receipt
   of it proved a deployment of one of its items; it has one exactly if some receipt did.
   */
  lemma ReleaseDateMeans(l: Ledger, b: BatchId)
    requires Reachable(l) && b in l.batches
    ensures var batch, history := l.batches[b], HistoryOf(l.receipts, b);
            var shown := Project(batch, history).releasedAt;
            && (shown.Some? ==> WasReleased(history, batch.items, batch.environment, shown.value))
            && forall date :: WasReleased(history, batch.items, batch.environment, date) ==>
                                shown.Some? && date <= shown.value
  {
    ReachableInv(l);
    assert BatchRow(l, b);
    ReleasedAtMeans(l, b);
    LatestReleased(HistoryOf(l.receipts, b), l.batches[b].items, l.batches[b].environment, ReleasedAt(l, b));
  }
}
