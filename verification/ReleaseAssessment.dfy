module ReleaseAssessment {

  // Whether a declared release fact is confirmed. Every unmet requirement adds a reason; a
  // fact with a reason is only reported. Times are integers, absent when missing or malformed;
  // fields a publisher may leave out are optional.

  import opened Options

  datatype Dimension = Deployment | Enablement | Acceptance

  datatype Status = Deployed | Failed | RolledBack | Unknown | Enabled | Disabled | Passed | NotTested

  type Text = Option<string>

  datatype Health = Health(sync: Text, health: Text, operation: Text, rollout: Text, readiness: Text)

  datatype Sibling =
    | Malformed
    | Sibling(component: Text, environment: Text, revision: Text, digest: Text, ops: Text, health: Option<Health>)

  datatype Source = Source(kind: Text, ref: Text, sha256: Text)

  datatype Review = Review(reviewer: Text, procedure: Text, checkedAt: Option<int>)

  datatype Proof = Proof(
    environment: Text, component: Text, profile: Text, revision: Text, digest: Text, ops: Text,
    releaseRef: Text, terminalRef: Text, releaseResult: Text, terminalState: Text, terminalProven: bool,
    health: Option<Health>, siblingsApplicable: Option<bool>, siblings: Option<seq<Sibling>>,
    reason: Text, rollbackRef: Text, feature: Text, enabled: Option<bool>,
    result: Option<Status>, round: Text, procedure: Text, character: Text)

  datatype Fact = Fact(status: Status, observedAt: Option<int>, source: Source, review: Review, proof: Proof)

  datatype Artifact = Artifact(revision: string, digest: string, ops: string)

  datatype Item = Item(key: nat, feature: string, component: string, artifact: Artifact, tasks: set<nat>)

  datatype Part =
    | Boundary | Observed | SourcePart | ReviewPart | Place | ProofPart | HealthPart | SiblingPart(index: nat)

  datatype State = Plain(status: Status) | Confirmed | Reported

  datatype Assessment = Assessment(state: State, reasons: seq<Part>)

  function Statuses(dimension: Dimension): set<Status> {
    match dimension
    case Deployment => {Deployed, Failed, RolledBack, Unknown}
    case Enablement => {Enabled, Disabled, Unknown}
    case Acceptance => {Passed, Failed, NotTested}
  }

  function Default(dimension: Dimension): Status {
    if dimension == Acceptance then NotTested else Unknown
  }

  predicate Present(text: Text) {
    text.Some? && exists i :: 0 <= i < |text.value| && text.value[i] !in " \t\n\r"
  }

  predicate HexDigit(c: char) {
    '0' <= c <= '9' || 'a' <= c <= 'f' || 'A' <= c <= 'F'
  }

  predicate IsSha256(text: Text) {
    text.Some? && |text.value| == 64 && forall i :: 0 <= i < 64 ==> HexDigit(text.value[i])
  }

  /** One unmet requirement is one reason. */
  function Need(met: bool, part: Part): (reasons: seq<Part>)
    ensures reasons == [] <==> met
  {
    if met then [] else [part]
  }

  predicate Healthy(health: Option<Health>) {
    health == Some(Health(Some("Synced"), Some("Healthy"), Some("Succeeded"), Some("Healthy"), Some("passed")))
  }

  function HealthReasons(health: Option<Health>, part: Part): (reasons: seq<Part>)
    ensures reasons == [] <==> Healthy(health)
  {
    if health.None? then [part]
    else
      Need(health.value.sync == Some("Synced"), part) + Need(health.value.health == Some("Healthy"), part) +
      Need(health.value.operation == Some("Succeeded"), part) + Need(health.value.rollout == Some("Healthy"), part) +
      Need(health.value.readiness == Some("passed"), part)
  }

  // ------------------------------------------------------------ common part

  function ObservationReasons(fact: Fact, at: Option<int>): seq<Part> {
    Need(at.Some?, Boundary) + Need(fact.observedAt.Some?, Observed) +
    if fact.observedAt.Some? && at.Some? then Need(fact.observedAt.value <= at.value, Observed) else []
  }

  function SourceReasons(source: Source): seq<Part> {
    Need(Present(source.kind), SourcePart) + Need(Present(source.ref), SourcePart) +
    Need(IsSha256(source.sha256), SourcePart)
  }

  function ReviewReasons(review: Review, observed: Option<int>, at: Option<int>): seq<Part> {
    Need(Present(review.reviewer), ReviewPart) + Need(Present(review.procedure), ReviewPart) +
    Need(review.checkedAt.Some?, ReviewPart) +
    (if review.checkedAt.Some? && at.Some? then Need(review.checkedAt.value <= at.value, ReviewPart) else []) +
    if review.checkedAt.Some? && observed.Some? then Need(review.checkedAt.value >= observed.value, ReviewPart) else []
  }

  function CommonReasons(fact: Fact, item: Item, environment: string, at: Option<int>): seq<Part> {
    ObservationReasons(fact, at) + SourceReasons(fact.source) + ReviewReasons(fact.review, fact.observedAt, at) +
    (Need(fact.proof.environment == Some(environment), Place) +
     Need(fact.proof.component == Some(item.component), Place))
  }

  // --------------------------------------------------------------- siblings

  /** A sibling entry is complete by itself. */
  predicate CompleteSibling(s: Sibling, own: string, environment: string) {
    s.Sibling? && Present(s.component) && s.component.value != own && s.environment == Some(environment) &&
    Present(s.revision) && Present(s.digest) && Present(s.ops) && Healthy(s.health)
  }

  predicate NewComponent(s: Sibling, seen: set<string>) {
    s.Sibling? && s.component.Some? ==> s.component.value !in seen
  }

  function EntryReasons(s: Sibling, part: Part, seen: set<string>, own: string, environment: string): seq<Part> {
    if s.Malformed? then [part]
    else
      Need(Present(s.component) && s.component.value != own && s.component.value !in seen, part) +
      Need(s.environment == Some(environment), part) +
      Need(Present(s.revision), part) + Need(Present(s.digest), part) + Need(Present(s.ops), part) +
      HealthReasons(s.health, part)
  }

  lemma NoEntryReasons(s: Sibling, part: Part, seen: set<string>, own: string, environment: string)
    ensures EntryReasons(s, part, seen, own, environment) == [] <==>
              CompleteSibling(s, own, environment) && NewComponent(s, seen)
  {
  }

  function SeenAfter(s: Sibling, seen: set<string>): set<string> {
    if s.Sibling? && Present(s.component) then seen + {s.component.value} else seen
  }

  function SiblingReasons(siblings: seq<Sibling>, index: nat, seen: set<string>, own: string, environment: string)
    : seq<Part>
    decreases |siblings|
  {
    if siblings == [] then []
    else
      EntryReasons(siblings[0], SiblingPart(index), seen, own, environment) +
      SiblingReasons(siblings[1..], index + 1, SeenAfter(siblings[0], seen), own, environment)
  }

  /** Every entry is complete, and no component is listed twice. */
  ghost predicate CompleteMapping(siblings: seq<Sibling>, own: string, environment: string) {
    && (forall i :: 0 <= i < |siblings| ==> CompleteSibling(siblings[i], own, environment))
    && (forall i, j :: 0 <= i < j < |siblings| ==> siblings[i].component != siblings[j].component)
  }

  ghost predicate NewComponents(siblings: seq<Sibling>, seen: set<string>) {
    forall i :: 0 <= i < |siblings| ==> NewComponent(siblings[i], seen)
  }

  lemma MappingSplits(siblings: seq<Sibling>, own: string, environment: string)
    requires siblings != [] && CompleteSibling(siblings[0], own, environment)
    ensures CompleteMapping(siblings, own, environment) <==>
            CompleteMapping(siblings[1..], own, environment) &&
            NewComponents(siblings[1..], {siblings[0].component.value})
  {
    var tail := siblings[1..];
    assert forall i :: 0 <= i < |tail| ==> tail[i] == siblings[i + 1];
    if CompleteMapping(tail, own, environment) && NewComponents(tail, {siblings[0].component.value}) {
      forall i | 0 <= i < |siblings| ensures CompleteSibling(siblings[i], own, environment) {
        assert i > 0 ==> siblings[i] == tail[i - 1];
      }
      forall i, j | 0 <= i < j < |siblings| ensures siblings[i].component != siblings[j].component {
        assert siblings[j] == tail[j - 1] && NewComponent(tail[j - 1], {siblings[0].component.value});
        assert i > 0 ==> siblings[i] == tail[i - 1];
      }
    }
  }

  lemma NewSplits(siblings: seq<Sibling>, seen: set<string>)
    requires siblings != []
    ensures NewComponents(siblings, seen) <==> NewComponent(siblings[0], seen) && NewComponents(siblings[1..], seen)
  {
    var tail := siblings[1..];
    assert forall i :: 0 <= i < |tail| ==> tail[i] == siblings[i + 1];
    forall i | 0 <= i < |siblings| && NewComponent(siblings[0], seen) && NewComponents(tail, seen)
      ensures NewComponent(siblings[i], seen)
    {
      assert i > 0 ==> siblings[i] == tail[i - 1];
    }
  }

  lemma {:induction false} NoSiblingReasons(siblings: seq<Sibling>, index: nat, seen: set<string>, own: string,
      environment: string)
    ensures SiblingReasons(siblings, index, seen, own, environment) == [] <==>
            CompleteMapping(siblings, own, environment) && NewComponents(siblings, seen)
    decreases |siblings|
  {
    if siblings == [] { return; }
    var s, tail := siblings[0], siblings[1..];
    NewSplits(siblings, seen);
    NoEntryReasons(s, SiblingPart(index), seen, own, environment);
    NoSiblingReasons(tail, index + 1, SeenAfter(s, seen), own, environment);
    if CompleteSibling(s, own, environment) {
      MappingSplits(siblings, own, environment);
      SeenOneMore(tail, seen, s.component.value);
    }
  }

  lemma SeenOneMore(siblings: seq<Sibling>, seen: set<string>, component: string)
    ensures NewComponents(siblings, seen + {component}) <==>
              NewComponents(siblings, seen) && NewComponents(siblings, {component})
  {
    forall i | 0 <= i < |siblings|
      ensures NewComponent(siblings[i], seen + {component}) <==>
              NewComponent(siblings[i], seen) && NewComponent(siblings[i], {component})
    {
    }
  }

  lemma SiblingReasonsStep(siblings: seq<Sibling>, index: nat, seen: set<string>, own: string, environment: string,
                           reasons: seq<Part>, found: seq<Part>, seen': set<string>)
    requires index < |siblings| && seen' == SeenAfter(siblings[index], seen)
    requires found == EntryReasons(siblings[index], SiblingPart(index), seen, own, environment)
    ensures reasons + SiblingReasons(siblings[index..], index, seen, own, environment) ==
            (reasons + found) + SiblingReasons(siblings[index + 1..], index + 1, seen', own, environment)
  {
    var rest := siblings[index..];
    assert rest[0] == siblings[index] && rest[1..] == siblings[index + 1..];
  }

  /** Goes through a mapping once, with the set of components seen so far, and collects the reasons entry by entry. */
  method ListSiblingReasons(siblings: seq<Sibling>, own: string, environment: string) returns (reasons: seq<Part>)
    ensures reasons == SiblingReasons(siblings, 0, {}, own, environment)
  {
    reasons := [];
    var seen: set<string> := {};
    var index := 0;
    ghost var all := SiblingReasons(siblings, 0, {}, own, environment);
    ghost var rest := all;
    assert siblings[0..] == siblings;
    while index < |siblings|
      invariant 0 <= index <= |siblings|
      invariant rest == SiblingReasons(siblings[index..], index, seen, own, environment)
      invariant all == reasons + rest
    {
      var found := EntryReasons(siblings[index], SiblingPart(index), seen, own, environment);
      var seen' := SeenAfter(siblings[index], seen);
      SiblingReasonsStep(siblings, index, seen, own, environment, reasons, found, seen');
      reasons, seen, index := reasons + found, seen', index + 1;
      rest := SiblingReasons(siblings[index..], index, seen, own, environment);
    }
  }

  // ------------------------------------------------------------- assessment

  function ArtifactReasons(proof: Proof, artifact: Artifact): seq<Part> {
    Need(proof.profile == Some("cluster_release_v1"), ProofPart) +
    Need(Present(Some(artifact.revision)) && proof.revision == Some(artifact.revision), ProofPart) +
    Need(Present(Some(artifact.digest)) && proof.digest == Some(artifact.digest), ProofPart) +
    Need(Present(Some(artifact.ops)) && proof.ops == Some(artifact.ops), ProofPart)
  }

  function TerminalReasons(proof: Proof): seq<Part> {
    Need(Present(proof.releaseRef), ProofPart) + Need(Present(proof.terminalRef), ProofPart) +
    Need(proof.releaseResult == Some("success"), ProofPart) + Need(proof.terminalState == Some("Success"), ProofPart) +
    Need(proof.terminalProven, ProofPart)
  }

  function MappingReasons(proof: Proof, item: Item, environment: string): seq<Part> {
    match proof.siblingsApplicable
    case None => [ProofPart]
    case Some(false) => Need(proof.siblings == Some([]), ProofPart)
    case Some(true) =>
      Need(proof.siblings.Some? && proof.siblings.value != [], ProofPart) +
      if proof.siblings.Some? then SiblingReasons(proof.siblings.value, 0, {}, item.component, environment) else []
  }

  function DeployedReasons(proof: Proof, item: Item, environment: string): seq<Part> {
    ArtifactReasons(proof, item.artifact) + TerminalReasons(proof) + HealthReasons(proof.health, HealthPart) +
    MappingReasons(proof, item, environment)
  }

  function KindReasons(dimension: Dimension, fact: Fact, item: Item, environment: string): seq<Part> {
    var proof := fact.proof;
    if dimension == Deployment && fact.status == Deployed then DeployedReasons(proof, item, environment)
    else if dimension == Deployment && fact.status == RolledBack then
      Need(Present(proof.reason), ProofPart) + Need(Present(proof.rollbackRef), ProofPart)
    else if dimension == Deployment && fact.status == Failed then
      Need(Present(proof.reason), ProofPart) + Need(Present(proof.releaseRef), ProofPart) +
      Need(proof.releaseResult == Some("failed"), ProofPart)
    else
      Need(proof.feature == Some(item.feature), ProofPart) +
      if dimension == Enablement then Need(proof.enabled == Some(fact.status == Enabled), ProofPart)
      else
        Need(proof.result == Some(fact.status), ProofPart) + Need(Present(proof.round), ProofPart) +
        Need(Present(proof.procedure), ProofPart) +
        if proof.procedure == Some("fresh_character_e2e") then Need(Present(proof.character), ProofPart) else []
  }

  function Assess(dimension: Dimension, fact: Option<Fact>, item: Item, environment: string, at: Option<int>)
    : Assessment
  {
    if fact.None? || fact.value.status == Default(dimension) then Assessment(Plain(Default(dimension)), [])
    else
      var reasons := CommonReasons(fact.value, item, environment, at) +
          KindReasons(dimension, fact.value, item, environment);
      var state := if dimension == Deployment && fact.value.status == Deployed then Confirmed
          else Plain(fact.value.status);
      Assessment(if reasons != [] then Reported else state, reasons)
  }

  predicate IsConfirmed(fact: Option<Fact>, item: Item, environment: string, at: Option<int>) {
    Assess(Deployment, fact, item, environment, at).state == Confirmed
  }

  /** What a confirmed deployment has been shown to be. */
  ghost predicate ProvenDeployment(fact: Fact, item: Item, environment: string, at: int) {
    && fact.status == Deployed
    && fact.observedAt.Some? && fact.review.checkedAt.Some?
    && fact.observedAt.value <= fact.review.checkedAt.value <= at
    && Present(fact.source.kind) && Present(fact.source.ref) && IsSha256(fact.source.sha256)
    && Present(fact.review.reviewer) && Present(fact.review.procedure)
    && var proof, artifact := fact.proof, item.artifact;
       && proof.environment == Some(environment) && proof.component == Some(item.component)
       && proof.profile == Some("cluster_release_v1")
       && Present(proof.revision) && Present(proof.digest) && Present(proof.ops)
       && Artifact(proof.revision.value, proof.digest.value, proof.ops.value) == artifact
       && Present(proof.releaseRef) && Present(proof.terminalRef)
       && proof.releaseResult == Some("success") && proof.terminalState == Some("Success") && proof.terminalProven
       && Healthy(proof.health)
       && (proof.siblingsApplicable == Some(false) ==> proof.siblings == Some([]))
       && (proof.siblingsApplicable == Some(true) ==>
             proof.siblings.Some? && proof.siblings.value != [] &&
             CompleteMapping(proof.siblings.value, item.component, environment))
       && proof.siblingsApplicable.Some?
  }

  lemma NoDeployedReasons(proof: Proof, item: Item, environment: string)
    ensures DeployedReasons(proof, item, environment) == [] <==>
              && proof.profile == Some("cluster_release_v1")
              && Present(proof.revision) && Present(proof.digest) && Present(proof.ops)
              && Artifact(proof.revision.value, proof.digest.value, proof.ops.value) == item.artifact
              && Present(proof.releaseRef) && Present(proof.terminalRef)
              && proof.releaseResult == Some("success")
              && proof.terminalState == Some("Success") && proof.terminalProven
              && Healthy(proof.health) && proof.siblingsApplicable.Some?
              && (proof.siblingsApplicable == Some(false) ==> proof.siblings == Some([]))
              && (proof.siblingsApplicable == Some(true) ==>
                    proof.siblings.Some? && proof.siblings.value != [] &&
                    CompleteMapping(proof.siblings.value, item.component, environment))
  {
    if proof.siblings.Some? {
      NoSiblingReasons(proof.siblings.value, 0, {}, item.component, environment);
    }
  }

  lemma NoCommonReasons(fact: Fact, item: Item, environment: string, at: Option<int>)
    ensures CommonReasons(fact, item, environment, at) == [] <==>
              && at.Some? && fact.observedAt.Some? && fact.review.checkedAt.Some?
              && fact.observedAt.value <= fact.review.checkedAt.value <= at.value
              && Present(fact.source.kind) && Present(fact.source.ref) && IsSha256(fact.source.sha256)
              && Present(fact.review.reviewer) && Present(fact.review.procedure)
              && fact.proof.environment == Some(environment) && fact.proof.component == Some(item.component)
  {
  }

  /**
   A deployment is confirmed exactly when it is proven: reviewed after it was observed and
   before the receipt, with the item's own artifact, a healthy rollout and a complete mapping
   of distinct siblings; a later receipt of the same facts takes no confirmation back.
   */
  lemma ConfirmedIffProven(fact: Fact, item: Item, environment: string, at: Option<int>)
    ensures IsConfirmed(Some(fact), item, environment, at) <==>
            at.Some? && ProvenDeployment(fact, item, environment, at.value)
    ensures forall later :: at.Some? && at.value <= later && IsConfirmed(Some(fact), item, environment, at) ==>
                              IsConfirmed(Some(fact), item, environment, Some(later))
  {
    NoCommonReasons(fact, item, environment, at);
    NoDeployedReasons(fact.proof, item, environment);
    forall later | at.Some? && at.value <= later && IsConfirmed(Some(fact), item, environment, at)
      ensures IsConfirmed(Some(fact), item, environment, Some(later))
    {
      NoCommonReasons(fact, item, environment, Some(later));
    }
  }
}
