/**
 The reasons shown beside a claim: which parts of it they name, said of its columns.
 */
module ReleaseReasons {
  import opened Options
  import opened ReleaseAssessment
  import opened ReleaseEvidence

  /** A reason names the part of a fact it is about; these are the parts every claim has. */
  ghost predicate CommonFault(part: Part, fact: Fact, item: Item, environment: string, at: Option<int>) {
    match part
    case Boundary => at.None?
    case Observed => fact.observedAt.None? || (at.Some? && fact.observedAt.value > at.value)
    case SourcePart =>
      !Filled(fact.source.kind) || !Filled(fact.source.ref) || !IsDigest(fact.source.sha256)
    case ReviewPart =>
      !Filled(fact.review.reviewer) || !Filled(fact.review.procedure) || fact.review.checkedAt.None? ||
      (at.Some? && fact.review.checkedAt.value > at.value) ||
      (fact.observedAt.Some? && fact.review.checkedAt.value < fact.observedAt.value)
    case Place => fact.proof.environment != Some(environment) || fact.proof.component != Some(item.component)
    case _ => false
  }

  /** The part is among the reasons. */
  predicate Names(reasons: seq<Part>, part: Part)
    decreases |reasons|
  {
    reasons != [] && (reasons[0] == part || Names(reasons[1..], part))
  }

  lemma {:induction false} NamesIn(reasons: seq<Part>, part: Part)
    ensures Names(reasons, part) <==> part in reasons
    decreases |reasons|
  {
    if reasons != [] { NamesIn(reasons[1..], part); }
  }

  lemma {:induction false} NamesJoin(a: seq<Part>, b: seq<Part>, part: Part)
    ensures Names(a + b, part) <==> Names(a, part) || Names(b, part)
    decreases |a|
  {
    if a == [] {
      assert a + b == b;
    } else {
      assert (a + b)[0] == a[0] && (a + b)[1..] == a[1..] + b;
      NamesJoin(a[1..], b, part);
    }
  }

  /** One more requirement adds its part to what is named, unless it is met. */
  lemma NeedNames(before: seq<Part>, met: bool, about: Part, part: Part)
    ensures Names(before + Need(met, about), part) <==> Names(before, part) || (!met && about == part)
  {
    NamesJoin(before, Need(met, about), part);
    assert [about][1..] == [];
  }

  lemma FirstNamed(met: bool, about: Part, part: Part) returns (first: seq<Part>)
    ensures first == Need(met, about)
    ensures Names(first, part) <==> !met && about == part
  {
    first := Need(met, about);
    assert [about][1..] == [];
  }

  lemma NamedNext(before: seq<Part>, met: bool, about: Part, part: Part) returns (after: seq<Part>)
    ensures after == before + Need(met, about)
    ensures Names(after, part) <==> Names(before, part) || (!met && about == part)
  {
    after := before + Need(met, about);
    NeedNames(before, met, about, part);
  }

  lemma ThreeNamed(a: bool, b: bool, c: bool, first: Part, about: Part, part: Part)
    ensures Names(Need(a, first) + Need(b, about) + Need(c, about), part) <==>
            (part == first && !a) || (part == about && !(b && c))
  {
    var r := FirstNamed(a, first, part);
    r := NamedNext(r, b, about, part);
    r := NamedNext(r, c, about, part);
  }

  lemma FourNamed(a: bool, b: bool, c: bool, d: bool, about: Part, part: Part)
    ensures Names(Need(a, about) + Need(b, about) + Need(c, about) + Need(d, about), part) <==>
            part == about && !(a && b && c && d)
  {
    ThreeNamed(a, b, c, about, about, part);
    NeedNames(Need(a, about) + Need(b, about) + Need(c, about), d, about, part);
  }

  lemma FiveNamed(a: bool, b: bool, c: bool, d: bool, e: bool, about: Part, part: Part)
    ensures Names(Need(a, about) + Need(b, about) + Need(c, about) + Need(d, about) + Need(e, about), part) <==>
            part == about && !(a && b && c && d && e)
  {
    FourNamed(a, b, c, d, about, part);
    NeedNames(Need(a, about) + Need(b, about) + Need(c, about) + Need(d, about), e, about, part);
  }

  lemma ObservationNamed(part: Part, fact: Fact, at: Option<int>)
    ensures Names(ObservationReasons(fact, at), part) <==>
            (part == Boundary && at.None?) ||
            (part == Observed && (fact.observedAt.None? || (at.Some? && fact.observedAt.value > at.value)))
  {
    var observed := fact.observedAt;
    var late := observed.Some? && at.Some? && observed.value > at.value;
    assert Need(!late, Observed) ==
           if observed.Some? && at.Some? then Need(observed.value <= at.value, Observed) else [];
    ThreeNamed(at.Some?, observed.Some?, !late, Boundary, Observed, part);
  }

  lemma SourceNamed(part: Part, source: Source)
    ensures Names(SourceReasons(source), part) <==>
            part == SourcePart && (!Filled(source.kind) || !Filled(source.ref) || !IsDigest(source.sha256))
  {
    ThreeNamed(Present(source.kind), Present(source.ref), IsSha256(source.sha256), SourcePart, SourcePart, part);
    FilledMeans(source.kind);
    FilledMeans(source.ref);
    DigestMeans(source.sha256);
  }

  lemma ReviewNamed(part: Part, review: Review, observed: Option<int>, at: Option<int>)
    ensures Names(ReviewReasons(review, observed, at), part) <==>
            part == ReviewPart &&
            (!Filled(review.reviewer) || !Filled(review.procedure) || review.checkedAt.None? ||
             (at.Some? && review.checkedAt.value > at.value) ||
             (observed.Some? && review.checkedAt.value < observed.value))
  {
    var checked := review.checkedAt;
    var late := checked.Some? && at.Some? && checked.value > at.value;
    var early := checked.Some? && observed.Some? && checked.value < observed.value;
    assert Need(!late, ReviewPart) ==
           if checked.Some? && at.Some? then Need(checked.value <= at.value, ReviewPart) else [];
    assert Need(!early, ReviewPart) ==
           if checked.Some? && observed.Some? then Need(checked.value >= observed.value, ReviewPart) else [];
    FiveNamed(Present(review.reviewer), Present(review.procedure), checked.Some?, !late, !early, ReviewPart, part);
    FilledMeans(review.reviewer);
    FilledMeans(review.procedure);
  }

  lemma CommonNamed(part: Part, fact: Fact, item: Item, environment: string, at: Option<int>)
    ensures Names(CommonReasons(fact, item, environment, at), part) <==>
              CommonFault(part, fact, item, environment, at)
  {
    var observation, source := ObservationReasons(fact, at), SourceReasons(fact.source);
    var review := ReviewReasons(fact.review, fact.observedAt, at);
    var place := FirstNamed(fact.proof.environment == Some(environment), Place, part);
    place := NamedNext(place, fact.proof.component == Some(item.component), Place, part);
    NamesJoin(observation, source, part);
    NamesJoin(observation + source, review, part);
    NamesJoin(observation + source + review, place, part);
    ObservationNamed(part, fact, at);
    SourceNamed(part, fact.source);
    ReviewNamed(part, fact.review, fact.observedAt, at);
  }

  /** An entry of the mapping is at fault by itself, or repeats a component seen or listed before it. */
  ghost predicate FaultySibling(siblings: seq<Sibling>, i: nat, seen: set<string>, own: string, environment: string)
    requires i < |siblings|
  {
    !SoundSibling(siblings[i], own, environment) || siblings[i].component.value in seen ||
    exists j :: 0 <= j < i && siblings[j].Sibling? && siblings[j].component == siblings[i].component
  }

  lemma FaultsShift(siblings: seq<Sibling>, i: nat, seen: set<string>, own: string, environment: string)
    requires i + 1 < |siblings|
    ensures FaultySibling(siblings[1..], i, SeenAfter(siblings[0], seen), own, environment) <==>
            FaultySibling(siblings, i + 1, seen, own, environment)
  {
    var s, tail := siblings[0], siblings[1..];
    if SoundSibling(tail[i], own, environment) {
      FilledMeans(tail[i].component);
      assert forall j :: 0 <= j < i ==> tail[j] == siblings[j + 1];
      if exists j :: 0 <= j < i + 1 && siblings[j].Sibling? && siblings[j].component == tail[i].component {
        var j :| 0 <= j < i + 1 && siblings[j].Sibling? && siblings[j].component == tail[i].component;
        assert j > 0 ==> siblings[j] == tail[j - 1];
      }
    }
  }

  lemma HealthNamed(part: Part, health: Option<Health>, about: Part)
    ensures Names(HealthReasons(health, about), part) <==> part == about && !Sound(health)
  {
    if health.None? {
      assert [about][1..] == [];
    } else {
      var h := health.value;
      FiveNamed(h.sync == Some("Synced"), h.health == Some("Healthy"), h.operation == Some("Succeeded"),
                h.rollout == Some("Healthy"), h.readiness == Some("passed"), about, part);
    }
  }

  lemma EntryNamed(s: Sibling, about: Part, part: Part, seen: set<string>, own: string, environment: string)
    ensures Names(EntryReasons(s, about, seen, own, environment), part) <==>
            part == about && (!SoundSibling(s, own, environment) || s.component.value in seen)
  {
    if s.Malformed? {
      assert [about][1..] == [];
    } else {
      var named := Present(s.component) && s.component.value != own && s.component.value !in seen;
      var placed, revision, digest, ops :=
        s.environment == Some(environment), Present(s.revision), Present(s.digest), Present(s.ops);
      FiveNamed(named, placed, revision, digest, ops, about, part);
      NamesJoin(Need(named, about) + Need(placed, about) + Need(revision, about) + Need(digest, about) +
                Need(ops, about), HealthReasons(s.health, about), part);
      HealthNamed(part, s.health, about);
      SiblingMeans(s, own, environment);
    }
  }

  /** A part is named of a mapping if it is named of the first entry or of those after it. */
  lemma FirstOrLater(part: Part, siblings: seq<Sibling>, index: nat, seen: set<string>, own: string,
                     environment: string)
    requires siblings != []
    ensures Names(SiblingReasons(siblings, index, seen, own, environment), part) <==>
            (part == SiblingPart(index) && FaultySibling(siblings, 0, seen, own, environment)) ||
            Names(SiblingReasons(siblings[1..], index + 1, SeenAfter(siblings[0], seen), own, environment), part)
  {
    NamesJoin(EntryReasons(siblings[0], SiblingPart(index), seen, own, environment),
              SiblingReasons(siblings[1..], index + 1, SeenAfter(siblings[0], seen), own, environment), part);
    EntryNamed(siblings[0], SiblingPart(index), part, seen, own, environment);
  }

  /** The part is that of a faulty entry; entries are counted from `index`. */
  ghost predicate FaultyAt(part: Part, siblings: seq<Sibling>, index: nat, seen: set<string>, own: string,
                           environment: string) {
    part.SiblingPart? && index <= part.index < index + |siblings| &&
    FaultySibling(siblings, part.index - index, seen, own, environment)
  }

  lemma FaultyAtShifts(part: Part, siblings: seq<Sibling>, index: nat, seen: set<string>, own: string,
                       environment: string)
    requires siblings != []
    ensures FaultyAt(part, siblings, index, seen, own, environment) <==>
            (part == SiblingPart(index) && FaultySibling(siblings, 0, seen, own, environment)) ||
            FaultyAt(part, siblings[1..], index + 1, SeenAfter(siblings[0], seen), own, environment)
  {
    if part.SiblingPart? && index < part.index < index + |siblings| {
      FaultsShift(siblings, part.index - index - 1, seen, own, environment);
    }
  }

  lemma {:induction false} SiblingsNamed(part: Part, siblings: seq<Sibling>, index: nat, seen: set<string>,
      own: string, environment: string)
    ensures Names(SiblingReasons(siblings, index, seen, own, environment), part) <==>
            FaultyAt(part, siblings, index, seen, own, environment)
    decreases |siblings|
  {
    if siblings != [] {
      FirstOrLater(part, siblings, index, seen, own, environment);
      SiblingsNamed(part, siblings[1..], index + 1, SeenAfter(siblings[0], seen), own, environment);
      FaultyAtShifts(part, siblings, index, seen, own, environment);
    }
  }

  ghost predicate MappingFault(part: Part, proof: Proof, item: Item, environment: string) {
    proof.siblingsApplicable == Some(true) && proof.siblings.Some? &&
    FaultyAt(part, proof.siblings.value, 0, {}, item.component, environment)
  }

  /** The parts a claim has besides, by its kind. */
  ghost predicate KindFault(part: Part, d: Dimension, fact: Fact, item: Item, environment: string)
    requires Claims(d, fact.status)
  {
    var proof := fact.proof;
    if d == Deployment && fact.status == Deployed then
      match part
      case HealthPart => !Sound(proof.health)
      case SiblingPart(_) => MappingFault(part, proof, item, environment)
      case ProofPart => !ArtifactProof(proof, item) || !TerminalProof(proof) || !MappingFits(proof)
      case _ => false
    else part.ProofPart? && !ClaimProof(d, fact, item, environment)
  }

  lemma ArtifactNamed(part: Part, proof: Proof, item: Item)
    ensures Names(ArtifactReasons(proof, item.artifact), part) <==> part == ProofPart && !ArtifactProof(proof, item)
  {
    var artifact := item.artifact;
    var revision := Present(Some(artifact.revision)) && proof.revision == Some(artifact.revision);
    var digest := Present(Some(artifact.digest)) && proof.digest == Some(artifact.digest);
    var ops := Present(Some(artifact.ops)) && proof.ops == Some(artifact.ops);
    FourNamed(proof.profile == Some("cluster_release_v1"), revision, digest, ops, ProofPart, part);
    FilledMeans(proof.revision);
    FilledMeans(proof.digest);
    FilledMeans(proof.ops);
  }

  lemma TerminalNamed(part: Part, proof: Proof)
    ensures Names(TerminalReasons(proof), part) <==> part == ProofPart && !TerminalProof(proof)
  {
    FiveNamed(Present(proof.releaseRef), Present(proof.terminalRef), proof.releaseResult == Some("success"),
              proof.terminalState == Some("Success"), proof.terminalProven, ProofPart, part);
    FilledMeans(proof.releaseRef);
    FilledMeans(proof.terminalRef);
  }

  lemma MappingNamed(part: Part, proof: Proof, item: Item, environment: string)
    ensures Names(MappingReasons(proof, item, environment), part) <==>
            (part == ProofPart && !MappingFits(proof)) || MappingFault(part, proof, item, environment)
  {
    match proof.siblingsApplicable {
      case None => assert [ProofPart][1..] == [];
      case Some(false) =>
        var r := FirstNamed(proof.siblings == Some([]), ProofPart, part);
      case Some(true) =>
        var listed := proof.siblings.Some? && proof.siblings.value != [];
        var r := FirstNamed(listed, ProofPart, part);
        if proof.siblings.Some? {
          var siblings := proof.siblings.value;
          NamesJoin(r, SiblingReasons(siblings, 0, {}, item.component, environment), part);
          SiblingsNamed(part, siblings, 0, {}, item.component, environment);
        } else {
          assert r + [] == r;
        }
    }
  }

  lemma DeployedNamed(part: Part, fact: Fact, item: Item, environment: string)
    requires fact.status == Deployed
    ensures Names(DeployedReasons(fact.proof, item, environment), part) <==>
              KindFault(part, Deployment, fact, item, environment)
  {
    var proof := fact.proof;
    var artifact, terminal := ArtifactReasons(proof, item.artifact), TerminalReasons(proof);
    var health, mapping := HealthReasons(proof.health, HealthPart), MappingReasons(proof, item, environment);
    NamesJoin(artifact, terminal, part);
    NamesJoin(artifact + terminal, health, part);
    NamesJoin(artifact + terminal + health, mapping, part);
    ArtifactNamed(part, proof, item);
    TerminalNamed(part, proof);
    HealthNamed(part, proof.health, HealthPart);
    MappingNamed(part, proof, item, environment);
  }

  lemma KindNamed(part: Part, d: Dimension, fact: Fact, item: Item, environment: string)
    requires Claims(d, fact.status)
    ensures Names(KindReasons(d, fact, item, environment), part) <==> KindFault(part, d, fact, item, environment)
  {
    if d == Deployment && fact.status == Deployed {
      DeployedNamed(part, fact, item, environment);
    } else {
      ClaimMeans(d, fact, item, environment);
      match d {
        case Deployment => DeploymentNamed(part, fact, item, environment);
        case Enablement => EnablementNamed(part, fact, item, environment);
        case Acceptance => AcceptanceNamed(part, fact, item, environment);
      }
    }
  }

  lemma TwoNamed(a: bool, b: bool, about: Part, part: Part)
    ensures Names(Need(a, about) + Need(b, about), part) <==> part == about && !(a && b)
  {
    var r := FirstNamed(a, about, part);
    r := NamedNext(r, b, about, part);
  }

  lemma DeploymentNamed(part: Part, fact: Fact, item: Item, environment: string)
    requires fact.status == RolledBack || fact.status == Status.Failed
    ensures Names(KindReasons(Deployment, fact, item, environment), part) <==>
            part == ProofPart && KindReasons(Deployment, fact, item, environment) != []
  {
    var proof := fact.proof;
    if fact.status == RolledBack {
      TwoNamed(Present(proof.reason), Present(proof.rollbackRef), ProofPart, part);
    } else {
      ThreeNamed(Present(proof.reason), Present(proof.releaseRef), proof.releaseResult == Some("failed"),
                 ProofPart, ProofPart, part);
    }
  }

  lemma EnablementNamed(part: Part, fact: Fact, item: Item, environment: string)
    ensures Names(KindReasons(Enablement, fact, item, environment), part) <==>
            part == ProofPart && KindReasons(Enablement, fact, item, environment) != []
  {
    TwoNamed(fact.proof.feature == Some(item.feature), fact.proof.enabled == Some(fact.status == Enabled), ProofPart,
             part);
  }

  lemma AcceptanceNamed(part: Part, fact: Fact, item: Item, environment: string)
    requires Claims(Acceptance, fact.status)
    ensures Names(KindReasons(Acceptance, fact, item, environment), part) <==>
            part == ProofPart && KindReasons(Acceptance, fact, item, environment) != []
  {
    var proof := fact.proof;
    var renewed := proof.procedure == Some("fresh_character_e2e");
    var rest := Need(proof.result == Some(fact.status), ProofPart) + Need(Present(proof.round), ProofPart) +
                Need(Present(proof.procedure), ProofPart) +
                if renewed then Need(Present(proof.character), ProofPart) else [];
    assert Need(!renewed || Present(proof.character), ProofPart) ==
           if renewed then Need(Present(proof.character), ProofPart) else [];
    FourNamed(proof.result == Some(fact.status), Present(proof.round), Present(proof.procedure),
              !renewed || Present(proof.character), ProofPart, part);
    var first := FirstNamed(proof.feature == Some(item.feature), ProofPart, part);
    NamesJoin(first, rest, part);
    assert KindReasons(Acceptance, fact, item, environment) == first + rest;
  }

  /** The reasons shown beside a claim name exactly its parts that are at fault. */
  lemma ReasonsAreFaults(d: Dimension, fact: Fact, item: Item, environment: string, at: Option<int>, part: Part)
    requires Claims(d, fact.status)
    ensures part in Assess(d, Some(fact), item, environment, at).reasons <==>
              CommonFault(part, fact, item, environment, at) || KindFault(part, d, fact, item, environment)
  {
    CommonNamed(part, fact, item, environment, at);
    KindNamed(part, d, fact, item, environment);
    NamesJoin(CommonReasons(fact, item, environment, at), KindReasons(d, fact, item, environment), part);
    NamesIn(Assess(d, Some(fact), item, environment, at).reasons, part);
  }
}
