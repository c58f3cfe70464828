module Succession {

  // The walk along declared successions. Evidence rows say which tasks a task names as its
  // successors and as its predecessors; the walk follows unique, mutually declared hops from
  // one task and reports the first successor only when the whole chain is sound.

  import opened Options

  type Id = string

  datatype Kind = Successor | Predecessor | Other

  datatype Evidence = Evidence(task: Id, kind: Kind, value: Id)

  datatype Graph = Graph(edges: map<Id, set<Id>>, incoming: map<Id, set<Id>>, tasks: set<Id>)

  datatype Fault = Cycle | NotUnique | OwnSuccessor | BadIdentifier | TargetMissing | NotMutual

  datatype Verdict = NoSuccession | Valid(successor: Id) | Invalid(fault: Fault) | Ambiguous(fault: Fault)

  predicate Alphanumeric(c: char) {
    'A' <= c <= 'Z' || 'a' <= c <= 'z' || '0' <= c <= '9'
  }

  predicate ValidId(id: Id) {
    1 <= |id| <= 128 && Alphanumeric(id[0]) && forall i :: 0 <= i < |id| ==> Alphanumeric(id[i]) || id[i] in "._:-"
  }

  function Get(m: map<Id, set<Id>>, t: Id): set<Id> {
    if t in m then m[t] else {}
  }

  function Successors(g: Graph, t: Id): set<Id> {
    Get(g.edges, t)
  }

  function Predecessors(g: Graph, t: Id): set<Id> {
    Get(g.incoming, t)
  }

  // ------------------------------------------------------------------ graph

  /** What the evidence of a task says under one kind. */
  ghost function Declared(evidence: seq<Evidence>, kind: Kind, t: Id): set<Id> {
    set e | e in evidence && e.kind == kind && e.task == t :: e.value
  }

  ghost predicate Reads(g: Graph, evidence: seq<Evidence>) {
    forall t :: Successors(g, t) == Declared(evidence, Successor, t) &&
                Predecessors(g, t) == Declared(evidence, Predecessor, t)
  }

  lemma DeclaredGrows(evidence: seq<Evidence>, e: Evidence, kind: Kind, t: Id)
    ensures Declared(evidence + [e], kind, t) ==
            Declared(evidence, kind, t) + if e.kind == kind && e.task == t then {e.value} else {}
  {
    forall v ensures v in Declared(evidence + [e], kind, t) <==>
                     v in Declared(evidence, kind, t) || (e.kind == kind && e.task == t && v == e.value) {
      if v in Declared(evidence, kind, t) {
        var d :| d in evidence && d.kind == kind && d.task == t && d.value == v;
        assert d in evidence + [e];
      }
      assert e in evidence + [e];
    }
  }

  method BuildGraph(evidence: seq<Evidence>, tasks: set<Id>) returns (g: Graph)
    ensures Reads(g, evidence) && g.tasks == tasks
  {
    g := Graph(map[], map[], tasks);
    var i := 0;
    while i < |evidence|
      invariant 0 <= i <= |evidence|
      invariant Reads(g, evidence[..i]) && g.tasks == tasks
    {
      var e := evidence[i];
      assert evidence[..i + 1] == evidence[..i] + [e];
      match e.kind {
        case Successor => g := g.(edges := g.edges[e.task := Get(g.edges, e.task) + {e.value}]);
        case Predecessor => g := g.(incoming := g.incoming[e.task := Get(g.incoming, e.task) + {e.value}]);
        case Other =>
      }
      forall t
        ensures Successors(g, t) == Declared(evidence[..i + 1], Successor, t)
        ensures Predecessors(g, t) == Declared(evidence[..i + 1], Predecessor, t)
      {
        DeclaredGrows(evidence[..i], e, Successor, t);
        DeclaredGrows(evidence[..i], e, Predecessor, t);
      }
      i := i + 1;
    }
    assert evidence[..|evidence|] == evidence;
  }

  // ------------------------------------------------------------------- walk

  /** The member of a set of one. */
  ghost function Only(s: set<Id>): Id
    requires |s| == 1
  {
    var x :| x in s; x
  }

  lemma OnlyMember(s: set<Id>, x: Id)
    requires |s| == 1 && x in s
    ensures s == {x} && Only(s) == x
  {
    assert |s - {x}| == 0;
  }

  /** A hop is sound when each end declares the other and nobody else. */
  ghost predicate Hop(g: Graph, a: Id, b: Id) {
    && Successors(g, a) == {b} && |Predecessors(g, a)| <= 1
    && b != a && ValidId(b) && b in g.tasks && Predecessors(g, b) == {a}
  }

  /** What stops the walk at a task, or the hop that carries it on. */
  ghost function Halt(g: Graph, current: Id): Option<Verdict> {
    if |Successors(g, current)| > 1 || |Predecessors(g, current)| > 1 then Some(Ambiguous(NotUnique))
    else if Successors(g, current) == {} then Some(NoSuccession)
    else
      var target := Only(Successors(g, current));
      if target == current then Some(Invalid(OwnSuccessor))
      else if !ValidId(target) then Some(Invalid(BadIdentifier))
      else if target !in g.tasks then Some(Invalid(TargetMissing))
      else if Predecessors(g, target) != {current} then
        Some(if |Predecessors(g, target)| > 1 then Ambiguous(NotMutual) else Invalid(NotMutual))
      else None
  }

  lemma HaltOrHop(g: Graph, current: Id)
    ensures Halt(g, current).None? ==> |Successors(g, current)| == 1 && Hop(g, current, Only(Successors(g, current)))
    ensures forall b :: Hop(g, current, b) ==> Halt(g, current).None? && b == Only(Successors(g, current))
  {
    if |Successors(g, current)| == 1 { OnlyMember(Successors(g, current), Only(Successors(g, current))); }
    forall b | Hop(g, current, b) ensures Halt(g, current).None? && b == Only(Successors(g, current)) {
      OnlyMember(Successors(g, current), b);
    }
  }

  /** The walk as a function of where it is, what it has seen and where it first went. */
  ghost function Walk(g: Graph, start: Id, current: Id, seen: set<Id>, first: Option<Id>): Verdict
    requires current in g.tasks + {start} && seen <= g.tasks + {start}
    decreases |g.tasks + {start} - seen|
  {
    if current in seen then Invalid(Cycle)
    else if Halt(g, current).Some? then
      if Halt(g, current).value == NoSuccession && first.Some? then Valid(first.value) else Halt(g, current).value
    else
      HaltOrHop(g, current);
      Shrinks(g.tasks + {start}, seen, current);
      var target := Only(Successors(g, current));
      Walk(g, start, target, seen + {current}, if first.Some? then first else Some(target))
  }

  lemma Shrinks(all: set<Id>, seen: set<Id>, current: Id)
    requires current in all && current !in seen
    ensures |all - (seen + {current})| < |all - seen|
  {
    assert all - (seen + {current}) == (all - seen) - {current};
  }

  ghost function Lineage(g: Graph, start: Id): Verdict {
    Walk(g, start, start, {}, None)
  }

  method FindLineage(g: Graph, start: Id) returns (verdict: Verdict)
    ensures verdict == Lineage(g, start)
  {
    if Get(g.edges, start) == {} && Get(g.incoming, start) == {} { return NoSuccession; }
    var seen: set<Id> := {};
    var current := start;
    var first: Option<Id> := None;
    while true
      invariant current in g.tasks + {start} && seen <= g.tasks + {start}
      invariant Lineage(g, start) == Walk(g, start, current, seen, first)
      decreases |g.tasks + {start} - seen|
    {
      if current in seen { return Invalid(Cycle); }
      Shrinks(g.tasks + {start}, seen, current);
      seen := seen + {current};
      var successors, predecessors := Get(g.edges, current), Get(g.incoming, current);
      if |successors| > 1 || |predecessors| > 1 { return Ambiguous(NotUnique); }
      if successors == {} { break; }
      var target :| target in successors;
      OnlyMember(successors, target);
      if target == current { return Invalid(OwnSuccessor); }
      if !ValidId(target) { return Invalid(BadIdentifier); }
      if target !in g.tasks { return Invalid(TargetMissing); }
      if Get(g.incoming, target) != {current} {
        return if |Get(g.incoming, target)| > 1 then Ambiguous(NotMutual) else Invalid(NotMutual);
      }
      if first.None? { first := Some(target); }
      current := target;
    }
    return if first.Some? then Valid(first.value) else NoSuccession;
  }

  // ----------------------------------------------------------------- chains

  /** A path of sound hops that meets no task twice. */
  ghost predicate Chain(g: Graph, p: seq<Id>) {
    && p != []
    && (forall i :: 0 <= i < |p| - 1 ==> Hop(g, p[i], p[i + 1]))
    && (forall i, j :: 0 <= i < j < |p| ==> p[i] != p[j])
  }

  function Last(p: seq<Id>): Id
    requires p != []
  {
    p[|p| - 1]
  }

  function Elements(p: seq<Id>): set<Id> {
    set x | x in p
  }

  /** The verdict about a start, read off the end of the longest chain from it. */
  ghost function Conclusion(g: Graph, p: seq<Id>): Verdict
    requires p != []
  {
    if Halt(g, Last(p)).None? then Invalid(Cycle)
    else if Halt(g, Last(p)).value == NoSuccession && |p| > 1 then Valid(p[1])
    else Halt(g, Last(p)).value
  }

  /** The walk stands on a chain and has seen exactly what comes before its end. */
  ghost predicate Stands(g: Graph, p: seq<Id>) {
    && Chain(g, p)
    && Last(p) in g.tasks + {p[0]} && Elements(p[..|p| - 1]) <= g.tasks + {p[0]}
    && Lineage(g, p[0]) == Walk(g, p[0], Last(p), Elements(p[..|p| - 1]), if |p| > 1 then Some(p[1]) else None)
  }

  lemma StandsAtStart(g: Graph, start: Id)
    ensures Stands(g, [start])
  {
    assert [start][..0] == [] && Elements([]) == {};
  }

  lemma StepsOn(g: Graph, p: seq<Id>, b: Id)
    requires Stands(g, p) && Hop(g, Last(p), b)
    ensures Lineage(g, p[0]) ==
            Walk(g, p[0], b, Elements(p), if |p| > 1 then Some(p[1]) else Some(b))
    ensures Elements(p) <= g.tasks + {p[0]}
  {
    var init := p[..|p| - 1];
    assert p == init + [Last(p)];
    assert Elements(p) == Elements(init) + {Last(p)};
    HaltOrHop(g, Last(p));
    assert Last(p) !in Elements(init);
  }

  /** Coming back to a task of a chain is coming back to its start: every other one already has its predecessor. */
  lemma ReturnsToStart(g: Graph, p: seq<Id>, b: Id)
    requires Chain(g, p) && Hop(g, Last(p), b) && b in p
    ensures b == p[0]
  {
    var k :| 0 <= k < |p| && p[k] == b;
    var before, last := if k > 0 then p[k - 1] else b, Last(p);
    assert k > 0 ==> Hop(g, before, b);
    assert last in Predecessors(g, b);
  }

  lemma StandsFurther(g: Graph, p: seq<Id>, b: Id)
    requires Stands(g, p) && Hop(g, Last(p), b) && b !in p
    ensures Stands(g, p + [b])
  {
    StepsOn(g, p, b);
    var q := p + [b];
    assert q[..|q| - 1] == p;
    forall i | 0 <= i < |q| - 1 ensures Hop(g, q[i], q[i + 1]) {
      assert i < |p| - 1 ==> Hop(g, p[i], p[i + 1]);
    }
  }

  lemma HaltsHere(g: Graph, p: seq<Id>)
    requires Stands(g, p) && Halt(g, Last(p)).Some?
    ensures Lineage(g, p[0]) == Conclusion(g, p)
  {
    assert Last(p) !in Elements(p[..|p| - 1]);
  }

  lemma ClosesHere(g: Graph, p: seq<Id>, b: Id)
    requires Stands(g, p) && Hop(g, Last(p), b) && b in p
    ensures Lineage(g, p[0]) == Conclusion(g, p) && b == p[0]
  {
    ReturnsToStart(g, p, b);
    StepsOn(g, p, b);
    HaltOrHop(g, Last(p));
    assert b in Elements(p);
  }

  /** A sound hop to a task not yet on it makes a chain longer. */
  lemma ChainGrows(g: Graph, p: seq<Id>, b: Id)
    requires Chain(g, p) && Hop(g, Last(p), b) && b !in p
    ensures Chain(g, p + [b]) && Elements(p + [b]) == Elements(p) + {b}
  {
    var longer := p + [b];
    forall i | 0 <= i < |longer| - 1 ensures Hop(g, longer[i], longer[i + 1]) {
      assert i < |p| - 1 ==> Hop(g, p[i], p[i + 1]);
    }
  }

  /** A chain grows until its end halts the walk or leads back to its start. */
  lemma LongestChain(g: Graph, p: seq<Id>) returns (q: seq<Id>)
    requires Chain(g, p) && Elements(p) <= g.tasks + {p[0]}
    ensures p <= q && Chain(g, q)
    ensures Halt(g, Last(q)).Some? || Hop(g, Last(q), p[0])
    decreases |g.tasks + {p[0]} - Elements(p)|
  {
    HaltOrHop(g, Last(p));
    if Halt(g, Last(p)).Some? { return p; }
    var b := Only(Successors(g, Last(p)));
    if b in p {
      ReturnsToStart(g, p, b);
      return p;
    }
    ChainGrows(g, p, b);
    Shrinks(g.tasks + {p[0]}, Elements(p), b);
    q := LongestChain(g, p + [b]);
  }

  /** The walk gets to the end of every chain from its start. */
  lemma {:induction false} ReachesEnd(g: Graph, p: seq<Id>)
    requires Chain(g, p)
    ensures Stands(g, p)
    decreases |p|
  {
    if |p| == 1 {
      assert p == [p[0]];
      StandsAtStart(g, p[0]);
    } else {
      var init := p[..|p| - 1];
      assert p == init + [Last(p)];
      assert Hop(g, p[|p| - 2], p[|p| - 1]);
      forall i | 0 <= i < |init| - 1 ensures Hop(g, init[i], init[i + 1]) { assert Hop(g, p[i], p[i + 1]); }
      ReachesEnd(g, init);
      StandsFurther(g, init, Last(p));
    }
  }

  /** Every start has a chain from which its verdict is read off, and only a return to it ends in a cycle. */
  lemma Concludes(g: Graph, start: Id) returns (q: seq<Id>)
    ensures Chain(g, q) && q[0] == start
    ensures Lineage(g, start) == Conclusion(g, q)
    ensures Halt(g, Last(q)).None? ==> Hop(g, Last(q), start)
  {
    q := LongestChain(g, [start]);
    assert q[0] == [start][0];
    ReachesEnd(g, q);
    HaltOrHop(g, Last(q));
    if Halt(g, Last(q)).Some? { HaltsHere(g, q); } else { ClosesHere(g, q, start); }
  }

  // --------------------------------------------------------------- theorems

  /** A sound succession: at least one hop, and the last task names no successor. */
  ghost predicate Succeeds(g: Graph, p: seq<Id>) {
    Chain(g, p) && |p| > 1 && Successors(g, Last(p)) == {}
  }

  lemma EndHalts(g: Graph, p: seq<Id>)
    requires Succeeds(g, p)
    ensures Halt(g, Last(p)) == Some(NoSuccession)
  {
    assert Hop(g, p[|p| - 2], p[|p| - 1]);
  }

  /** `valid` means exactly that a sound succession leads from the task to one without successors. */
  lemma ValidIffSucceeds(g: Graph, start: Id)
    ensures Lineage(g, start).Valid? <==> exists p :: p != [] && p[0] == start && Succeeds(g, p)
  {
    var q := Concludes(g, start);
    if Lineage(g, start).Valid? { assert Succeeds(g, q); }
    forall p | p != [] && p[0] == start && Succeeds(g, p) ensures Lineage(g, start).Valid? {
      SucceedsIsValid(g, p);
    }
  }

  lemma SucceedsIsValid(g: Graph, p: seq<Id>)
    requires Succeeds(g, p)
    ensures Lineage(g, p[0]) == Valid(p[1])
  {
    ReachesEnd(g, p);
    EndHalts(g, p);
    assert Last(p) !in Elements(p[..|p| - 1]);
  }

  /** Every later task of a sound succession that has a successor is valid too, and the last has none to report. */
  lemma ValidityIsInherited(g: Graph, p: seq<Id>, i: nat)
    requires Succeeds(g, p) && i < |p|
    ensures Lineage(g, p[i]) == if i < |p| - 1 then Valid(p[i + 1]) else NoSuccession
  {
    if i < |p| - 1 {
      var rest := p[i..];
      forall k | 0 <= k < |rest| - 1 ensures Hop(g, rest[k], rest[k + 1]) { assert Hop(g, p[i + k], p[i + k + 1]); }
      SucceedsIsValid(g, rest);
    } else {
      EndHalts(g, p);
    }
  }

  /** The cycle branch is taken exactly when sound hops lead back to the task the walk began with. */
  lemma CycleIffReturns(g: Graph, start: Id)
    ensures Lineage(g, start) == Invalid(Cycle) <==>
            exists p :: Chain(g, p) && p[0] == start && Hop(g, Last(p), start)
  {
    var q := Concludes(g, start);
    HaltOrHop(g, Last(q));
    forall p | Chain(g, p) && p[0] == start && Hop(g, Last(p), start) ensures Lineage(g, start) == Invalid(Cycle) {
      ReachesEnd(g, p);
      StepsOn(g, p, start);
      assert start in Elements(p);
    }
  }

  /** Nothing is reported exactly when the task names no successor and at most one predecessor. */
  lemma NoneIffNoSuccessor(g: Graph, start: Id)
    ensures Lineage(g, start).NoSuccession? <==> Successors(g, start) == {} && |Predecessors(g, start)| <= 1
  {
    var q := Concludes(g, start);
    if |q| > 1 {
      assert Hop(g, q[0], q[1]);
    }
  }

  /** All members of a cycle get the same verdict. */
  lemma CycleIsShared(g: Graph, p: seq<Id>, i: nat)
    requires Chain(g, p) && Hop(g, Last(p), p[0]) && i < |p|
    ensures Lineage(g, p[i]) == Invalid(Cycle)
  {
    var turned := p[i..] + p[..i];
    forall k | 0 <= k < |turned| - 1 ensures Hop(g, turned[k], turned[k + 1]) {
      if k + 1 < |p| - i {
        assert Hop(g, p[i + k], p[i + k + 1]);
      } else if k + 1 > |p| - i {
        assert Hop(g, p[k - (|p| - i)], p[k - (|p| - i) + 1]);
      }
    }
    assert i > 0 ==> Hop(g, p[i - 1], p[i]);
    assert Last(turned) == if i > 0 then p[i - 1] else Last(p);
    CycleIffReturns(g, p[i]);
    assert turned[0] == p[i] && Chain(g, turned);
  }

  // ------------------------------------------------------ which verdict, exactly

  ghost predicate Several(s: set<Id>) {
    exists a, b :: a in s && b in s && a != b
  }

  lemma SeveralMeans(s: set<Id>)
    ensures Several(s) <==> |s| > 1
  {
    if |s| > 1 {
      var a :| a in s;
      assert s == {a} + (s - {a});
      var b :| b in s - {a};
    }
    if Several(s) {
      var a, b :| a in s && b in s && a != b;
      assert {a, b} <= s && |{a, b}| == 2;
      SubsetIsSmaller({a, b}, s);
    }
  }

  lemma SubsetIsSmaller(a: set<Id>, b: set<Id>)
    requires a <= b
    ensures |a| <= |b|
  {
    assert b == a + (b - a) && a !! (b - a);
  }

  /** Up to 128 letters, digits, dots, underscores, colons and dashes, the first a letter or a digit. */
  predicate SoundId(id: Id) {
    1 <= |id| <= 128 &&
    (forall c <- id :: 'a' <= c <= 'z' || 'A' <= c <= 'Z' || '0' <= c <= '9' || c in {'.', '_', ':', '-'}) &&
    id[0] !in {'.', '_', ':', '-'}
  }

  lemma SoundIdMeans(id: Id)
    ensures ValidId(id) <==> SoundId(id)
  {
    assert forall c: char :: c in "._:-" <==> c in {'.', '_', ':', '-'};
    if ValidId(id) {
      forall c | c in id ensures Alphanumeric(c) || c in "._:-" {
        var i :| 0 <= i < |id| && id[i] == c;
      }
    }
    if SoundId(id) {
      forall i | 0 <= i < |id| ensures Alphanumeric(id[i]) || id[i] in "._:-" { assert id[i] in id; }
    }
  }

  /** The task names exactly one successor, at most one predecessor names it, and the successor is this. */
  ghost predicate PointsTo(g: Graph, e: Id, b: Id) {
    Successors(g, e) == {b} && !Several(Predecessors(g, e))
  }

  /** The verdict that the evidence about the end of a chain leads to. */
  ghost predicate EndsAs(g: Graph, e: Id, verdict: Verdict) {
    match verdict
    case Ambiguous(fault) =>
      if fault == NotUnique then Several(Successors(g, e)) || Several(Predecessors(g, e))
      else fault == NotMutual && exists b :: PointsTo(g, e, b) && b != e && SoundId(b) && b in g.tasks &&
                                             Several(Predecessors(g, b))
    case Invalid(fault) =>
      exists b :: PointsTo(g, e, b) &&
        (match fault
         case OwnSuccessor => b == e
         case BadIdentifier => b != e && !SoundId(b)
         case TargetMissing => b != e && SoundId(b) && b !in g.tasks
         case NotMutual => b != e && SoundId(b) && b in g.tasks && Predecessors(g, b) != {e} &&
                           !Several(Predecessors(g, b))
         case _ => false)
    case NoSuccession => Successors(g, e) == {} && !Several(Predecessors(g, e))
    case Valid(_) => false
  }

  lemma PointsToOnly(g: Graph, e: Id)
    ensures forall b :: PointsTo(g, e, b) ==> |Successors(g, e)| == 1 && Only(Successors(g, e)) == b
    ensures |Successors(g, e)| == 1 && |Predecessors(g, e)| <= 1 ==> PointsTo(g, e, Only(Successors(g, e)))
  {
    SeveralMeans(Predecessors(g, e));
    forall b | PointsTo(g, e, b) ensures |Successors(g, e)| == 1 && Only(Successors(g, e)) == b {
      OnlyMember(Successors(g, e), b);
    }
    if |Successors(g, e)| == 1 { OnlyMember(Successors(g, e), Only(Successors(g, e))); }
  }

  lemma HaltMeans(g: Graph, e: Id, verdict: Verdict)
    ensures Halt(g, e) == Some(verdict) <==> EndsAs(g, e, verdict)
  {
    SeveralMeans(Successors(g, e));
    SeveralMeans(Predecessors(g, e));
    PointsToOnly(g, e);
    if |Successors(g, e)| == 1 {
      var b := Only(Successors(g, e));
      OnlyMember(Successors(g, e), b);
      SoundIdMeans(b);
      SeveralMeans(Predecessors(g, b));
    }
  }

  /**
   The verdict about a task, exactly: from it leads a chain of sound hops whose end either leads back
   to it, a cycle, or stops the walk with the verdict that the evidence about that end leads to; and
   a chain of some length that ends without successor makes its second task the valid successor.
   */
  lemma VerdictMeans(g: Graph, start: Id) returns (q: seq<Id>)
    ensures Chain(g, q) && q[0] == start
    ensures var verdict, e := Lineage(g, start), q[|q| - 1];
            if Hop(g, e, start) then verdict == Invalid(Cycle)
            else if EndsAs(g, e, NoSuccession) && |q| > 1 then verdict == Valid(q[1])
            else EndsAs(g, e, verdict)
  {
    q := Concludes(g, start);
    HaltOrHop(g, Last(q));
    HaltMeans(g, Last(q), NoSuccession);
    HaltMeans(g, Last(q), Lineage(g, start));
  }
}
