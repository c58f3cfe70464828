module CorrectionsReplay {

  // The stored overrides against a replay of what happened to a task, and what is shown of
  // it. The history names only native changes and accepted corrections; it never looks at
  // the projection.

  import opened Options
  import opened Corrections
  import opened CorrectionsSafety

  datatype Entry = NativeChanged | Revised(id: CorrectionId, changes: map<Field, Text>)

  // ----------------------------------------------------------------- history

  /** What a step means for the history of a task: a native change, a correction, or nothing. */
  function EntryOf(s: Store, step: Step, t: TaskId): seq<Entry> {
    match step
    case Insert(u, _) => if u == t && t !in s.tasks then [NativeChanged] else []
    case Update(u, native) => if u == t && t in s.tasks && s.tasks[t] != native then [NativeChanged] else []
    case Delete(u) => if u == t && t in s.tasks then [NativeChanged] else []
    case Rename(u, v) => if (u == t || v == t) && u in s.tasks && v !in s.tasks then [NativeChanged] else []
    case Correct(u, p, _, id, _, _) =>
      if u == t && |Next(s, step).corrections| > |s.corrections| then [Revised(id, p.changes)] else []
    case Declare(u, _, _, _) => if u == t && |Next(s, step).reports| > |s.reports| then [NativeChanged] else []
  }

  function History(s: Store, steps: seq<Step>, t: TaskId): seq<Entry>
    decreases |steps|
  {
    if steps == [] then [] else EntryOf(s, steps[0], t) + History(Next(s, steps[0]), steps[1..], t)
  }

  /** A native change forgets every override; a correction sets and lifts some. */
  function After(overrides: map<Field, Override>, e: Entry): map<Field, Override> {
    match e
    case NativeChanged => map[]
    case Revised(id, changes) => Revise(overrides, changes, id)
  }

  function Replay(overrides: map<Field, Override>, history: seq<Entry>): map<Field, Override>
    decreases |history|
  {
    if history == [] then overrides else Replay(After(overrides, history[0]), history[1..])
  }

  lemma {:induction false} ReplayAppends(overrides: map<Field, Override>, a: seq<Entry>, b: seq<Entry>)
    ensures Replay(overrides, a + b) == Replay(Replay(overrides, a), b)
    decreases |a|
  {
    if a == [] {
      assert a + b == b;
    } else {
      assert (a + b)[0] == a[0] && (a + b)[1..] == a[1..] + b;
      ReplayAppends(After(overrides, a[0]), a[1..], b);
    }
  }

  // ---------------------------------------------------- overlay equals replay

  /** Apart from corrections, a step moves the basis of a task exactly when it is a native change of it. */
  lemma NativeChangeMovesBasis(s: Store, step: Step, t: TaskId)
    requires Inv(s) && !step.Correct? && t in Next(s, step).versions
    ensures Next(s, step).projections == s.projections
    ensures EntryOf(s, step, t) == [] ==> t in s.versions && Next(s, step).versions[t].basis == s.versions[t].basis
    ensures EntryOf(s, step, t) != [] ==> EntryOf(s, step, t) == [NativeChanged]
    ensures EntryOf(s, step, t) != [] && t in s.versions ==> Next(s, step).versions[t].basis > s.versions[t].basis
  {
    assert VersionRow(s, t);
    if step.Declare? && JudgeReport(s, step.task, step.key, step.expected, step.running) == Silent {
      ReportIsRecorded(s, step.task, step.key, step.expected, step.running);
    }
  }

  /** A correction is either recorded, and then it is the entry, or changes nothing. */
  lemma CorrectionIsRecorded(s: Store, step: Step, t: TaskId)
    requires Inv(s) && step.Correct?
    ensures (Next(s, step) == s && EntryOf(s, step, t) == []) ||
            (step.task in s.tasks && step.task in s.versions &&
             Next(s, step) == Record(s, step.task, NewCorrection(s, step.task, step.payload, step.id, step.declared)) &&
             EntryOf(s, step, t) == if step.task == t then [Revised(step.id, step.payload.changes)] else [])
  {
    if DrawsFresh(s, step) && Judge(s, step.task, step.payload, step.wellFormed, step.received) == Silent {
      AcceptedIsRecorded(s, step.task, step.payload, step.wellFormed, step.id, step.received, step.declared);
    }
  }

  lemma StepReplays(s: Store, step: Step, t: TaskId)
    requires Inv(s) && t in Next(s, step).versions
    ensures Carried(Next(s, step), t) ==
            Replay(if t in s.versions then Carried(s, t) else map[], EntryOf(s, step, t))
  {
    assert ProjectionRow(s, t);
    if step.Correct? { CorrectionIsRecorded(s, step, t); } else { NativeChangeMovesBasis(s, step, t); }
  }

  lemma NextKeepsVersions(s: Store, step: Step, t: TaskId)
    requires Inv(s) && t in s.versions
    ensures t in Next(s, step).versions && Next(s, step).versions[t].revision >= s.versions[t].revision
  {
  }

  lemma AbsentHasNoEntry(s: Store, step: Step, t: TaskId)
    requires Inv(s) && t !in Next(s, step).versions
    ensures EntryOf(s, step, t) == []
  {
    assert VersionRow(s, t);
    NextKeeps(s, step);
    assert VersionRow(Next(s, step), t);
    if step.Declare? && JudgeReport(s, step.task, step.key, step.expected, step.running) == Silent {
      ReportIsRecorded(s, step.task, step.key, step.expected, step.running);
    }
  }

  /**
   Overlay equals replay: at every moment of every run, the overrides in force for a task
   are what replaying its history leaves, even when native values change back to what they were.
   */
  lemma {:induction false} OverlayIsReplay(s: Store, steps: seq<Step>, t: TaskId)
    requires Inv(s) && t in Execute(s, steps).versions
    ensures Carried(Execute(s, steps), t) ==
            Replay(if t in s.versions then Carried(s, t) else map[], History(s, steps, t))
    decreases |steps|
  {
    if steps == [] { return; }
    var s' := Next(s, steps[0]);
    NextKeeps(s, steps[0]);
    OverlayIsReplay(s', steps[1..], t);
    var before := if t in s.versions then Carried(s, t) else map[];
    ReplayAppends(before, EntryOf(s, steps[0], t), History(s', steps[1..], t));
    if t in s'.versions {
      StepReplays(s, steps[0], t);
    } else {
      AbsentHasNoEntry(s, steps[0], t);
      if t in s.versions { NextKeepsVersions(s, steps[0], t); }
    }
  }

  /** Nothing from before a native change can come back, whatever the change was. */
  lemma NativeChangeForgets(overrides: map<Field, Override>, a: seq<Entry>, b: seq<Entry>)
    ensures Replay(overrides, a + [NativeChanged] + b) == Replay(map[], b)
  {
    ReplayAppends(overrides, a + [NativeChanged], b);
    ReplayAppends(overrides, a, [NativeChanged]);
  }

  /** A native row that changes and changes back is the same row, but no correction of it is in force. */
  lemma ThereAndBack(s: Store, t: TaskId, other: Native, declared: map<Field, Text>, f: Field)
    requires Inv(s) && t in s.tasks && other != s.tasks[t]
    ensures var s' := Execute(s, [Update(t, other), Update(t, s.tasks[t])]);
            && s'.tasks == s.tasks && t in s'.versions && Carried(s', t) == map[]
            && (t in s.projections ==> Shown(s', t, declared, f) == NativeText(s.tasks[t], f))
  {
    var away, back := Update(t, other), Update(t, s.tasks[t]);
    var m := Next(s, away);
    assert [away, back][1..] == [back];
    assert Execute(s, [away, back]) == Execute(m, [back]);
    assert [back][1..] == [];
    assert Execute(m, [back]) == Execute(Next(m, back), []);
    assert VersionRow(s, t) && ProjectionRow(s, t);
  }

  predicate Touches(e: Entry, f: Field) {
    e.NativeChanged? || f in e.changes
  }

  /** Entry `i` gave the field this value, and nothing has touched the field since. */
  ghost predicate LastWord(history: seq<Entry>, f: Field, o: Override, i: int) {
    && 0 <= i < |history|
    && history[i].Revised? && f in history[i].changes
    && history[i].changes[f] == o.value && o.value != "" && history[i].id == o.correction
    && forall j :: i < j < |history| ==> !Touches(history[j], f)
  }

  /** A replayed override is exactly the last word on its field. */
  lemma {:induction false} ReplayIsLastWord(history: seq<Entry>, f: Field, o: Override)
    ensures var overrides := Replay(map[], history);
            (f in overrides && overrides[f] == o) <==> exists i :: LastWord(history, f, o, i)
    decreases |history|
  {
    if history == [] { return; }
    var n := |history| - 1;
    var init, last := history[..n], history[n];
    assert history == init + [last];
    ReplayAppends(map[], init, [last]);
    ReplayIsLastWord(init, f, o);
    if Touches(last, f) {
      assert forall i :: LastWord(history, f, o, i) ==> i == n;
      if last.Revised? && last.changes[f] == o.value && o.value != "" && last.id == o.correction {
        assert LastWord(history, f, o, n);
      }
    } else {
      forall i ensures LastWord(history, f, o, i) <==> LastWord(init, f, o, i) {
        assert 0 <= i < n ==> history[i] == init[i];
        assert forall j :: i < j < n && 0 <= i ==> history[j] == init[j];
      }
    }
  }

  // ------------------------------------------------------------------- shown

  datatype Standing = Never | Current | Outdated

  /** Whether a task was ever corrected, and whether its native row has changed since. */
  function Stand(standing: Standing, history: seq<Entry>): Standing
    decreases |history|
  {
    if history == [] then standing
    else
      match history[0]
      case NativeChanged => Stand(if standing.Never? then Never else Outdated, history[1..])
      case Revised(_, _) => Stand(Current, history[1..])
  }

  function StandingOf(s: Store, t: TaskId): Standing {
    if t !in s.projections || t !in s.versions then Never
    else if s.projections[t].basis == s.versions[t].basis then Current else Outdated
  }

  lemma {:induction false} StandAppends(standing: Standing, a: seq<Entry>, b: seq<Entry>)
    ensures Stand(standing, a + b) == Stand(Stand(standing, a), b)
    decreases |a|
  {
    if a == [] {
      assert a + b == b;
    } else {
      assert (a + b)[0] == a[0] && (a + b)[1..] == a[1..] + b;
      var next := match a[0] case NativeChanged => (if standing.Never? then Never else Outdated) case _ => Current;
      StandAppends(next, a[1..], b);
    }
  }

  lemma StepStands(s: Store, step: Step, t: TaskId)
    requires Inv(s)
    ensures StandingOf(Next(s, step), t) == Stand(StandingOf(s, t), EntryOf(s, step, t))
  {
    assert ProjectionRow(s, t);
    if t in s.versions { NextKeepsVersions(s, step, t); }
    if t !in Next(s, step).versions {
      AbsentHasNoEntry(s, step, t);
    } else if step.Correct? {
      CorrectionIsRecorded(s, step, t);
    } else {
      NativeChangeMovesBasis(s, step, t);
    }
  }

  lemma {:induction false} StandingIsReplay(s: Store, steps: seq<Step>, t: TaskId)
    requires Inv(s)
    ensures StandingOf(Execute(s, steps), t) == Stand(StandingOf(s, t), History(s, steps, t))
    decreases |steps|
  {
    if steps == [] { return; }
    var s' := Next(s, steps[0]);
    NextKeeps(s, steps[0]);
    StepStands(s, steps[0], t);
    StandingIsReplay(s', steps[1..], t);
    StandAppends(StandingOf(s, t), EntryOf(s, steps[0], t), History(s', steps[1..], t));
  }

  /**
   What is shown of a task is decided by its history alone: a field with a last word shows
   it; a task whose corrections are all from before a native change shows its native text,
   and otherwise what stands without corrections.
   */
  lemma ShownFollowsHistory(tasks: map<TaskId, Native>, steps: seq<Step>, t: TaskId, declared: map<Field, Text>,
      f: Field)
    requires t in Execute(Start(tasks), steps).tasks
    ensures var s := Execute(Start(tasks), steps);
            var history := History(Start(tasks), steps, t);
            var overrides := Replay(map[], history);
            Shown(s, t, declared, f) ==
              if f in overrides then Some(overrides[f].value)
              else if Stand(Never, history) == Outdated then NativeText(s.tasks[t], f)
              else Base(s.tasks[t], declared, f)
  {
    var s := Execute(Start(tasks), steps);
    StartInv(tasks);
    ExecuteKeeps(Start(tasks), steps);
    assert VersionRow(s, t) && ProjectionRow(s, t) && OverrideRow(s, t, f);
    OverlayIsReplay(Start(tasks), steps, t);
    StandingIsReplay(Start(tasks), steps, t);
    if t in s.projections && f in s.projections[t].overrides {
      var i :| Backs(s, t, f, i);
      assert s.corrections[i].id == s.projections[t].overrides[f].correction;
    }
  }

  // ----------------------------------------------------------------- retries

  lemma CorrectionsOnlyGrow(s: Store, step: Step)
    requires Inv(s)
    ensures s.corrections <= Next(s, step).corrections
  {
  }

  lemma {:induction false} CorrectionsAreKept(s: Store, steps: seq<Step>)
    requires Inv(s)
    ensures Inv(Execute(s, steps)) && s.corrections <= Execute(s, steps).corrections
    decreases |steps|
  {
    if steps != [] {
      NextKeeps(s, steps[0]);
      CorrectionsOnlyGrow(s, steps[0]);
      CorrectionsAreKept(Next(s, steps[0]), steps[1..]);
    }
  }

  lemma PriorIsUnique(s: Store, c: Correction)
    requires Inv(s) && c in s.corrections
    ensures PriorCorrection(s.corrections, c.task, c.payload.key) == Some(c)
  {
    var prior := PriorCorrection(s.corrections, c.task, c.payload.key);
    var i :| 0 <= i < |s.corrections| && s.corrections[i] == c;
    assert prior.Some?;
    var j :| 0 <= j < |s.corrections| && s.corrections[j] == prior.value;
    assert CorrectionPair(s, i, j) && CorrectionPair(s, j, i);
  }

  /**
   An accepted correction answers its exact retry for ever, whatever has happened since,
   and its key can never be spent on anything else while the task exists.
   */
  lemma RetryIsForEver(s: Store, steps: seq<Step>, c: Correction, p: Payload, id: CorrectionId, received: int,
      declared: map<Field, Text>)
    requires Inv(s) && c in s.corrections && p.key == c.payload.key && p.expected >= 1 && p.changes != map[]
    requires c.task in Execute(s, steps).tasks
    ensures var now := Execute(s, steps);
            ApplyCorrection(now, c.task, p, true, id, received, declared) ==
            Reply(now, if p == c.payload then Corrected(c) else Refused(KeyConflict))
  {
    CorrectionsAreKept(s, steps);
    PriorIsUnique(Execute(s, steps), c);
  }

  /**
   An accepted correction used the revision it expected and raised it by one; what it
   records as replaced is what was shown; nothing else in the tables moves.
   */
  lemma AcceptanceIsExact(s: Store, t: TaskId, p: Payload, wellFormed: bool, id: CorrectionId, received: int,
      declared: map<Field, Text>)
    requires Inv(s) && !CorrectionKnown(s, id)
    requires PriorCorrection(s.corrections, t, p.key).None?
    requires ApplyCorrection(s, t, p, wellFormed, id, received, declared).answer.Corrected?
    ensures var reply := ApplyCorrection(s, t, p, wellFormed, id, received, declared);
            var c := reply.answer.correction;
            && t in s.tasks && t in s.versions && s.versions[t].revision == p.expected
            && c.revision == p.expected + 1
            && reply.store.versions == s.versions[t := s.versions[t].(revision := p.expected + 1)]
            && reply.store.tasks == s.tasks && reply.store.corrections == s.corrections + [c]
            && (forall f :: f in p.changes ==> c.was[f] == Shown(s, t, declared, f))
            && (forall f :: f in p.changes ==>
                  Shown(reply.store, t, declared, f) ==
                  if p.changes[f] != "" then Some(p.changes[f]) else Base(s.tasks[t], declared, f))
  {
    AcceptedIsRecorded(s, t, p, wellFormed, id, received, declared);
    var c := NewCorrection(s, t, p, id, declared);
    var s' := Record(s, t, c);
    assert VersionRow(s, t);
    assert s'.corrections[|s.corrections|].id == id;
  }

  /**
   A preview is the correction it announces: made on the same tables, at that time or later, the
   correction records what the preview showed, under its own identifier, at the end of the log,
   and is refused as the preview was, unless it was only shown too early.
   */
  lemma PreviewIsCorrection(
    s: Store, t: TaskId, p: Payload, wellFormed: bool, blank: CorrectionId, now: int, id: CorrectionId, received: int,
    declared: map<Field, Text>)
    requires Inv(s) && !CorrectionKnown(s, id) && now <= received
    ensures var shown := Preview(s, t, p, wellFormed, blank, now, declared);
            var reply := ApplyCorrection(s, t, p, wellFormed, id, received, declared);
            if shown == Refused(SourceTooLate) then
              reply.answer == (if p.reviewed <= received && p.observed <= p.reviewed
                               then Corrected(NewCorrection(s, t, p, id, declared)) else shown)
            else if shown.Refused? || PriorCorrection(s.corrections, t, p.key).Some? then
              reply == Reply(s, shown)
            else
              var c := shown.correction.(id := id);
              shown.Corrected? && reply.answer == Corrected(c) && reply.store.corrections == s.corrections + [c]
  {
    if Judge(s, t, p, wellFormed, received) == Silent {
      AcceptedIsRecorded(s, t, p, wellFormed, id, received, declared);
    }
  }

  /** Rows of the audit of one task never share a revision, so a revision is spent once. */
  lemma RevisionsAreSpentOnce(tasks: map<TaskId, Native>, steps: seq<Step>, i: int, j: int)
    requires 0 <= i < |Execute(Start(tasks), steps).corrections|
    ensures var s := Execute(Start(tasks), steps);
            var c := s.corrections[i];
            && (CorrectionOf(s, c.task, j) && s.corrections[j].revision == c.revision ==> i == j)
            && (ReportOf(s, c.task, j) ==> s.reports[j].revision != c.revision)
  {
    var s := Execute(Start(tasks), steps);
    StartInv(tasks);
    ExecuteKeeps(Start(tasks), steps);
    assert CorrectionPair(s, i, j) && CorrectionPair(s, j, i) && Apart(s, i, j);
  }
}
