/** The correction tables as an object updated in place: the triggers, a correction and its preview, a report. */
module CorrectionsServices {
  import opened Options
  import opened Corrections
  import opened CorrectionsSafety

  const FIELDS := [Reason, NextAction]

  function ReviseOne(overrides: map<Field, Override>, changes: map<Field, Text>, f: Field, id: CorrectionId)
    : map<Field, Override>
  {
    if f !in changes then overrides
    else if changes[f] != "" then overrides[f := Override(changes[f], id)]
    else overrides - {f}
  }

  function ReviseEach(
    overrides: map<Field, Override>, changes: map<Field, Text>, fields: seq<Field>, id: CorrectionId)
    : map<Field, Override>
    decreases |fields|
  {
    if fields == [] then overrides
    else ReviseEach(ReviseOne(overrides, changes, fields[0], id), changes, fields[1..], id)
  }

  /** One field after the other comes to the same as all of them at once. */
  lemma EachIsAll(overrides: map<Field, Override>, changes: map<Field, Text>, id: CorrectionId)
    ensures ReviseEach(overrides, changes, FIELDS, id) == Revise(overrides, changes, id)
  {
    var first := ReviseOne(overrides, changes, Reason, id);
    var both := ReviseOne(first, changes, NextAction, id);
    assert FIELDS[1..] == [NextAction] && [NextAction][1..] == [];
    assert ReviseEach(overrides, changes, FIELDS, id) == ReviseEach(first, changes, [NextAction], id);
    assert ReviseEach(first, changes, [NextAction], id) == ReviseEach(both, changes, [], id) == both;
    forall f ensures f in both <==> f in Revise(overrides, changes, id) {
      assert f == Reason || f == NextAction;
    }
    assert both.Keys == Revise(overrides, changes, id).Keys;
    forall f | f in both ensures both[f] == Revise(overrides, changes, id)[f] {
      assert f == Reason || f == NextAction;
    }
  }

  class OperationsClarityService {
    var tasks: map<TaskId, Native>
    var versions: map<TaskId, Version>
    var projections: map<TaskId, Projection>
    var corrections: seq<Correction>
    var reports: seq<Report>

    function Snapshot(): Store
      reads this
    {
      Store(tasks, versions, projections, corrections, reports)
    }

    ghost predicate Valid()
      reads this
    {
      Reachable(Snapshot())
    }

    constructor (native: map<TaskId, Native>)
      ensures Valid() && Snapshot() == Start(native)
    {
      tasks, projections, corrections, reports := native, map[], [], [];
      versions := map t | t in native :: Version(1, 1, true, native[t]);
      new;
      assert LeadsTo(native, [], Start(native));
    }

    // --------------------------------------------------------- native table

    /** An insert, and the trigger that gives the task its first or its next version. */
    method InsertNative(t: TaskId, native: Native)
      requires Valid()
      modifies this
      ensures Valid() && Snapshot() == InsertTask(old(Snapshot()), t, native)
    {
      StaysReachable(Snapshot(), Insert(t, native));
      if t in tasks { return; }
      tasks := tasks[t := native];
      var revision := 1;
      if t in versions { revision := versions[t].revision + 1; }
      versions := versions[t := Version(revision, revision, true, native)];
    }

    /** The update of a row, and the trigger that moves its version, and its basis if a column changed. */
    method SetNative(t: TaskId, native: Native)
      requires t in tasks && t in versions
      modifies this`tasks, this`versions
      ensures Snapshot() == UpdateTask(old(Snapshot()), t, native)
    {
      var version := versions[t];
      var basis := version.basis;
      if native != tasks[t] { basis := version.revision + 1; }
      tasks := tasks[t := native];
      versions := versions[t := Version(version.revision + 1, basis, true, native)];
    }

    method UpdateNative(t: TaskId, native: Native)
      requires Valid()
      modifies this
      ensures Valid() && Snapshot() == UpdateTask(old(Snapshot()), t, native)
    {
      StaysReachable(Snapshot(), Update(t, native));
      assert VersionRow(Snapshot(), t);
      if t in tasks { SetNative(t, native); }
    }

    method DeleteNative(t: TaskId)
      requires Valid()
      modifies this
      ensures Valid() && Snapshot() == DeleteTask(old(Snapshot()), t)
    {
      StaysReachable(Snapshot(), Delete(t));
      assert VersionRow(Snapshot(), t);
      if t !in tasks { return; }
      tasks := tasks - {t};
      var next := versions[t].revision + 1;
      versions := versions[t := Version(next, next, false, versions[t].native)];
    }

    method RenameNative(t: TaskId, u: TaskId)
      requires Valid()
      modifies this
      ensures Valid() && Snapshot() == RenameTask(old(Snapshot()), t, u)
    {
      if t !in tasks || u in tasks { return; }
      var native := tasks[t];
      DeleteNative(t);
      InsertNative(u, native);
    }

    // ---------------------------------------------------------- corrections

    method FindCorrection(t: TaskId, key: Key) returns (prior: Option<Correction>)
      ensures prior == PriorCorrection(corrections, t, key)
    {
      var i := 0;
      assert corrections[0..] == corrections;
      while i < |corrections|
        invariant 0 <= i <= |corrections|
        invariant PriorCorrection(corrections, t, key) == PriorCorrection(corrections[i..], t, key)
      {
        if corrections[i].task == t && corrections[i].payload.key == key { return Some(corrections[i]); }
        assert corrections[i..][1..] == corrections[i + 1..];
        i := i + 1;
      }
      return None;
    }

    method FindReport(t: TaskId, key: Key) returns (prior: Option<Report>)
      ensures prior == PriorReport(reports, t, key)
    {
      var i := 0;
      assert reports[0..] == reports;
      while i < |reports|
        invariant 0 <= i <= |reports|
        invariant PriorReport(reports, t, key) == PriorReport(reports[i..], t, key)
      {
        if reports[i].task == t && reports[i].key == key { return Some(reports[i]); }
        assert reports[i..][1..] == reports[i + 1..];
        i := i + 1;
      }
      return None;
    }

    /** Everything checked before a correction is written or previewed. */
    method JudgeCorrection(t: TaskId, p: Payload, wellFormed: bool, received: int) returns (answer: Answer)
      ensures answer == Judge(Snapshot(), t, p, wellFormed, received)
    {
      if !wellFormed || p.expected < 1 || p.changes == map[] { return Refused(Invalid); }
      if t !in tasks { return Refused(TaskMissing); }
      var prior := FindCorrection(t, p.key);
      if prior.Some? {
        if prior.value.payload != p { return Refused(KeyConflict); }
        return Corrected(prior.value);
      }
      var damage := Bookkeeping(Snapshot(), t);
      if damage.Some? { return Refused(damage.value); }
      if p.expected != versions[t].revision { return Refused(Stale); }
      if p.observed > p.reviewed || p.reviewed > received { return Refused(SourceTooLate); }
      return Silent;
    }

    method PreviewCorrection(t: TaskId, p: Payload, wellFormed: bool, id: CorrectionId, received: int,
        declared: map<Field, Text>)
      returns (answer: Answer)
      ensures answer == Preview(Snapshot(), t, p, wellFormed, id, received, declared)
    {
      answer := JudgeCorrection(t, p, wellFormed, received);
      if answer == Silent { answer := Corrected(NewCorrection(Snapshot(), t, p, id, declared)); }
    }

    /** Folds the changes of a correction into the overrides carried over, one field at a time. */
    method Fold(carried: map<Field, Override>, changes: map<Field, Text>, id: CorrectionId)
        returns (overrides: map<Field, Override>)
      ensures overrides == Revise(carried, changes, id)
    {
      overrides := carried;
      var i := 0;
      while i < |FIELDS|
        invariant 0 <= i <= |FIELDS|
        invariant ReviseEach(carried, changes, FIELDS, id) == ReviseEach(overrides, changes, FIELDS[i..], id)
      {
        var f := FIELDS[i];
        assert FIELDS[i..][0] == f && FIELDS[i..][1..] == FIELDS[i + 1..];
        if f in changes {
          if changes[f] != "" {
            overrides := overrides[f := Override(changes[f], id)];
          } else {
            overrides := overrides - {f};
          }
        }
        i := i + 1;
      }
      EachIsAll(carried, changes, id);
    }

    /** The row of a correction, the version it moves and the overrides that are in force with it. */
    method Put(t: TaskId, c: Correction)
      requires t in tasks && t in versions
      modifies this
      ensures Snapshot() == Record(old(Snapshot()), t, c)
    {
      var version := versions[t];
      var overrides := Fold(Carried(Snapshot(), t), c.payload.changes, c.id);
      versions := versions[t := version.(revision := version.revision + 1)];
      corrections := corrections + [c];
      projections := projections[t := Projection(c.revision, version.basis, tasks[t], overrides)];
    }

    method Correct(t: TaskId, p: Payload, wellFormed: bool, id: CorrectionId, received: int, declared: map<Field, Text>)
      returns (answer: Answer)
      requires Valid() && !CorrectionKnown(Snapshot(), id)
      modifies this
      ensures Valid()
      ensures Reply(Snapshot(), answer) == ApplyCorrection(old(Snapshot()), t, p, wellFormed, id, received, declared)
    {
      StaysReachable(Snapshot(), Step.Correct(t, p, wellFormed, id, received, declared));
      answer := JudgeCorrection(t, p, wellFormed, received);
      if answer != Silent { return; }
      AcceptedIsRecorded(Snapshot(), t, p, wellFormed, id, received, declared);
      var c := NewCorrection(Snapshot(), t, p, id, declared);
      Put(t, c);
      return Corrected(c);
    }

    method ReportHumanAction(t: TaskId, key: Key, expected: int, running: bool) returns (answer: Answer)
      requires Valid()
      modifies this
      ensures Valid()
      ensures Reply(Snapshot(), answer) == ApplyReport(old(Snapshot()), t, key, expected, running)
    {
      StaysReachable(Snapshot(), Declare(t, key, expected, running));
      if expected < 1 { return Refused(Invalid); }
      if t !in tasks { return Refused(TaskMissing); }
      var prior := FindReport(t, key);
      if prior.Some? {
        if prior.value.expected != expected { return Refused(KeyConflict); }
        return Reported(prior.value);
      }
      var damage := Bookkeeping(Snapshot(), t);
      if damage.Some? { return Refused(damage.value); }
      if expected != versions[t].revision { return Refused(Stale); }
      if tasks[t].sensitive { return Refused(Sensitive); }
      if !tasks[t].reportable || running { return Refused(NotReportable); }
      if tasks[t].owner != User || tasks[t].action == "" { return Refused(NoUserAction); }
      ReportIsRecorded(Snapshot(), t, key, expected, running);
      var basis := versions[t].basis;
      UpdateNative(t, ActionCleared(tasks[t]));
      var report := Report(t, versions[t].revision, key, expected, basis);
      reports := reports + [report];
      return Reported(report);
    }
  }
}
