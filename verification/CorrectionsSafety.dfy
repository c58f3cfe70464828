/** What holds of the correction tables after any sequence of steps. */
module CorrectionsSafety {
  import opened Options
  import opened Corrections

  // --------------------------------------------------------------- invariant

  /** A task is present exactly when its version says so, and the version is about its row. */
  ghost predicate VersionRow(s: Store, t: TaskId) {
    && (t in s.tasks <==> t in s.versions && s.versions[t].present)
    && (t in s.tasks && t in s.versions ==> s.versions[t].native == s.tasks[t])
    && (t in s.versions ==> 1 <= s.versions[t].basis <= s.versions[t].revision)
  }

  ghost predicate CorrectionRow(s: Store, i: int) {
    0 <= i < |s.corrections| ==>
      var c := s.corrections[i];
      c.task in s.versions && c.task in s.projections && c.revision <= s.projections[c.task].revision
  }

  /** Corrections of one task come in the order of their revisions, each with its own key. */
  ghost predicate CorrectionPair(s: Store, i: int, j: int) {
    0 <= i < j < |s.corrections| ==>
      var c, d := s.corrections[i], s.corrections[j];
      c.id != d.id && (c.task == d.task ==> c.revision < d.revision && c.payload.key != d.payload.key)
  }

  ghost predicate Heads(s: Store, t: TaskId, i: int) {
    CorrectionOf(s, t, i) && t in s.projections && s.corrections[i].revision == s.projections[t].revision
  }

  /** A projection belongs to a correction, and with the current basis it is about the current row. */
  ghost predicate ProjectionRow(s: Store, t: TaskId) {
    t in s.projections ==>
      && t in s.versions
      && (exists i :: Heads(s, t, i))
      && s.projections[t].revision <= s.versions[t].revision
      && s.projections[t].basis <= s.versions[t].basis
      && (s.projections[t].basis == s.versions[t].basis ==>
            s.versions[t].present && s.projections[t].native == s.versions[t].native)
  }

  ghost predicate Backs(s: Store, t: TaskId, f: Field, i: int) {
    CorrectionOf(s, t, i) && t in s.projections && f in s.projections[t].overrides &&
    var c, override := s.corrections[i], s.projections[t].overrides[f];
    c.id == override.correction && f in c.payload.changes && c.payload.changes[f] == override.value &&
    override.value != ""
  }

  /** Every stored override is a value some correction of the task asked for. */
  ghost predicate OverrideRow(s: Store, t: TaskId, f: Field) {
    t in s.projections && f in s.projections[t].overrides ==> exists i :: Backs(s, t, f, i)
  }

  ghost predicate ReportRow(s: Store, i: int) {
    0 <= i < |s.reports| ==>
        s.reports[i].task in s.versions && s.reports[i].revision <= s.versions[s.reports[i].task].revision
  }

  ghost predicate ReportPair(s: Store, i: int, j: int) {
    0 <= i < j < |s.reports| && s.reports[i].task == s.reports[j].task ==>
      s.reports[i].revision < s.reports[j].revision && s.reports[i].key != s.reports[j].key
  }

  ghost predicate Apart(s: Store, i: int, j: int) {
    0 <= i < |s.corrections| && 0 <= j < |s.reports| && s.corrections[i].task == s.reports[j].task ==>
      s.corrections[i].revision != s.reports[j].revision
  }

  ghost predicate Inv(s: Store) {
    && (forall t {:trigger VersionRow(s, t)} :: VersionRow(s, t))
    && (forall i {:trigger CorrectionRow(s, i)} :: CorrectionRow(s, i))
    && (forall i, j {:trigger CorrectionPair(s, i, j)} :: CorrectionPair(s, i, j))
    && (forall t {:trigger ProjectionRow(s, t)} :: ProjectionRow(s, t))
    && (forall t, f {:trigger OverrideRow(s, t, f)} :: OverrideRow(s, t, f))
    && (forall i {:trigger ReportRow(s, i)} :: ReportRow(s, i))
    && (forall i, j {:trigger ReportPair(s, i, j)} :: ReportPair(s, i, j))
    && (forall i, j {:trigger Apart(s, i, j)} :: Apart(s, i, j))
  }

  // ------------------------------------------------------------ native steps

  /** A step of the native table moves versions forward and leaves the audit alone. */
  ghost predicate Moves(s: Store, s': Store, t: TaskId) {
    && VersionRow(s', t)
    && (t in s.versions ==>
          t in s'.versions && s.versions[t].revision <= s'.versions[t].revision &&
          (s'.versions[t].basis == s.versions[t].basis ==>
             s'.versions[t].present == s.versions[t].present && s'.versions[t].native == s.versions[t].native) &&
          s.versions[t].basis <= s'.versions[t].basis)
  }

  lemma NativeKeeps(s: Store, s': Store)
    requires Inv(s)
    requires s'.projections == s.projections && s'.corrections == s.corrections && s'.reports == s.reports
    requires forall t {:trigger Moves(s, s', t)} :: Moves(s, s', t)
    ensures Inv(s')
  {
    forall t ensures VersionRow(s', t) { assert Moves(s, s', t); }
    forall i ensures CorrectionRow(s', i) {
      assert CorrectionRow(s, i);
      assert 0 <= i < |s.corrections| ==> Moves(s, s', s.corrections[i].task);
    }
    forall i, j ensures CorrectionPair(s', i, j) { assert CorrectionPair(s, i, j); }
    forall t ensures ProjectionRow(s', t) {
      assert ProjectionRow(s, t) && Moves(s, s', t);
      if t in s.projections {
        var i :| Heads(s, t, i);
        assert Heads(s', t, i);
      }
    }
    forall t, f ensures OverrideRow(s', t, f) {
      assert OverrideRow(s, t, f);
      if t in s.projections && f in s.projections[t].overrides {
        var i :| Backs(s, t, f, i);
        assert Backs(s', t, f, i);
      }
    }
    forall i ensures ReportRow(s', i) {
      assert ReportRow(s, i);
      assert 0 <= i < |s.reports| ==> Moves(s, s', s.reports[i].task);
    }
    forall i, j ensures ReportPair(s', i, j) { assert ReportPair(s, i, j); }
    forall i, j ensures Apart(s', i, j) { assert Apart(s, i, j); }
  }

  lemma InsertKeeps(s: Store, t: TaskId, native: Native)
    requires Inv(s)
    ensures Inv(InsertTask(s, t, native))
  {
    var s' := InsertTask(s, t, native);
    forall u ensures Moves(s, s', u) { assert VersionRow(s, u); }
    NativeKeeps(s, s');
  }

  lemma UpdateKeeps(s: Store, t: TaskId, native: Native)
    requires Inv(s)
    ensures Inv(UpdateTask(s, t, native))
  {
    var s' := UpdateTask(s, t, native);
    forall u ensures Moves(s, s', u) { assert VersionRow(s, u); }
    NativeKeeps(s, s');
  }

  lemma DeleteKeeps(s: Store, t: TaskId)
    requires Inv(s)
    ensures Inv(DeleteTask(s, t))
  {
    var s' := DeleteTask(s, t);
    forall u ensures Moves(s, s', u) { assert VersionRow(s, u); }
    NativeKeeps(s, s');
  }

  // -------------------------------------------------------------- theorems

  /**
   The damage checks before a correction or a report never find damage: bookkeeping of a
   task that exists is always in order.
   */
  lemma BookkeepingNeverFires(s: Store, t: TaskId)
    requires Inv(s) && t in s.tasks
    ensures Bookkeeping(s, t) == None
  {
    assert VersionRow(s, t) && ProjectionRow(s, t);
    forall i | 0 <= i < |s.corrections| && CorrectionOf(s, t, i)
      ensures t in s.projections && s.corrections[i].revision <= s.projections[t].revision <= s.versions[t].revision
    {
      assert CorrectionRow(s, i);
    }
    forall i | 0 <= i < |s.reports| && ReportOf(s, t, i) ensures s.reports[i].revision <= s.versions[t].revision {
      assert ReportRow(s, i);
    }
    if t in s.projections {
      var i :| Heads(s, t, i);
      assert CorrectionOf(s, t, i);
    }
  }

  /** A new row of the audit log is above everything the task has in it. */
  lemma NewRevisionIsFree(s: Store, t: TaskId)
    requires Inv(s) && t in s.tasks
    ensures t in s.versions
    ensures forall i :: CorrectionOf(s, t, i) ==> s.corrections[i].revision <= s.versions[t].revision
    ensures forall i :: ReportOf(s, t, i) ==> s.reports[i].revision <= s.versions[t].revision
  {
    assert VersionRow(s, t) && ProjectionRow(s, t);
    forall i | CorrectionOf(s, t, i) ensures s.corrections[i].revision <= s.versions[t].revision {
      assert CorrectionRow(s, i);
    }
    forall i | ReportOf(s, t, i) ensures s.reports[i].revision <= s.versions[t].revision { assert ReportRow(s, i); }
  }

  /** The row count of the version update and the identity triggers never refuse what was judged acceptable. */
  lemma AcceptedIsRecorded(s: Store, t: TaskId, p: Payload, wellFormed: bool, id: CorrectionId, received: int,
      declared: map<Field, Text>)
    requires Inv(s) && !CorrectionKnown(s, id) && Judge(s, t, p, wellFormed, received) == Silent
    ensures t in s.tasks && t in s.versions && p.expected == s.versions[t].revision
    ensures var c := NewCorrection(s, t, p, id, declared);
            ApplyCorrection(s, t, p, wellFormed, id, received, declared) == Reply(Record(s, t, c), Corrected(c))
  {
    NewRevisionIsFree(s, t);
    assert VersionRow(s, t);
    var c := NewCorrection(s, t, p, id, declared);
    forall d | d in s.corrections
      ensures d.id != c.id && (d.task == c.task ==> d.payload.key != c.payload.key && d.revision != c.revision)
    {
      var i :| 0 <= i < |s.corrections| && s.corrections[i] == d;
      assert d.task == t ==> CorrectionOf(s, t, i);
    }
  }

  lemma RecordKeeps(s: Store, t: TaskId, c: Correction)
    requires Inv(s) && t in s.tasks && t in s.versions && IdentityFree(s, c)
    requires c.task == t && c.revision == s.versions[t].revision + 1
    ensures Inv(Record(s, t, c))
  {
    var s' := Record(s, t, c);
    var n := |s.corrections|;
    NewRevisionIsFree(s, t);
    forall u ensures VersionRow(s', u) { assert VersionRow(s, u); }
    forall i ensures CorrectionRow(s', i) {
      assert CorrectionRow(s, i);
      assert 0 <= i < n && s.corrections[i].task == t ==> CorrectionOf(s, t, i);
    }
    forall i, j ensures CorrectionPair(s', i, j) {
      assert CorrectionPair(s, i, j);
      assert 0 <= i < n ==> s.corrections[i] in s.corrections;
      assert 0 <= i < n && s.corrections[i].task == t ==> CorrectionOf(s, t, i);
    }
    assert Heads(s', t, n);
    forall u ensures ProjectionRow(s', u) {
      assert ProjectionRow(s, u) && VersionRow(s, u);
      if u != t && u in s.projections {
        var i :| Heads(s, u, i);
        assert Heads(s', u, i);
      }
    }
    forall u, f ensures OverrideRow(s', u, f) { RecordedOverride(s, t, c, u, f); }
    forall i ensures ReportRow(s', i) { assert ReportRow(s, i); }
    forall i, j ensures ReportPair(s', i, j) { assert ReportPair(s, i, j); }
    forall i, j ensures Apart(s', i, j) {
      assert Apart(s, i, j);
      assert 0 <= j < |s.reports| && s.reports[j].task == t ==> ReportOf(s, t, j);
    }
  }

  lemma RecordedOverride(s: Store, t: TaskId, c: Correction, u: TaskId, f: Field)
    requires Inv(s) && t in s.tasks && t in s.versions && c.task == t
    ensures OverrideRow(Record(s, t, c), u, f)
  {
    var s' := Record(s, t, c);
    assert OverrideRow(s, u, f);
    if u in s'.projections && f in s'.projections[u].overrides {
      if u == t && f in c.payload.changes {
        assert Backs(s', t, f, |s.corrections|);
      } else {
        var i :| Backs(s, u, f, i);
        assert Backs(s', u, f, i);
      }
    }
  }

  lemma ReportKeeps(s: Store, t: TaskId, report: Report)
    requires Inv(s) && t in s.tasks && report.task == t
    requires PriorReport(s.reports, t, report.key).None?
    requires var native := ActionCleared(s.tasks[t]);
             t in s.versions && native != s.tasks[t] && report.revision == s.versions[t].revision + 1
    ensures Inv(UpdateTask(s, t, ActionCleared(s.tasks[t])).(reports := s.reports + [report]))
  {
    NewRevisionIsFree(s, t);
    var native := ActionCleared(s.tasks[t]);
    UpdateKeeps(s, t, native);
    var m := UpdateTask(s, t, native);
    var s' := m.(reports := s.reports + [report]);
    forall u ensures VersionRow(s', u) { assert VersionRow(m, u); }
    forall i ensures CorrectionRow(s', i) { assert CorrectionRow(m, i); }
    forall i, j ensures CorrectionPair(s', i, j) { assert CorrectionPair(m, i, j); }
    forall u ensures ProjectionRow(s', u) {
      assert ProjectionRow(m, u);
      if u in m.projections {
        var i :| Heads(m, u, i);
        assert Heads(s', u, i);
      }
    }
    forall u, f ensures OverrideRow(s', u, f) {
      assert OverrideRow(m, u, f);
      if u in m.projections && f in m.projections[u].overrides {
        var i :| Backs(m, u, f, i);
        assert Backs(s', u, f, i);
      }
    }
    forall i ensures ReportRow(s', i) { assert ReportRow(m, i); }
    forall i, j ensures ReportPair(s', i, j) {
      assert ReportPair(s, i, j);
      assert 0 <= i < |s.reports| ==> s.reports[i] in s.reports;
      assert 0 <= i < |s.reports| && s.reports[i].task == t ==> ReportOf(s, t, i);
    }
    forall i, j ensures Apart(s', i, j) {
      assert Apart(s, i, j);
      assert 0 <= i < |s.corrections| && s.corrections[i].task == t ==> CorrectionOf(s, t, i);
    }
  }

  lemma ReportIsRecorded(s: Store, t: TaskId, key: Key, expected: int, running: bool)
    requires Inv(s) && JudgeReport(s, t, key, expected, running) == Silent
    ensures var reply := ApplyReport(s, t, key, expected, running);
            reply.answer.Reported? && reply.answer.report.revision == expected + 1 && Inv(reply.store)
  {
    NewRevisionIsFree(s, t);
    assert VersionRow(s, t);
    var cleared := UpdateTask(s, t, ActionCleared(s.tasks[t]));
    forall r | r in s.reports && r.task == t ensures r.revision != cleared.versions[t].revision {
      var i :| 0 <= i < |s.reports| && s.reports[i] == r;
      assert ReportOf(s, t, i);
    }
    ReportKeeps(s, t, Report(t, cleared.versions[t].revision, key, expected, s.versions[t].basis));
  }

  // -------------------------------------------------------------------- runs

  lemma NextKeeps(s: Store, step: Step)
    requires Inv(s)
    ensures Inv(Next(s, step))
  {
    if !DrawsFresh(s, step) { return; }
    match step
    case Insert(t, native) => InsertKeeps(s, t, native);
    case Update(t, native) => UpdateKeeps(s, t, native);
    case Delete(t) => DeleteKeeps(s, t);
    case Rename(t, u) =>
      if t in s.tasks && u !in s.tasks {
        DeleteKeeps(s, t);
        InsertKeeps(DeleteTask(s, t), u, s.tasks[t]);
      }
    case Correct(t, p, wellFormed, id, received, declared) =>
      if Judge(s, t, p, wellFormed, received) == Silent {
        AcceptedIsRecorded(s, t, p, wellFormed, id, received, declared);
        var c := NewCorrection(s, t, p, id, declared);
        assert IdentityFree(s, c);
        RecordKeeps(s, t, c);
      }
    case Declare(t, key, expected, running) =>
      if JudgeReport(s, t, key, expected, running) == Silent { ReportIsRecorded(s, t, key, expected, running); }
  }

  lemma {:induction false} ExecuteKeeps(s: Store, steps: seq<Step>)
    requires Inv(s)
    ensures Inv(Execute(s, steps))
    decreases |steps|
  {
    if steps != [] {
      NextKeeps(s, steps[0]);
      ExecuteKeeps(Next(s, steps[0]), steps[1..]);
    }
  }

  lemma StartInv(tasks: map<TaskId, Native>)
    ensures Inv(Start(tasks))
  {
    var s := Start(tasks);
    forall t ensures VersionRow(s, t) {}
  }

  lemma {:induction false} ExecuteOneMore(s: Store, steps: seq<Step>, step: Step)
    ensures Execute(s, steps + [step]) == Next(Execute(s, steps), step)
    decreases |steps|
  {
    if steps == [] {
      assert [] + [step] == [step] && [step][1..] == [];
      assert Execute(s, [step]) == Execute(Next(s, step), []);
    } else {
      assert (steps + [step])[0] == steps[0] && (steps + [step])[1..] == steps[1..] + [step];
      ExecuteOneMore(Next(s, steps[0]), steps[1..], step);
    }
  }

  lemma ReachableInv(s: Store)
    requires Reachable(s)
    ensures Inv(s)
  {
    var tasks, steps :| LeadsTo(tasks, steps, s);
    StartInv(tasks);
    ExecuteKeeps(Start(tasks), steps);
  }

  /** A step taken in a reachable store leads to one. */
  lemma StaysReachable(s: Store, step: Step)
    requires Reachable(s)
    ensures Inv(s) && Reachable(Next(s, step))
  {
    ReachableInv(s);
    var tasks, steps :| LeadsTo(tasks, steps, s);
    ExecuteOneMore(Start(tasks), steps, step);
    assert LeadsTo(tasks, steps + [step], Next(s, step));
  }
}
