module CorrectionsExact {

  // What the triggers write, what a correction and a report need and leave, and what is shown of a
  // task, each said of rows and columns alone.

  import opened Options
  import opened Corrections
  import opened CorrectionsSafety

  /** Columns of the native row, an empty one counting as absent. */
  function Column(native: Native, f: Field): Option<Text> {
    match f
    case Reason => if native.reason == "" then None else Some(native.reason)
    case NextAction => if native.action == "" then None else Some(native.action)
  }

  /** The stored projection was written for the row as it is. */
  ghost predicate InForce(s: Store, t: TaskId) {
    t in s.tasks && t in s.versions && t in s.projections &&
    s.projections[t].basis == s.versions[t].basis && s.projections[t].native == s.tasks[t]
  }

  /**
   What a reader sees of a field: the correction in force, else the reviewed record, else the native
   column; and the native column alone while a projection waits that was written for another row.
   */
  lemma ShownMeans(s: Store, t: TaskId, declared: map<Field, Text>, f: Field)
    requires Inv(s) && t in s.tasks
    ensures Shown(s, t, declared, f) ==
              if InForce(s, t) && f in s.projections[t].overrides then Some(s.projections[t].overrides[f].value)
              else if (t !in s.projections || InForce(s, t)) && f in declared then Some(declared[f])
              else Column(s.tasks[t], f)
  {
    assert VersionRow(s, t) && OverrideRow(s, t, f);
    if InForce(s, t) && f in s.projections[t].overrides {
      var i :| Backs(s, t, f, i);
      assert CorrectionKnown(s, s.projections[t].overrides[f].correction);
    }
  }

  // ---------------------------------------------------------------- triggers

  /** The revision a task would get next: one past all it has had. */
  function NextRevision(s: Store, t: TaskId): nat {
    if t in s.versions then s.versions[t].revision + 1 else 1
  }

  /** An insertion starts or continues the count, and makes a basis of it. */
  lemma InsertIsExact(s: Store, t: TaskId, native: Native)
    ensures Next(s, Insert(t, native)) ==
              if t in s.tasks then s
              else s.(tasks := s.tasks[t := native],
                      versions := s.versions[t := Version(NextRevision(s, t), NextRevision(s, t), true, native)])
  {
  }

  /** A write counts on; it moves the basis only if a native column changed. */
  lemma UpdateIsExact(s: Store, t: TaskId, native: Native)
    requires Inv(s)
    ensures t in s.tasks ==> t in s.versions
    ensures Next(s, Update(t, native)) ==
              if t !in s.tasks then s
              else
                var basis := if native == s.tasks[t] then s.versions[t].basis else NextRevision(s, t);
                s.(tasks := s.tasks[t := native],
                   versions := s.versions[t := Version(NextRevision(s, t), basis, true, native)])
  {
    assert VersionRow(s, t);
  }

  /** A deletion counts on and leaves the last row in the version. */
  lemma DeleteIsExact(s: Store, t: TaskId)
    requires Inv(s)
    ensures Next(s, Delete(t)) ==
              if t !in s.tasks then s
              else s.(tasks := s.tasks - {t},
                      versions := s.versions[t := Version(NextRevision(s, t), NextRevision(s, t), false, s.tasks[t])])
  {
    assert VersionRow(s, t);
  }

  /** A changed identifier counts on under the old one, and starts or continues the count under the new. */
  lemma RenameIsExact(s: Store, t: TaskId, u: TaskId)
    requires Inv(s)
    ensures Next(s, Rename(t, u)) ==
              if t !in s.tasks || u in s.tasks then s
              else
                var gone := Version(NextRevision(s, t), NextRevision(s, t), false, s.tasks[t]);
                var come := Version(NextRevision(s, u), NextRevision(s, u), true, s.tasks[t]);
                s.(tasks := (s.tasks - {t})[u := s.tasks[t]], versions := s.versions[t := gone][u := come])
  {
    assert VersionRow(s, t);
  }

  // ------------------------------------------------------------- corrections

  ghost predicate KeyUsed(s: Store, t: TaskId, key: Key) {
    exists i :: 0 <= i < |s.corrections| && s.corrections[i].task == t && s.corrections[i].payload.key == key
  }

  /** A correction with something to change, of a task that is there, at its revision and reviewed in time. */
  ghost predicate MayCorrect(s: Store, t: TaskId, p: Payload, wellFormed: bool, received: int) {
    wellFormed && p.expected >= 1 && p.changes != map[] && t in s.tasks && !KeyUsed(s, t, p.key) &&
    t in s.versions && p.expected == s.versions[t].revision && p.observed <= p.reviewed && p.reviewed <= received
  }

  /** The overrides in force after a correction: those of before, each changed field anew or lifted. */
  ghost predicate Overridden(s: Store, t: TaskId, c: Correction, overrides: map<Field, Override>) {
    forall f :: if f in c.payload.changes then
                  (f in overrides <==> c.payload.changes[f] != "") &&
                  (f in overrides ==> overrides[f] == Override(c.payload.changes[f], c.id))
                else
                  var kept := t in s.projections && t in s.versions &&
                              s.projections[t].basis == s.versions[t].basis && f in s.projections[t].overrides;
                  (f in overrides <==> kept) && (kept ==> overrides[f] == s.projections[t].overrides[f])
  }

  lemma KeyMeans(s: Store, t: TaskId, key: Key)
    ensures PriorCorrection(s.corrections, t, key).Some? <==> KeyUsed(s, t, key)
  {
    if KeyUsed(s, t, key) {
      var i :| 0 <= i < |s.corrections| && s.corrections[i].task == t && s.corrections[i].payload.key == key;
      assert s.corrections[i] in s.corrections;
    }
  }

  /**
   A correction is recorded exactly when it may be made, and refused for the first thing that stands
   against it; the record is complete, and the projection is written for the row as it is.
   */
  lemma CorrectionIsExact(s: Store, t: TaskId, p: Payload, wellFormed: bool, id: CorrectionId, received: int,
                          declared: map<Field, Text>)
    requires Inv(s) && !CorrectionKnown(s, id)
    ensures var reply := ApplyCorrection(s, t, p, wellFormed, id, received, declared);
            var sound := wellFormed && p.expected >= 1 && p.changes != map[];
            && (reply.store != s <==> MayCorrect(s, t, p, wellFormed, received))
            && (reply.answer == Refused(Invalid) <==> !sound)
            && (reply.answer == Refused(TaskMissing) <==> sound && t !in s.tasks)
            && (reply.answer.Corrected? && reply.store == s <==>
                  sound && t in s.tasks && exists c :: c in s.corrections && c.task == t && c.payload == p)
            && (reply.answer == Refused(KeyConflict) <==>
                  sound && t in s.tasks && KeyUsed(s, t, p.key) &&
                  forall c :: c in s.corrections && c.task == t ==> c.payload != p)
            && (reply.answer == Refused(Stale) <==>
                  sound && t in s.tasks && !KeyUsed(s, t, p.key) && t in s.versions &&
                  p.expected != s.versions[t].revision)
            && (reply.answer == Refused(SourceTooLate) <==>
                  sound && t in s.tasks && !KeyUsed(s, t, p.key) && t in s.versions &&
                  p.expected == s.versions[t].revision && (p.observed > p.reviewed || p.reviewed > received))
  {
    KeyMeans(s, t, p.key);
    assert VersionRow(s, t);
    BookkeepingIsSound(s, t);
    if Judge(s, t, p, wellFormed, received) == Silent {
      AcceptedIsRecorded(s, t, p, wellFormed, id, received, declared);
    }
    forall c, d | c in s.corrections && d in s.corrections && c.task == d.task == t && c.payload.key == d.payload.key
      ensures c == d
    {
      var i :| 0 <= i < |s.corrections| && s.corrections[i] == c;
      var j :| 0 <= j < |s.corrections| && s.corrections[j] == d;
      assert CorrectionPair(s, i, j) && CorrectionPair(s, j, i);
    }
  }

  lemma BookkeepingIsSound(s: Store, t: TaskId)
    requires Inv(s)
    ensures t in s.tasks ==> Bookkeeping(s, t).None?
  {
    if t in s.tasks { BookkeepingNeverFires(s, t); }
  }

  lemma CorrectionLeaves(s: Store, t: TaskId, p: Payload, wellFormed: bool, id: CorrectionId, received: int,
                         declared: map<Field, Text>)
    requires Inv(s) && !CorrectionKnown(s, id) && MayCorrect(s, t, p, wellFormed, received)
    ensures var reply := ApplyCorrection(s, t, p, wellFormed, id, received, declared);
            reply.answer.Corrected? &&
            var c, version := reply.answer.correction, s.versions[t];
            && c == Correction(id, t, p.expected + 1, p, c.was, version.revision, version.basis, s.tasks[t])
            && c.was.Keys == p.changes.Keys && (forall f :: f in c.was ==> c.was[f] == Shown(s, t, declared, f))
            && t in reply.store.projections
            && var row := reply.store.projections[t];
               && row == Projection(p.expected + 1, version.basis, s.tasks[t], row.overrides)
               && Overridden(s, t, c, row.overrides)
               && reply.store == s.(versions := s.versions[t := version.(revision := p.expected + 1)],
                                    corrections := s.corrections + [c], projections := s.projections[t := row])
  {
    KeyMeans(s, t, p.key);
    BookkeepingIsSound(s, t);
    AcceptedIsRecorded(s, t, p, wellFormed, id, received, declared);
  }

  // ----------------------------------------------------------------- reports

  ghost predicate ReportKeyUsed(s: Store, t: TaskId, key: Key) {
    exists i :: 0 <= i < |s.reports| && s.reports[i].task == t && s.reports[i].key == key
  }

  /** An ordinary action that a user is to take, at its revision, of a task on which nothing runs. */
  ghost predicate MayReport(s: Store, t: TaskId, key: Key, expected: int, running: bool) {
    expected >= 1 && t in s.tasks && !ReportKeyUsed(s, t, key) && t in s.versions &&
    expected == s.versions[t].revision && !s.tasks[t].sensitive && s.tasks[t].reportable && !running &&
    s.tasks[t].owner == User && s.tasks[t].action != ""
  }

  lemma ReportKeyMeans(s: Store, t: TaskId, key: Key)
    ensures PriorReport(s.reports, t, key).Some? <==> ReportKeyUsed(s, t, key)
  {
    if ReportKeyUsed(s, t, key) {
      var i :| 0 <= i < |s.reports| && s.reports[i].task == t && s.reports[i].key == key;
      assert s.reports[i] in s.reports;
    }
  }

  /**
   A report is recorded exactly when one may be made; it takes the action, its owner and its
   sensitivity from the native row, counts on, and moves the basis.
   */
  lemma ReportIsExact(s: Store, t: TaskId, key: Key, expected: int, running: bool)
    requires Inv(s)
    ensures var reply := ApplyReport(s, t, key, expected, running);
            && (reply.store != s <==> MayReport(s, t, key, expected, running))
            && (MayReport(s, t, key, expected, running) ==>
                  var was := s.tasks[t];
                  var now := Native(was.reason, "", NoOne, false, was.reportable, was.rest);
                  var report := Report(t, expected + 1, key, expected, s.versions[t].basis);
                  reply == Reply(s.(tasks := s.tasks[t := now],
                                    versions := s.versions[t := Version(expected + 1, expected + 1, true, now)],
                                    reports := s.reports + [report]), Reported(report)))
            && (reply.answer == Refused(Stale) <==>
                  expected >= 1 && t in s.tasks && !ReportKeyUsed(s, t, key) && t in s.versions &&
                  expected != s.versions[t].revision)
            && (reply.answer == Refused(KeyConflict) ==> ReportKeyUsed(s, t, key))
            && (reply.answer.Reported? && reply.store == s ==>
                  reply.answer.report in s.reports && reply.answer.report.task == t &&
                  reply.answer.report.key == key && reply.answer.report.expected == expected)
  {
    ReportKeyMeans(s, t, key);
    assert VersionRow(s, t);
    BookkeepingIsSound(s, t);
    if JudgeReport(s, t, key, expected, running) == Silent { ReportIsRecorded(s, t, key, expected, running); }
  }

  /** A report that is not made is refused for the first thing that stands against it, unless it was made before. */
  lemma ReportRefusals(s: Store, t: TaskId, key: Key, expected: int, running: bool)
    requires Inv(s)
    ensures t in s.tasks ==> t in s.versions
    ensures var answer := ApplyReport(s, t, key, expected, running).answer;
            (if answer.Refused? then Some(answer.refusal) else None) ==
            if expected < 1 then Some(Invalid)
            else if t !in s.tasks then Some(TaskMissing)
            else if ReportKeyUsed(s, t, key) then
              if PriorReport(s.reports, t, key).value.expected == expected then None else Some(KeyConflict)
            else if expected != s.versions[t].revision then Some(Stale)
            else if s.tasks[t].sensitive then Some(Sensitive)
            else if !s.tasks[t].reportable || running then Some(NotReportable)
            else if s.tasks[t].owner != User || s.tasks[t].action == "" then Some(NoUserAction)
            else None
  {
    ReportKeyMeans(s, t, key);
    assert VersionRow(s, t);
    BookkeepingIsSound(s, t);
    if JudgeReport(s, t, key, expected, running) == Silent { ReportIsRecorded(s, t, key, expected, running); }
  }

  // --------------------------------------------------------- damaged tables

  ghost predicate NewestIs(s: Store, t: TaskId, revision: nat) {
    (exists c :: c in s.corrections && c.task == t && c.revision == revision) &&
    forall c :: c in s.corrections && c.task == t ==> c.revision <= revision
  }

  /** What is wrong with the tables beside a native row, if anything is: the first thing that is. */
  ghost function Damage(s: Store, t: TaskId): Option<Refusal>
    requires t in s.tasks
  {
    if t !in s.versions || !s.versions[t].present || s.versions[t].native != s.tasks[t] || s.versions[t].basis < 1 ||
       s.versions[t].revision < s.versions[t].basis then Some(BookkeepingMissing)
    else if if t in s.projections then !NewestIs(s, t, s.projections[t].revision)
            else exists c :: c in s.corrections && c.task == t then Some(DescriptionDamaged)
    else if exists c :: c in s.corrections && c.task == t && c.revision > s.versions[t].revision
      then Some(RevisionBehindAudit)
    else if exists r :: r in s.reports && r.task == t && r.revision > s.versions[t].revision
      then Some(RevisionBehindReport)
    else None
  }

  lemma ByPosition(s: Store, t: TaskId, revision: int)
    ensures (exists i :: 0 <= i < |s.corrections| && CorrectionOf(s, t, i) && s.corrections[i].revision > revision) <==>
            exists c :: c in s.corrections && c.task == t && c.revision > revision
    ensures (exists i :: 0 <= i < |s.reports| && ReportOf(s, t, i) && s.reports[i].revision > revision) <==>
            exists r :: r in s.reports && r.task == t && r.revision > revision
    ensures HasCorrection(s, t) <==> exists c :: c in s.corrections && c.task == t
  {
    assert forall i :: 0 <= i < |s.corrections| && CorrectionOf(s, t, i) ==> s.corrections[i] in s.corrections;
    assert forall i :: 0 <= i < |s.reports| && ReportOf(s, t, i) ==> s.reports[i] in s.reports;
    forall c | c in s.corrections && c.task == t
      ensures exists i :: 0 <= i < |s.corrections| && CorrectionOf(s, t, i) && s.corrections[i] == c
    {
      var i :| 0 <= i < |s.corrections| && s.corrections[i] == c;
      assert CorrectionOf(s, t, i);
    }
    forall r | r in s.reports && r.task == t
      ensures exists i :: 0 <= i < |s.reports| && ReportOf(s, t, i) && s.reports[i] == r
    {
      var i :| 0 <= i < |s.reports| && s.reports[i] == r;
      assert ReportOf(s, t, i);
    }
  }

  lemma NewestMeans(s: Store, t: TaskId)
    requires t in s.projections
    ensures ProjectionMatches(s, t) <==> NewestIs(s, t, s.projections[t].revision)
  {
    assert forall i :: 0 <= i < |s.corrections| && CorrectionOf(s, t, i) ==> s.corrections[i] in s.corrections;
    forall c | c in s.corrections && c.task == t
      ensures exists i :: 0 <= i < |s.corrections| && CorrectionOf(s, t, i) && s.corrections[i] == c
    {
      var i :| 0 <= i < |s.corrections| && s.corrections[i] == c;
      assert CorrectionOf(s, t, i);
    }
  }

  lemma DamageMeans(s: Store, t: TaskId)
    requires t in s.tasks
    ensures Bookkeeping(s, t) == Damage(s, t)
  {
    if t in s.versions { ByPosition(s, t, s.versions[t].revision); }
    if t in s.projections { NewestMeans(s, t); }
  }

  /** Over damaged tables nothing new is recorded, and what is wrong with them is said. */
  lemma DamageIsRefused(s: Store, t: TaskId, p: Payload, id: CorrectionId, received: int, declared: map<Field, Text>,
                        key: Key, expected: int, running: bool)
    requires t in s.tasks && Damage(s, t).Some?
    ensures p.expected >= 1 && p.changes != map[] && !KeyUsed(s, t, p.key) ==>
              ApplyCorrection(s, t, p, true, id, received, declared) == Reply(s, Refused(Damage(s, t).value))
    ensures expected >= 1 && !ReportKeyUsed(s, t, key) ==>
              ApplyReport(s, t, key, expected, running) == Reply(s, Refused(Damage(s, t).value))
  {
    DamageMeans(s, t);
    KeyMeans(s, t, p.key);
    ReportKeyMeans(s, t, key);
  }

  /** Whatever the tables hold, no second record gets the identity, the key or the revision of a first. */
  lemma RecordsAreDistinct(s: Store, t: TaskId, p: Payload, wellFormed: bool, id: CorrectionId, received: int,
                           declared: map<Field, Text>)
    requires ApplyCorrection(s, t, p, wellFormed, id, received, declared).store != s
    ensures forall c :: c in s.corrections ==>
                    c.id != id && (c.task == t ==> c.payload.key != p.key && c.revision != p.expected + 1)
  {
  }
}
