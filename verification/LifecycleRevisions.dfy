module LifecycleRevisions {

  // The revision of a task over whole runs: it never falls, and every new success reports a higher one.

  import opened Options
  import opened Lifecycle
  import opened LifecycleInvariant
  import opened LifecycleDue

  lemma {:induction false} VersionsStay(db: Db, steps: seq<Step>, t: TaskId)
    requires Inv(db) && t in db.versions
    ensures Inv(Execute(db, steps))
    ensures t in Execute(db, steps).versions && t in Execute(db, steps).tasks
    ensures Execute(db, steps).versions[t] >= db.versions[t]
    decreases |steps|
  {
    assert TaskRow(db, t);
    if steps != [] {
      NextKeeps(db, steps[0]);
      VersionStays(db, steps[0], t);
      VersionsStay(Next(db, steps[0]), steps[1..], t);
    }
  }

  lemma VersionStays(db: Db, s: Step, t: TaskId)
    requires t in db.versions
    ensures t in Next(db, s).versions && Next(db, s).versions[t] >= db.versions[t]
  {
    if Handles(db, s) {
      HandlesMeans(db, s);
      HandleKeepsVersion(db, s.task, s.request, s.id, s.bump + 1, t);
    } else if s.Call? {
      UnhandledIsIdle(db, s);
    } else {
      StepFrame(db, s);
    }
  }

  lemma HandleKeepsVersion(db: Db, t: TaskId, q: Request, id: nat, bump: nat, u: TaskId)
    requires t in db.tasks && t in db.versions && bump >= 1 && Handle(db, t, q, id, bump).Handled? && u in db.versions
    ensures u in Handle(db, t, q, id, bump).db.versions && Handle(db, t, q, id, bump).db.versions[u] >= db.versions[u]
  {
  }

  /** The revision that the response to a handled request reports. */
  function Reported(db: Db, s: Step): nat
    requires Handles(db, s)
  {
    Apply(db, s.task, s.request, s.wellFormed, s.id, s.bump + 1).answer.response.revision
  }

  /** A handled request expected the revision of its task, and reports the higher one it leaves. */
  lemma HandledRaises(db: Db, s: Step)
    requires Handles(db, s)
    ensures s.task in db.versions && db.versions[s.task] == s.request.expected < Reported(db, s)
    ensures s.task in Next(db, s).versions && Next(db, s).versions[s.task] == Reported(db, s)
  {
    HandlesMeans(db, s);
  }

  lemma BeforeLater(db: Db, steps: seq<Step>, i: nat, j: nat)
    requires i < j <= |steps|
    ensures Before(db, steps, j) == Execute(Next(Before(db, steps, i), steps[i]), steps[i + 1..j])
  {
    assert steps[..j] == (steps[..i] + [steps[i]]) + steps[i + 1..j];
    ExecuteJoins(db, steps[..i] + [steps[i]], steps[i + 1..j]);
    ExecuteOneMore(db, steps[..i], steps[i]);
  }

  /**
   Compare-and-set over whole runs: of two requests handled for one task the later expected a
   revision no lower than the one the earlier was told, so no revision is expected twice with
   success and the revisions reported rise strictly, whatever anybody does in between.
   */
  lemma ResponsesRise(db: Db, steps: seq<Step>, i: nat, j: nat)
    requires Reachable(db) && i < j < |steps|
    requires Handles(Before(db, steps, i), steps[i]) && Handles(Before(db, steps, j), steps[j])
    requires steps[i].task == steps[j].task
    ensures var first, second := Reported(Before(db, steps, i), steps[i]), Reported(Before(db, steps, j), steps[j]);
            steps[i].request.expected < first <= steps[j].request.expected < second
  {
    var before, later := Before(db, steps, i), Before(db, steps, j);
    ReachableInv(db);
    ExecuteKeeps(db, steps[..i]);
    NextKeeps(before, steps[i]);
    HandledRaises(before, steps[i]);
    HandledRaises(later, steps[j]);
    BeforeLater(db, steps, i, j);
    VersionsStay(Next(before, steps[i]), steps[i + 1..j], steps[i].task);
  }
}
