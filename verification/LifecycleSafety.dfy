/** What holds of the lifecycle tables after any interleaving of steps. */
module LifecycleSafety {
  import opened Options
  import opened Lifecycle
  import opened LifecycleInvariant

  /**
   Completion is safe: a done task has no unresolved handoff and no active or lost
   execution; an execution bound to a handoff is carried out by its recipient, after
   an acceptance that nothing takes back but the sender's resolution.
   */
  lemma DoneIsSafe(db: Db, t: TaskId, e: ExecutionId)
    requires Reachable(db)
    ensures t in db.tasks && db.tasks[t].state == Done ==>
              !HasUnresolvedHandoff(db, t) && !HasUnfinishedExecution(db, t)
    ensures e in db.executions && db.executions[e].handoff.Some? ==>
              var h := db.executions[e].handoff.value;
              h in db.handoffs && db.handoffs[h].task == db.executions[e].task &&
              db.handoffs[h].recipient == db.executions[e].executor &&
              (db.handoffs[h].status == Accepted || db.handoffs[h].status == Resolved) &&
              db.handoffs[h].acceptedAt.Some? && db.handoffs[h].acceptedAt.value <= db.executions[e].activity
  {
    ReachableInv(db);
    assert ExecutionRow(db, e);
    forall h | h in db.handoffs && db.handoffs[h].task == t && db.handoffs[h].status != Resolved
      ensures t in db.tasks && db.tasks[t].state != Done
    {
      assert HandoffRow(db, h);
    }
    forall x | x in db.executions && db.executions[x].task == t && Unfinished(db.executions[x].status)
      ensures t in db.tasks && db.tasks[t].state != Done
    {
      assert ExecutionRow(db, x);
    }
  }

  /**
   Execution is exclusive, in spite of the status writes that cancelling and cleaning
   up make unguarded: the attempts of a task are numbered 1 to n without gap or
   repetition, at most one run is queued or running and it is attempt n, and while it
   is, no external execution of the task is active or lost.
   */
  lemma ExclusiveExecution(db: Db, t: TaskId, r: RunId)
    requires Reachable(db) && r in db.runs && db.runs[r].task == t
    ensures forall q :: q in db.runs && q != r && db.runs[q].task == t ==> db.runs[q].attempt != db.runs[r].attempt
    ensures forall a :: 1 <= a <= db.runs[r].attempt ==> HasAttempt(db, t, a)
    ensures db.runs[r].attempt >= 1
    ensures ActiveRun(db.runs[r].status) ==>
              (forall q :: q in db.runs && q != r && db.runs[q].task == t ==>
                 !ActiveRun(db.runs[q].status) && db.runs[q].attempt < db.runs[r].attempt) &&
              !HasUnfinishedExecution(db, t)
  {
    ReachableInv(db);
    assert RunRow(db, r) && HasAttempt(db, t, db.runs[r].attempt);
    forall q | q in db.runs && q != r && db.runs[q].task == t
      ensures db.runs[q].attempt != db.runs[r].attempt
      ensures ActiveRun(db.runs[r].status) ==> !ActiveRun(db.runs[q].status) && db.runs[q].attempt < db.runs[r].attempt
    {
      assert RunPair(db, r, q) && RunPair(db, q, r);
    }
    forall a | 1 <= a <= db.runs[r].attempt ensures HasAttempt(db, t, a) {
      AttemptsAreContiguous(db, t, db.runs[r].attempt, a);
    }
    forall e | e in db.executions && db.executions[e].task == t && Unfinished(db.executions[e].status)
      ensures !ActiveRun(db.runs[r].status)
    {
      assert Exclusive(db, r, e);
    }
  }

  /**
   Told once: over any run the loss of an execution after one activity is announced at
   most once, whoever owns the task by then, and each kind of news of a handoff at most
   once, always to the party it concerns.
   */
  lemma ToldOnce(db: Db, n: Notice, m: Notice)
    requires Reachable(db) && n in db.outbox && m in db.outbox
    ensures n.subject == m.subject && n.kind == m.kind ==> n == m
    ensures n.subject.OfHandoff? ==>
              n.subject.handoff in db.handoffs && Addressee(db.handoffs[n.subject.handoff], n.kind) == Some(n.recipient)
    ensures n.subject.OfActivity? ==> n.kind == ExecutionLost
  {
    ReachableInv(db);
    assert NoticePair(db, n, m) && NoticeRow(db, n);
  }
}
