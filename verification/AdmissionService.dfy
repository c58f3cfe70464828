/** The two transactions of a dispatch, as updates in place of the tables and of the dispatches in progress. */
module AdmissionServices {
  import opened Options
  import opened Admission
  import opened AdmissionSafety

  class AdmissionService {
    var tasks: map<TaskId, Facts>
    var runs: map<RunId, RunRow>
    var requests: map<RequestId, Request>
    var receipts: seq<Receipt>
    var flights: map<RequestId, Flight>
    var calls: seq<RequestId>

    function Snapshot(): World
      reads this
    {
      World(tasks, runs, requests, receipts, flights, calls)
    }

    ghost predicate Valid()
      reads this
    {
      Reachable(Snapshot())
    }

    constructor ()
      ensures Valid() && Snapshot() == Start()
    {
      tasks, runs, requests, receipts, flights, calls := map[], map[], map[], [], map[], [];
      new;
      assert LeadsTo([], Start());
    }

    method Append(receipt: Receipt)
      modifies this`receipts
      ensures receipts == old(receipts) + [receipt]
    {
      receipts := receipts + [receipt];
    }

    /** Phase one. A pending receipt is the only licence to call the dispatcher. */
    method Reserve(t: TaskId, payload: Payload, wellFormed: bool, id: RequestId, parametersOk: bool)
      returns (answer: Answer)
      requires Valid()
      modifies this
      ensures Valid()
      ensures Reply(Snapshot(), answer) ==
                Apply(old(Snapshot()), Step.Reserve(t, payload, wellFormed, id, parametersOk))
      ensures answer.Recorded? && answer.receipt.state == Pending <==> id in flights && id !in old(flights)
    {
      ghost var before := Snapshot();
      StaysReachable(before, Step.Reserve(t, payload, wellFormed, id, parametersOk));
      assert FlightRow(before, id);
      if !wellFormed || payload.expected < 1 { return Invalid; }
      if t !in tasks { return TaskMissing; }
      var holders := KeyHolder(Snapshot(), t, payload.key);
      if holders != {} {
        var prior :| prior in holders;
        forall p | p in holders ensures p == prior { assert RequestPair(before, p, prior); }
        if requests[prior].payload != payload { return KeyConflict; }
        assert RequestRow(before, prior);
        return Replayed(Latest(receipts, prior).value);
      }
      var facts := tasks[t];
      if facts.revision.None? || facts.revision.value != payload.expected { return StaleRevision; }
      var decision := Decide(Snapshot(), t, payload.intent);
      if decision.0 == Pending && !parametersOk { return ParametersRefused; }
      if id in requests { return Silent; }
      var receipt := NewReceipt(Snapshot(), id, Request(t, payload), decision);
      if receipt.state == Pending {
        flights := flights[id := Flight(facts.scope, RunsOf(Snapshot(), t), Reserved)];
      }
      requests := requests[id := Request(t, payload)];
      Append(receipt);
      return Recorded(receipt);
    }

    /** Phase two records what the call came to, against the facts as they are now. */
    method Confirm(q: RequestId) returns (answer: Answer)
      requires Valid()
      modifies this
      ensures Valid()
      ensures Reply(Snapshot(), answer) == Apply(old(Snapshot()), Step.Confirm(q))
    {
      StaysReachable(Snapshot(), Step.Confirm(q));
      if q !in flights || q !in requests || !flights[q].phase.Returned? || requests[q].task !in tasks { return Silent; }
      var t, flight := requests[q].task, flights[q];
      var conclusion := (Uncertain, TaskChanged, Option<RunId>.None);
      if Guard(tasks[t]).None? && tasks[t].scope == flight.scope {
        match flight.phase.result {
          case Raised => conclusion := (Uncertain, ResultUnknown, None);
          case Nothing => conclusion := (Uncertain, ExternalAckMissing, None);
          case Named(run) =>
            var known := run in runs && runs[run].task == t && runs[run].target.Some?;
            if !known || runs[run].target.value == tasks[t].target {
              if known && run !in flight.knownRuns && runs[run].status in {Queued, Running, Done} &&
                 |ActiveRuns(Snapshot(), t)| <= 1 {
                conclusion := (Bound, LocalRunRecorded, Some(run));
              } else {
                conclusion := (Uncertain, RunBindingAmbiguous, None);
              }
            }
        }
      }
      var receipt := NewReceipt(Snapshot(), q, requests[q], conclusion);
      flights := flights - {q};
      Append(receipt);
      return Recorded(receipt);
    }

    // ------------------------------------------- the call between the two

    /** The dispatcher is called; nothing can take this back. */
    method CallDispatcher(q: RequestId)
      requires Valid()
      modifies this`flights, this`calls
      ensures Valid()
      ensures Snapshot() == Apply(old(Snapshot()), StartCall(q)).world
    {
      StaysReachable(Snapshot(), StartCall(q));
      if q in flights && flights[q].phase.Reserved? {
        flights := flights[q := flights[q].(phase := Calling)];
        calls := calls + [q];
      }
    }

    method HearResult(q: RequestId, result: Result)
      requires Valid()
      modifies this`flights
      ensures Valid()
      ensures Snapshot() == Apply(old(Snapshot()), ReturnCall(q, result)).world
    {
      StaysReachable(Snapshot(), ReturnCall(q, result));
      if q in flights && flights[q].phase.Calling? {
        flights := flights[q := flights[q].(phase := Returned(result))];
      }
    }

    /** A dispatch ends where it is; its receipt stays as it was. */
    method Abandon(q: RequestId)
      requires Valid()
      modifies this`flights
      ensures Valid()
      ensures Snapshot() == Apply(old(Snapshot()), Crash(q)).world
    {
      StaysReachable(Snapshot(), Crash(q));
      flights := flights - {q};
    }

    // ------------------------------------------------- what others may do

    method WriteTask(t: TaskId, facts: Facts)
      requires Valid()
      modifies this`tasks
      ensures Valid()
      ensures Snapshot() == Apply(old(Snapshot()), EditTask(t, facts)).world
    {
      StaysReachable(Snapshot(), EditTask(t, facts));
      tasks := tasks[t := facts];
    }

    /** A new run captures the target of its task, unless it comes from before targets were kept. */
    method AddRun(r: RunId, t: TaskId, status: RunStatus, captured: bool)
      requires Valid()
      modifies this`runs
      ensures Valid()
      ensures Snapshot() == Apply(old(Snapshot()), InsertRun(r, t, status, captured)).world
    {
      StaysReachable(Snapshot(), InsertRun(r, t, status, captured));
      if r in runs || t !in tasks { return; }
      runs := runs[r := RunRow(t, status, if captured then Some(tasks[t].target) else None)];
    }

    method MoveRun(r: RunId, status: RunStatus)
      requires Valid()
      modifies this`runs
      ensures Valid()
      ensures Snapshot() == Apply(old(Snapshot()), SetRunStatus(r, status)).world
    {
      StaysReachable(Snapshot(), SetRunStatus(r, status));
      if r in runs { runs := runs[r := runs[r].(status := status)]; }
    }
  }
}
