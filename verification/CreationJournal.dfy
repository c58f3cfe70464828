module CreationJournal {

  // The journal that keeps a remote creation from being repeated. One call at a time holds the
  // lock; it works on a copy of the stored state, saves it at fixed points, and may stop at any
  // point, losing its copy. The server answers as it likes: it refuses, fails, says nothing
  // usable, or names a thread.

  import opened Options

  type Scope = nat
  type Thread = nat

  /** The identity field may be absent, present but empty, or name the scope a binding belongs to. */
  datatype Identity = NoField | Empty | Is(scope: Scope)

  datatype Record = Record(identity: Identity, thread: Option<Thread>, pending: bool)

  datatype File = Absent | Garbage | Stored(record: Record)

  datatype Call = Call(scope: Scope, wanted: Option<Thread>, allowCreate: bool, allowIncomplete: bool)

  datatype Found = Matches(threads: seq<Thread>) | Incomplete | ScanFailed

  datatype Answer = Unsupported | Failed | Unusable | Named(thread: Thread, inScope: bool)

  datatype Phase =
    | Connecting | Choosing | Reading(thread: Thread) | Arming | Armed | Waiting | Recording(inScope: bool)
    | Binding | Working | Finishing

  datatype Process = Process(call: Call, phase: Phase, memory: Record)

  /** `sends` counts the creations asked for; `open` those not known to have been refused as unsupported. */
  datatype World = World(file: File, process: Option<Process>, sends: nat, open: nat)

  datatype Step =
    | Begin(call: Call)
    | Connect(ok: bool)
    | Read(ok: bool)
    | Scan(found: Found)
    | Save(ok: bool)
    | Send
    | Hear(answer: Answer)
    | Settle
    | Crash
    | NoteConfigurationError

  // -------------------------------------------------------------- one call

  /** A state without an identity must carry neither a binding nor an intent. */
  predicate Loads(file: File) {
    file.Absent? || (file.Stored? && (file.record.identity.Is? || (file.record.thread.None? && !file.record.pending)))
  }

  function LoadedRecord(file: File): Record
    requires Loads(file)
  {
    if file.Absent? then Record(NoField, None, false) else file.record
  }

  /** Another scope's state, or a damaged one, is left alone. */
  predicate MayProceed(file: File, call: Call) {
    Loads(file) && (LoadedRecord(file).identity == NoField || LoadedRecord(file).identity == Is(call.scope))
  }

  function To(p: Process, phase: Phase): Option<Process> {
    Some(p.(phase := phase))
  }

  /** The thread a call is to bind without looking further. */
  function Bound(p: Process): Option<Thread> {
    if p.call.wanted.Some? then p.call.wanted else p.memory.thread
  }

  /** A scan that cannot finish counts as finding nothing only for an explicit creation. */
  function MatchesOf(p: Process, found: Found): Option<seq<Thread>> {
    match found
    case Matches(threads) => Some(threads)
    case Incomplete => if p.call.allowCreate && p.call.allowIncomplete then Some([]) else None
    case ScanFailed => None
  }

  function Choose(p: Process, found: Found): Process {
    var matches := MatchesOf(p, found);
    if matches.None? || |matches.value| > 1 then p.(phase := Finishing)
    else if |matches.value| == 1 then p.(phase := Reading(matches.value[0]))
    else if p.memory.pending || !p.call.allowCreate then p.(phase := Finishing)
    else p.(phase := Arming, memory := p.memory.(pending := true))
  }

  function Bind(memory: Record, thread: Thread): Record {
    memory.(thread := Some(thread), pending := false)
  }

  function AfterSave(phase: Phase): Option<Phase>
    requires phase.Arming? || phase.Recording? || phase.Binding? || phase.Finishing?
  {
    match phase
    case Arming => Some(Armed)
    case Recording(inScope) => Some(if inScope then Binding else Finishing)
    case Binding => Some(Working)
    case Finishing => None
  }

  /** One action of the running call; an action its phase does not allow changes nothing. */
  function Act(w: World, p: Process, step: Step): World {
    match (step, p.phase)
    case (Connect(ok), Connecting) =>
      var next := if !ok then Finishing else if Bound(p).Some? then Reading(Bound(p).value) else Choosing;
      w.(process := To(p, next))
    case (Read(ok), Reading(thread)) =>
      w.(process := if ok then Some(p.(phase := Binding, memory := Bind(p.memory, thread))) else To(p, Finishing))
    case (Scan(found), Choosing) => w.(process := Some(Choose(p, found)))
    case (Save(ok), _) =>
      if !(p.phase.Arming? || p.phase.Recording? || p.phase.Binding? || p.phase.Finishing?) then w
      else if !ok then w.(process := None)
      else
        var next := AfterSave(p.phase);
        w.(file := Stored(p.memory), process := if next.Some? then To(p, next.value) else None)
    case (Send, Armed) => w.(process := To(p, Waiting), sends := w.sends + 1, open := w.open + 1)
    case (Hear(answer), Waiting) =>
      (match answer
       case Unsupported =>
         w.(process := Some(p.(phase := Finishing, memory := p.memory.(pending := false))),
            open := if w.open > 0 then w.open - 1 else 0)
       case Failed => w.(process := To(p, Finishing))
       case Unusable => w.(process := To(p, Finishing))
       case Named(thread, inScope) =>
           w.(process := Some(p.(phase := Recording(inScope), memory := Bind(p.memory, thread)))))
    case (Settle, Working) => w.(process := To(p, Finishing))
    case _ => w
  }

  function Next(w: World, step: Step): World {
    match step
    case Crash => w.(process := None)
    case Begin(call) =>
      if w.process.Some? || !MayProceed(w.file, call) then w
      else w.(process := Some(Process(call, Connecting, LoadedRecord(w.file).(identity := Is(call.scope)))))
    case NoteConfigurationError =>
      if w.process.Some? || !Loads(w.file) || LoadedRecord(w.file).identity.Is? then w
      else w.(file := Stored(LoadedRecord(w.file)))
    case _ => if w.process.None? then w else Act(w, w.process.value, step)
  }

  function Execute(w: World, steps: seq<Step>): World
    decreases |steps|
  {
    if steps == [] then w else Execute(Next(w, steps[0]), steps[1..])
  }

  /** A data directory as some earlier use may have left it, before this journal has sent anything. */
  function Start(file: File): World {
    World(file, None, 0, 0)
  }

  // --------------------------------------------------------------- invariant

  predicate Guarded(record: Record) {
    record.thread.Some? || record.pending
  }

  /**
   While a creation may have taken effect, the stored state keeps its trace, and so does the
   copy of every running call; a call about to send knows that none has, and one that works
   with its thread has saved it.
   */
  ghost predicate Inv(w: World) {
    && w.open <= 1
    && (w.open == 1 ==> w.file.Stored? && w.file.record.identity.Is? && Guarded(w.file.record))
    && (w.process.Some? ==>
          var p := w.process.value;
          && p.memory.identity.Is?
          && (w.open == 1 ==> Guarded(p.memory))
          && (w.file.Stored? && w.file.record.thread.Some? ==> p.memory.thread.Some?)
          && (p.phase.Choosing? ==> p.memory.thread.None?)
          && (p.phase.Arming? || p.phase.Armed? ==> p.memory.thread.None? && p.memory.pending && w.open == 0)
          && (p.phase.Armed? ==> w.file == Stored(p.memory))
          && (p.phase.Waiting? ==> w.open == 1 && p.memory.thread.None? && w.file == Stored(p.memory))
          && (p.phase.Recording? || p.phase.Binding? || p.phase.Working? ==> p.memory.thread.Some?)
          && (p.phase.Working? ==> w.file == Stored(p.memory)))
  }

  lemma NextKeeps(w: World, step: Step)
    requires Inv(w)
    ensures Inv(Next(w, step))
  {
  }

  lemma {:induction false} ExecuteKeeps(w: World, steps: seq<Step>)
    requires Inv(w)
    ensures Inv(Execute(w, steps))
    decreases |steps|
  {
    if steps != [] {
      NextKeeps(w, steps[0]);
      ExecuteKeeps(Next(w, steps[0]), steps[1..]);
    }
  }

  predicate LeadsTo(file: File, steps: seq<Step>, w: World) {
    Execute(Start(file), steps) == w
  }

  ghost predicate Reachable(w: World) {
    exists file, steps :: LeadsTo(file, steps, w)
  }

  lemma ReachableInv(w: World)
    requires Reachable(w)
    ensures Inv(w)
  {
    var file, steps :| LeadsTo(file, steps, w);
    ExecuteKeeps(Start(file), steps);
  }

  lemma {:induction false} RunsJoin(w: World, a: seq<Step>, b: seq<Step>)
    ensures Execute(w, a + b) == Execute(Execute(w, a), b)
    decreases |a|
  {
    if a == [] {
      assert a + b == b;
    } else {
      assert (a + b)[0] == a[0] && (a + b)[1..] == a[1..] + b;
      RunsJoin(Next(w, a[0]), a[1..], b);
    }
  }

  /** A run that starts in a reachable world ends in one. */
  lemma StaysReachable(w: World, steps: seq<Step>)
    requires Reachable(w)
    ensures Reachable(Execute(w, steps))
  {
    var file, run :| LeadsTo(file, run, w);
    RunsJoin(Start(file), run, steps);
    assert LeadsTo(file, run + steps, Execute(w, steps));
  }

  // ---------------------------------------------------------------- theorems

  /**
   Create at most once: whatever the server answers and wherever calls stop, at most one
   creation is ever sent that was not refused as unsupported.
   */
  lemma CreateAtMostOnce(file: File, steps: seq<Step>)
    ensures Execute(Start(file), steps).open <= 1
  {
    ExecuteKeeps(Start(file), steps);
  }

  predicate IsBound(w: World) {
    w.file.Stored? && w.file.record.thread.Some?
  }

  lemma BoundStays(w: World, step: Step)
    requires Inv(w) && IsBound(w)
    ensures IsBound(Next(w, step)) && Next(w, step).sends == w.sends
  {
  }

  /** Once a thread is bound it stays bound, and no creation is ever sent again. */
  lemma {:induction false} NoneAfterBinding(w: World, steps: seq<Step>)
    requires Inv(w) && IsBound(w)
    ensures IsBound(Execute(w, steps)) && Execute(w, steps).sends == w.sends
    decreases |steps|
  {
    if steps != [] {
      BoundStays(w, steps[0]);
      NextKeeps(w, steps[0]);
      NoneAfterBinding(Next(w, steps[0]), steps[1..]);
    }
  }

  /** A creation in doubt is never followed by another, not even by a refused one. */
  lemma {:induction false} NoneAfterDoubt(w: World, steps: seq<Step>)
    requires Inv(w) && w.open == 1 && (w.process.Some? ==> !w.process.value.phase.Waiting?)
    ensures Execute(w, steps).sends == w.sends && Execute(w, steps).open == 1
    decreases |steps|
  {
    if steps != [] {
      NextKeeps(w, steps[0]);
      NoneAfterDoubt(Next(w, steps[0]), steps[1..]);
    }
  }

  /** No call of these is for the scope the state belongs to. */
  ghost predicate Foreign(identity: Identity, steps: seq<Step>) {
    forall i :: 0 <= i < |steps| && steps[i].Begin? ==> Is(steps[i].call.scope) != identity
  }

  /** Only calls of the scope that owns the state ever write it, whatever the others attempt. */
  lemma {:induction false} OtherScopesNeverWrite(w: World, steps: seq<Step>)
    requires w.process.None? && w.file.Stored? && w.file.record.identity != NoField
    requires Foreign(w.file.record.identity, steps)
    ensures Execute(w, steps) == w
    decreases |steps|
  {
    if steps != [] {
      assert Next(w, steps[0]) == w;
      OtherScopesNeverWrite(w, steps[1..]);
    }
  }

  /**
   Doubt is not for ever: when the thread that a lost answer named shows up alone in a scan
   and can be read, one more call binds it.
   */
  lemma LostCreationIsFound(w: World, call: Call, thread: Thread)
    requires w.process.None? && MayProceed(w.file, call) && call.wanted.None?
    requires LoadedRecord(w.file).thread.None?
    ensures var w' := Execute(w, [Begin(call), Connect(true), Scan(Matches([thread])), Read(true), Save(true)]);
            w'.file == Stored(Record(Is(call.scope), Some(thread), false)) && w'.sends == w.sends
  {
    var w1 := Next(w, Begin(call));
    var w2 := Next(w1, Connect(true));
    var w3 := Next(w2, Scan(Matches([thread])));
    var w4 := Next(w3, Read(true));
    var w5 := Next(w4, Save(true));
    Unrolled(w, [Begin(call), Connect(true), Scan(Matches([thread])), Read(true), Save(true)], w1);
    Unrolled(w1, [Connect(true), Scan(Matches([thread])), Read(true), Save(true)], w2);
    Unrolled(w2, [Scan(Matches([thread])), Read(true), Save(true)], w3);
    Unrolled(w3, [Read(true), Save(true)], w4);
    Unrolled(w4, [Save(true)], w5);
    assert [Begin(call), Connect(true), Scan(Matches([thread])), Read(true), Save(true)][1..] ==
           [Connect(true), Scan(Matches([thread])), Read(true), Save(true)];
    assert [Connect(true), Scan(Matches([thread])), Read(true), Save(true)][1..] ==
        [Scan(Matches([thread])), Read(true), Save(true)];
    assert [Scan(Matches([thread])), Read(true), Save(true)][1..] == [Read(true), Save(true)];
    assert [Read(true), Save(true)][1..] == [Save(true)] && [Save(true)][1..] == [];
  }

  lemma Unrolled(w: World, steps: seq<Step>, w': World)
    requires steps != [] && w' == Next(w, steps[0])
    ensures Execute(w, steps) == Execute(w', steps[1..])
  {
  }
}
