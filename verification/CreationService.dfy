/** One call as it is written: a copy of the stored state, saves at fixed points, and whatever the server does. */
module CreationServices {
  import opened Options
  import opened CreationJournal
  import opened CreationConsent

  datatype Reaction = Ok | Error | Died

  /** How the surroundings behave during one call; `None` and `Died` are where the process stops. */
  datatype Script = Script(
    connect: Reaction, scan: Option<Found>, read: Reaction, intentSaved: bool, sent: bool, answer: Option<Answer>,
    threadSaved: bool, bindingSaved: bool, metadata: Reaction, finalSaved: bool)

  lemma {:induction false} RunGrows(w: World, run: seq<Step>, step: Step)
    ensures Execute(w, run + [step]) == Next(Execute(w, run), step)
    decreases |run|
  {
    if run == [] {
      assert [] + [step] == [step] && [step][1..] == [];
      assert Execute(w, [step]) == Execute(Next(w, step), []);
    } else {
      assert (run + [step])[0] == run[0] && (run + [step])[1..] == run[1..] + [step];
      RunGrows(Next(w, run[0]), run[1..], step);
    }
  }

  /** Nothing keeps a call that found neither thread nor intent from sending a creation. */
  predicate Creates(call: Call, pending: bool, s: Script) {
    call.allowCreate && !pending && s.scan.Some? && FoundNothing(s.scan.value, call) && s.intentSaved && s.sent
  }

  predicate ServerNamed(s: Script, thread: Thread) {
    s.answer == Some(Named(thread, true)) || s.answer == Some(Named(thread, false))
  }

  /** What a call that has to look for its thread may come to hold. */
  predicate MayHold(call: Call, pending: bool, s: Script, thread: Thread) {
    s.scan == Some(Matches([thread])) || (Creates(call, pending, s) && ServerNamed(s, thread))
  }

  /** Taken as `thread`, with no intent left. */
  function HoldsThread(was: Record, thread: Thread): Record {
    Record(was.identity, Some(thread), false)
  }

  function Intends(was: Record): Record {
    Record(was.identity, was.thread, true)
  }

  /** What an attempt to create leaves behind: nothing, the intent, the thread, or neither when it is refused. */
  function CreationLeaves(file: File, was: Record, s: Script): File {
    if !s.intentSaved then file
    else if !s.sent then Stored(Intends(was))
    else
      match s.answer
      case None => Stored(Intends(was))
      case Some(Named(thread, _)) => Stored(if s.threadSaved then HoldsThread(was, thread) else Intends(was))
      case Some(Unsupported) => Stored(if s.finalSaved then Record(was.identity, was.thread, false) else Intends(was))
      case Some(Failed) => Stored(Intends(was))
      case Some(Unusable) => Stored(Intends(was))
  }

  /** What reading the one thread there is leaves behind. */
  function ReadingLeaves(file: File, was: Record, thread: Thread, s: Script): File {
    if s.read == Ok then (if s.bindingSaved then Stored(HoldsThread(was, thread)) else file)
    else if s.read == Error && s.finalSaved then Stored(was)
    else file
  }

  /** What a call that has to look for its thread leaves behind. */
  function SeekingLeaves(file: File, was: Record, call: Call, s: Script): File {
    if s.scan.None? then file
    else if s.scan.value.Matches? && |s.scan.value.threads| == 1 then
      ReadingLeaves(file, was, s.scan.value.threads[0], s)
    else if call.allowCreate && !was.pending && FoundNothing(s.scan.value, call) then CreationLeaves(file, was, s)
    else if s.finalSaved then Stored(was)
    else file
  }

  function ConnectedLeaves(file: File, was: Record, call: Call, s: Script): File {
    match s.connect
    case Died => file
    case Error => if s.finalSaved then Stored(was) else file
    case Ok =>
      if call.wanted.Some? then ReadingLeaves(file, was, call.wanted.value, s)
      else if was.thread.Some? then ReadingLeaves(file, was, was.thread.value, s)
      else SeekingLeaves(file, was, call, s)
  }

  /** The state a whole call leaves, from the state it found and what happened around it. */
  function Leaves(file: File, call: Call, s: Script): File {
    if !Admits(file, call.scope) then file
    else ConnectedLeaves(file, Record(Is(call.scope), StoredThread(file), StoredIntent(file)), call, s)
  }

  /** What the saves still to come will leave. */
  function Ended(file: File, memory: Record, alive: bool, bound: bool, s: Script): File {
    if (bound && s.bindingSaved) || (alive && !bound && s.finalSaved) then Stored(memory) else file
  }

  /** A creation that was asked for, and not refused as unsupported. */
  predicate LeavesOpen(call: Call, pending: bool, s: Script) {
    Creates(call, pending, s) && s.answer != Some(Unsupported)
  }

  /** The call gets as far as looking for its thread. */
  predicate Seeks(file: File, call: Call, s: Script) {
    Admits(file, call.scope) && call.wanted.None? && StoredThread(file).None? && s.connect == Ok
  }

  /** A call stores only a thread it wanted, one its scan showed alone, or one the server named for it. */
  lemma LeavesExplained(file: File, call: Call, s: Script)
    ensures var seeks := Seeks(file, call, s);
            var stored := StoredThread(Leaves(file, call, s));
            stored != StoredThread(file) ==>
              stored.Some? && (stored == call.wanted || (seeks && MayHold(call, StoredIntent(file), s, stored.value)))
  {
    if s.scan.Some? && s.scan.value.Matches? && |s.scan.value.threads| == 1 {
      assert s.scan.value.threads == [s.scan.value.threads[0]];
    }
  }

  class ManagerEntry {
    var file: File
    var sends: nat
    var open: nat

    /** Between calls nobody holds the lock. */
    function Idle(): World
      reads this
    {
      World(file, None, sends, open)
    }

    ghost predicate Valid()
      reads this
    {
      Reachable(Idle())
    }

    constructor (found: File)
      ensures Valid() && Idle() == Start(found)
    {
      file, sends, open := found, 0, 0;
      new;
      assert LeadsTo(found, [], Start(found));
    }

    /** The world in the middle of a call. */
    function During(call: Call, phase: Phase, memory: Record): World
      reads this
    {
      World(file, Some(Process(call, phase, memory)), sends, open)
    }

    /** The durable write, which may not happen. */
    method WriteState(memory: Record, saved: bool)
      modifies this`file
      ensures file == if saved then Stored(memory) else old(file)
    {
      if saved { file := Stored(memory); }
    }

    /** Journals the intent, asks for a thread, and records the one that was named. */
    method CreateThread(call: Call, start: Record, s: Script)
      returns (memory: Record, alive: bool, bound: bool, ghost run: seq<Step>)
      requires Inv(During(call, Arming, start)) && start.pending
      modifies this
      ensures sends == old(sends) + if s.intentSaved && s.sent then 1 else 0
      ensures open == old(open) + if s.intentSaved && s.sent && s.answer != Some(Unsupported) then 1 else 0
      ensures Ended(file, memory, alive, bound, s) == CreationLeaves(old(file), start, s)
      ensures bound ==> alive
      ensures Execute(old(During(call, Arming, start)), run) ==
              if !alive then Idle() else During(call, if bound then Binding else Finishing, memory)
    {
      memory, alive, bound, run := start, false, false, [];
      ghost var before := During(call, Arming, start);
      WriteState(memory, s.intentSaved);
      run := run + [Save(s.intentSaved)];
      RunGrows(before, [], Save(s.intentSaved));
      assert [] + [Save(s.intentSaved)] == [Save(s.intentSaved)];
      if !s.intentSaved { return; }
      if !s.sent {
        RunGrows(before, run, Crash);
        run := run + [Crash];
        return;
      }
      sends, open := sends + 1, open + 1;
      RunGrows(before, run, Send);
      run := run + [Send];
      if s.answer.None? {
        RunGrows(before, run, Crash);
        run := run + [Crash];
        return;
      }
      var answer := s.answer.value;
      RunGrows(before, run, Hear(answer));
      run := run + [Hear(answer)];
      alive := true;
      match answer {
        case Unsupported => memory, open := memory.(pending := false), open - 1;
        case Failed =>
        case Unusable =>
        case Named(thread, inScope) =>
          memory := Bind(memory, thread);
          WriteState(memory, s.threadSaved);
          RunGrows(before, run, Save(s.threadSaved));
          run := run + [Save(s.threadSaved)];
          alive, bound := s.threadSaved, s.threadSaved && inScope;
      }
    }

    /** Reads back the one thread there is to bind. */
    method ReadThread(call: Call, thread: Thread, start: Record, s: Script)
      returns (memory: Record, alive: bool, bound: bool, ghost run: seq<Step>)
      ensures Ended(file, memory, alive, bound, s) == ReadingLeaves(file, start, thread, s)
      ensures bound ==> alive
      ensures Execute(During(call, Reading(thread), start), run) ==
              if !alive then Idle() else During(call, if bound then Binding else Finishing, memory)
    {
      memory, alive, bound := start, s.read != Died, s.read == Ok;
      ghost var step := if s.read == Died then Crash else Read(s.read == Ok);
      run := [step];
      RunGrows(During(call, Reading(thread), start), [], step);
      assert [] + [step] == [step];
      if bound { memory := Bind(memory, thread); }
    }

    /** Looks for the thread, and creates it only when a scan proves or is allowed to mean that there is none. */
    method FindOrCreate(call: Call, start: Record, s: Script)
      returns (memory: Record, alive: bool, bound: bool, ghost run: seq<Step>)
      requires Inv(During(call, Choosing, start))
      modifies this
      ensures sends == old(sends) + if Creates(call, start.pending, s) then 1 else 0
      ensures open == old(open) + if LeavesOpen(call, start.pending, s) then 1 else 0
      ensures Ended(file, memory, alive, bound, s) == SeekingLeaves(old(file), start, call, s)
      ensures bound ==> alive
      ensures Execute(old(During(call, Choosing, start)), run) ==
              if !alive then Idle() else During(call, if bound then Binding else Finishing, memory)
    {
      memory, alive, bound := start, true, false;
      ghost var before := During(call, Choosing, start);
      ghost var step := if s.scan.None? then Crash else Scan(s.scan.value);
      run := [step];
      RunGrows(before, [], step);
      assert [] + [step] == [step];
      if s.scan.None? { return memory, false, false, run; }
      var matches := MatchesOf(Process(call, Choosing, memory), s.scan.value);
      if matches.None? || |matches.value| > 1 { return; }
      ghost var rest: seq<Step>;
      if |matches.value| == 1 {
        assert matches.value == [matches.value[0]];
        memory, alive, bound, rest := ReadThread(call, matches.value[0], memory, s);
      } else {
        if memory.pending || !call.allowCreate { return; }
        memory := memory.(pending := true);
        NextKeeps(before, step);
        memory, alive, bound, rest := CreateThread(call, memory, s);
      }
      RunsJoin(before, run, rest);
      run := run + rest;
    }

    /** Saves the binding before the requests that use the thread. */
    method RecordBinding(call: Call, memory: Record, s: Script) returns (alive: bool, ghost run: seq<Step>)
      modifies this`file
      ensures file == if s.bindingSaved then Stored(memory) else old(file)
      ensures alive ==> s.bindingSaved
      ensures Execute(old(During(call, Binding, memory)), run) ==
              if !alive then Idle() else During(call, Finishing, memory)
    {
      ghost var before := During(call, Binding, memory);
      WriteState(memory, s.bindingSaved);
      run := [Save(s.bindingSaved)];
      RunGrows(before, [], Save(s.bindingSaved));
      assert [] + [Save(s.bindingSaved)] == [Save(s.bindingSaved)];
      alive := s.bindingSaved && s.metadata != Died;
      if !s.bindingSaved { return; }
      ghost var step := if s.metadata == Died then Crash else Settle;
      RunGrows(before, run, step);
      run := run + [step];
    }

    /** From the connection to the last request, up to what is saved at the end. */
    method Synchronize(call: Call, start: Record, s: Script) returns (memory: Record, alive: bool, ghost run: seq<Step>)
      requires Inv(During(call, Connecting, start))
      modifies this
      ensures var seeks := call.wanted.None? && start.thread.None? && s.connect == Ok;
              && sends == old(sends) + (if seeks && Creates(call, start.pending, s) then 1 else 0)
              && open == old(open) + (if seeks && LeavesOpen(call, start.pending, s) then 1 else 0)
      ensures Ended(file, memory, alive, false, s) == ConnectedLeaves(old(file), start, call, s)
      ensures Execute(old(During(call, Connecting, start)), run) ==
              if !alive then Idle() else During(call, Finishing, memory)
    {
      memory, alive := start, s.connect != Died;
      ghost var before := During(call, Connecting, start);
      ghost var step := if s.connect == Died then Crash else Connect(s.connect == Ok);
      run := [step];
      RunGrows(before, [], step);
      assert [] + [step] == [step];
      if s.connect != Ok { return; }
      NextKeeps(before, step);
      var target := if call.wanted.Some? then call.wanted else memory.thread;
      var bound: bool;
      ghost var rest: seq<Step>;
      if target.Some? {
        memory, alive, bound, rest := ReadThread(call, target.value, memory, s);
      } else {
        memory, alive, bound, rest := FindOrCreate(call, memory, s);
      }
      RunsJoin(before, run, rest);
      run := run + rest;
      if !bound { return; }
      ghost var last: seq<Step>;
      alive, last := RecordBinding(call, memory, s);
      RunsJoin(before, run, last);
      run := run + last;
    }

    /** From taking the lock to what is saved at the end. */
    method RunCall(call: Call, s: Script) returns (ghost run: seq<Step>)
      requires Inv(Idle())
      modifies this
      ensures Idle() == Execute(old(Idle()), run) && file == Leaves(old(file), call, s)
      ensures var seeks := Seeks(old(file), call, s);
              && sends == old(sends) + (if seeks && Creates(call, StoredIntent(old(file)), s) then 1 else 0)
              && open == old(open) + (if seeks && LeavesOpen(call, StoredIntent(old(file)), s) then 1 else 0)
    {
      ghost var before := Idle();
      AdmitsMeans(file, call);
      run := [];
      if !MayProceed(file, call) { return; }
      var memory := LoadedRecord(file).(identity := Is(call.scope));
      run := [Begin(call)];
      RunGrows(before, [], Begin(call));
      assert [] + [Begin(call)] == [Begin(call)];
      NextKeeps(before, Begin(call));
      var alive: bool;
      ghost var rest: seq<Step>;
      memory, alive, rest := Synchronize(call, memory, s);
      RunsJoin(before, run, rest);
      run := run + rest;
      if alive {
        WriteState(memory, s.finalSaved);
        RunGrows(before, run, Save(s.finalSaved));
        run := run + [Save(s.finalSaved)];
      }
    }

    /**
     One call: it takes the lock, works, and saves what it came to, unless it stops on the way.
     Whatever happens it is a run of the journal, so the journal's theorems hold of it.
     */
    method InitializeEntry(call: Call, s: Script) returns (ghost run: seq<Step>)
      requires Valid()
      modifies this
      ensures Valid() && Idle() == Execute(old(Idle()), run) && file == Leaves(old(file), call, s)
      ensures var seeks := Seeks(old(file), call, s);
              && sends == old(sends) + (if seeks && Creates(call, StoredIntent(old(file)), s) then 1 else 0)
              && open == old(open) + (if seeks && LeavesOpen(call, StoredIntent(old(file)), s) then 1 else 0)
              && (StoredThread(file) != StoredThread(old(file)) ==>
                    StoredThread(file).Some? &&
                    (StoredThread(file) == call.wanted ||
                     (seeks && MayHold(call, StoredIntent(old(file)), s, StoredThread(file).value))))
    {
      ghost var before := Idle();
      ReachableInv(before);
      LeavesExplained(file, call, s);
      run := RunCall(call, s);
      StaysReachable(before, run);
    }

    /** A call that cannot even be configured saves the state it finds, if that names no scope yet. */
    method NoteError()
      requires Valid()
      modifies this`file
      ensures Valid() && Idle() == Next(old(Idle()), NoteConfigurationError)
    {
      ghost var before := Idle();
      RunGrows(before, [], NoteConfigurationError);
      assert [] + [NoteConfigurationError] == [NoteConfigurationError];
      StaysReachable(before, [NoteConfigurationError]);
      if Loads(file) && !LoadedRecord(file).identity.Is? { WriteState(LoadedRecord(file), true); }
    }
  }
}
