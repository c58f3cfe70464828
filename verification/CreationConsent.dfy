module CreationConsent {

  // When a creation may be sent at all, and which thread may come to be bound, said of the calls that
  // were made, the state they found and what the server showed them.

  import opened Options
  import opened CreationJournal

  /** The state belongs to the scope, or to nobody and holds nothing. */
  predicate Admits(file: File, scope: Scope) {
    match file
    case Absent => true
    case Garbage => false
    case Stored(record) =>
      record.identity == Is(scope) || (record.identity == NoField && record.thread.None? && !record.pending)
  }

  function Before(file: File, steps: seq<Step>, i: nat): World
    requires i <= |steps|
  {
    Execute(Start(file), steps[..i])
  }

  /** Call `call` took the lock at step `i`. */
  ghost predicate BeganAt(file: File, steps: seq<Step>, i: int, call: Call) {
    0 <= i < |steps| && steps[i] == Begin(call) && Before(file, steps, i).process.None? &&
    Admits(Before(file, steps, i).file, call.scope)
  }

  function StoredThread(file: File): Option<Thread> {
    if file.Stored? then file.record.thread else None
  }

  predicate StoredIntent(file: File) {
    file.Stored? && file.record.pending
  }

  ghost predicate ScannedAt(file: File, steps: seq<Step>, j: int, found: Found) {
    0 <= j < |steps| && steps[j] == Scan(found) && Before(file, steps, j).process.Some? &&
    Before(file, steps, j).process.value.phase.Choosing?
  }

  ghost predicate NamedAt(file: File, steps: seq<Step>, k: int, thread: Thread) {
    0 <= k < |steps| && (steps[k] == Hear(Named(thread, true)) || steps[k] == Hear(Named(thread, false))) &&
    Before(file, steps, k).process.Some? && Before(file, steps, k).process.value.phase.Waiting?
  }

  /** The scan showed nothing, or could not be finished and the call said that this will do. */
  predicate FoundNothing(found: Found, call: Call) {
    found == Matches([]) || (found == Incomplete && call.allowIncomplete)
  }

  ghost predicate ScannedNothing(file: File, steps: seq<Step>, i: int, call: Call) {
    exists j, found :: i < j && ScannedAt(file, steps, j, found) && FoundNothing(found, call)
  }

  /** The call begun at step `i` wants a creation: it allows one, names no thread, and found none nor a trace of one. */
  ghost predicate Consented(file: File, steps: seq<Step>, i: int, call: Call)
    requires 0 <= i < |steps|
  {
    call.allowCreate && call.wanted.None? && StoredThread(Before(file, steps, i).file).None? &&
    !StoredIntent(Before(file, steps, i).file) && ScannedNothing(file, steps, i, call)
  }

  ghost predicate ScannedOnly(file: File, steps: seq<Step>, i: int, thread: Thread) {
    exists j :: i < j && ScannedAt(file, steps, j, Matches([thread]))
  }

  /** The thread is the one the call wants, else the one stored, else the only one the scan showed. */
  ghost predicate MayFind(file: File, steps: seq<Step>, i: int, call: Call, thread: Thread)
    requires 0 <= i < |steps|
  {
    var stored := StoredThread(Before(file, steps, i).file);
    if call.wanted.Some? then call.wanted.value == thread
    else if stored.Some? then stored.value == thread
    else ScannedOnly(file, steps, i, thread)
  }

  ghost predicate NamedSince(file: File, steps: seq<Step>, i: int, thread: Thread) {
    exists k :: i < k && NamedAt(file, steps, k, thread)
  }

  /** Or the server named it, in answer to a creation that was wanted. */
  ghost predicate Licensed(file: File, steps: seq<Step>, i: int, call: Call, thread: Thread)
    requires 0 <= i < |steps|
  {
    MayFind(file, steps, i, call, thread) || (Consented(file, steps, i, call) && NamedSince(file, steps, i, thread))
  }

  /** How a running call came to where it is. */
  ghost predicate CameHere(file: File, steps: seq<Step>, i: int, p: Process)
    requires 0 <= i < |steps|
  {
    var was := Before(file, steps, i).file;
    var untouched := p.memory.thread == StoredThread(was) && p.memory.pending == StoredIntent(was);
    match p.phase
    case Connecting => untouched
    case Choosing => untouched && p.call.wanted.None? && p.memory.thread.None?
    case Reading(thread) => untouched && MayFind(file, steps, i, p.call, thread)
    case Arming => p.memory.thread.None? && Consented(file, steps, i, p.call)
    case Armed => p.memory.thread.None? && Consented(file, steps, i, p.call)
    case Waiting => p.memory.thread.None? && Consented(file, steps, i, p.call)
    case _ =>
      p.memory.thread == StoredThread(was) ||
      (p.memory.thread.Some? && Licensed(file, steps, i, p.call, p.memory.thread.value))
  }

  ghost predicate Running(file: File, steps: seq<Step>, i: int, p: Process) {
    BeganAt(file, steps, i, p.call) && CameHere(file, steps, i, p)
  }

  // ---------------------------------------------------------- longer runs

  lemma {:induction false} ExecuteOneMore(w: World, steps: seq<Step>, s: Step)
    ensures Execute(w, steps + [s]) == Next(Execute(w, steps), s)
  {
    RunsJoin(w, steps, [s]);
    assert [s][1..] == [];
    assert Execute(Execute(w, steps), [s]) == Execute(Next(Execute(w, steps), s), []);
  }

  lemma SameBefore(file: File, steps: seq<Step>, s: Step)
    ensures forall i: nat :: i <= |steps| ==> Before(file, steps + [s], i) == Before(file, steps, i)
  {
    forall i: nat | i <= |steps| ensures Before(file, steps + [s], i) == Before(file, steps, i) {
      assert (steps + [s])[..i] == steps[..i];
    }
  }

  lemma StaysTrue(file: File, steps: seq<Step>, s: Step, i: int, call: Call)
    requires 0 <= i < |steps|
    ensures BeganAt(file, steps, i, call) ==> BeganAt(file, steps + [s], i, call)
    ensures Consented(file, steps, i, call) ==> Consented(file, steps + [s], i, call)
    ensures forall t :: MayFind(file, steps, i, call, t) ==> MayFind(file, steps + [s], i, call, t)
    ensures forall t :: NamedSince(file, steps, i, t) ==> NamedSince(file, steps + [s], i, t)
  {
    SameBefore(file, steps, s);
    forall j, found ensures ScannedAt(file, steps, j, found) ==> ScannedAt(file, steps + [s], j, found) {}
    forall k, t ensures NamedAt(file, steps, k, t) ==> NamedAt(file, steps + [s], k, t) {}
  }

  // ---------------------------------------------------------- step by step

  lemma AdmitsMeans(file: File, call: Call)
    ensures MayProceed(file, call) <==> Admits(file, call.scope)
  {
  }

  /** A scan is the only way from choosing to anything. */
  lemma ScanLeads(file: File, steps: seq<Step>, i: int, p: Process, found: Found)
    requires 0 <= i < |steps| && CameHere(file, steps, i, p) && p.phase.Choosing?
    requires Before(file, steps, |steps|).process == Some(p)
    ensures Act(Before(file, steps, |steps|), p, Scan(found)).process.Some?
    ensures CameHere(file, steps + [Scan(found)], i, Act(Before(file, steps, |steps|), p, Scan(found)).process.value)
  {
    var more := steps + [Scan(found)];
    SameBefore(file, steps, Scan(found));
    StaysTrue(file, steps, Scan(found), i, p.call);
    assert ScannedAt(file, more, |steps|, found);
    assert found.Matches? && |found.threads| == 1 ==> found.threads == [found.threads[0]];
    assert found.Matches? && |found.threads| == 0 ==> found.threads == [];
  }

  lemma HearLeads(file: File, steps: seq<Step>, i: int, p: Process, answer: Answer)
    requires 0 <= i < |steps| && CameHere(file, steps, i, p) && p.phase.Waiting?
    requires Before(file, steps, |steps|).process == Some(p)
    ensures Act(Before(file, steps, |steps|), p, Hear(answer)).process.Some?
    ensures CameHere(file, steps + [Hear(answer)], i, Act(Before(file, steps, |steps|), p, Hear(answer)).process.value)
  {
    var more := steps + [Hear(answer)];
    SameBefore(file, steps, Hear(answer));
    StaysTrue(file, steps, Hear(answer), i, p.call);
    if answer.Named? { assert NamedAt(file, more, |steps|, answer.thread); }
  }

  lemma OtherActsLead(file: File, steps: seq<Step>, i: int, p: Process, s: Step)
    requires 0 <= i < |steps| && CameHere(file, steps, i, p) && Before(file, steps, |steps|).process == Some(p)
    requires !(s.Scan? && p.phase.Choosing?) && !(s.Hear? && p.phase.Waiting?)
    ensures var w' := Act(Before(file, steps, |steps|), p, s);
            w'.process.Some? ==> CameHere(file, steps + [s], i, w'.process.value)
  {
    SameBefore(file, steps, s);
    StaysTrue(file, steps, s, i, p.call);
  }

  lemma StepLeads(file: File, steps: seq<Step>, i: int, p: Process, s: Step)
    requires 0 <= i < |steps| && Running(file, steps, i, p) && Before(file, steps, |steps|).process == Some(p)
    ensures var w' := Next(Before(file, steps, |steps|), s);
            w'.process.Some? ==> Running(file, steps + [s], i, w'.process.value)
  {
    StaysTrue(file, steps, s, i, p.call);
    if s.Scan? && p.phase.Choosing? {
      ScanLeads(file, steps, i, p, s.found);
    } else if s.Hear? && p.phase.Waiting? {
      HearLeads(file, steps, i, p, s.answer);
    } else if !s.Crash? && !s.Begin? && !s.NoteConfigurationError? {
      OtherActsLead(file, steps, i, p, s);
    } else {
      SameBefore(file, steps, s);
    }
  }

  /** Every running call was begun and came to where it is by steps of its own. */
  lemma {:induction false} CallsRun(file: File, steps: seq<Step>) returns (i: int)
    requires Execute(Start(file), steps).process.Some?
    ensures Running(file, steps, i, Execute(Start(file), steps).process.value)
    decreases |steps|
  {
    var n := |steps| - 1;
    var init, last := steps[..n], steps[n];
    assert steps == init + [last];
    ExecuteOneMore(Start(file), init, last);
    var w := Execute(Start(file), init);
    assert init[..n] == init && Before(file, init, n) == w;
    SameBefore(file, init, last);
    if w.process.Some? {
      i := CallsRun(file, init);
      StepLeads(file, init, i, w.process.value, last);
    } else {
      i := n;
      assert last.Begin?;
      AdmitsMeans(w.file, last.call);
      assert Before(file, steps, n) == w;
      assert BeganAt(file, steps, n, last.call);
    }
  }

  // --------------------------------------------------------------- theorems

  /** The call begun at step `i` sent a creation it wanted. */
  ghost predicate SendWanted(file: File, steps: seq<Step>, i: int, call: Call) {
    BeganAt(file, steps, i, call) && Consented(file, steps, i, call)
  }

  /**
   A creation is sent only for a call that allows one and names no thread, that found neither a thread
   nor an intent stored, and that was shown nothing by its scan, or could not finish it and said that
   this will do.
   */
  lemma SendsAreWanted(file: File, steps: seq<Step>, s: Step)
    requires Next(Execute(Start(file), steps), s).sends != Execute(Start(file), steps).sends
    ensures s == Send && Next(Execute(Start(file), steps), s).sends == Execute(Start(file), steps).sends + 1
    ensures Execute(Start(file), steps).process.Some?
    ensures exists i :: SendWanted(file, steps, i, Execute(Start(file), steps).process.value.call)
  {
    var w := Execute(Start(file), steps);
    var i := CallsRun(file, steps);
    assert SendWanted(file, steps, i, w.process.value.call);
  }

  /** The thread was stored at the outset, or a call was licensed to bind it. */
  ghost predicate Explained(file: File, steps: seq<Step>, thread: Thread) {
    StoredThread(file) == Some(thread) ||
    exists i, call :: BeganAt(file, steps, i, call) && Licensed(file, steps, i, call, thread)
  }

  lemma StaysExplained(file: File, steps: seq<Step>, s: Step, thread: Thread)
    requires Explained(file, steps, thread)
    ensures Explained(file, steps + [s], thread)
  {
    if StoredThread(file) != Some(thread) {
      var i, call :| BeganAt(file, steps, i, call) && Licensed(file, steps, i, call, thread);
      StaysTrue(file, steps, s, i, call);
      assert BeganAt(file, steps + [s], i, call) && Licensed(file, steps + [s], i, call, thread);
    }
  }

  /** The memory of a running call holds only a thread that was stored, or that the call may bind. */
  lemma MemoryIsExplained(file: File, steps: seq<Step>)
    requires Execute(Start(file), steps).process.Some?
    requires Execute(Start(file), steps).process.value.memory.thread.Some?
    ensures var thread := Execute(Start(file), steps).process.value.memory.thread.value;
            Explained(file, steps, thread) ||
            exists i: nat :: i < |steps| && StoredThread(Before(file, steps, i).file) == Some(thread)
  {
    var p := Execute(Start(file), steps).process.value;
    var i := CallsRun(file, steps);
    assert 0 <= i < |steps|;
  }

  lemma PrefixExplained(file: File, steps: seq<Step>, i: nat, thread: Thread)
    requires i <= |steps| && Explained(file, steps[..i], thread)
    ensures Explained(file, steps, thread)
    decreases |steps| - i
  {
    if i == |steps| {
      assert steps[..i] == steps;
    } else {
      assert steps[..i + 1] == steps[..i] + [steps[i]];
      StaysExplained(file, steps[..i], steps[i], thread);
      PrefixExplained(file, steps, i + 1, thread);
    }
  }

  /**
   A bound thread is the one stored at the outset, the one a call wanted, the only one its scan
   showed, or the one the server named in answer to a creation that was wanted.
   */
  lemma {:induction false} BindingsAreExplained(file: File, steps: seq<Step>)
    requires StoredThread(Execute(Start(file), steps).file).Some?
    ensures Explained(file, steps, StoredThread(Execute(Start(file), steps).file).value)
    decreases |steps|
  {
    if steps == [] { return; }
    var n := |steps| - 1;
    var init, last := steps[..n], steps[n];
    assert steps == init + [last];
    ExecuteOneMore(Start(file), init, last);
    var w := Execute(Start(file), init);
    var thread := StoredThread(Execute(Start(file), steps).file).value;
    if StoredThread(w.file) == Some(thread) {
      BindingsAreExplained(file, init);
    } else {
      assert w.process.Some? && w.process.value.memory.thread == Some(thread);
      MemoryIsExplained(file, init);
      if !Explained(file, init, thread) {
        var i: nat :| i < |init| && StoredThread(Before(file, init, i).file) == Some(thread);
        BindingsAreExplained(file, init[..i]);
        PrefixExplained(file, init, i, thread);
      }
    }
    StaysExplained(file, init, last, thread);
  }

  // --------------------------------------------------------------- actions

  predicate Saving(phase: Phase) {
    phase.Arming? || phase.Recording? || phase.Binding? || phase.Finishing?
  }

  /** A process gone on to another phase with its memory as it was. */
  function GoneOn(w: World, p: Process, phase: Phase): World {
    World(w.file, Some(Process(p.call, phase, p.memory)), w.sends, w.open)
  }

  /** Where a call goes from each of its phases, and what it writes on the way. */
  lemma ActionsLead(w: World, p: Process, ok: bool)
    requires w.process == Some(p)
    ensures p.phase.Connecting? ==>
              Next(w, Connect(ok)) ==
              GoneOn(w, p, if !ok then Finishing else if p.call.wanted.Some? then Reading(p.call.wanted.value)
                           else if p.memory.thread.Some? then Reading(p.memory.thread.value) else Choosing)
    ensures p.phase.Reading? ==>
              Next(w, Read(ok)) ==
              if ok
              then GoneOn(w, p.(memory := Record(p.memory.identity, Some(p.phase.thread), false)), Binding)
              else GoneOn(w, p, Finishing)
    ensures Saving(p.phase) ==> Next(w, Save(false)) == World(w.file, None, w.sends, w.open)
    ensures Saving(p.phase) ==>
              Next(w, Save(true)) ==
              match p.phase
              case Arming => GoneOn(w.(file := Stored(p.memory)), p, Armed)
              case Recording(inScope) => GoneOn(w.(file := Stored(p.memory)), p, if inScope then Binding else Finishing)
              case Binding => GoneOn(w.(file := Stored(p.memory)), p, Working)
              case _ => World(Stored(p.memory), None, w.sends, w.open)
    ensures p.phase.Armed? ==> Next(w, Send) == GoneOn(w.(sends := w.sends + 1, open := w.open + 1), p, Waiting)
    ensures p.phase.Working? ==> Next(w, Settle) == GoneOn(w, p, Finishing)
  {
  }

  /** Where a scan leads: to the one thread it shows, to a creation that is wanted, or to the end of the call. */
  lemma ScansLead(w: World, p: Process, found: Found)
    requires w.process == Some(p) && p.phase.Choosing?
    ensures Next(w, Scan(found)) ==
            if found.Matches? && |found.threads| == 1 then GoneOn(w, p, Reading(found.threads[0]))
            else if FoundNothing(found, p.call) && p.call.allowCreate && !p.memory.pending then
              GoneOn(w, p.(memory := Record(p.memory.identity, p.memory.thread, true)), Arming)
            else GoneOn(w, p, Finishing)
  {
    if found.Matches? && |found.threads| == 0 { assert found.threads == []; }
  }

  /** A call that cannot be configured leaves a state only where there was none, and nothing while a call is running. */
  lemma NotesAre(w: World)
    ensures Next(w, NoteConfigurationError) ==
            if w.process.Some? then w
            else
              match w.file
              case Absent => w.(file := Stored(Record(NoField, None, false)))
              case Garbage => w
              case Stored(record) => w
  {
  }

  // --------------------------------------------------------------- answers

  /**
   A named thread is recorded before anything else is done, and gone on with only inside the scope
   of the call; a refusal as unsupported takes the intent back, and any other answer leaves it standing.
   */
  lemma AnswersLead(w: World, p: Process, answer: Answer)
    requires Inv(w) && w.process == Some(p) && p.phase.Waiting?
    ensures var heard := Next(w, Hear(answer)); var saved := Next(heard, Save(true));
            && heard.file == w.file && heard.sends == w.sends && heard.process.Some? && saved.sends == w.sends
            && (answer.Named? ==>
                  && saved.file == Stored(Record(p.memory.identity, Some(answer.thread), false)) && saved.open == w.open
                  && saved.process.Some? && saved.process.value.phase == if answer.inScope then Binding else Finishing)
            && (!answer.Named? ==>
                  && heard.process.value.phase.Finishing? && saved.process.None?
                  && saved.file == Stored(Record(p.memory.identity, None, answer != Unsupported))
                  && saved.open == if answer == Unsupported then w.open - 1 else w.open)
  {
  }

  /** A binding is saved, used, and saved with what the requests came to. */
  lemma BindingCompletes(w: World, p: Process)
    requires w.process == Some(p) && p.phase.Binding?
    ensures Execute(w, [Save(true), Settle, Save(true)]) == World(Stored(p.memory), None, w.sends, w.open)
  {
    var saved := Next(w, Save(true));
    var settled := Next(saved, Settle);
    Unrolled(w, [Save(true), Settle, Save(true)], saved);
    assert [Save(true), Settle, Save(true)][1..] == [Settle, Save(true)];
    Unrolled(saved, [Settle, Save(true)], settled);
    assert [Settle, Save(true)][1..] == [Save(true)];
    Unrolled(settled, [Save(true)], Next(settled, Save(true)));
    assert [Save(true)][1..] == [];
  }

  // ------------------------------------------------------------- ambiguity

  predicate Over(w: World) {
    w.process.None? || w.process.value.phase.Finishing?
  }

  /** A call that is finishing sends nothing and binds nothing new, whatever happens until it has ended. */
  lemma {:induction false} FinishingIsInert(w: World, steps: seq<Step>)
    requires Over(w) && forall s <- steps :: !s.Begin?
    ensures Over(Execute(w, steps)) && Execute(w, steps).sends == w.sends
    ensures StoredThread(Execute(w, steps).file) in
              {StoredThread(w.file), if w.process.Some? then w.process.value.memory.thread else StoredThread(w.file)}
    decreases |steps|
  {
    if steps != [] {
      assert steps[0] in steps && forall s :: s in steps[1..] ==> s in steps;
      FinishingIsInert(Next(w, steps[0]), steps[1..]);
    }
  }

  /** A scan that shows two threads or more binds none of them and sends nothing. */
  lemma AmbiguityStops(w: World, threads: seq<Thread>, steps: seq<Step>)
    requires w.process.Some? && w.process.value.phase.Choosing? && w.process.value.memory.thread.None?
    requires |threads| >= 2 && forall s <- steps :: !s.Begin?
    ensures var end := Execute(Next(w, Scan(Matches(threads))), steps);
            end.sends == w.sends && StoredThread(end.file) in {StoredThread(w.file), None}
  {
    FinishingIsInert(Next(w, Scan(Matches(threads))), steps);
  }
}
