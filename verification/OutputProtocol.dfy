/** Any number of read commands share one output session with the reader goroutine
    (internal/server/handlers/readcommand.go, readcommand_server.go, shutdown_coordinator.go).
    Every lock-protected method and every atomic counter access is one step; steps interleave freely. */
module OutputProtocol {
  import opened Wrappers
  import opened Bytes
  import opened GenerationOutput
  import opened OutputManagers

  /** One file: registered as pending, writing (output enabled, not yet completed), completed and
      inside the coordinator's grace sleep, or done. A file without read permission skips writing. */
  datatype FileState = Registered | Writing | Grace | Done

  datatype File = File(owner: nat, state: FileState)

  /** One read command. Only cat, grep and tail commands run the EOF epilogue (`signals`). */
  datatype Phase =
    | Reading
    | Gated
    | Captured(epoch: nat)
    | Decided(epoch: nat)
    | Signalled
    | Waiting(handshake: nat)
    | Ended

  datatype Command = Command(signals: bool, phase: Phase)

  datatype System = System(
    out: Output,
    pending: int,
    files: map<nat, File>,
    commands: map<nat, Command>,
    retrying: bool,
    aggregate: bool,
    inputFinished: bool)

  /** `aggregate`: the session's reads are one-shot and feed an aggregate that is not replaced. */
  function Initial(aggregate: bool): System {
    System(INITIAL, 0, map[], map[], false, aggregate, false)
  }

  datatype Step =
    | Start(c: nat, ids: set<nat>, signals: bool)
    | EnableFile(f: nat)
    | Send(f: nat, payload: ByteString)
    | Complete(f: nat)
    | Recheck(f: nat)
    | Gate(c: nat)
    | Quit(c: nat)
    | Capture(c: nat)
    | Check(c: nat)
    | Signal(c: nat)
    | Wait(c: nat)
    | Release(c: nat)
    | ReaderTry(room: nat, active: nat, now: int, quiet: int)
    | ReaderPause(k: nat, active: nat)
    | ReaderResume(room: nat, active: nat, now: int, quiet: int)

  predicate FileIs(s: System, f: nat, states: set<FileState>) {
    f in s.files && s.files[f].state in states
  }

  predicate CommandIs(s: System, c: nat, phase: Phase) {
    c in s.commands && s.commands[c].phase == phase
  }

  predicate AllFilesDone(s: System, c: nat) {
    forall f :: f in s.files && s.files[f].owner == c ==> s.files[f].state == Done
  }

  predicate Stale(lines: seq<ByteString>, active: nat) {
    forall i :: 0 <= i < |lines| ==> ShouldDrop(DecodeBytes(lines[i]).0, active)
  }

  predicate CanStep(s: System, step: Step) {
    match step
    case Start(c, ids, _) => c !in s.commands && ids !! s.files.Keys
    case EnableFile(f) => FileIs(s, f, {Registered})
    case Send(f, _) => FileIs(s, f, {Writing}) && s.out.lines.Some?
    case Complete(f) => FileIs(s, f, {Registered, Writing})
    case Recheck(f) => FileIs(s, f, {Grace})
    case Gate(c) => CommandIs(s, c, Reading) && AllFilesDone(s, c)
    case Quit(c) => CommandIs(s, c, Reading) && AllFilesDone(s, c)
    case Capture(c) => CommandIs(s, c, Gated)
    case Check(c) => c in s.commands && s.commands[c].phase.Captured?
    case Signal(c) => c in s.commands && s.commands[c].phase.Decided?
    case Wait(c) => CommandIs(s, c, Signalled)
    case Release(c) => c in s.commands && s.commands[c].phase.Waiting?
    case ReaderTry(_, _, _, _) => !s.retrying
    case ReaderPause(k, active) =>
      // The reader has dropped k stale payloads, found the channel non-empty but its receive failing,
      // and sleeps with the lock released. It may do so again after waking up.
      && s.out.lines.Some? && s.out.buffer == [] && (s.retrying || s.out.mode)
      && k <= |s.out.lines.value| && Stale(s.out.lines.value[..k], active)
    case ReaderResume(_, _, _, _) => s.retrying && s.out.lines.Some? && s.out.buffer == []
  }

  function SetFile(s: System, f: nat, state: FileState): System
    requires f in s.files
  {
    s.(files := s.files[f := s.files[f].(state := state)])
  }

  function SetPhase(s: System, c: nat, phase: Phase): System
    requires c in s.commands
  {
    s.(commands := s.commands[c := s.commands[c].(phase := phase)])
  }

  function Apply(s: System, step: Step): System
    requires CanStep(s, step)
  {
    match step
    case Start(c, ids, signals) =>
      s.(commands := s.commands[c := Command(signals, Reading)],
         files := s.files + map f | f in ids :: File(c, Registered),
         pending := s.pending + |ids|)
    case EnableFile(f) => SetFile(s, f, Writing).(out := Enable(s.out))
    case Send(_, payload) => s.(out := s.out.(lines := Some(s.out.lines.value + [payload])))
    case Complete(f) =>
      SetFile(s, f, if s.pending == 1 && s.aggregate then Grace else Done).(pending := s.pending - 1)
    case Recheck(f) => SetFile(s, f, Done).(inputFinished := s.inputFinished || s.pending == 0)
    case Gate(c) =>
      SetPhase(s, c, if s.commands[c].signals && s.out.mode && s.out.handshake > 0 then Gated else Ended)
    case Quit(c) => SetPhase(s, c, Ended)
    case Capture(c) => SetPhase(s, c, Captured(s.out.epoch))
    case Check(c) => SetPhase(s, c, if s.pending == 0 then Decided(s.commands[c].phase.epoch) else Ended)
    case Signal(c) => SetPhase(s, c, Signalled).(out := SignalEOF(s.out, s.commands[c].phase.epoch))
    case Wait(c) => SetPhase(s, c, if s.out.handshake == 0 then Ended else Waiting(s.out.handshake))
    case Release(c) => SetPhase(s, c, Ended)
    case ReaderTry(room, active, now, quiet) => s.(out := TryRead(s.out, room, active, now, quiet).out)
    case ReaderPause(k, _) =>
      s.(out := s.out.(lines := Some(s.out.lines.value[k..]),
                       emptySince := if k > 0 then None else s.out.emptySince),
         retrying := true)
    case ReaderResume(room, active, now, quiet) =>
      s.(out := Receive(s.out, room, active, now, quiet).out, retrying := false)
  }

  // ---------------------------------------------------------------- the inductive invariant

  function OpenFiles(s: System): set<nat> {
    set f | f in s.files && s.files[f].state in {Registered, Writing}
  }

  ghost predicate Counted(s: System) {
    s.pending == |OpenFiles(s)|
  }

  /** While a file is writing, its handshake is live. */
  ghost predicate WritersLive(s: System) {
    forall f :: FileIs(s, f, {Writing}) ==> s.out.mode && !s.out.signalled
  }

  /** A decision that the batch is over is either stale or there is no writer for it to cut off. */
  ghost predicate DecisionsSound(s: System) {
    && (forall c :: c in s.commands && s.commands[c].phase.Captured? ==> s.commands[c].phase.epoch <= s.out.epoch)
    && (forall c :: c in s.commands && s.commands[c].phase.Decided? ==>
          && s.commands[c].phase.epoch <= s.out.epoch
          && (s.commands[c].phase.epoch == s.out.epoch ==> forall f :: !FileIs(s, f, {Writing})))
  }

  ghost predicate ReaderSound(s: System) {
    && (!s.out.mode ==> s.out.Drained())
    && (s.out.mode ==> s.out.lines.Some? && s.out.handshake > 0)
    && (s.retrying ==> s.out.mode && s.out.buffer == [])
  }

  /** Exactly the replaced ack channels, and the current one while the mode is off, are closed. */
  ghost predicate AcksSound(s: System) {
    && (forall h {:trigger h in s.out.acked} :: 1 <= h < s.out.handshake ==> h in s.out.acked)
    && (forall h :: h in s.out.acked ==> 1 <= h <= s.out.handshake)
    && (s.out.handshake > 0 ==> (s.out.handshake in s.out.acked <==> !s.out.mode))
    && (forall c :: c in s.commands && s.commands[c].phase.Waiting? ==>
          1 <= s.commands[c].phase.handshake <= s.out.handshake)
  }

  /** Some file has completed. */
  ghost predicate AnyCompleted(s: System) {
    exists f :: FileIs(s, f, {Grace, Done})
  }

  ghost predicate WakeUpSound(s: System) {
    s.aggregate && AnyCompleted(s) ==>
      s.inputFinished || s.pending > 0 || exists f :: FileIs(s, f, {Grace})
  }

  ghost predicate Inv(s: System) {
    Counted(s) && WritersLive(s) && DecisionsSound(s) && ReaderSound(s) && AcksSound(s) && WakeUpSound(s)
  }

  lemma CountedStart(s: System, step: Step)
    requires CanStep(s, step) && Counted(s) && step.Start?
    ensures Counted(Apply(s, step))
  {
    var open := OpenFiles(Apply(s, step));
    assert OpenFiles(s) !! step.ids;
    assert open == OpenFiles(s) + step.ids;
  }

  lemma CountedComplete(s: System, step: Step)
    requires CanStep(s, step) && Counted(s) && step.Complete?
    ensures Counted(Apply(s, step))
  {
    assert step.f in OpenFiles(s);
    assert OpenFiles(Apply(s, step)) == OpenFiles(s) - {step.f};
  }

  lemma CountedStep(s: System, step: Step)
    requires CanStep(s, step) && Counted(s)
    ensures Counted(Apply(s, step))
  {
    if step.Start? {
      CountedStart(s, step);
    } else if step.Complete? {
      CountedComplete(s, step);
    } else {
      assert OpenFiles(Apply(s, step)) == OpenFiles(s);
    }
  }

  /** A zero count is seen only when nothing is writing. */
  lemma ZeroMeansNoWriter(s: System)
    requires Counted(s) && s.pending == 0
    ensures forall f :: !FileIs(s, f, {Writing})
  {
    forall f
      ensures !FileIs(s, f, {Writing})
    {
      assert OpenFiles(s) == {};
      assert f !in OpenFiles(s);
    }
  }

  /** What the reader's steps may do to the output. */
  lemma ReaderStepKeeps(s: System, step: Step)
    requires CanStep(s, step) && ReaderSound(s)
    requires step.ReaderTry? || step.ReaderPause? || step.ReaderResume?
    ensures var o, o' := s.out, Apply(s, step).out;
            && o'.epoch == o.epoch && o'.handshake == o.handshake && o'.signalled == o.signalled
            && if o'.mode == o.mode then o'.acked == o.acked
               else o.mode && o.signalled && o'.Drained() && o'.acked == o.acked + {o.handshake}
  {
    match step
    case ReaderTry(room, active, now, quiet) =>
      if s.out.buffer == [] && s.out.mode {
        ReceiveKeeps(s.out, room, active, now, quiet);
      }
    case ReaderPause(_, _) =>
    case ReaderResume(room, active, now, quiet) =>
      ReceiveKeeps(s.out, room, active, now, quiet);
  }

  lemma WritersLiveStep(s: System, step: Step)
    requires CanStep(s, step) && Inv(s)
    ensures WritersLive(Apply(s, step))
  {
    var s' := Apply(s, step);
    if step.ReaderTry? || step.ReaderPause? || step.ReaderResume? {
      ReaderStepKeeps(s, step);
      assert forall f :: FileIs(s', f, {Writing}) ==> FileIs(s, f, {Writing});
    } else {
      assert forall f :: FileIs(s', f, {Writing}) && !step.EnableFile? ==> FileIs(s, f, {Writing});
    }
  }

  lemma DecisionsSoundStep(s: System, step: Step)
    requires CanStep(s, step) && Inv(s)
    ensures DecisionsSound(Apply(s, step))
  {
    var s' := Apply(s, step);
    if step.ReaderTry? || step.ReaderPause? || step.ReaderResume? {
      ReaderStepKeeps(s, step);
    }
    if step.Check? && s.pending == 0 {
      ZeroMeansNoWriter(s);
    }
    if step.EnableFile? {
      assert s'.out.epoch == s.out.epoch + 1;
    } else {
      assert s'.out.epoch == s.out.epoch;
      assert forall f :: FileIs(s', f, {Writing}) ==> FileIs(s, f, {Writing});
    }
  }

  lemma ReaderSoundStep(s: System, step: Step)
    requires CanStep(s, step) && Inv(s)
    ensures ReaderSound(Apply(s, step))
  {
    if step.ReaderTry? || step.ReaderPause? || step.ReaderResume? {
      ReaderStepKeeps(s, step);
      if step.ReaderTry? && s.out.buffer == [] && s.out.mode {
        ReceiveKeeps(s.out, step.room, step.active, step.now, step.quiet);
      }
      if step.ReaderResume? {
        ReceiveKeeps(s.out, step.room, step.active, step.now, step.quiet);
      }
    }
  }

  lemma AcksSoundStep(s: System, step: Step)
    requires CanStep(s, step) && Inv(s)
    ensures AcksSound(Apply(s, step))
  {
    if step.ReaderTry? || step.ReaderPause? || step.ReaderResume? {
      ReaderStepKeeps(s, step);
    }
  }

  lemma WakeUpSoundStep(s: System, step: Step)
    requires CanStep(s, step) && Inv(s)
    ensures WakeUpSound(Apply(s, step))
  {
    var s' := Apply(s, step);
    CountedStep(s, step);
    if s'.aggregate && AnyCompleted(s') {
      match step
      case Complete(f) =>
        assert FileIs(s', f, {Grace, Done});
        assert s.pending == 1 ==> FileIs(s', f, {Grace});
        assert f in OpenFiles(s);
      case Recheck(f) =>
      case _ =>
        var done :| FileIs(s', done, {Grace, Done});
        assert FileIs(s, done, {Grace, Done});
        if f :| FileIs(s, f, {Grace}) {
          assert FileIs(s', f, {Grace});
        }
    }
  }

  lemma InvStep(s: System, step: Step)
    requires CanStep(s, step) && Inv(s)
    ensures Inv(Apply(s, step))
  {
    CountedStep(s, step);
    WritersLiveStep(s, step);
    DecisionsSoundStep(s, step);
    ReaderSoundStep(s, step);
    AcksSoundStep(s, step);
    WakeUpSoundStep(s, step);
  }

  // ---------------------------------------------------------------- whole runs

  /** A run: any finite interleaving of enabled steps. */
  ghost predicate Run(s: System, steps: seq<Step>, end: System)
    decreases |steps|
  {
    if steps == [] then s == end
    else CanStep(s, steps[0]) && Run(Apply(s, steps[0]), steps[1..], end)
  }

  ghost predicate Reachable(s: System) {
    exists aggregate, steps :: Run(Initial(aggregate), steps, s)
  }

  lemma {:induction false} InvRun(s: System, steps: seq<Step>, end: System)
    requires Inv(s) && Run(s, steps, end)
    ensures Inv(end)
    decreases |steps|
  {
    if steps != [] {
      InvStep(s, steps[0]);
      InvRun(Apply(s, steps[0]), steps[1..], end);
    }
  }

  lemma ReachableInv(s: System)
    requires Reachable(s)
    ensures Inv(s)
  {
    var aggregate, steps :| Run(Initial(aggregate), steps, s);
    InvRun(Initial(aggregate), steps, s);
  }

  /** In every interleaving, while some file is between its EnableDirectOutput and its
      CompletePendingFile, output mode is on and the current EOF channel is unsignalled: no command
      can end another command's output in the middle of its batch. */
  lemma WritersAreNeverCutOff(s: System, f: nat)
    requires Reachable(s) && FileIs(s, f, {Writing})
    ensures s.out.mode && !s.out.signalled
  {
    ReachableInv(s);
  }

  /** Output mode off means that nothing is left behind, neither queued nor half delivered. */
  lemma NothingIsStranded(s: System)
    requires Reachable(s) && !s.out.mode
    ensures s.out.Drained()
  {
    ReachableInv(s);
  }

  /** An ack channel is closed before it is replaced, so a waiter holds the current one or is free to go. */
  lemma WaitersNeverHoldADeadHandshake(s: System, c: nat)
    requires Reachable(s) && c in s.commands && s.commands[c].phase.Waiting?
    ensures s.commands[c].phase.handshake == s.out.handshake || s.commands[c].phase.handshake in s.out.acked
    ensures forall h :: 1 <= h < s.out.handshake ==> h in s.out.acked
  {
    ReachableInv(s);
    assert s.commands[c].phase.handshake in s.out.acked || s.commands[c].phase.handshake == s.out.handshake;
  }

  /** No lost wake-up: once every read is complete and no coordinator is inside its grace check, the
      aggregate has been told that its input is exhausted. */
  lemma InputFinishedIsNotLost(s: System)
    requires Reachable(s) && s.aggregate
    requires s.pending == 0 && AnyCompleted(s) && forall f :: !FileIs(s, f, {Grace})
    ensures s.inputFinished
  {
    ReachableInv(s);
  }

  /** The pending counter is exactly the number of files registered and not yet completed. */
  lemma PendingCountsOpenFiles(s: System)
    requires Reachable(s)
    ensures s.pending == |OpenFiles(s)| && s.pending >= 0
  {
    ReachableInv(s);
  }

  lemma {:induction false} RunExtends(s: System, steps: seq<Step>, end: System, step: Step)
    requires Run(s, steps, end) && CanStep(end, step)
    ensures Run(s, steps + [step], Apply(end, step))
    decreases |steps|
  {
    if steps == [] {
      assert steps + [step] == [step];
    } else {
      RunExtends(Apply(s, steps[0]), steps[1..], end, step);
      assert (steps + [step])[1..] == steps[1..] + [step];
    }
  }

  lemma ReachableStep(s: System, step: Step)
    requires Reachable(s) && CanStep(s, step)
    ensures Reachable(Apply(s, step))
  {
    var aggregate, steps :| Run(Initial(aggregate), steps, s);
    RunExtends(Initial(aggregate), steps, s, step);
  }

  /** The state in which one command has read its only file and is about to decide. */
  const ONE_READ_DONE := System(INITIAL.(mode := true, lines := Some([]), handshake := 1, epoch := 1), 0,
                                map[0 := File(0, Done)], map[0 := Command(true, Reading)], false, false, false)

  const ONE_READ_STARTED := System(INITIAL, 1,
                                   map[0 := File(0, Registered)], map[0 := Command(true, Reading)], false, false, false)

  lemma OneReadStartedIsReachable()
    ensures Reachable(ONE_READ_STARTED)
  {
    var s := Initial(false);
    assert Run(s, [], s);
    ReachableStep(s, Start(0, {0}, true));
    assert Apply(s, Start(0, {0}, true)) == ONE_READ_STARTED;
  }

  const ONE_READ_WRITING := ONE_READ_DONE.(pending := 1, files := map[0 := File(0, Writing)])

  lemma EnableStarts()
    ensures CanStep(ONE_READ_STARTED, EnableFile(0)) && Apply(ONE_READ_STARTED, EnableFile(0)) == ONE_READ_WRITING
  {
    var s := ONE_READ_STARTED;
    assert Enable(s.out) == ONE_READ_WRITING.out;
    assert s.files[0 := s.files[0].(state := Writing)] == ONE_READ_WRITING.files;
  }

  lemma OneReadWritingIsReachable()
    ensures Reachable(ONE_READ_WRITING)
  {
    OneReadStartedIsReachable();
    EnableStarts();
    ReachableStep(ONE_READ_STARTED, EnableFile(0));
  }

  lemma CompleteEnds()
    ensures CanStep(ONE_READ_WRITING, Complete(0)) && Apply(ONE_READ_WRITING, Complete(0)) == ONE_READ_DONE
  {
    var s := ONE_READ_WRITING;
    assert s.files[0 := s.files[0].(state := Done)] == ONE_READ_DONE.files;
  }

  lemma OneReadDoneIsReachable()
    ensures Reachable(ONE_READ_DONE)
  {
    OneReadWritingIsReachable();
    CompleteEnds();
    ReachableStep(ONE_READ_WRITING, Complete(0));
  }

  function OneReadIn(phase: Phase): System {
    ONE_READ_DONE.(commands := map[0 := Command(true, phase)])
  }

  /** The command goes through its epilogue alone. */
  lemma OneReadMoves(step: Step, from: Phase, to: Phase)
    requires (step == Gate(0) && from == Reading && to == Gated)
          || (step == Capture(0) && from == Gated && to == Captured(1))
          || (step == Check(0) && from == Captured(1) && to == Decided(1))
    requires Reachable(OneReadIn(from))
    ensures Reachable(OneReadIn(to))
  {
    var s := OneReadIn(from);
    assert CanStep(s, step);
    assert s.commands[0 := s.commands[0].(phase := to)] == OneReadIn(to).commands;
    assert Apply(s, step) == OneReadIn(to);
    ReachableStep(s, step);
  }

  lemma OneReadDecidedIsReachable()
    ensures Reachable(OneReadIn(Decided(1)))
  {
    OneReadDoneIsReachable();
    assert OneReadIn(Reading) == ONE_READ_DONE;
    OneReadMoves(Gate(0), Reading, Gated);
    OneReadMoves(Capture(0), Gated, Captured(1));
    OneReadMoves(Check(0), Captured(1), Decided(1));
  }

  /** Why the epoch is captured before the count is read. In some run a command has seen a zero count
      and a joiner is already writing; a signal under the epoch current at that moment, which a capture
      after the check could have returned, would end the joiner's output. The captured epoch does not. */
  lemma CaptureMustPrecedeTheCheck() returns (s: System)
    ensures Reachable(s)
    ensures CommandIs(s, 0, Decided(1)) && FileIs(s, 1, {Writing})
    ensures SignalEOF(s.out, s.out.epoch).signalled
    ensures !SignalEOF(s.out, 1).signalled
  {
    OneReadDecidedIsReachable();
    s := OneReadIn(Decided(1));
    ReachableStep(s, Start(1, {1}, true));
    s := Apply(s, Start(1, {1}, true));
    ReachableStep(s, EnableFile(1));
    s := Apply(s, EnableFile(1));
  }
}
