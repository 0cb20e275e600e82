/** The batching network writer of the output path (internal/server/handlers/line_writer.go):
    goroutines write lines and flush concurrently, one of them at a time sends a batch. */
module NetworkWriters {
  import opened Wrappers
  import opened Bytes
  import opened GenerationOutput
  import opened OutputManagers
  import opened Framing
  import opened ServerReads

  const BUF_SIZE: nat := 0x1_0000
  const FULL_PERC: ByteString := [0x31, 0x30, 0x30]

  /** The message a line becomes. Serverless sessions get no header either. */
  function LineText(s: Session, number: nat, source: ByteString, content: ByteString): ByteString {
    LineMessage(if s.serverless then s.(plain := true) else s, Line(0, FULL_PERC, number, source, content))
  }

  /** The length of the messages' frames. */
  function Size(messages: seq<ByteString>): nat {
    if messages == [] then 0 else Size(messages[..|messages| - 1]) + |messages[|messages| - 1]| + 1
  }

  lemma {:induction false} FramesSize(messages: seq<ByteString>)
    ensures |Frames(messages, MESSAGE_DELIMITER)| == Size(messages)
  {
    if messages != [] {
      FramesSize(messages[..|messages| - 1]);
    }
  }

  lemma FramesGrow(messages: seq<ByteString>, message: ByteString)
    ensures Frames(messages + [message], MESSAGE_DELIMITER) == Frames(messages, MESSAGE_DELIMITER) + message + [MESSAGE_DELIMITER]
  {
    assert (messages + [message])[..|messages + [message]| - 1] == messages;
  }

  lemma SizeGrows(messages: seq<ByteString>, message: ByteString)
    ensures Size(messages + [message]) == Size(messages) + |message| + 1
  {
    assert (messages + [message])[..|messages + [message]| - 1] == messages;
  }

  /** What the writer's mutex guards, with the buffer as the list of messages it holds the frames of. */
  datatype Writer = Writer(buffered: seq<ByteString>, sending: bool, linesWritten: nat, bytesWritten: nat)

  const EMPTY_WRITER := Writer([], false, 0, 0)

  /** The locked part of WriteLineData: the new state, and the batch to send if the buffer is full and
      nobody is sending. */
  function WriteLocked(w: Writer, message: ByteString): (Writer, Option<seq<ByteString>>) {
    var more := w.buffered + [message];
    var w' := Writer(more, w.sending, w.linesWritten + 1, w.bytesWritten + |message| + 1);
    if Size(more) < BUF_SIZE || w.sending then (w', None) else (w'.(buffered := [], sending := true), Some(more))
  }

  /** The locked part of Flush: None if a send is under way, otherwise the batch to send, [] for none. */
  function FlushLocked(w: Writer): (Writer, Option<seq<ByteString>>) {
    if w.sending then (w, None)
    else if w.buffered == [] then (w, Some([]))
    else (w.(buffered := [], sending := true), Some(w.buffered))
  }

  class NetworkWriter {
    const session: Session
    var writeBuf: ByteString
    var sending: bool
    var linesWritten: nat
    var bytesWritten: nat
    ghost var buffered: seq<ByteString>

    ghost function View(): Writer
      reads this
    {
      Writer(buffered, sending, linesWritten, bytesWritten)
    }

    /** The buffer holds whole frames. */
    ghost predicate Valid()
      reads this
    {
      writeBuf == Frames(buffered, MESSAGE_DELIMITER)
    }

    constructor (session: Session)
      ensures Valid() && View() == EMPTY_WRITER && this.session == session
    {
      this.session := session;
      writeBuf, sending, linesWritten, bytesWritten, buffered := [], false, 0, 0, [];
    }

    method Append(message: ByteString)
      requires Valid()
      modifies this`writeBuf, this`linesWritten, this`bytesWritten, this`buffered
      ensures Valid() && View() == Writer(old(buffered) + [message], sending, old(linesWritten) + 1, old(bytesWritten) + |message| + 1)
    {
      FramesGrow(buffered, message);
      var before := |writeBuf|;
      writeBuf := writeBuf + message + [MESSAGE_DELIMITER];
      linesWritten, bytesWritten := linesWritten + 1, bytesWritten + (|writeBuf| - before);
      buffered := buffered + [message];
    }

    /** The bytes to send are the frames of the batch. */
    method WriteLineData(content: ByteString, number: nat, source: ByteString) returns (data: ByteString, ghost batch: Option<seq<ByteString>>)
      requires Valid()
      modifies this
      ensures Valid() && (View(), batch) == WriteLocked(old(View()), LineText(session, number, source, content))
      ensures data == if batch.Some? then Frames(batch.value, MESSAGE_DELIMITER) else []
    {
      if !session.plain && !session.serverless {
        Append(LineMessage(session, Line(0, FULL_PERC, number, source, content)));
      } else {
        Append(content);
      }
      FramesSize(buffered);
      if |writeBuf| < BUF_SIZE || sending {
        return [], None;
      }
      data, batch := writeBuf, Some(buffered);
      writeBuf, sending, buffered := [], true, [];
    }

    method TakeForFlush() returns (data: ByteString, ghost batch: Option<seq<ByteString>>)
      requires Valid()
      modifies this
      ensures Valid() && (View(), batch) == FlushLocked(old(View()))
      ensures data == if batch.Some? then Frames(batch.value, MESSAGE_DELIMITER) else []
    {
      if sending {
        return [], None;
      }
      data, batch := writeBuf, Some(buffered);
      FramesSize(buffered);
      if writeBuf != [] {
        writeBuf, sending, buffered := [], true, [];
      }
    }

    method FinishSending()
      requires Valid()
      modifies this`sending
      ensures Valid() && View() == old(View()).(sending := false)
    {
      if sending {
        sending := false;
      }
    }
  }

  // ---------------------------------------------------------------- interleavings

  /** What became of a batch: put on the channel, dropped because its generation went stale, or given up
      because the request was cancelled. Only the last makes the call return an error. */
  datatype Fate = Sent | Stale | Cancelled

  datatype Batch = Batch(messages: seq<ByteString>, fate: Fate)

  /** Where a goroutine is. `flush` tells a sending Flush from a sending WriteLineData; a Flush that
      returned remembers how many lines had been written by then. */
  datatype Routine =
    | Idle
    | Sending(messages: seq<ByteString>, flush: bool)
    | Finishing(ok: bool, flush: bool)
    | Flushing
    | Available
    | Flushed(ok: bool, mark: nat)
  {
    predicate Busy() {
      Sending? || Finishing?
    }
    predicate Free() {
      Idle? || Flushed?
    }
  }

  /** `written` lists the messages of every WriteLineData so far in lock order, and `sender` names the
      goroutine that set the sending flag. */
  datatype System = System(
    w: Writer,
    routines: map<nat, Routine>,
    batches: seq<Batch>,
    sender: Option<nat>,
    written: seq<ByteString>)

  predicate Initial(s: System) {
    && s.w == EMPTY_WRITER && s.batches == [] && s.sender == None && s.written == []
    && forall r :: r in s.routines ==> s.routines[r] == Idle
  }

  /** Lines of a stale generation are not written at all and take no step. */
  datatype Step =
    | Write(r: nat, message: ByteString)
    | Send(r: nat, fate: Fate)
    | Finish(r: nat)
    | StartFlush(r: nat)
    | Poll(r: nat)
    | TryTake(r: nat)
    | GiveUp(r: nat)

  predicate Enabled(s: System, step: Step) {
    step.r in s.routines &&
    var r := s.routines[step.r];
    match step
    case Write(_, _) => r.Free()
    case Send(_, _) => r.Sending?
    case Finish(_) => r.Finishing?
    case StartFlush(_) => r.Free()
    case Poll(_) => r.Flushing?
    case TryTake(_) => r.Available?
    case GiveUp(_) => r.Flushing?
  }

  function Set(s: System, r: nat, routine: Routine): System {
    s.(routines := s.routines[r := routine])
  }

  function Apply(s: System, step: Step): System
    requires Enabled(s, step)
  {
    var r := step.r;
    match step
    case Write(_, message) =>
      var (w, batch) := WriteLocked(s.w, message);
      var s' := s.(w := w, written := s.written + [message]);
      if batch.None? then Set(s', r, Idle) else Set(s'.(sender := Some(r)), r, Sending(batch.value, false))
    case Send(_, fate) =>
      var now := s.routines[r];
      Set(s.(batches := s.batches + [Batch(now.messages, fate)]), r, Finishing(fate != Cancelled, now.flush))
    case Finish(_) =>
      var now := s.routines[r];
      Set(s.(w := s.w.(sending := false), sender := None), r,
        if !now.flush then Idle else if now.ok then Flushing else Flushed(false, 0))
    case StartFlush(_) => Set(s, r, Flushing)
    case Poll(_) => if s.w.sending then s else Set(s, r, Available)
    case TryTake(_) =>
      var (w, batch) := FlushLocked(s.w);
      if batch.None? then Set(s, r, Flushing)
      else if batch.value == [] then Set(s, r, Flushed(true, |s.written|))
      else Set(s.(w := w, sender := Some(r)), r, Sending(batch.value, true))
    case GiveUp(_) => Set(s, r, Flushed(false, 0))
  }

  /** The messages of all batches that left the writer, in order. */
  function Handed(batches: seq<Batch>): seq<ByteString> {
    if batches == [] then [] else Handed(batches[..|batches| - 1]) + batches[|batches| - 1].messages
  }

  /** The messages of the batch being sent. */
  function InFlight(s: System): seq<ByteString> {
    if s.sender.Some? && s.sender.value in s.routines && s.routines[s.sender.value].Sending?
    then s.routines[s.sender.value].messages else []
  }

  /** The sending flag is a lock: it is up exactly while one goroutine is between taking a batch and
      finishing it. */
  ghost predicate OneSender(s: System) {
    && (s.w.sending <==> s.sender.Some?)
    && (s.sender.Some? ==> s.sender.value in s.routines)
    && (forall r :: r in s.routines ==> (s.routines[r].Busy() <==> s.sender == Some(r)))
  }

  ghost predicate Conserved(s: System) {
    && Handed(s.batches) + InFlight(s) + s.w.buffered == s.written
    && s.w.linesWritten == |s.written| && s.w.bytesWritten == Size(s.written)
  }

  ghost predicate FlushesCover(s: System) {
    forall r :: r in s.routines && s.routines[r].Flushed? && s.routines[r].ok ==>
      s.routines[r].mark <= |Handed(s.batches)|
  }

  ghost predicate Inv(s: System) {
    OneSender(s) && Conserved(s) && FlushesCover(s)
  }

  lemma HandedGrows(batches: seq<Batch>, b: Batch)
    ensures Handed(batches + [b]) == Handed(batches) + b.messages
  {
    assert (batches + [b])[..|batches + [b]| - 1] == batches;
  }

  /** One goroutine moves on and nothing else about the senders changes. */
  lemma OneSenderMoves(s: System, s': System, r: nat, routine: Routine)
    requires OneSender(s) && r in s.routines && s'.routines == s.routines[r := routine]
    requires s'.sender == s.sender && s'.w.sending == s.w.sending && routine.Busy() == s.routines[r].Busy()
    ensures OneSender(s')
  {
  }

  /** A goroutine takes a batch while nobody is sending. */
  lemma OneSenderTakes(s: System, s': System, r: nat, routine: Routine)
    requires OneSender(s) && !s.w.sending && r in s.routines && s'.routines == s.routines[r := routine]
    requires s'.sender == Some(r) && s'.w.sending && routine.Busy()
    ensures OneSender(s')
  {
  }

  lemma OneSenderFinishes(s: System, s': System, r: nat, routine: Routine)
    requires OneSender(s) && r in s.routines && s.routines[r].Busy() && s'.routines == s.routines[r := routine]
    requires s'.sender == None && !s'.w.sending && !routine.Busy()
    ensures OneSender(s')
  {
  }

  lemma OneSenderStep(s: System, step: Step)
    requires OneSender(s) && Enabled(s, step)
    ensures OneSender(Apply(s, step))
  {
    var r, s' := step.r, Apply(s, step);
    if s' == s {
    } else if step.Finish? {
      OneSenderFinishes(s, s', r, s'.routines[r]);
    } else if s'.routines[r].Sending? {
      OneSenderTakes(s, s', r, s'.routines[r]);
    } else {
      OneSenderMoves(s, s', r, s'.routines[r]);
    }
  }

  /** Three parts of one list: the last grows, or the last moves into an empty middle, or the middle
      moves to the end of the first. */
  lemma Shift(a: seq<ByteString>, b: seq<ByteString>, c: seq<ByteString>, m: seq<ByteString>)
    ensures a + b + (c + m) == (a + b + c) + m
    ensures a + [] + c == a + c + []
    ensures (a + b) + [] + c == a + b + c
  {
  }

  /** A line that stays in the buffer. */
  lemma BufferedWrite(s: System, message: ByteString)
    requires Conserved(s)
    ensures Handed(s.batches) + InFlight(s) + (s.w.buffered + [message]) == s.written + [message]
    ensures InFlight(s) == [] ==> Handed(s.batches) + (s.w.buffered + [message]) + [] == s.written + [message]
  {
    Shift(Handed(s.batches), InFlight(s), s.w.buffered, [message]);
    Shift(Handed(s.batches), [], s.w.buffered + [message], []);
  }

  lemma ConservedWrite(s: System, step: Step)
    requires Inv(s) && Enabled(s, step) && step.Write?
    ensures Conserved(Apply(s, step))
  {
    var s' := Apply(s, step);
    SizeGrows(s.written, step.message);
    BufferedWrite(s, step.message);
    if s'.sender == s.sender {
      assert InFlight(s') == InFlight(s);
    } else {
      assert InFlight(s) == [] && InFlight(s') == s.w.buffered + [step.message];
    }
  }

  lemma ConservedSend(s: System, step: Step)
    requires Inv(s) && Enabled(s, step) && step.Send?
    ensures Conserved(Apply(s, step))
  {
    var now := s.routines[step.r];
    HandedGrows(s.batches, Batch(now.messages, step.fate));
    assert InFlight(s) == now.messages && InFlight(Apply(s, step)) == [];
    Shift(Handed(s.batches), InFlight(s), s.w.buffered, []);
  }

  lemma ConservedStep(s: System, step: Step)
    requires Inv(s) && Enabled(s, step)
    ensures Conserved(Apply(s, step))
  {
    if step.Write? {
      ConservedWrite(s, step);
    } else if step.Send? {
      ConservedSend(s, step);
    } else if step.TryTake? && !s.w.sending && s.w.buffered != [] {
      assert InFlight(s) == [] && InFlight(Apply(s, step)) == s.w.buffered;
      Shift(Handed(s.batches), [], s.w.buffered, []);
    } else {
      assert InFlight(Apply(s, step)) == InFlight(s);
    }
  }

  /** With no send under way and an empty buffer every message has left. */
  lemma NothingPending(s: System)
    requires OneSender(s) && Conserved(s) && !s.w.sending && s.w.buffered == []
    ensures Handed(s.batches) == s.written
  {
    assert Handed(s.batches) + [] + [] == Handed(s.batches);
  }

  /** One goroutine moves on, and no batch is taken back. */
  lemma FlushesCoverMoves(s: System, s': System, r: nat, routine: Routine)
    requires FlushesCover(s) && s'.routines == s.routines[r := routine]
    requires |Handed(s.batches)| <= |Handed(s'.batches)|
    requires routine.Flushed? && routine.ok ==> routine.mark <= |Handed(s'.batches)|
    ensures FlushesCover(s')
  {
  }

  lemma FlushesCoverStep(s: System, step: Step)
    requires Inv(s) && Enabled(s, step)
    ensures FlushesCover(Apply(s, step))
  {
    var r, s' := step.r, Apply(s, step);
    if step.Send? {
      HandedGrows(s.batches, Batch(s.routines[r].messages, step.fate));
    } else {
      assert s'.batches == s.batches;
    }
    if step.TryTake? && !s.w.sending && s.w.buffered == [] {
      NothingPending(s);
    }
    if s' != s {
      FlushesCoverMoves(s, s', r, s'.routines[r]);
    }
  }

  lemma InvStep(s: System, step: Step)
    requires Inv(s) && Enabled(s, step)
    ensures Inv(Apply(s, step))
  {
    OneSenderStep(s, step);
    ConservedStep(s, step);
    FlushesCoverStep(s, step);
  }

  ghost predicate Run(s: System, steps: seq<Step>, end: System)
    decreases |steps|
  {
    if steps == [] then s == end
    else Enabled(s, steps[0]) && Run(Apply(s, steps[0]), steps[1..], end)
  }

  ghost predicate Reachable(s: System) {
    exists start, steps :: Initial(start) && Run(start, steps, s)
  }

  lemma {:induction false} InvRun(s: System, steps: seq<Step>, end: System)
    requires Inv(s) && Run(s, steps, end)
    ensures Inv(end)
    decreases |steps|
  {
    if steps != [] {
      InvStep(s, steps[0]);
      InvRun(Apply(s, steps[0]), steps[1..], end);
    }
  }

  lemma ReachableInv(s: System)
    requires Reachable(s)
    ensures Inv(s)
  {
    var start, steps :| Initial(start) && Run(start, steps, s);
    InvRun(start, steps, s);
  }

  // ---------------------------------------------------------------- theorems over all interleavings

  /** The bytes of the batches that left, one payload each. */
  function Payloads(batches: seq<Batch>): seq<ByteString> {
    if batches == [] then []
    else Payloads(batches[..|batches| - 1]) + [Frames(batches[|batches| - 1].messages, MESSAGE_DELIMITER)]
  }

  lemma {:induction false} PayloadsAreFrames(batches: seq<Batch>)
    ensures Concat(Payloads(batches)) == Frames(Handed(batches), MESSAGE_DELIMITER)
    decreases |batches|
  {
    if batches != [] {
      var n := |batches| - 1;
      PayloadsAreFrames(batches[..n]);
      FramesSplit(Handed(batches[..n]), batches[n].messages, MESSAGE_DELIMITER);
      ConcatMore(Payloads(batches[..n]), Frames(batches[n].messages, MESSAGE_DELIMITER));
    }
  }

  /** What left the writer, what is on its way and what waits. */
  function AllBytes(s: System): ByteString {
    Concat(Payloads(s.batches)) + Frames(InFlight(s), MESSAGE_DELIMITER) + Frames(s.w.buffered, MESSAGE_DELIMITER)
  }

  lemma AllBytesAreFrames(s: System)
    ensures AllBytes(s) == Frames(Handed(s.batches) + InFlight(s) + s.w.buffered, MESSAGE_DELIMITER)
  {
    PayloadsAreFrames(s.batches);
    FramesSplit(Handed(s.batches), InFlight(s), MESSAGE_DELIMITER);
    FramesSplit(Handed(s.batches) + InFlight(s), s.w.buffered, MESSAGE_DELIMITER);
  }

  /** Batches that left, the batch in flight and the buffer are all formatted lines, in lock order. */
  lemma NothingIsLostOrReordered(s: System)
    requires Reachable(s)
    ensures AllBytes(s) == Frames(s.written, MESSAGE_DELIMITER) && s.w.bytesWritten == |AllBytes(s)|
  {
    ReachableInv(s);
    AllBytesAreFrames(s);
    FramesSize(s.written);
  }

  /** At most one goroutine is sending. */
  lemma SendsNeverOverlap(s: System, a: nat, b: nat)
    requires Reachable(s) && a in s.routines && b in s.routines
    requires s.routines[a].Busy() && s.routines[b].Busy()
    ensures a == b
  {
    ReachableInv(s);
  }

  /** A Flush that returned nil covers every line written before it returned, whatever other goroutines
      did meanwhile and since; if none was written since, nothing is buffered or in flight. */
  lemma FlushCoversWhatWasWritten(s: System, r: nat)
    requires Reachable(s) && r in s.routines && s.routines[r].Flushed? && s.routines[r].ok
    ensures s.routines[r].mark <= |s.written| && s.written[..s.routines[r].mark] <= Handed(s.batches)
    ensures s.routines[r].mark == |s.written| ==> s.w.buffered == [] && InFlight(s) == []
  {
    ReachableInv(s);
    assert s.written[..|Handed(s.batches)|] == Handed(s.batches);
  }

  // ---------------------------------------------------------------- progress

  /** With nobody sending, a line that fills the buffer takes the whole buffer along; no other line does.
      While somebody is sending, lines wait. */
  lemma FullBuffersLeave(s: System, r: nat, message: ByteString)
    requires Reachable(s) && Enabled(s, Write(r, message))
    ensures var s', more := Apply(s, Write(r, message)), s.w.buffered + [message];
            if !s.w.sending && |Frames(more, MESSAGE_DELIMITER)| >= 0x1_0000
            then InFlight(s') == more && s'.w.buffered == []
            else InFlight(s') == InFlight(s) && s'.w.buffered == more
  {
    ReachableInv(s);
    FramesSize(s.w.buffered + [message]);
  }

  lemma RunStep(s: System, step: Step, rest: seq<Step>, end: System)
    requires Enabled(s, step) && Run(Apply(s, step), rest, end)
    ensures Run(s, [step] + rest, end)
  {
    assert ([step] + rest)[1..] == rest;
  }

  lemma {:induction false} RunConcat(s: System, a: seq<Step>, mid: System, b: seq<Step>, end: System)
    requires Run(s, a, mid) && Run(mid, b, end)
    ensures Run(s, a + b, end)
    decreases |a|
  {
    if a == [] {
      assert a + b == b;
    } else {
      RunConcat(Apply(s, a[0]), a[1..], mid, b, end);
      assert (a + b)[1..] == a[1..] + b;
    }
  }

  lemma SendDone(s: System, q: nat)
    requires Inv(s) && q in s.routines && s.routines[q].Sending?
    ensures var s' := Apply(s, Send(q, Sent));
            && Inv(s') && s' == s.(batches := s'.batches, routines := s.routines[q := Finishing(true, s.routines[q].flush)])
  {
    InvStep(s, Send(q, Sent));
  }

  lemma FinishDone(s: System, q: nat)
    requires Inv(s) && q in s.routines && s.routines[q].Finishing?
    ensures var s' := Apply(s, Finish(q));
            && Inv(s') && !s'.w.sending && s'.w.buffered == s.w.buffered && s'.written == s.written
            && s'.routines == s.routines[q := s'.routines[q]] && !s'.routines[q].Busy()
            && (s.routines[q].flush && s.routines[q].ok ==> s'.routines[q] == Flushing)
  {
    InvStep(s, Finish(q));
  }

  /** Whoever is sending can get done. */
  lemma SenderFinishes(s: System) returns (steps: seq<Step>, end: System)
    requires Inv(s)
    ensures Run(s, steps, end) && Inv(end) && !end.w.sending && end.written == s.written && end.w.buffered == s.w.buffered
    ensures forall r :: r in s.routines && !s.routines[r].Busy() ==> r in end.routines && end.routines[r] == s.routines[r]
    ensures forall r :: r in s.routines && s.routines[r].Sending? && s.routines[r].flush ==> r in end.routines && end.routines[r] == Flushing
  {
    steps, end := [], s;
    if s.sender.Some? {
      var q := s.sender.value;
      var mid := s;
      if s.routines[q].Sending? {
        SendDone(s, q);
        mid := Apply(s, Send(q, Sent));
      }
      FinishDone(mid, q);
      end := Apply(mid, Finish(q));
      assert Run(end, [], end);
      RunStep(mid, Finish(q), [], end);
      steps := [Finish(q)] + [];
      if s.routines[q].Sending? {
        RunStep(s, Send(q, Sent), steps, end);
        steps := [Send(q, Sent)] + steps;
      }
    }
  }

  /** A turn of Flush while nobody is sending: it takes what is buffered, or finds that there is nothing. */
  lemma FlushTurn(s: System, r: nat) returns (steps: seq<Step>, end: System)
    requires Inv(s) && !s.w.sending && r in s.routines && s.routines[r].Flushing?
    ensures Run(s, steps, end) && Inv(end) && end.written == s.written && end.w.buffered == [] && r in end.routines
    ensures if s.w.buffered == [] then !end.w.sending && end.routines[r] == Flushed(true, |s.written|)
            else end.routines[r] == Sending(s.w.buffered, true)
  {
    InvStep(s, Poll(r));
    var mid := Apply(s, Poll(r));
    InvStep(mid, TryTake(r));
    end := Apply(mid, TryTake(r));
    assert Run(end, [], end);
    RunStep(mid, TryTake(r), [], end);
    RunStep(s, Poll(r), [TryTake(r)] + [], end);
    steps := [Poll(r)] + ([TryTake(r)] + []);
  }

  /** No Flush hangs: from every reachable state, a Flush that has started can return nil with every line
      written so far handed over, if no further line is written. */
  lemma FlushCanFinish(s: System, r: nat) returns (steps: seq<Step>, end: System)
    requires Reachable(s) && r in s.routines && s.routines[r].Flushing?
    ensures Run(s, steps, end) && end.written == s.written
    ensures r in end.routines && end.routines[r] == Flushed(true, |s.written|) && Handed(end.batches) == s.written
  {
    ReachableInv(s);
    var more;
    steps, end := SenderFinishes(s);
    var empty := end.w.buffered == [];
    var mid := end;
    more, end := FlushTurn(mid, r);
    RunConcat(s, steps, mid, more, end);
    steps := steps + more;
    if !empty {
      mid := end;
      more, end := SenderFinishes(mid);
      RunConcat(s, steps, mid, more, end);
      steps := steps + more;
      mid := end;
      more, end := FlushTurn(mid, r);
      RunConcat(s, steps, mid, more, end);
      steps := steps + more;
    }
    NothingPending(end);
  }

  // ---------------------------------------------------------------- reading a batch back

  /** Reads as tagged with a generation, which costs a bare payload its beginning. */
  ghost predicate LooksTagged(data: ByteString) {
    exists g: nat, rest :: g != 0 && Tagged(data, g, rest)
  }

  /** The payload a live batch becomes is read back by the client as exactly its messages, however many
      lines were batched together: always in a session with a generation, and in one without, where
      payloads travel bare, if and only if the batch does not itself read as tagged. */
  lemma PayloadCarriesItsLines(session: Session, batch: Batch, generation: nat, active: nat)
    requires Free(batch.messages, MESSAGE_DELIMITER)
    requires generation <= MAX_UINT64 && !ShouldDrop(generation, active)
    ensures var data := Frames(batch.messages, MESSAGE_DELIMITER);
            Carries(session, Taken(Payload(EncodeMessage(generation, data)), active), batch.messages)
            <==> generation > 0 || !LooksTagged(data)
  {
    var data := Frames(batch.messages, MESSAGE_DELIMITER);
    if generation > 0 {
      DecodeInvertsEncode(generation, data);
    } else {
      BarePayload(session, data, active);
    }
  }

  lemma BarePayload(session: Session, data: ByteString, active: nat)
    ensures Delivery(session, Taken(Payload(data), active)) == data <==> !LooksTagged(data)
  {
    UntaggedSurvives(data);
    if LooksTagged(data) {
      var g: nat, rest :| g != 0 && Tagged(data, g, rest);
      TaggedDecodes(data, g, rest);
      TaggedIsLonger(data, g, rest);
    }
  }

  lemma TaggedIsLonger(data: ByteString, g: nat, rest: ByteString)
    requires Tagged(data, g, rest)
    ensures |rest| < |data| && data != [] && data[0] == PREFIX[0]
  {
    var digits :| ParseUint(digits) == Some(g) && data == PREFIX + digits + [SEPARATOR] + rest;
    assert data[0] == PREFIX[0];
  }

  /** Lines with a header never read as tagged, so sessions that send headers lose nothing. */
  lemma RemoteBatchIsNotTagged(messages: seq<ByteString>)
    requires messages != [] ==> messages[0] != [] && messages[0][0] == REMOTE[0]
    ensures !LooksTagged(Frames(messages, MESSAGE_DELIMITER))
  {
    var data := Frames(messages, MESSAGE_DELIMITER);
    forall g: nat, rest | Tagged(data, g, rest)
      ensures data != [] && data[0] == PREFIX[0]
    {
      TaggedIsLonger(data, g, rest);
    }
    if messages != [] {
      FramesFirst(messages, MESSAGE_DELIMITER);
      assert data[0] == messages[0][0];
    }
  }

  lemma RemoteLineStartsWithHeader(s: Session, number: nat, source: ByteString, content: ByteString)
    requires !s.plain && !s.serverless
    ensures var m := LineText(s, number, source, content); m != [] && m[0] == REMOTE[0]
  {
    var parts := [REMOTE, s.hostname, FULL_PERC, Decimal(number), source, content];
    assert Fields(parts) == parts[0] + [FIELD] + Fields(parts[1..]);
  }

  /** In plain mode without a generation, a line that starts like a tag arrives without that beginning. */
  lemma PlainLineLosesTagText(session: Session, g: nat, rest: ByteString, active: nat)
    requires 0 < g <= MAX_UINT64 && !ShouldDrop(g, active) && MESSAGE_DELIMITER !in rest
    ensures var line := PREFIX + Decimal(g) + [SEPARATOR] + rest;
            Carries(session, Taken(Payload(EncodeMessage(0, Frames([line], MESSAGE_DELIMITER))), active), [rest])
  {
    var line := PREFIX + Decimal(g) + [SEPARATOR] + rest;
    FramesFirst([line], MESSAGE_DELIMITER);
    FramesFirst([rest], MESSAGE_DELIMITER);
    DecodeInvertsEncode(g, Frames([rest], MESSAGE_DELIMITER));
    assert Frames([line], MESSAGE_DELIMITER) == EncodeMessage(g, Frames([rest], MESSAGE_DELIMITER));
  }
}
