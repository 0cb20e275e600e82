/** Whole runs of the output session: when the end of a batch comes and when it must not, when the input of
    an aggregate is finished, and what the reader gets. */
module OutputRuns {
  import opened Wrappers
  import opened Bytes
  import opened GenerationOutput
  import opened OutputManagers
  import opened OutputProtocol

  predicate IsReader(step: Step) {
    step.ReaderTry? || step.ReaderResume?
  }

  lemma {:induction false} RunConcat(s: System, a: seq<Step>, mid: System, b: seq<Step>, end: System)
    requires Run(s, a, mid) && Run(mid, b, end)
    ensures Run(s, a + b, end)
    decreases |a|
  {
    if a == [] {
      assert a + b == b;
    } else {
      RunConcat(Apply(s, a[0]), a[1..], mid, b, end);
      assert (a + b)[1..] == a[1..] + b;
    }
  }

  lemma RunStep(s: System, step: Step, rest: seq<Step>, end: System)
    requires CanStep(s, step) && Run(Apply(s, step), rest, end)
    ensures Run(s, [step] + rest, end)
  {
    assert ([step] + rest)[1..] == rest;
  }

  lemma RunReaches(s: System, steps: seq<Step>, end: System)
    requires Reachable(s) && Run(s, steps, end)
    ensures Reachable(end)
  {
    var aggregate, before :| Run(Initial(aggregate), before, s);
    RunConcat(Initial(aggregate), before, s, steps, end);
  }

  // ---------------------------------------------------------------- the input is not finished too early

  ghost predicate GraceFeedsAggregate(s: System) {
    forall f :: FileIs(s, f, {Grace}) ==> s.aggregate
  }

  lemma GraceStep(s: System, step: Step)
    requires CanStep(s, step) && GraceFeedsAggregate(s)
    ensures GraceFeedsAggregate(Apply(s, step)) && Apply(s, step).aggregate == s.aggregate
  {
    var s' := Apply(s, step);
    forall f | FileIs(s', f, {Grace})
      ensures s'.aggregate
    {
      if !step.Complete? || f != step.f {
        assert FileIs(s, f, {Grace});
      }
    }
  }

  lemma {:induction false} GraceRun(s: System, steps: seq<Step>, end: System)
    requires Run(s, steps, end) && GraceFeedsAggregate(s)
    ensures GraceFeedsAggregate(end) && end.aggregate == s.aggregate
    decreases |steps|
  {
    if steps != [] {
      GraceStep(s, steps[0]);
      GraceRun(Apply(s, steps[0]), steps[1..], end);
    }
  }

  /** The end of the input is signalled only while every registered file is completed, and only to an
      aggregate that is fed by one-shot reads. */
  ghost predicate InputIsOver(s: System) {
    s.aggregate && s.pending == 0 && OpenFiles(s) == {} && AnyCompleted(s)
  }

  lemma FinishIsJustified(s: System, step: Step)
    requires Reachable(s) && CanStep(s, step)
    requires !s.inputFinished && Apply(s, step).inputFinished
    ensures step.Recheck? && InputIsOver(s)
  {
    ReachableInv(s);
    var aggregate, steps :| Run(Initial(aggregate), steps, s);
    GraceRun(Initial(aggregate), steps, s);
    assert FileIs(s, step.f, {Grace});
    assert FileIs(s, step.f, {Grace, Done});
  }

  /** In every run that ends with the input finished, some coordinator saw it over at the end of its grace. */
  lemma {:induction false} FinishedAfterTheEnd(s: System, steps: seq<Step>, end: System) returns (i: nat, mid: System)
    requires Reachable(s) && Run(s, steps, end) && !s.inputFinished && end.inputFinished
    ensures i < |steps| && Run(s, steps[..i], mid) && steps[i].Recheck? && CanStep(mid, steps[i])
    ensures InputIsOver(mid) && !mid.inputFinished && Run(Apply(mid, steps[i]), steps[i + 1..], end)
    decreases |steps|
  {
    var s' := Apply(s, steps[0]);
    if s'.inputFinished {
      FinishIsJustified(s, steps[0]);
      i, mid := 0, s;
    } else {
      ReachableStep(s, steps[0]);
      i, mid := FinishedAfterTheEnd(s', steps[1..], end);
      assert steps[..i + 1][1..] == steps[1..][..i];
      assert steps[1..][i + 1..] == steps[i + 2..];
      i := i + 1;
    }
  }

  // ---------------------------------------------------------------- what is sent and what is queued

  function Queue(s: System): seq<ByteString> {
    if s.out.lines.Some? then s.out.lines.value else []
  }

  function SentBy(step: Step): seq<ByteString> {
    if step.Send? then [step.payload] else []
  }

  function SentIn(steps: seq<Step>): seq<ByteString> {
    if steps == [] then [] else SentBy(steps[0]) + SentIn(steps[1..])
  }

  /** Nothing but the reader takes a payload off the channel or touches the remainder. */
  lemma OnlyTheReaderTakes(s: System, step: Step)
    requires CanStep(s, step) && !IsReader(step) && !step.ReaderPause?
    ensures Queue(Apply(s, step)) == Queue(s) + SentBy(step) && Apply(s, step).out.buffer == s.out.buffer
  {
  }

  // ---------------------------------------------------------------- the mode goes off after a quiet period

  /** From s to end nothing was sent that was not also still queued, and the handshake stayed the same. */
  predicate Quietly(s: System, steps: seq<Step>, end: System) {
    end.out.handshake == s.out.handshake && Queue(end) == Queue(s) + SentIn(steps)
  }

  /** The mark of a quiet channel is set by a read that finds it empty behind a signalled EOF, or was set before. */
  lemma MarkStep(s: System, step: Step)
    requires CanStep(s, step) && Apply(s, step).out.emptySince.Some?
    ensures var s' := Apply(s, step);
            || (s.out.emptySince == s'.out.emptySince && Quietly(s, [step], s'))
            || (IsReader(step) && s'.out.emptySince == Some(step.now) && Queue(s') == [] && s'.out.signalled)
  {
    assert SentIn([step]) == SentBy(step) + SentIn([]);
    if step.ReaderTry? && s.out.buffer == [] && s.out.lines.Some? && s.out.mode {
      MarkReceive(s.out, step.room, step.active, step.now, step.quiet);
    } else if step.ReaderResume? {
      MarkReceive(s.out, step.room, step.active, step.now, step.quiet);
    } else if !step.ReaderTry? && !step.ReaderPause? {
      OnlyTheReaderTakes(s, step);
    }
  }

  lemma {:induction false} MarkReceive(o: Output, room: nat, active: nat, now: int, quiet: int)
    requires o.lines.Some? && o.buffer == [] && Receive(o, room, active, now, quiet).out.emptySince.Some?
    ensures var o' := Receive(o, room, active, now, quiet).out;
            && o'.lines == Some([]) && o'.handshake == o.handshake && o'.signalled == o.signalled
            && ((o'.emptySince == Some(now) && o'.signalled) || (o.lines == Some([]) && o'.emptySince == o.emptySince))
    decreases |o.lines.value|
  {
    var lines := o.lines.value;
    if lines != [] && ShouldDrop(DecodeBytes(lines[0]).0, active) {
      MarkReceive(o.(lines := Some(lines[1..]), emptySince := None), room, active, now, quiet);
    }
  }

  /** The read that set the mark of a state, if the run set it: since then nothing was sent, or it is queued. */
  ghost predicate MarkedAt(s: System, steps: seq<Step>, end: System, i: nat, mid: System) {
    && i < |steps| && IsReader(steps[i]) && end.out.emptySince == Some(steps[i].now)
    && Run(s, steps[..i + 1], mid) && Run(mid, steps[i + 1..], end)
    && Queue(mid) == [] && mid.out.signalled && Quietly(mid, steps[i + 1..], end)
  }

  lemma MarkedNow(s: System, step: Step, rest: seq<Step>, end: System)
    requires CanStep(s, step) && IsReader(step) && Run(Apply(s, step), rest, end)
    requires Queue(Apply(s, step)) == [] && Apply(s, step).out.signalled && Quietly(Apply(s, step), rest, end)
    requires end.out.emptySince == Some(step.now)
    ensures MarkedAt(s, [step] + rest, end, 0, Apply(s, step))
  {
    var steps, s' := [step] + rest, Apply(s, step);
    assert steps[..1] == [step] + [] && steps[1..] == rest;
    assert Run(s', [], s');
    RunStep(s, step, [], s');
  }

  lemma MarkedLater(s: System, step: Step, rest: seq<Step>, end: System, i: nat, mid: System)
    requires CanStep(s, step) && MarkedAt(Apply(s, step), rest, end, i, mid)
    ensures MarkedAt(s, [step] + rest, end, i + 1, mid)
  {
    var steps := [step] + rest;
    RunStep(s, step, rest[..i + 1], mid);
    assert steps[..i + 2] == [step] + rest[..i + 1] && steps[i + 2..] == rest[i + 1..];
  }

  lemma QuietlyMore(s: System, step: Step, mid: System, rest: seq<Step>, end: System)
    requires Quietly(s, [step], mid) && Quietly(mid, rest, end)
    ensures Quietly(s, [step] + rest, end)
  {
    assert SentIn([step]) == SentBy(step) + SentIn([]);
    assert ([step] + rest)[1..] == rest;
    assert Queue(s) + SentBy(step) + SentIn(rest) == Queue(s) + (SentBy(step) + SentIn(rest));
  }

  lemma {:induction false} MarkRun(s: System, steps: seq<Step>, end: System) returns (i: nat, mid: System)
    requires Run(s, steps, end) && end.out.emptySince.Some?
    ensures (s.out.emptySince == end.out.emptySince && Quietly(s, steps, end)) || MarkedAt(s, steps, end, i, mid)
    decreases |steps|
  {
    i, mid := 0, s;
    if steps != [] {
      var step, rest := steps[0], steps[1..];
      var s' := Apply(s, step);
      assert steps == [step] + rest;
      i, mid := MarkRun(s', rest, end);
      if MarkedAt(s', rest, end, i, mid) {
        MarkedLater(s, step, rest, end, i, mid);
        i := i + 1;
      } else {
        MarkStep(s, step);
        if Quietly(s, [step], s') && s.out.emptySince == s'.out.emptySince {
          QuietlyMore(s, step, s', rest, end);
        } else {
          MarkedNow(s, step, rest, end);
          i, mid := 0, s';
        }
      }
    }
  }

  /** The mode never goes off before a full quiet period. In every run, when a read switches it off, an
      earlier read of the same batch found EOF signalled and the channel empty, at least the quiet period
      before, and nothing was sent and no new handshake began in between. */
  lemma ModeGoesOffAfterQuiet(aggregate: bool, steps: seq<Step>, s: System, step: Step) returns (i: nat, mid: System)
    requires Run(Initial(aggregate), steps, s) && CanStep(s, step)
    requires s.out.mode && !Apply(s, step).out.mode
    ensures IsReader(step) && MarkedAt(Initial(aggregate), steps, s, i, mid)
    ensures steps[i].now + step.quiet <= step.now && SentIn(steps[i + 1..]) == []
  {
    if step.ReaderTry? {
      ModeNeedsQuiet(s.out, step.room, step.active, step.now, step.quiet);
    } else if step.ReaderResume? {
      ReceiveNeedsQuiet(s.out, step.room, step.active, step.now, step.quiet);
    }
    i, mid := MarkRun(Initial(aggregate), steps, s);
  }

  // ---------------------------------------------------------------- every batch can be brought to its end

  /** The reader's clock and slice for the rest of a run. */
  datatype Reader = Reader(room: nat, active: nat, now: int, quiet: int)
  {
    function Try(): Step {
      ReaderTry(room, active, now, quiet)
    }
    function Later(): Reader {
      Reader(room, active, if quiet > 0 then now + quiet else now, quiet)
    }
    /** The clock has not gone back. */
    predicate Fits(o: Output) {
      room > 0 && (o.emptySince.Some? ==> o.emptySince.value <= now)
    }
  }

  /** A signalled batch that the reader still has to end. */
  ghost predicate Ending(s: System, r: Reader) {
    Inv(s) && s.out.mode && s.out.signalled && r.Fits(s.out)
  }

  /** The reader's steps change nothing but the output, and end the batch. */
  ghost predicate Ended(s: System, end: System) {
    && !end.out.mode && end.out.Drained() && end.out.handshake == s.out.handshake && end.out.handshake in end.out.acked
    && end == s.(out := end.out, retrying := end.retrying)
  }

  /** One step of the reader ends the batch, or leaves it ending. */
  lemma ReaderOnTheWay(s: System, step: Step, r: Reader)
    requires Ending(s, r) && CanStep(s, step)
    requires step == ReaderTry(r.room, r.active, r.now, r.quiet) || step == ReaderResume(r.room, r.active, r.now, r.quiet)
    ensures var s' := Apply(s, step);
            && (Ended(s, s') || Ending(s', r)) && s'.out.handshake == s.out.handshake
            && s' == s.(out := s'.out, retrying := s'.retrying) && !s'.retrying
  {
    InvStep(s, step);
    ReaderStepKeeps(s, step);
    if s.out.buffer == [] && s.out.lines.Some? && Receive(s.out, r.room, r.active, r.now, r.quiet).out.emptySince.Some? {
      MarkReceive(s.out, r.room, r.active, r.now, r.quiet);
    }
  }

  /** Draining makes progress. */
  lemma DrainStep(s: System, r: Reader)
    requires Ending(s, r) && !s.retrying && !AwaitsAck(s.out)
    ensures var s' := Apply(s, r.Try());
            |Queue(s')| < |Queue(s)| || (Queue(s') == Queue(s) && |s'.out.buffer| < |s.out.buffer|)
  {
    if s.out.buffer == [] {
      ReceiveShrinks(s.out, r.room, r.active, r.now, r.quiet);
    }
  }

  lemma {:induction false} ReceiveShrinks(o: Output, room: nat, active: nat, now: int, quiet: int)
    requires o.lines.Some? && o.buffer == []
    ensures var lines := Receive(o, room, active, now, quiet).out.lines;
            lines.Some? && |lines.value| <= |o.lines.value| && (o.lines.value != [] ==> |lines.value| < |o.lines.value|)
    decreases |o.lines.value|
  {
    var lines := o.lines.value;
    if lines != [] && ShouldDrop(DecodeBytes(lines[0]).0, active) {
      ReceiveShrinks(o.(lines := Some(lines[1..]), emptySince := None), room, active, now, quiet);
    }
  }

  /** With the channel dry, two more reads end the batch. */
  lemma LastReads(s: System, r: Reader) returns (steps: seq<Step>, end: System)
    requires Ending(s, r) && !s.retrying && AwaitsAck(s.out)
    ensures Run(s, steps, end) && Ended(s, end) && forall i :: 0 <= i < |steps| ==> IsReader(steps[i])
  {
    var one, two := r.Try(), r.Later().Try();
    var s' := Apply(s, one);
    end := Apply(s', two);
    QuietReadsEnd(s.out, r.room, r.active, r.now, r.room, r.active, r.Later().now, r.quiet);
    assert Run(end, [], end);
    RunStep(s', two, [], end);
    RunStep(s, one, [two] + [], end);
    steps := [one] + ([two] + []);
  }

  lemma {:induction false} ReaderEnds(s: System, r: Reader) returns (steps: seq<Step>, end: System)
    requires Ending(s, r)
    ensures Run(s, steps, end) && Ended(s, end) && forall i :: 0 <= i < |steps| ==> IsReader(steps[i])
    decreases s.retrying, |Queue(s)|, |s.out.buffer|
  {
    if !s.retrying && AwaitsAck(s.out) {
      steps, end := LastReads(s, r);
      return;
    }
    var step := if s.retrying then ReaderResume(r.room, r.active, r.now, r.quiet) else r.Try();
    var s' := Apply(s, step);
    ReaderOnTheWay(s, step, r);
    var rest: seq<Step>;
    if Ended(s, s') {
      rest, end := [], s';
      assert Run(s', [], s');
    } else {
      if !s.retrying {
        DrainStep(s, r);
      }
      rest, end := ReaderEnds(s', r);
    }
    RunStep(s, step, rest, end);
    steps := [step] + rest;
  }

  /** Once EOF is signalled the reader alone can end the batch, from every reachable state: it switches the
      mode off with nothing left behind, and whoever waits for an acknowledgement has it. */
  lemma SignalledBatchEnds(s: System, r: Reader) returns (steps: seq<Step>, end: System)
    requires Reachable(s) && s.out.mode && s.out.signalled && r.Fits(s.out)
    ensures Run(s, steps, end) && Ended(s, end) && forall i :: 0 <= i < |steps| ==> IsReader(steps[i])
    ensures forall c :: c in end.commands && end.commands[c].phase.Waiting? ==> end.commands[c].phase.handshake in end.out.acked
  {
    ReachableInv(s);
    steps, end := ReaderEnds(s, r);
    RunReaches(s, steps, end);
    ReachableInv(end);
    forall c | c in end.commands && end.commands[c].phase.Waiting?
      ensures end.commands[c].phase.handshake in end.out.acked
    {
      WaitersNeverHoldADeadHandshake(end, c);
    }
  }

  /** A command that has read its files goes through its epilogue, step by step, while nothing else happens. */
  lemma Epilogue(s: System, c: nat) returns (steps: seq<Step>, end: System)
    requires Reachable(s) && CommandIs(s, c, Phase.Reading) && s.commands[c].signals && AllFilesDone(s, c)
    requires s.out.mode && s.pending == 0
    ensures Run(s, steps, end) && end.out == s.out.(signalled := true)
    ensures CommandIs(end, c, Waiting(s.out.handshake))
  {
    ReachableInv(s);
    var s1 := Apply(s, Gate(c));
    var s2 := Apply(s1, Capture(c));
    var s3 := Apply(s2, Check(c));
    var s4 := Apply(s3, OutputProtocol.Signal(c));
    end := Apply(s4, Wait(c));
    assert Run(end, [], end);
    RunStep(s4, Wait(c), [], end);
    steps := [Wait(c)] + [];
    RunStep(s3, OutputProtocol.Signal(c), steps, end);
    steps := [OutputProtocol.Signal(c)] + steps;
    RunStep(s2, Check(c), steps, end);
    steps := [Check(c)] + steps;
    RunStep(s1, Capture(c), steps, end);
    steps := [Capture(c)] + steps;
    RunStep(s, Gate(c), steps, end);
    steps := [Gate(c)] + steps;
  }

  /** No batch hangs: from every reachable state in which a command that signals has read its files and no
      file is open, the command and the reader can end the batch, and the command gets its acknowledgement. */
  lemma BatchCanEnd(s: System, c: nat, r: Reader) returns (steps: seq<Step>, end: System)
    requires Reachable(s) && CommandIs(s, c, Phase.Reading) && s.commands[c].signals && AllFilesDone(s, c)
    requires s.out.mode && s.pending == 0 && r.Fits(s.out)
    ensures Run(s, steps, end) && !end.out.mode && end.out.Drained()
    ensures CommandIs(end, c, Waiting(s.out.handshake)) && s.out.handshake in end.out.acked
  {
    var mid: System, more: seq<Step>;
    steps, mid := Epilogue(s, c);
    RunReaches(s, steps, mid);
    more, end := SignalledBatchEnds(mid, r);
    RunConcat(s, steps, mid, more, end);
    steps := steps + more;
  }

  /** Only cat, grep and tail commands reach the epilogue, so no other command signals EOF. */
  ghost predicate OnlySignallersSignal(s: System) {
    forall c :: c in s.commands && !s.commands[c].signals ==> s.commands[c].phase in {Phase.Reading, Phase.Ended}
  }

  lemma SignallersStep(s: System, step: Step)
    requires CanStep(s, step) && OnlySignallersSignal(s)
    ensures OnlySignallersSignal(Apply(s, step))
  {
    var s' := Apply(s, step);
    forall c | c in s'.commands && !s'.commands[c].signals
      ensures s'.commands[c].phase in {Phase.Reading, Phase.Ended}
    {
      assert c in s.commands ==> s'.commands[c].signals == s.commands[c].signals;
    }
  }

  lemma {:induction false} SignallersRun(s: System, steps: seq<Step>, end: System)
    requires Run(s, steps, end) && OnlySignallersSignal(s)
    ensures OnlySignallersSignal(end)
    decreases |steps|
  {
    if steps != [] {
      SignallersStep(s, steps[0]);
      SignallersRun(Apply(s, steps[0]), steps[1..], end);
    }
  }

  // ---------------------------------------------------------------- what the reader gets

  /** A payload taken off the channel and the generation that was active then. */
  datatype Got = Got(payload: ByteString, active: nat)
  {
    /** What it contributes: its data, if it is not of another generation. */
    function Data(): ByteString {
      var (g, data) := DecodeBytes(payload);
      if g == 0 || active == 0 || g == active then data else []
    }
  }

  function PayloadsOf(got: seq<Got>): seq<ByteString> {
    seq(|got|, i requires 0 <= i < |got| => got[i].payload)
  }

  function Gather(data: Got -> ByteString, got: seq<Got>): ByteString {
    if got == [] then [] else data(got[0]) + Gather(data, got[1..])
  }

  function DataOf(got: seq<Got>): ByteString {
    Gather((g: Got) => g.Data(), got)
  }

  /** The bytes a step puts into the reader's slice. */
  function BytesOf(s: System, step: Step): ByteString
    requires CanStep(s, step)
  {
    match step
    case ReaderTry(room, active, now, quiet) => TryRead(s.out, room, active, now, quiet).bytes
    case ReaderResume(room, active, now, quiet) => Receive(s.out, room, active, now, quiet).bytes
    case _ => []
  }

  function StreamOf(s: System, steps: seq<Step>): ByteString
    decreases |steps|
  {
    if steps == [] || !CanStep(s, steps[0]) then []
    else BytesOf(s, steps[0]) + StreamOf(Apply(s, steps[0]), steps[1..])
  }

  /** What was in front of a stretch of a run and what the stretch adds is what the stretch takes and leaves. */
  ghost predicate Balances(s: System, sent: seq<ByteString>, got: seq<Got>, bytes: ByteString, end: System) {
    && Queue(s) + sent == PayloadsOf(got) + Queue(end)
    && s.out.buffer + DataOf(got) == bytes + end.out.buffer
  }

  lemma Assoc<T>(x: seq<T>, y: seq<T>, z: seq<T>)
    ensures (x + y) + z == x + (y + z)
  {
  }

  lemma GatherFirst(data: Got -> ByteString, first: Got, rest: seq<Got>)
    ensures Gather(data, [first] + rest) == data(first) + Gather(data, rest)
  {
    assert ([first] + rest)[1..] == rest;
  }

  lemma {:induction false} GatherConcat(data: Got -> ByteString, a: seq<Got>, b: seq<Got>)
    ensures Gather(data, a + b) == Gather(data, a) + Gather(data, b)
  {
    if a == [] {
      assert a + b == b;
    } else {
      GatherConcat(data, a[1..], b);
      assert a + b == [a[0]] + (a[1..] + b);
      GatherFirst(data, a[0], a[1..] + b);
      Assoc(data(a[0]), Gather(data, a[1..]), Gather(data, b));
    }
  }

  lemma GotConcat(a: seq<Got>, b: seq<Got>)
    ensures PayloadsOf(a + b) == PayloadsOf(a) + PayloadsOf(b)
    ensures DataOf(a + b) == DataOf(a) + DataOf(b)
  {
    GatherConcat((g: Got) => g.Data(), a, b);
  }

  lemma FirstGot(first: Got, rest: seq<Got>)
    ensures PayloadsOf([first] + rest) == [first.payload] + PayloadsOf(rest)
    ensures DataOf([first] + rest) == first.Data() + DataOf(rest)
  {
    GatherFirst((g: Got) => g.Data(), first, rest);
  }

  /** Two stretches of a balance, one after the other. */
  lemma Chain<T>(front: seq<T>, x: seq<T>, out: seq<T>, mid: seq<T>, x': seq<T>, out': seq<T>, rest: seq<T>)
    requires front + x == out + mid && mid + x' == out' + rest
    ensures front + (x + x') == (out + out') + rest
  {
    Assoc(front, x, x');
    Assoc(out, mid, x');
    Assoc(out, out', rest);
  }

  lemma BalancesConcat(
    s: System, sent: seq<ByteString>, got: seq<Got>, bytes: ByteString, mid: System,
    sent': seq<ByteString>, got': seq<Got>, bytes': ByteString, end: System)
    requires Balances(s, sent, got, bytes, mid) && Balances(mid, sent', got', bytes', end)
    ensures Balances(s, sent + sent', got + got', bytes + bytes', end)
  {
    GotConcat(got, got');
    Chain(Queue(s), sent, PayloadsOf(got), Queue(mid), sent', PayloadsOf(got'), Queue(end));
    Chain(s.out.buffer, DataOf(got), bytes, mid.out.buffer, DataOf(got'), bytes', end.out.buffer);
  }

  /** What a payload contributes depends on whether it is dropped. */
  lemma GotData(payload: ByteString, active: nat)
    ensures Got(payload, active).Data()
            == if ShouldDrop(DecodeBytes(payload).0, active) then [] else DecodeBytes(payload).1
  {
  }

  lemma ReceiveFirst(o: Output, room: nat, active: nat, now: int, quiet: int)
    requires o.lines.Some? && o.buffer == [] && o.lines.value != []
    ensures var first, r := o.lines.value[0], Receive(o, room, active, now, quiet);
            var rest := o.(lines := Some(o.lines.value[1..]), emptySince := None);
            if ShouldDrop(DecodeBytes(first).0, active) then r == Receive(rest, room, active, now, quiet)
            else r.bytes + r.out.buffer == DecodeBytes(first).1 && r.out.lines == Some(o.lines.value[1..])
  {
    TakeWhole(DecodeBytes(o.lines.value[0]).1, room);
  }

  lemma {:induction false} ReceiveGets(o: Output, room: nat, active: nat, now: int, quiet: int) returns (got: seq<Got>)
    requires o.lines.Some? && o.buffer == []
    ensures var r := Receive(o, room, active, now, quiet);
            && r.out.lines.Some? && o.lines.value == PayloadsOf(got) + r.out.lines.value
            && DataOf(got) == r.bytes + r.out.buffer
    decreases |o.lines.value|
  {
    var lines := o.lines.value;
    got := [];
    if lines != [] {
      ReceiveFirst(o, room, active, now, quiet);
      GotData(lines[0], active);
      if ShouldDrop(DecodeBytes(lines[0]).0, active) {
        got := ReceiveGets(o.(lines := Some(lines[1..]), emptySince := None), room, active, now, quiet);
      }
      FirstGot(Got(lines[0], active), got);
      Assoc([lines[0]], PayloadsOf(got), Receive(o, room, active, now, quiet).out.lines.value);
      got := [Got(lines[0], active)] + got;
    }
  }

  lemma TakeWhole(data: ByteString, room: nat)
    ensures data[..Min(room, |data|)] + data[Min(room, |data|)..] == data == data + []
  {
  }

  lemma {:induction false} StaleGets(lines: seq<ByteString>, active: nat) returns (got: seq<Got>)
    requires Stale(lines, active)
    ensures PayloadsOf(got) == lines && DataOf(got) == []
  {
    if lines == [] {
      return [];
    }
    var rest := StaleGets(lines[1..], active);
    FirstGot(Got(lines[0], active), rest);
    got := [Got(lines[0], active)] + rest;
  }

  lemma PauseGets(s: System, step: Step) returns (got: seq<Got>)
    requires CanStep(s, step) && step.ReaderPause?
    ensures Balances(s, [], got, [], Apply(s, step))
  {
    var lines := s.out.lines.value;
    got := StaleGets(lines[..step.k], step.active);
    assert lines + [] == lines[..step.k] + lines[step.k..];
  }

  lemma ReaderGets(s: System, step: Step) returns (got: seq<Got>)
    requires CanStep(s, step) && IsReader(step) && s.out.lines.Some? && s.out.buffer == [] && (step.ReaderTry? ==> s.out.mode)
    ensures Balances(s, [], got, BytesOf(s, step), Apply(s, step))
  {
    got := ReceiveGets(s.out, step.room, step.active, step.now, step.quiet);
    assert Queue(s) + [] == Queue(s);
    assert [] + DataOf(got) == DataOf(got);
  }

  lemma StepGets(s: System, step: Step) returns (got: seq<Got>)
    requires CanStep(s, step)
    ensures Balances(s, SentBy(step), got, BytesOf(s, step), Apply(s, step))
  {
    got := [];
    if step.ReaderPause? {
      got := PauseGets(s, step);
    } else if step.ReaderResume? || (step.ReaderTry? && s.out.buffer == [] && s.out.mode && s.out.lines.Some?) {
      got := ReaderGets(s, step);
    } else if step.ReaderTry? {
      TakeWhole(s.out.buffer, step.room);
      NothingGot(s, SentBy(step), BytesOf(s, step), Apply(s, step));
    } else {
      OnlyTheReaderTakes(s, step);
      NothingGot(s, SentBy(step), BytesOf(s, step), Apply(s, step));
    }
  }

  lemma NothingGot(s: System, sent: seq<ByteString>, bytes: ByteString, end: System)
    requires Queue(s) + sent == Queue(end) && s.out.buffer == bytes + end.out.buffer
    ensures Balances(s, sent, [], bytes, end)
  {
    assert [] + Queue(end) == Queue(end) && s.out.buffer + [] == s.out.buffer;
  }

  lemma {:induction false} RunGets(s: System, steps: seq<Step>, end: System) returns (got: seq<Got>)
    requires Run(s, steps, end)
    ensures Balances(s, SentIn(steps), got, StreamOf(s, steps), end)
    decreases |steps|
  {
    if steps == [] {
      return [];
    }
    var first := StepGets(s, steps[0]);
    var rest := RunGets(Apply(s, steps[0]), steps[1..], end);
    BalancesConcat(s, SentBy(steps[0]), first, BytesOf(s, steps[0]), Apply(s, steps[0]),
                   SentIn(steps[1..]), rest, StreamOf(Apply(s, steps[0]), steps[1..]), end);
    got := first + rest;
  }

  /** What the reader has got over a whole run: the payloads taken off the channel are the first ones sent,
      in order, the rest is queued, and the bytes handed out with the remainder are the data of those whose
      generation was active, or that have none, or that were read without an active session. */
  lemma StreamIsTheData(aggregate: bool, steps: seq<Step>, end: System) returns (got: seq<Got>)
    requires Run(Initial(aggregate), steps, end)
    ensures SentIn(steps) == PayloadsOf(got) + Queue(end)
    ensures DataOf(got) == StreamOf(Initial(aggregate), steps) + end.out.buffer
  {
    got := RunGets(Initial(aggregate), steps, end);
    assert [] + SentIn(steps) == SentIn(steps) && [] + DataOf(got) == DataOf(got);
  }
}
