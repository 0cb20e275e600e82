/** The output manager of one session (internal/server/handlers/output_manager.go): the value it holds,
    what each method that takes its lock does to that value, and the class that does it in place. */
module OutputManagers {
  import opened Wrappers
  import opened Bytes
  import opened GenerationOutput

  /** Everything guarded by the manager's lock. The EOF and EOF-ack channels are always minted as a
      pair, so one number names both; handshake 0 means that none exists yet. `acked` keeps every ack
      channel that was ever closed, because a waiter may still hold a replaced one. */
  datatype Output = Output(
    mode: bool,
    lines: Option<seq<ByteString>>,
    buffer: ByteString,
    handshake: nat,
    signalled: bool,
    acked: set<nat>,
    emptySince: Option<int>,
    epoch: nat)
  {
    predicate Drained() {
      (lines.Some? ==> lines.value == []) && buffer == []
    }
  }

  const INITIAL := Output(false, None, [], 0, false, {}, None, 0)

  function Fresh(o: Output): Output {
    o.(handshake := o.handshake + 1, signalled := false, emptySince := None)
  }

  function Enable(o: Output): Output {
    var bumped := o.(epoch := o.epoch + 1);
    if !o.mode then
      Fresh(bumped.(mode := true, lines := if o.lines.None? then Some([]) else o.lines))
    else if o.handshake > 0 && o.signalled then
      Fresh(bumped.(acked := o.acked + {o.handshake}))
    else
      bumped
  }

  function SignalEOF(o: Output, epoch: nat): Output {
    if epoch != o.epoch || o.handshake == 0 then o else o.(signalled := true)
  }

  /** Payloads of another generation are dropped while a session generation is active. */
  predicate ShouldDrop(generation: nat, active: nat) {
    generation != 0 && active != 0 && active != generation
  }

  function MaybeAck(o: Output, now: int, quiet: int): Output {
    if o.handshake == 0 || !o.signalled then o
    else if o.lines.Some? && o.lines.value != [] then o.(emptySince := None)
    else if o.emptySince.None? then o.(emptySince := Some(now))
    else if now - o.emptySince.value >= quiet then o.(mode := false, acked := o.acked + {o.handshake})
    else o
  }

  /** One call of the reader: the state it leaves, the bytes it puts into the caller's slice, and
      whether it claims to have served the read. */
  datatype ReadResult = ReadResult(out: Output, bytes: ByteString, handled: bool)

  function Take(o: Output, data: ByteString, room: nat): ReadResult {
    var n := Min(room, |data|);
    ReadResult(o.(buffer := data[n..]), data[..n], true)
  }

  /** The receive loop of tryRead: skip stale payloads, deliver the first live one, and look at the
      EOF handshake only when the channel has run dry. */
  function Receive(o: Output, room: nat, active: nat, now: int, quiet: int): ReadResult
    requires o.lines.Some? && o.buffer == []
    decreases |o.lines.value|
  {
    var lines := o.lines.value;
    if lines == [] then ReadResult(MaybeAck(o, now, quiet), [], false)
    else
      var (generation, data) := DecodeBytes(lines[0]);
      var rest := o.(lines := Some(lines[1..]), emptySince := None);
      if ShouldDrop(generation, active) then Receive(rest, room, active, now, quiet)
      else Take(rest, data, room)
  }

  function TryRead(o: Output, room: nat, active: nat, now: int, quiet: int): ReadResult {
    if o.buffer != [] then Take(o, o.buffer, room)
    else if !o.mode || o.lines.None? then ReadResult(o, [], false)
    else Receive(o, room, active, now, quiet)
  }

  /** The payload a read takes off the channel for delivery: the first live one, if there is any. */
  function FirstLive(lines: seq<ByteString>, active: nat): (r: Option<nat>)
    ensures r.Some? ==> r.value < |lines|
  {
    if lines == [] then None
    else if !ShouldDrop(DecodeBytes(lines[0]).0, active) then Some(0)
    else
      match FirstLive(lines[1..], active)
      case None => None
      case Some(i) => Some(i + 1)
  }

  predicate AllDropped(lines: seq<ByteString>, active: nat) {
    forall i :: 0 <= i < |lines| ==> ShouldDrop(DecodeBytes(lines[i]).0, active)
  }

  /** It is not dropped, and everything in front of it is. */
  lemma {:induction false} FirstLiveMeans(lines: seq<ByteString>, active: nat)
    ensures var r := FirstLive(lines, active);
            && (r.Some? ==> !ShouldDrop(DecodeBytes(lines[r.value]).0, active))
            && AllDropped(lines[..if r.Some? then r.value else |lines|], active)
  {
    if lines != [] && ShouldDrop(DecodeBytes(lines[0]).0, active) {
      FirstLiveMeans(lines[1..], active);
      var r := FirstLive(lines[1..], active);
      var n := if r.Some? then r.value else |lines| - 1;
      assert lines[..n + 1] == [lines[0]] + lines[1..][..n];
    }
  }

  /** What a receive must do, said without the loop: consume the stale payloads in front, hand out and keep
      exactly the decoded first live payload, and report nothing if there is none. */
  ghost predicate DeliversWhole(lines: seq<ByteString>, live: Option<nat>, r: ReadResult)
    requires live.Some? ==> live.value < |lines|
  {
    match live
    case None => !r.handled && r.bytes == [] && r.out.Drained() && r.out.lines.Some?
    case Some(i) =>
      && r.handled
      && r.bytes + r.out.buffer == DecodeBytes(lines[i]).1
      && r.out.lines == Some(lines[i + 1..])
  }

  /** A stale payload in front changes nothing but the position. */
  lemma DeliversBehindStale(lines: seq<ByteString>, live: Option<nat>, r: ReadResult)
    requires lines != [] && (live.Some? ==> live.value < |lines| - 1) && DeliversWhole(lines[1..], live, r)
    ensures DeliversWhole(lines, if live.Some? then Some(live.value + 1) else None, r)
  {
    if live.Some? {
      assert lines[1..][live.value + 1..] == lines[live.value + 2..];
    }
  }

  lemma TakeDeliversWhole(o: Output, room: nat, lines: seq<ByteString>)
    requires lines != [] && o.lines == Some(lines[1..])
    ensures DeliversWhole(lines, Some(0), Take(o, DecodeBytes(lines[0]).1, room))
  {
    var data := DecodeBytes(lines[0]).1;
    var n := Min(room, |data|);
    assert data[..n] + data[n..] == data;
  }

  /** Delivery is whole or not at all. */
  lemma {:induction false} ReceiveDeliversWhole(o: Output, room: nat, active: nat, now: int, quiet: int)
    requires o.lines.Some? && o.buffer == []
    ensures DeliversWhole(o.lines.value, FirstLive(o.lines.value, active), Receive(o, room, active, now, quiet))
    decreases |o.lines.value|
  {
    var lines := o.lines.value;
    if lines != [] {
      var rest := o.(lines := Some(lines[1..]), emptySince := None);
      if ShouldDrop(DecodeBytes(lines[0]).0, active) {
        ReceiveDeliversWhole(rest, room, active, now, quiet);
        DeliversBehindStale(lines, FirstLive(lines[1..], active), Receive(rest, room, active, now, quiet));
      } else {
        TakeDeliversWhole(rest, room, lines);
      }
    }
  }

  /** A receive fills the caller's slice as far as the payload goes. */
  lemma {:induction false} ReceiveFillsSlice(o: Output, room: nat, active: nat, now: int, quiet: int)
    requires o.lines.Some? && o.buffer == []
    ensures var r := Receive(o, room, active, now, quiet);
            |r.bytes| <= room && (r.out.buffer != [] ==> |r.bytes| == room)
    decreases |o.lines.value|
  {
    var lines := o.lines.value;
    if lines != [] && ShouldDrop(DecodeBytes(lines[0]).0, active) {
      ReceiveFillsSlice(o.(lines := Some(lines[1..]), emptySince := None), room, active, now, quiet);
    }
  }

  /** What a receive leaves alone, and the only way it can switch the mode off. */
  lemma {:induction false} ReceiveKeeps(o: Output, room: nat, active: nat, now: int, quiet: int)
    requires o.lines.Some? && o.buffer == []
    ensures var r := Receive(o, room, active, now, quiet).out;
            && r.epoch == o.epoch && r.handshake == o.handshake && r.signalled == o.signalled && r.lines.Some?
            && if r.mode == o.mode then r.acked == o.acked || (!o.mode && r.acked == o.acked + {o.handshake})
               else !r.mode && o.signalled && o.handshake > 0 && r.Drained() && r.acked == o.acked + {o.handshake}
    decreases |o.lines.value|
  {
    var lines := o.lines.value;
    if lines != [] && ShouldDrop(DecodeBytes(lines[0]).0, active) {
      ReceiveKeeps(o.(lines := Some(lines[1..]), emptySince := None), room, active, now, quiet);
    }
  }

  // ---------------------------------------------------------------- the end of a batch

  /** EOF is signalled, everything was delivered, and only the reader's acknowledgement is missing. */
  predicate AwaitsAck(o: Output) {
    o.mode && o.lines == Some([]) && o.buffer == [] && o.handshake > 0 && o.signalled
  }

  /** Two reads a quiet period apart, with nothing sent or enabled between them, end the batch: the mode is
      off and the ack channel closed. */
  lemma QuietReadsEnd(o: Output, room: nat, active: nat, now: int, room': nat, active': nat, later: int, quiet: int)
    requires AwaitsAck(o) && (o.emptySince.Some? ==> o.emptySince.value <= now) && now + quiet <= later
    ensures var o' := TryRead(o, room, active, now, quiet).out;
            var end := TryRead(o', room', active', later, quiet).out;
            && !end.mode && end.handshake == o.handshake && end.handshake in end.acked
            && end.lines == Some([]) && end.buffer == [] && end.epoch == o.epoch
  {
  }

  /** And nothing else does: a read that switches the mode off found a batch that awaits its
      acknowledgement, a quiet period after the read that first found it so. */
  lemma ModeNeedsQuiet(o: Output, room: nat, active: nat, now: int, quiet: int)
    requires o.mode
    ensures var end := TryRead(o, room, active, now, quiet).out;
            !end.mode ==> AwaitsAck(o) && o.emptySince.Some? && o.emptySince.value + quiet <= now && end.handshake in end.acked
  {
    if o.buffer == [] && o.lines.Some? {
      ReceiveNeedsQuiet(o, room, active, now, quiet);
    }
  }

  lemma {:induction false} ReceiveNeedsQuiet(o: Output, room: nat, active: nat, now: int, quiet: int)
    requires o.lines.Some? && o.buffer == [] && o.mode
    ensures var end := Receive(o, room, active, now, quiet).out;
            !end.mode ==> AwaitsAck(o) && o.emptySince.Some? && o.emptySince.value + quiet <= now && end.handshake in end.acked
    decreases |o.lines.value|
  {
    var lines := o.lines.value;
    if lines != [] && ShouldDrop(DecodeBytes(lines[0]).0, active) {
      ReceiveNeedsQuiet(o.(lines := Some(lines[1..]), emptySince := None), room, active, now, quiet);
    }
  }

  // ---------------------------------------------------------------- which payloads are delivered

  /** A payload of a session generation, or a bare one that does not read as tagged. */
  datatype Addressed = Addressed(generation: nat, data: ByteString)
  {
    ghost predicate Readable() {
      generation <= MAX_UINT64 && (generation == 0 ==> DecodeBytes(data) == (0, data))
    }

    /** Meant for a reader of that generation; 0 stands for no generation on either side. */
    predicate For(active: nat) {
      generation == 0 || active == 0 || generation == active
    }

    function Encoded(): ByteString {
      EncodeMessage(generation, data)
    }
  }

  function AllEncoded(sent: seq<Addressed>): seq<ByteString> {
    seq(|sent|, i requires 0 <= i < |sent| => sent[i].Encoded())
  }

  ghost predicate AllReadable(sent: seq<Addressed>) {
    forall i :: 0 <= i < |sent| ==> sent[i].Readable()
  }

  /** The first payload meant for the reader, or |sent|. */
  ghost predicate IsFirstFor(sent: seq<Addressed>, active: nat, k: nat) {
    && k <= |sent| && (k < |sent| ==> sent[k].For(active))
    && forall i :: 0 <= i < k ==> !sent[i].For(active)
  }

  lemma AddressedDecodes(p: Addressed)
    requires p.Readable()
    ensures DecodeBytes(p.Encoded()) == (p.generation, p.data)
  {
    if p.generation > 0 {
      DecodeInvertsEncode(p.generation, p.data);
    }
  }

  lemma {:induction false} FirstLiveIs(sent: seq<Addressed>, active: nat, k: nat)
    requires AllReadable(sent) && IsFirstFor(sent, active, k)
    ensures FirstLive(AllEncoded(sent), active) == if k < |sent| then Some(k) else None
    decreases |sent|
  {
    if sent != [] {
      AddressedDecodes(sent[0]);
      if k > 0 {
        assert AllEncoded(sent)[1..] == AllEncoded(sent[1..]);
        FirstLiveIs(sent[1..], active, k - 1);
      }
    }
  }

  lemma EncodedBehind(sent: seq<Addressed>, k: nat)
    requires k <= |sent|
    ensures AllEncoded(sent)[k..] == AllEncoded(sent[k..])
  {
  }

  lemma ReadsFirstLive(o: Output, k: nat, data: ByteString, room: nat, active: nat, now: int, quiet: int)
    requires o.mode && o.buffer == [] && o.lines.Some? && k < |o.lines.value|
    requires FirstLive(o.lines.value, active) == Some(k) && DecodeBytes(o.lines.value[k]).1 == data
    ensures var r := TryRead(o, room, active, now, quiet);
            && r.handled && r.bytes + r.out.buffer == data && |r.bytes| == Min(room, |data|)
            && r.out.lines == Some(o.lines.value[k + 1..])
  {
    ReceiveDeliversWhole(o, room, active, now, quiet);
    ReceiveFillsSlice(o, room, active, now, quiet);
  }

  /** A read of the payload channel hands out and keeps exactly the data of the first payload of the active
      generation, takes the stale ones in front of it off the channel, and reports nothing if all are stale. */
  lemma ReadsFirstOfGeneration(o: Output, sent: seq<Addressed>, k: nat, room: nat, active: nat, now: int, quiet: int)
    requires o.mode && o.buffer == [] && o.lines == Some(AllEncoded(sent))
    requires AllReadable(sent) && IsFirstFor(sent, active, k)
    ensures var r := TryRead(o, room, active, now, quiet);
            if k < |sent| then
              && r.handled && r.bytes + r.out.buffer == sent[k].data && |r.bytes| == Min(room, |sent[k].data|)
              && r.out.lines == Some(AllEncoded(sent[k + 1..]))
            else !r.handled && r.bytes == [] && r.out.buffer == [] && r.out.lines == Some([])
  {
    FirstLiveIs(sent, active, k);
    if k < |sent| {
      AddressedDecodes(sent[k]);
      ReadsFirstLive(o, k, sent[k].data, room, active, now, quiet);
      EncodedBehind(sent, k + 1);
    } else {
      ReceiveDeliversWhole(o, room, active, now, quiet);
    }
  }

  class OutputManager {
    var mode: bool
    var lines: Option<seq<ByteString>>
    var buffer: ByteString
    var handshake: nat
    var signalled: bool
    var acked: set<nat>
    var emptySince: Option<int>
    var epoch: nat
    const quietPeriod: int

    ghost function View(): Output
      reads this
    {
      Output(mode, lines, buffer, handshake, signalled, acked, emptySince, epoch)
    }

    constructor (quietPeriod: int)
      ensures View() == INITIAL && this.quietPeriod == quietPeriod
    {
      this.quietPeriod := quietPeriod;
      mode, lines, buffer, epoch := false, None, [], 0;
      handshake, signalled, acked, emptySince := 0, false, {}, None;
    }

    method ResetEOFHandshake()
      modifies this
      ensures View() == Fresh(old(View()))
    {
      handshake, signalled, emptySince := handshake + 1, false, None;
    }

    method SignalEOFAck()
      modifies this`acked
      ensures View() == old(View()).(acked := old(acked) + if handshake > 0 then {handshake} else {})
    {
      if handshake > 0 {
        acked := acked + {handshake};
      }
    }

    method EnableOutput() returns (switched: bool)
      modifies this
      ensures View() == Enable(old(View()))
      ensures switched == !old(mode)
    {
      epoch := epoch + 1;
      if mode {
        if handshake > 0 && signalled {
          SignalEOFAck();
          ResetEOFHandshake();
        }
        return false;
      }
      mode := true;
      if lines.None? {
        lines := Some([]);
      }
      ResetEOFHandshake();
      return true;
    }

    method Signal(epoch: nat)
      modifies this
      ensures View() == SignalEOF(old(View()), epoch)
    {
      if epoch != this.epoch || handshake == 0 {
        return;
      }
      if !signalled {
        signalled := true;
      }
    }

    method AcknowledgeIfQuiet(now: int)
      modifies this
      ensures View() == MaybeAck(old(View()), now, quietPeriod)
    {
      if handshake == 0 || !signalled {
        return;
      }
      if lines.Some? && lines.value != [] {
        emptySince := None;
        return;
      }
      if emptySince.None? {
        emptySince := Some(now);
        return;
      }
      if now - emptySince.value >= quietPeriod {
        mode := false;
        SignalEOFAck();
      }
    }

    /** tryRead without its retry sleep, which can only be reached when another goroutine sends
        between two looks at the channel; the interleavings are in OutputProtocol. */
    method Read(room: nat, active: nat, now: int) returns (bytes: ByteString, handled: bool)
      modifies this
      ensures ReadResult(View(), bytes, handled) == TryRead(old(View()), room, active, now, quietPeriod)
    {
      if buffer != [] {
        var n := Min(room, |buffer|);
        bytes, buffer := buffer[..n], buffer[n..];
        return bytes, true;
      }
      if !mode || lines.None? {
        return [], false;
      }
      while lines.value != []
        invariant lines.Some? && buffer == []
        invariant TryRead(old(View()), room, active, now, quietPeriod) == Receive(View(), room, active, now, quietPeriod)
        decreases |lines.value|
      {
        var (generation, data) := DecodeBytes(lines.value[0]);
        lines, emptySince := Some(lines.value[1..]), None;
        if !ShouldDrop(generation, active) {
          var n := Min(room, |data|);
          bytes := data[..n];
          if n < |data| {
            buffer := data[n..];
          }
          return bytes, true;
        }
      }
      AcknowledgeIfQuiet(now);
      return [], false;
    }
  }
}
