/** The server handler's Read (internal/server/handlers/basehandler.go): output payloads, server
    messages, aggregation messages and log lines share one byte stream to the client. */
module ServerReads {
  import opened Wrappers
  import opened Bytes
  import opened GenerationOutput
  import opened OutputManagers
  import opened Framing

  const FIELD: byte := 0x7c
  const DOT: byte := 0x2e
  const LINE_FEED: byte := 0x0a
  const SERVER: ByteString := [0x53, 0x45, 0x52, 0x56, 0x45, 0x52]
  const REMOTE: ByteString := [0x52, 0x45, 0x4d, 0x4f, 0x54, 0x45]
  const AGGREGATE: ByteString := [0x41, 0x47, 0x47, 0x52, 0x45, 0x47, 0x41, 0x54, 0x45]

  datatype Session = Session(hostname: ByteString, plain: bool, serverless: bool)

  /** A log line on the line channel; `perc` is the transmitted percentage as printed. */
  datatype Line = Line(generation: nat, perc: ByteString, count: nat, source: ByteString, content: ByteString)

  /** What Read can dequeue, and the session generation that was active when it did. */
  datatype Item = Payload(data: ByteString) | Message(text: ByteString) | Aggregation(text: ByteString) | Logged(line: Line)
  datatype Taken = Taken(item: Item, active: nat)

  /** Message fields with the field delimiter between them. */
  function Fields(parts: seq<ByteString>): ByteString {
    if |parts| == 0 then [] else if |parts| == 1 then parts[0]
    else parts[0] + [FIELD] + Fields(parts[1..])
  }

  /** The message a server message becomes, if it is sent at all. */
  function ServerMessage(s: Session, text: ByteString): Option<ByteString> {
    if text != [] && text[0] == DOT then Some(text)
    else if s.serverless || (s.plain && (text == [] || text == [LINE_FEED])) then None
    else Some(if s.plain then text else Fields([SERVER, s.hostname, text]))
  }

  function LineMessage(s: Session, line: Line): ByteString {
    if s.plain then line.content
    else Fields([REMOTE, s.hostname, line.perc, Decimal(line.count), line.source, line.content])
  }

  /** The message an item sends, for the items that send at most one. */
  function MessageOf(s: Session, t: Taken): Option<ByteString>
    requires !t.item.Payload?
  {
    match t.item
    case Message(text) =>
      var (generation, decoded) := DecodeMessage(text);
      if ShouldDrop(generation, t.active) then None else ServerMessage(s, decoded)
    case Aggregation(text) =>
      var (generation, decoded) := DecodeMessage(text);
      if ShouldDrop(generation, t.active) then None
      else Some(Fields([AGGREGATE, s.hostname, decoded]))
    case Logged(line) =>
      if ShouldDrop(line.generation, t.active) then None else Some(LineMessage(s, line))
  }

  /** The bytes an item puts on the stream: all of them or none. */
  function Delivery(s: Session, t: Taken): ByteString {
    if t.item.Payload? then
      var (generation, decoded) := DecodeBytes(t.item.data);
      if ShouldDrop(generation, t.active) then [] else decoded
    else
      match MessageOf(s, t)
      case None => []
      case Some(message) => message + [MESSAGE_DELIMITER]
  }

  function Gather(deliver: Taken -> ByteString, items: seq<Taken>): ByteString {
    if items == [] then [] else Gather(deliver, items[..|items| - 1]) + deliver(items[|items| - 1])
  }

  lemma GatherMore(deliver: Taken -> ByteString, items: seq<Taken>, t: Taken)
    ensures Gather(deliver, items + [t]) == Gather(deliver, items) + deliver(t)
  {
    assert (items + [t])[..|items + [t]| - 1] == items;
  }

  lemma Assoc(x: ByteString, y: ByteString, z: ByteString)
    ensures (x + y) + z == x + (y + z)
  {
  }

  lemma {:induction false} GatherSplit(deliver: Taken -> ByteString, a: seq<Taken>, b: seq<Taken>)
    ensures Gather(deliver, a + b) == Gather(deliver, a) + Gather(deliver, b)
    decreases |b|
  {
    if b == [] {
      assert a + b == a;
    } else {
      var b', t := b[..|b| - 1], b[|b| - 1];
      calc {
        Gather(deliver, a + b);
        { assert a + b == (a + b') + [t]; GatherMore(deliver, a + b', t); }
        Gather(deliver, a + b') + deliver(t);
        { GatherSplit(deliver, a, b'); }
        (Gather(deliver, a) + Gather(deliver, b')) + deliver(t);
        { Assoc(Gather(deliver, a), Gather(deliver, b'), deliver(t)); }
        Gather(deliver, a) + (Gather(deliver, b') + deliver(t));
      }
    }
  }

  function Deliver(s: Session): Taken -> ByteString {
    t => Delivery(s, t)
  }

  /** The bytes of all dequeued items, in the order they were dequeued. */
  function Deliveries(s: Session, items: seq<Taken>): ByteString {
    Gather(Deliver(s), items)
  }

  lemma DeliveriesSplit(s: Session, a: seq<Taken>, b: seq<Taken>)
    ensures Deliveries(s, a + b) == Deliveries(s, a) + Deliveries(s, b)
  {
    GatherSplit(Deliver(s), a, b);
  }

  lemma DeliveriesOne(s: Session, t: Taken)
    ensures Deliveries(s, [t]) == Delivery(s, t)
  {
    assert [] + [t] == [t];
    GatherMore(Deliver(s), [], t);
    assert Deliver(s)(t) == Delivery(s, t);
    assert Gather(Deliver(s), []) + Delivery(s, t) == Delivery(s, t);
  }

  /** What waits in the four channels. */
  datatype Channels = Channels(payloads: seq<ByteString>, messages: seq<ByteString>, aggregations: seq<ByteString>, lines: seq<Line>)
  {
    function Size(): nat {
      |payloads| + |messages| + |aggregations| + |lines|
    }
  }

  /** Takes an item off the front of its channel. */
  function Next(rest: Channels, item: Item): Option<Channels> {
    match item
    case Payload(d) => if rest.payloads != [] && rest.payloads[0] == d then Some(rest.(payloads := rest.payloads[1..])) else None
    case Message(m) => if rest.messages != [] && rest.messages[0] == m then Some(rest.(messages := rest.messages[1..])) else None
    case Aggregation(m) =>
      if rest.aggregations != [] && rest.aggregations[0] == m then Some(rest.(aggregations := rest.aggregations[1..])) else None
    case Logged(l) => if rest.lines != [] && rest.lines[0] == l then Some(rest.(lines := rest.lines[1..])) else None
  }

  /** Taking the items off the fronts of their channels, one after the other, leaves `rest'`. */
  ghost predicate Dequeues(rest: Channels, items: seq<Taken>, rest': Channels)
    decreases |items|
  {
    if items == [] then rest == rest'
    else
      var next := Next(rest, items[0].item);
      next.Some? && Dequeues(next.value, items[1..], rest')
  }

  lemma {:induction false} DequeuesAppend(rest: Channels, a: seq<Taken>, mid: Channels, b: seq<Taken>, rest': Channels)
    requires Dequeues(rest, a, mid) && Dequeues(mid, b, rest')
    ensures Dequeues(rest, a + b, rest')
    decreases |a|
  {
    if a == [] {
      assert a + b == b;
    } else {
      DequeuesAppend(Next(rest, a[0].item).value, a[1..], mid, b, rest');
      assert (a + b)[1..] == a[1..] + b;
    }
  }

  predicate Stale(data: ByteString, active: nat) {
    ShouldDrop(DecodeBytes(data).0, active)
  }

  lemma DequeuesOne(rest: Channels, t: Taken, rest': Channels)
    requires Next(rest, t.item) == Some(rest')
    ensures Dequeues(rest, [t], rest')
  {
    assert [t][1..] == [];
  }

  lemma PayloadDelivery(s: Session, data: ByteString, active: nat)
    ensures Delivery(s, Taken(Payload(data), active)) == if Stale(data, active) then [] else DecodeBytes(data).1
    ensures Deliveries(s, [Taken(Payload(data), active)]) == Delivery(s, Taken(Payload(data), active))
  {
    DeliveriesOne(s, Taken(Payload(data), active));
  }

  /** Where the first live payload is, seen from the front. */
  lemma FirstLiveFront(lines: seq<ByteString>, active: nat)
    requires lines != []
    ensures var rest := FirstLive(lines[1..], active);
            FirstLive(lines, active) == if !Stale(lines[0], active) then Some(0) else if rest.Some? then Some(rest.value + 1) else None
  {
  }

  lemma StaleFront(s: Session, t: Taken, items: seq<Taken>)
    requires Deliveries(s, [t]) == []
    ensures Deliveries(s, [t] + items) == Deliveries(s, items)
  {
    DeliveriesSplit(s, [t], items);
    assert [] + Deliveries(s, items) == Deliveries(s, items);
  }

  /** A receive of the output manager dequeues the stale payloads in front of the first live one and
      that one, all under one generation, and delivers nothing but the live one. */
  lemma {:induction false} TakeReceived(s: Session, rest: Channels, active: nat) returns (items: seq<Taken>)
    ensures match FirstLive(rest.payloads, active)
            case None => Dequeues(rest, items, rest.(payloads := [])) && Deliveries(s, items) == []
            case Some(i) =>
              && Dequeues(rest, items, rest.(payloads := rest.payloads[i + 1..]))
              && Deliveries(s, items) == DecodeBytes(rest.payloads[i]).1
    decreases |rest.payloads|
  {
    if rest.payloads == [] {
      return [];
    }
    var t := Taken(Payload(rest.payloads[0]), active);
    var rest' := rest.(payloads := rest.payloads[1..]);
    DequeuesOne(rest, t, rest');
    PayloadDelivery(s, rest.payloads[0], active);
    FirstLiveFront(rest.payloads, active);
    if !Stale(rest.payloads[0], active) {
      return [t];
    }
    items := TakeReceived(s, rest', active);
    StaleFront(s, t, items);
    var i := FirstLive(rest.payloads, active);
    DequeuesAppend(rest, [t], rest', items, rest.(payloads := if i.Some? then rest.payloads[i.value + 1..] else []));
    items := [t] + items;
  }

  /** What one call of TryRead takes from the payload channel, and what of it stays in the buffer. */
  lemma TryReadTakes(s: Session, o: Output, room: nat, active: nat, now: int, quiet: int, rest: Channels) returns (items: seq<Taken>)
    requires o.lines.Some? && o.buffer == [] && o.mode && rest.payloads == o.lines.value && room > 0
    ensures var r := TryRead(o, room, active, now, quiet);
            && r.out.lines.Some? && (r.bytes == [] ==> r.out.buffer == [])
            && |r.bytes| <= room && (!r.handled ==> r.bytes == [])
            && |r.out.lines.value| <= |o.lines.value| - (if r.handled then 1 else 0)
            && Dequeues(rest, items, rest.(payloads := r.out.lines.value))
            && Deliveries(s, items) == r.bytes + r.out.buffer
  {
    ReceiveDeliversWhole(o, room, active, now, quiet);
    ReceiveFillsSlice(o, room, active, now, quiet);
    items := TakeReceived(s, rest, active);
  }

  class ServerHandler {
    const session: Session
    const output: OutputManager
    var readBuf: ByteString
    var serverMessages: seq<ByteString>
    var maprMessages: seq<ByteString>
    var lines: seq<Line>
    var done: bool

    /** At most one of the two remainder buffers holds anything. */
    ghost predicate Valid()
      reads this, output
    {
      readBuf == [] || output.buffer == []
    }

    /** The bytes of items already dequeued that the client has not got yet. */
    ghost function Kept(): ByteString
      reads this, output
    {
      if readBuf != [] then readBuf else output.buffer
    }

    ghost function Rest(): Channels
      reads this, output
    {
      Channels(if output.lines.Some? then output.lines.value else [], serverMessages, maprMessages, lines)
    }

    constructor (session: Session, output: OutputManager)
      requires output.buffer == []
      ensures Valid() && Kept() == [] && this.session == session && this.output == output
    {
      this.session, this.output := session, output;
      readBuf, serverMessages, maprMessages, lines, done := [], [], [], [], false;
    }

    method DrainReadBuf(room: nat) returns (bytes: ByteString)
      requires output.buffer == []
      modifies this`readBuf
      ensures Valid() && |bytes| <= room && old(readBuf) == bytes + Kept()
      ensures room > 0 && old(readBuf) != [] ==> bytes != []
    {
      var n := Min(room, |readBuf|);
      bytes, readBuf := readBuf[..n], readBuf[n..];
    }

    /** An output remainder is finished first. */
    method ReadRemainder(room: nat, active: nat, now: int) returns (bytes: ByteString)
      requires Valid() && output.buffer != [] && room > 0
      modifies output
      ensures Valid() && |bytes| <= room && bytes != [] && old(Kept()) == bytes + Kept() && Rest() == old(Rest())
    {
      var handled;
      bytes, handled := output.Read(room, active, now);
    }

    /** One look at the output manager. A handled read without bytes took an empty payload. */
    method ReadOutput(room: nat, active: nat, now: int) returns (bytes: ByteString, handled: bool, ghost items: seq<Taken>)
      requires Valid() && Kept() == [] && room > 0
      modifies output
      ensures Valid() && |bytes| <= room && Deliveries(session, items) == bytes + Kept()
      ensures Dequeues(old(Rest()), items, Rest()) && Rest().Size() <= old(Rest().Size()) - if handled then 1 else 0
      ensures bytes == [] ==> Kept() == []
    {
      ghost var o, before := output.View(), Rest();
      bytes, handled := output.Read(room, active, now);
      items := [];
      if o.mode && o.lines.Some? {
        items := TryReadTakes(session, o, room, active, now, output.quietPeriod, before);
      }
    }

    method Pop(item: Item)
      requires Next(Rest(), item).Some? && !item.Payload?
      modifies this`serverMessages, this`maprMessages, this`lines
      ensures Next(old(Rest()), item) == Some(Rest()) && Rest().Size() < old(Rest().Size())
    {
      match item {
        case Message(_) => serverMessages := serverMessages[1..];
        case Aggregation(_) => maprMessages := maprMessages[1..];
        case Logged(_) => lines := lines[1..];
      }
    }

    /** One of the three message channels was ready. */
    method Dequeue(t: Taken)
      requires Valid() && Kept() == [] && Next(Rest(), t.item).Some? && !t.item.Payload?
      modifies this`readBuf, this`serverMessages, this`maprMessages, this`lines
      ensures Valid() && Kept() == readBuf == Delivery(session, t)
      ensures Next(old(Rest()), t.item) == Some(Rest()) && Rest().Size() < old(Rest().Size())
    {
      Pop(t.item);
      var message := MessageOf(session, t);
      if message.Some? {
        readBuf := message.value + [MESSAGE_DELIMITER];
      }
    }

    /** The select: any ready channel may be chosen. Without one the poll timer or the end of the session
        wakes the call. */
    method Select(active: nat) returns (t: Option<Taken>, eof: bool)
      ensures t.Some? ==> Next(Rest(), t.value.item).Some? && !t.value.item.Payload? && t.value.active == active && !eof
      ensures eof ==> done
    {
      if
      case serverMessages != [] => return Some(Taken(Message(serverMessages[0]), active)), false;
      case maprMessages != [] => return Some(Taken(Aggregation(maprMessages[0]), active)), false;
      case lines != [] => return Some(Taken(Logged(lines[0]), active)), false;
      case true => return None, done;
    }

    /** A server message that is live but hidden from this session ends the call with no bytes. */
    predicate Returns(t: Taken) {
      t.item.Message? && !ShouldDrop(DecodeMessage(t.item.text).0, t.active)
    }

    /** The part of a turn that the output manager did not serve. */
    method TakeMessage(room: nat, active: nat) returns (bytes: ByteString, stop: bool, eof: bool, ghost items: seq<Taken>)
      requires Valid() && Kept() == [] && room > 0
      modifies this`readBuf, this`serverMessages, this`maprMessages, this`lines
      ensures Valid() && |bytes| <= room && Deliveries(session, items) == bytes + Kept()
      ensures Dequeues(old(Rest()), items, Rest())
      ensures !stop ==> bytes == [] && Kept() == [] && !eof && Rest().Size() < old(Rest().Size())
      ensures eof ==> done && bytes == []
    {
      var t;
      t, eof := Select(active);
      bytes, stop, items := [], true, [];
      if t.Some? {
        Dequeue(t.value);
        DequeuesOne(old(Rest()), t.value, Rest());
        DeliveriesOne(session, t.value);
        items, stop := [t.value], readBuf != [] || Returns(t.value);
        if stop {
          bytes := DrainReadBuf(room);
        }
      }
    }

    /** One turn of the loop in Read: look at the output manager, then at the channels. */
    method Turn(room: nat, active: nat, now: int) returns (bytes: ByteString, stop: bool, eof: bool, ghost items: seq<Taken>)
      requires Valid() && Kept() == [] && room > 0
      modifies this, output
      ensures Valid() && |bytes| <= room && Deliveries(session, items) == bytes + Kept()
      ensures Dequeues(old(Rest()), items, Rest())
      ensures !stop ==> bytes == [] && Kept() == [] && !eof && Rest().Size() < old(Rest().Size())
      ensures eof ==> done && bytes == []
    {
      var handled;
      bytes, handled, items := ReadOutput(room, active, now);
      if bytes != [] || handled {
        return bytes, bytes != [], false, items;
      }
      ghost var mid, more := Rest(), [];
      bytes, stop, eof, more := TakeMessage(room, active);
      DequeuesAppend(old(Rest()), items, mid, more, Rest());
      DeliveriesSplit(session, items, more);
      items := items + more;
    }

    /** Unsent remainders go first and nothing new is dequeued while there is one; what the call returns
        and what it keeps are exactly what was kept before and the whole deliveries of the items it
        dequeued. A read into an empty slice would spin on an output remainder, so there is room. */
    method Read(room: nat) returns (bytes: ByteString, eof: bool, ghost items: seq<Taken>)
      requires Valid() && room > 0
      modifies this, output
      ensures Valid() && |bytes| <= room && old(Kept()) + Deliveries(session, items) == bytes + Kept()
      ensures Dequeues(old(Rest()), items, Rest())
      ensures old(Kept()) != [] ==> items == [] && bytes != []
      ensures eof ==> done && bytes == []
    {
      eof, items := false, [];
      if readBuf != [] {
        bytes := DrainReadBuf(room);
        return;
      }
      var active: nat, now: int := *, *;
      if output.buffer != [] {
        bytes := ReadRemainder(room, active, now);
        return;
      }
      var stop;
      bytes, stop, eof, items := Turn(room, active, now);
      while !stop
        invariant Valid() && |bytes| <= room && Deliveries(session, items) == bytes + Kept()
        invariant Dequeues(old(Rest()), items, Rest())
        invariant !stop ==> bytes == [] && Kept() == []
        invariant eof ==> done && bytes == []
        decreases !stop, Rest().Size()
      {
        active, now := *, *;
        ghost var mid, more := Rest(), [];
        bytes, stop, eof, more := Turn(room, active, now);
        DequeuesAppend(old(Rest()), items, mid, more, Rest());
        DeliveriesSplit(session, items, more);
        items := items + more;
      }
    }
  }

  // ---------------------------------------------------------------- what the client gets

  /** One call of Read, as its contract describes it. */
  datatype Call = Call(items: seq<Taken>, bytes: ByteString, kept: ByteString)

  ghost predicate Run(s: Session, kept: ByteString, calls: seq<Call>)
    decreases |calls|
  {
    calls != [] ==>
      && kept + Deliveries(s, calls[0].items) == calls[0].bytes + calls[0].kept
      && Run(s, calls[0].kept, calls[1..])
  }

  function Items(calls: seq<Call>): seq<Taken> {
    if calls == [] then [] else calls[0].items + Items(calls[1..])
  }

  function Stream(calls: seq<Call>): ByteString {
    if calls == [] then [] else calls[0].bytes + Stream(calls[1..])
  }

  function LastKept(kept: ByteString, calls: seq<Call>): ByteString {
    if calls == [] then kept else calls[|calls| - 1].kept
  }

  /** Over every run of reads, whatever their sizes, the stream and the last remainder are the whole
      deliveries of the dequeued items in order. */
  lemma {:induction false} StreamIsDeliveries(s: Session, kept: ByteString, calls: seq<Call>)
    requires Run(s, kept, calls)
    ensures kept + Deliveries(s, Items(calls)) == Stream(calls) + LastKept(kept, calls)
    decreases |calls|
  {
    if calls != [] {
      var c, rest := calls[0], calls[1..];
      StreamIsDeliveries(s, c.kept, rest);
      DeliveriesSplit(s, c.items, Items(rest));
      calc {
        kept + (Deliveries(s, c.items) + Deliveries(s, Items(rest)));
        { Assoc(kept, Deliveries(s, c.items), Deliveries(s, Items(rest))); }
        (c.bytes + c.kept) + Deliveries(s, Items(rest));
        { Assoc(c.bytes, c.kept, Deliveries(s, Items(rest))); }
        c.bytes + (Stream(rest) + LastKept(c.kept, rest));
        { Assoc(c.bytes, Stream(rest), LastKept(c.kept, rest)); }
        (c.bytes + Stream(rest)) + LastKept(c.kept, rest);
      }
    }
  }

  /** The messages an item carries, where the item is a whole number of frames. */
  ghost predicate Carries(s: Session, t: Taken, messages: seq<ByteString>) {
    Free(messages, MESSAGE_DELIMITER) && Delivery(s, t) == Frames(messages, MESSAGE_DELIMITER)
  }

  /** Everything but an output payload carries its one message, unless that contains the delimiter. */
  lemma MessagesAreFrames(s: Session, t: Taken)
    requires !t.item.Payload?
    requires MessageOf(s, t).Some? ==> MESSAGE_DELIMITER !in MessageOf(s, t).value
    ensures Carries(s, t, if MessageOf(s, t).Some? then [MessageOf(s, t).value] else [])
  {
    if MessageOf(s, t).Some? {
      var m := MessageOf(s, t).value;
      FramesFirst([m], MESSAGE_DELIMITER);
    }
  }

  function Flatten(batches: seq<seq<ByteString>>): seq<ByteString> {
    if batches == [] then [] else Flatten(batches[..|batches| - 1]) + batches[|batches| - 1]
  }

  lemma {:induction false} FlattenFree(batches: seq<seq<ByteString>>, d: byte)
    requires forall i :: 0 <= i < |batches| ==> Free(batches[i], d)
    ensures Free(Flatten(batches), d)
    decreases |batches|
  {
    if batches != [] {
      FlattenFree(batches[..|batches| - 1], d);
    }
  }

  lemma {:induction false} DeliveriesAreFrames(s: Session, items: seq<Taken>, batches: seq<seq<ByteString>>)
    requires |items| == |batches|
    requires forall i :: 0 <= i < |items| ==> Carries(s, items[i], batches[i])
    ensures Deliveries(s, items) == Frames(Flatten(batches), MESSAGE_DELIMITER)
    decreases |items|
  {
    if items != [] {
      var n := |items| - 1;
      DeliveriesAreFrames(s, items[..n], batches[..n]);
      FramesSplit(Flatten(batches[..n]), batches[n], MESSAGE_DELIMITER);
      assert Carries(s, items[n], batches[n]);
    }
  }

  /** End to end: for every run of reads on the server and every chunking into writes on the client
      (ClientHandler.Write keeps Reads), the client has handled a prefix of the messages of the dequeued
      items, in order; all of them, with nothing left open, once the server keeps no remainder. */
  lemma ClientGetsTheMessages(s: Session, calls: seq<Call>, batches: seq<seq<ByteString>>, got: seq<ByteString>, open: ByteString)
    requires Run(s, [], calls) && Reads(Stream(calls), got, open, MESSAGE_DELIMITER)
    requires |Items(calls)| == |batches|
    requires forall i :: 0 <= i < |batches| ==> Carries(s, Items(calls)[i], batches[i])
    ensures got <= Flatten(batches)
    ensures LastKept([], calls) == [] ==> got == Flatten(batches) && open == []
  {
    StreamIsDeliveries(s, [], calls);
    DeliveriesAreFrames(s, Items(calls), batches);
    FlattenFree(batches, MESSAGE_DELIMITER);
    assert [] + Deliveries(s, Items(calls)) == Deliveries(s, Items(calls));
    ReceivesPrefix(Flatten(batches), Stream(calls), LastKept([], calls), got, open, MESSAGE_DELIMITER);
  }
}
