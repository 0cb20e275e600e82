/** What the messages on the stream say to a client: it splits them at their first field delimiters
    (internal/clients/handlers/maprhandler.go, internal/color/brush/brush.go). */
module ClientViews {
  import opened Wrappers
  import opened Bytes
  import opened GenerationOutput
  import opened OutputManagers
  import opened Framing
  import opened ServerReads
  import opened NetworkWriters

  /** strings.SplitN(s, "|", n) for a positive n. */
  function SplitN(s: ByteString, n: nat): seq<ByteString> {
    if n <= 1 then [s]
    else
      match IndexOf(s, FIELD)
      case None => [s]
      case Some(i) => [s[..i]] + SplitN(s[i + 1..], n - 1)
  }

  lemma SplitFirstField(first: ByteString, rest: ByteString, n: nat)
    requires FIELD !in first && n > 1
    ensures SplitN(first + [FIELD] + rest, n) == [first] + SplitN(rest, n - 1)
  {
    IndexAfter(first, FIELD, rest);
    var s := first + [FIELD] + rest;
    assert s[..|first|] == first && s[|first| + 1..] == rest;
  }

  /** A message of fields is split into them, if none but the last holds the delimiter. */
  lemma {:induction false} FieldsReadBack(parts: seq<ByteString>)
    requires parts != [] && forall i :: 0 <= i < |parts| - 1 ==> FIELD !in parts[i]
    ensures SplitN(Fields(parts), |parts|) == parts
  {
    if |parts| > 1 {
      FieldsReadBack(parts[1..]);
      SplitFirstField(parts[0], Fields(parts[1..]), |parts|);
      assert parts == [parts[0]] + parts[1..];
    }
  }

  lemma {:induction false} FieldsAreFree(parts: seq<ByteString>, b: byte)
    requires b != FIELD && Free(parts, b)
    ensures b !in Fields(parts)
  {
    if |parts| > 1 {
      FieldsAreFree(parts[1..], b);
    }
  }

  // ---------------------------------------------------------------- what a message says

  datatype Told =
    | Bare(text: ByteString)
    | FromServer(text: ByteString)
    | AggregateData(text: ByteString)
    | RemoteLine(perc: ByteString, number: nat, source: ByteString, content: ByteString)

  ghost predicate Says(hostname: ByteString, m: ByteString, told: Told) {
    match told
    case Bare(text) => m == text
    case FromServer(text) => SplitN(m, 3) == [SERVER, hostname, text]
    case AggregateData(text) => SplitN(m, 3) == [AGGREGATE, hostname, text]
    case RemoteLine(perc, number, source, content) =>
      var parts := SplitN(m, 6);
      && |parts| == 6 && parts[..3] == [REMOTE, hostname, perc] && parts[4..] == [source, content]
      && ParseUint(parts[3]) == if number <= MAX_UINT64 then Some(number) else None
  }

  lemma RemoteLineSays(s: Session, line: Line)
    requires !s.plain && FIELD !in s.hostname && FIELD !in line.perc && FIELD !in line.source
    ensures Says(s.hostname, LineMessage(s, line), RemoteLine(line.perc, line.count, line.source, line.content))
  {
    DecimalValue(line.count);
    FieldsReadBack([REMOTE, s.hostname, line.perc, Decimal(line.count), line.source, line.content]);
  }

  /** What an item is meant to tell the client: nothing if it is of another generation or if the session
      hides it. */
  function TellsOf(s: Session, t: Taken): seq<Told>
    requires !t.item.Payload?
  {
    var generation := if t.item.Logged? then t.item.line.generation else DecodeMessage(t.item.text).0;
    if !(generation == 0 || t.active == 0 || generation == t.active) then []
    else
      match t.item
      case Logged(line) =>
        [if s.plain then Bare(line.content) else RemoteLine(line.perc, line.count, line.source, line.content)]
      case Aggregation(text) => [AggregateData(DecodeMessage(text).1)]
      case Message(text) =>
        var decoded := DecodeMessage(text).1;
        if [DOT] <= decoded then [Bare(decoded)]
        else if s.serverless then []
        else if s.plain then (if decoded in {[], [LINE_FEED]} then [] else [Bare(decoded)])
        else [FromServer(decoded)]
  }

  /** The names in the headers are free of the field delimiter. */
  predicate HeadersFit(s: Session, t: Taken) {
    FIELD !in s.hostname && (t.item.Logged? ==> FIELD !in t.item.line.perc && FIELD !in t.item.line.source)
  }

  /** The stream carries, for every told text, one whole message that says it. */
  ghost predicate Conveys(s: Session, t: Taken, messages: seq<ByteString>, told: seq<Told>) {
    Carries(s, t, messages) && |messages| == |told| && forall i :: 0 <= i < |told| ==> Says(s.hostname, messages[i], told[i])
  }

  lemma ItemSays(s: Session, t: Taken)
    requires !t.item.Payload? && HeadersFit(s, t)
    ensures MessageOf(s, t).Some? <==> TellsOf(s, t) != []
    ensures MessageOf(s, t).Some? ==> |TellsOf(s, t)| == 1 && Says(s.hostname, MessageOf(s, t).value, TellsOf(s, t)[0])
  {
    match t.item
    case Logged(line) =>
      if !s.plain {
        RemoteLineSays(s, line);
      }
    case Aggregation(text) => FieldsReadBack([AGGREGATE, s.hostname, DecodeMessage(text).1]);
    case Message(text) =>
      var decoded := DecodeMessage(text).1;
      FieldsReadBack([SERVER, s.hostname, decoded]);
      assert decoded != [] ==> ([DOT] <= decoded <==> decoded[0] == DOT);
  }

  /** The message delimiter is in none of the texts that make up the item's message. */
  ghost predicate TextsFit(s: Session, t: Taken)
    requires !t.item.Payload?
  {
    && MESSAGE_DELIMITER !in s.hostname
    && match t.item
       case Logged(line) => Free([line.perc, line.source, line.content], MESSAGE_DELIMITER)
       case Aggregation(text) => MESSAGE_DELIMITER !in DecodeMessage(text).1
       case Message(text) => MESSAGE_DELIMITER !in DecodeMessage(text).1
  }

  lemma LineIsFree(s: Session, line: Line)
    requires TextsFit(s, Taken(Logged(line), 0))
    ensures MESSAGE_DELIMITER !in LineMessage(s, line)
  {
    var texts := [line.perc, line.source, line.content];
    assert texts[0] == line.perc && texts[1] == line.source && texts[2] == line.content;
    FieldsAreFree([REMOTE, s.hostname, line.perc, Decimal(line.count), line.source, line.content], MESSAGE_DELIMITER);
  }

  lemma ItemIsFree(s: Session, t: Taken)
    requires !t.item.Payload? && TextsFit(s, t)
    ensures MessageOf(s, t).Some? ==> MESSAGE_DELIMITER !in MessageOf(s, t).value
  {
    match t.item
    case Logged(line) => LineIsFree(s, line);
    case Aggregation(text) => FieldsAreFree([AGGREGATE, s.hostname, DecodeMessage(text).1], MESSAGE_DELIMITER);
    case Message(text) => FieldsAreFree([SERVER, s.hostname, DecodeMessage(text).1], MESSAGE_DELIMITER);
  }

  /** Every server message, aggregation message and log line conveys exactly what it is meant to tell. */
  lemma ItemConveys(s: Session, t: Taken) returns (messages: seq<ByteString>)
    requires !t.item.Payload? && HeadersFit(s, t) && TextsFit(s, t)
    ensures Conveys(s, t, messages, TellsOf(s, t))
  {
    messages := if MessageOf(s, t).Some? then [MessageOf(s, t).value] else [];
    ItemIsFree(s, t);
    MessagesAreFrames(s, t);
    ItemSays(s, t);
  }

  /** Items tagged for a generation arrive exactly in sessions of that generation, or in sessions without
      one. An untagged text that does not read as tagged always arrives. */
  lemma TaggedItemTells(s: Session, generation: nat, text: ByteString, active: nat)
    requires generation <= MAX_UINT64 && (generation == 0 ==> DecodeMessage(text) == (0, text))
    ensures var tagged := EncodeMessage(generation, text);
            if generation == 0 || active == 0 || generation == active then
              && TellsOf(s, Taken(Aggregation(tagged), active)) == [AggregateData(text)]
              && Delivery(s, Taken(Aggregation(tagged), active)) == Fields([AGGREGATE, s.hostname, text]) + [MESSAGE_DELIMITER]
              && (!s.plain && !s.serverless && !([DOT] <= text) ==>
                    TellsOf(s, Taken(Message(tagged), active)) == [FromServer(text)])
            else
              && Delivery(s, Taken(Aggregation(tagged), active)) == [] && Delivery(s, Taken(Message(tagged), active)) == []
  {
    if generation > 0 {
      DecodeInvertsEncode(generation, text);
    }
  }

  /** And so do output payloads. */
  lemma TaggedPayloadArrives(s: Session, p: Addressed, active: nat)
    requires p.Readable()
    ensures Delivery(s, Taken(Payload(p.Encoded()), active)) == if p.For(active) then p.data else []
  {
    AddressedDecodes(p);
  }

  // ---------------------------------------------------------------- lines that travel in batches

  datatype OutLine = OutLine(number: nat, source: ByteString, content: ByteString)

  /** What a line of the output path is meant to tell: its content alone in plain and serverless sessions. */
  function LineTells(s: Session, l: OutLine): Told {
    if s.plain || s.serverless then Bare(l.content) else RemoteLine([0x31, 0x30, 0x30], l.number, l.source, l.content)
  }

  lemma LineSays(s: Session, l: OutLine)
    requires FIELD !in s.hostname && FIELD !in l.source
    ensures Says(s.hostname, LineText(s, l.number, l.source, l.content), LineTells(s, l))
  {
    if !s.plain && !s.serverless {
      RemoteLineSays(s, Line(0, FULL_PERC, l.number, l.source, l.content));
    }
  }

  function Texts(s: Session, lines: seq<OutLine>): seq<ByteString> {
    seq(|lines|, i requires 0 <= i < |lines| => LineText(s, lines[i].number, lines[i].source, lines[i].content))
  }

  function LinesTell(s: Session, lines: seq<OutLine>): seq<Told> {
    seq(|lines|, i requires 0 <= i < |lines| => LineTells(s, lines[i]))
  }

  /** A batch of written lines conveys number, source and content of each line, in the order of the batch.
      Without a generation the batch must not read as tagged, which headers rule out. */
  lemma BatchConveys(s: Session, lines: seq<OutLine>, generation: nat, active: nat)
    requires FIELD !in s.hostname && forall i :: 0 <= i < |lines| ==> FIELD !in lines[i].source
    requires Free(Texts(s, lines), MESSAGE_DELIMITER)
    requires generation <= MAX_UINT64 && (generation == 0 || active == 0 || generation == active)
    requires generation > 0 || !LooksTagged(Frames(Texts(s, lines), MESSAGE_DELIMITER))
    ensures Conveys(s, Taken(Payload(EncodeMessage(generation, Frames(Texts(s, lines), MESSAGE_DELIMITER))), active),
                    Texts(s, lines), LinesTell(s, lines))
  {
    PayloadCarriesItsLines(s, Batch(Texts(s, lines), Fate.Sent), generation, active);
    forall i | 0 <= i < |lines|
      ensures Says(s.hostname, Texts(s, lines)[i], LinesTell(s, lines)[i])
    {
      LineSays(s, lines[i]);
    }
  }

  // ---------------------------------------------------------------- end to end

  function AllTold(told: seq<seq<Told>>): seq<Told> {
    if told == [] then [] else AllTold(told[..|told| - 1]) + told[|told| - 1]
  }

  lemma {:induction false} AllSay(s: Session, items: seq<Taken>, batches: seq<seq<ByteString>>, told: seq<seq<Told>>)
    requires |items| == |batches| == |told|
    requires forall i :: 0 <= i < |items| ==> Conveys(s, items[i], batches[i], told[i])
    ensures |Flatten(batches)| == |AllTold(told)|
    ensures forall i :: 0 <= i < |Flatten(batches)| ==> Says(s.hostname, Flatten(batches)[i], AllTold(told)[i])
    decreases |items|
  {
    if items != [] {
      var n := |items| - 1;
      AllSay(s, items[..n], batches[..n], told[..n]);
      assert Conveys(s, items[n], batches[n], told[n]);
    }
  }

  /** End to end, contents included: over every run of reads and every chunking, the messages the client has
      handled say, one for one and in order, what the dequeued items were meant to tell, and they say all
      of it once the server keeps no remainder. */
  lemma ClientIsTold(s: Session, calls: seq<Call>, batches: seq<seq<ByteString>>, told: seq<seq<Told>>, got: seq<ByteString>, open: ByteString)
    requires ServerReads.Run(s, [], calls) && Reads(Stream(calls), got, open, MESSAGE_DELIMITER)
    requires |Items(calls)| == |batches| == |told|
    requires forall i :: 0 <= i < |told| ==> Conveys(s, Items(calls)[i], batches[i], told[i])
    ensures |got| <= |AllTold(told)| && forall i :: 0 <= i < |got| ==> Says(s.hostname, got[i], AllTold(told)[i])
    ensures LastKept([], calls) == [] ==> |got| == |AllTold(told)| && open == []
  {
    ClientGetsTheMessages(s, calls, batches, got, open);
    AllSay(s, Items(calls), batches, told);
  }
}
