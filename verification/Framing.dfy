/** Delimiter framing between server and client, both ways: the client handler's Write and Read
    (internal/clients/handlers/basehandler.go) and the server handler's Write
    (internal/server/handlers/basehandler.go). */
module Framing {
  import opened Wrappers
  import opened Bytes

  const MESSAGE_DELIMITER: byte := 0xac
  const COMMAND_DELIMITER: byte := 0x3b

  /** The bytes on the wire for a list of messages. */
  function Frames(messages: seq<ByteString>, d: byte): (s: ByteString) {
    if messages == [] then [] else Frames(messages[..|messages| - 1], d) + messages[|messages| - 1] + [d]
  }

  predicate Free(messages: seq<ByteString>, d: byte) {
    forall i :: 0 <= i < |messages| ==> d !in messages[i]
  }

  lemma {:induction false} FramesSplit(a: seq<ByteString>, b: seq<ByteString>, d: byte)
    ensures Frames(a + b, d) == Frames(a, d) + Frames(b, d)
    decreases |b|
  {
    if b == [] {
      assert a + b == a;
    } else {
      var n := |b| - 1;
      FramesSplit(a, b[..n], d);
      assert (a + b)[..|a + b| - 1] == a + b[..n];
    }
  }

  lemma FramesFirst(a: seq<ByteString>, d: byte)
    requires a != []
    ensures Frames(a, d) == a[0] + [d] + Frames(a[1..], d)
  {
    assert a == [a[0]] + a[1..];
    FramesSplit([a[0]], a[1..], d);
    assert Frames([a[0]], d) == Frames([a[0]][..0], d) + a[0] + [d];
  }

  /** The first frame of a stream, taken off. */
  lemma SplitFrame(s: ByteString, p: ByteString, d: byte, rest: ByteString, x: ByteString)
    requires s == p + [d] + rest && d !in p
    ensures IndexOf(s + x, d) == Some(|p|)
    ensures (s + x)[..|p|] == p && (s + x)[|p| + 1..] == rest + x
  {
    assert s + x == p + [d] + (rest + x);
    IndexAfter(p, d, rest + x);
  }

  lemma FirstFrame(a: seq<ByteString>, x: ByteString, d: byte)
    requires Free(a, d) && d !in x
    ensures a == [] ==> Frames(a, d) + x == x && IndexOf(Frames(a, d) + x, d) == None
    ensures a != [] ==> IndexOf(Frames(a, d) + x, d) == Some(|a[0]|)
    ensures a != [] ==> (Frames(a, d) + x)[..|a[0]|] == a[0]
    ensures a != [] ==> (Frames(a, d) + x)[|a[0]| + 1..] == Frames(a[1..], d) + x
  {
    if a == [] {
      assert Frames(a, d) + x == x;
    } else {
      FramesFirst(a, d);
      SplitFrame(Frames(a, d), a[0], d, Frames(a[1..], d), x);
    }
  }

  /** Two readings of one stream agree on their first frame. */
  lemma FirstFramesAgree(a: seq<ByteString>, x: ByteString, b: seq<ByteString>, y: ByteString, d: byte)
    requires a != [] && Free(a, d) && Free(b, d) && d !in y && Frames(a, d) + x == Frames(b, d) + y
    ensures b != [] && a[0] == b[0] && Frames(a[1..], d) + x == Frames(b[1..], d) + y
  {
    FramesFirst(a, d);
    SplitFrame(Frames(a, d), a[0], d, Frames(a[1..], d), x);
    FirstFrame(b, y, d);
  }

  /** Framing has one reading: if a partial stream starts a longer one, its messages start the longer
      one's, and equal streams hold equal messages and equal unfinished tails. */
  lemma {:induction false} FramesPrefix(a: seq<ByteString>, x: ByteString, more: ByteString, b: seq<ByteString>, y: ByteString, d: byte)
    requires Free(a, d) && Free(b, d) && d !in x && d !in y
    requires Frames(a, d) + (x + more) == Frames(b, d) + y
    ensures a <= b
    ensures more == [] ==> a == b && x == y
    decreases |a|
  {
    if a != [] {
      FirstFramesAgree(a, x + more, b, y, d);
      FramesPrefix(a[1..], x, more, b[1..], y, d);
      assert a == [a[0]] + a[1..] && b == [b[0]] + b[1..];
    } else if more == [] {
      assert x + more == x;
      FirstFrame(a, x, d);
      FirstFrame(b, y, d);
    }
  }

  /** A receiver's state: the messages it has handled and the bytes of the one still open. */
  ghost predicate Reads(stream: ByteString, messages: seq<ByteString>, open: ByteString, d: byte) {
    Frames(messages, d) + open == stream && Free(messages, d) && d !in open
  }

  /** What a receiver has after a stream does not depend on how the stream was chunked. */
  lemma ChunkingIsInvisible(stream: ByteString, a: seq<ByteString>, x: ByteString, b: seq<ByteString>, y: ByteString, d: byte)
    requires Reads(stream, a, x, d) && Reads(stream, b, y, d)
    ensures a == b && x == y
  {
    assert x + [] == x;
    FramesPrefix(a, x, [], b, y, d);
  }

  /** The receiver gets back exactly what was sent if and only if no message contains the delimiter. */
  lemma RecoversIff(sent: seq<ByteString>, got: seq<ByteString>, open: ByteString, d: byte)
    requires Reads(Frames(sent, d), got, open, d)
    ensures got == sent <==> Free(sent, d)
    ensures Free(sent, d) ==> open == []
  {
    if Free(sent, d) {
      assert Frames(sent, d) + [] == Frames(sent, d);
      ChunkingIsInvisible(Frames(sent, d), got, open, sent, [], d);
    }
  }

  /** While part of the stream is still on its way the receiver has a prefix of what was sent. */
  lemma ReceivesPrefix(sent: seq<ByteString>, stream: ByteString, pending: ByteString, got: seq<ByteString>, open: ByteString, d: byte)
    requires Free(sent, d) && stream + pending == Frames(sent, d) && Reads(stream, got, open, d)
    ensures got <= sent
    ensures pending == [] ==> got == sent && open == []
  {
    assert Frames(sent, d) + [] == Frames(sent, d);
    assert Frames(got, d) + (open + pending) == stream + pending;
    FramesPrefix(got, open, pending, sent, [], d);
  }

  /** The delimiter byte ends the UTF-8 form of the euro sign, so a line holding one euro sign reaches
      the client as two messages. */
  lemma EuroSignIsCutInTwo(got: seq<ByteString>, open: ByteString)
    requires Reads(Frames([[0xe2, 0x82, 0xac]], MESSAGE_DELIMITER), got, open, MESSAGE_DELIMITER)
    ensures got == [[0xe2, 0x82], []] && open == []
  {
    var d := MESSAGE_DELIMITER;
    var parts: seq<ByteString> := [[0xe2, 0x82], []];
    var euro: ByteString := [0xe2, 0x82, 0xac];
    FramesFirst([euro], d);
    FramesFirst(parts, d);
    FramesFirst(parts[1..], d);
    assert Frames(parts, d) + [] == Frames([euro], d);
    ChunkingIsInvisible(Frames([euro], d), got, open, parts, [], d);
  }

  /** The client's side of one connection. `messages` is what handleMessage was called with. */
  class ClientHandler {
    var receiveBuf: ByteString
    var messages: seq<ByteString>
    var commands: seq<ByteString>
    var pendingCommand: ByteString
    var done: bool
    ghost var received: ByteString
    ghost var taken: seq<ByteString>
    ghost var sent: ByteString

    ghost predicate Valid()
      reads this
    {
      && Reads(received, messages, receiveBuf, MESSAGE_DELIMITER)
      && Concat(taken) == sent + pendingCommand
    }

    constructor ()
      ensures Valid() && messages == [] && commands == [] && received == [] && taken == [] && sent == [] && !done
    {
      receiveBuf, messages, commands, pendingCommand, done := [], [], [], [], false;
      received, taken, sent := [], [], [];
    }

    /** Data from the server: any split of the stream over calls keeps the reading of the whole stream. */
    method Write(p: ByteString) returns (n: nat)
      requires Valid()
      modifies this`receiveBuf, this`messages, this`received
      ensures Valid() && received == old(received) + p && n == |p|
      ensures old(messages) <= messages
    {
      for i := 0 to |p|
        invariant Valid() && received == old(received) + p[..i] && old(messages) <= messages
      {
        assert p[..i + 1] == p[..i] + [p[i]];
        if p[i] == MESSAGE_DELIMITER {
          ghost var grown := messages + [receiveBuf];
          assert grown[..|grown| - 1] == messages;
          messages, receiveBuf := messages + [receiveBuf], [];
        } else {
          receiveBuf := receiveBuf + [p[i]];
        }
        received := received + [p[i]];
      }
      assert p[..|p|] == p;
      n := |p|;
    }

    /** Commands to the server: a frame that did not fit is finished before the next one is dequeued.
        With nothing to send the call blocks until one of the preconditions holds. */
    method Read(room: nat) returns (bytes: ByteString, eof: bool)
      requires Valid() && (pendingCommand != [] || commands != [] || done)
      modifies this`commands, this`pendingCommand, this`taken, this`sent
      ensures Valid() && |bytes| <= room && sent == old(sent) + bytes
      ensures taken + commands == old(taken + commands) && old(taken) <= taken
      ensures old(pendingCommand) != [] ==> taken == old(taken)
      ensures eof <==> old(pendingCommand) == [] && old(commands) == []
    {
      if pendingCommand != [] {
        var n := Min(room, |pendingCommand|);
        bytes, pendingCommand, eof := pendingCommand[..n], pendingCommand[n..], false;
        sent := sent + bytes;
        return;
      }
      if commands == [] {
        return [], true;
      }
      bytes := ConsumeCommand(room);
      eof := false;
    }

    method ConsumeCommand(room: nat) returns (bytes: ByteString)
      requires Valid() && pendingCommand == [] && commands != []
      modifies this`commands, this`pendingCommand, this`taken, this`sent
      ensures Valid() && |bytes| <= room && sent == old(sent) + bytes
      ensures taken == old(taken) + [old(commands[0])] && commands == old(commands[1..])
    {
      var command := commands[0];
      ConcatMore(taken, command);
      assert sent + pendingCommand == sent;
      taken, commands := taken + [command], commands[1..];
      var n := Min(room, |command|);
      bytes := command[..n];
      assert sent + command == sent + bytes + command[n..];
      if n < |command| {
        pendingCommand := command[n..];
      }
      sent := sent + bytes;
    }
  }

  // ---------------------------------------------------------------- commands, seen by the server

  /** The stretch of limit + 1 bytes from i on holds no command delimiter. */
  predicate Unbroken(s: ByteString, i: nat, limit: nat) {
    i + limit < |s| && COMMAND_DELIMITER !in s[i..i + limit + 1]
  }

  ghost predicate Oversized(s: ByteString, limit: nat) {
    exists i: nat :: Unbroken(s, i, limit)
  }

  /** An unbroken stretch after one more byte was there before, or that byte ends it. */
  lemma UnbrokenBefore(s: ByteString, b: byte, limit: nat, i: nat)
    requires Unbroken(s + [b], i, limit)
    ensures i + limit < |s| ==> Unbroken(s, i, limit)
    ensures i + limit == |s| ==> b != COMMAND_DELIMITER && forall j :: i <= j < |s| ==> s[j] != COMMAND_DELIMITER
  {
    var t := s + [b];
    var w := t[i..i + limit + 1];
    if i + limit < |s| {
      assert w == s[i..i + limit + 1];
    } else {
      assert w[limit] == b;
      assert forall j :: i <= j < |s| ==> s[j] == w[j - i];
    }
  }

  lemma OpenFrameIsUnbroken(s: ByteString, b: byte, limit: nat)
    requires limit <= |s| && COMMAND_DELIMITER !in s[|s| - limit..] && b != COMMAND_DELIMITER
    ensures Unbroken(s + [b], |s| - limit, limit)
  {
    var i := |s| - limit;
    assert (s + [b])[i..i + limit + 1] == s[i..] + [b];
  }

  /** Reading one more byte makes the stretch oversized exactly when the open frame outgrows the limit. */
  lemma OversizedGrows(s: ByteString, open: nat, b: byte, limit: nat)
    requires !Oversized(s, limit) && open <= |s| && open <= limit
    requires COMMAND_DELIMITER !in s[|s| - open..] && (open < |s| ==> s[|s| - open - 1] == COMMAND_DELIMITER)
    ensures Oversized(s + [b], limit) <==> b != COMMAND_DELIMITER && open == limit
  {
    if b != COMMAND_DELIMITER && open == limit {
      OpenFrameIsUnbroken(s, b, limit);
    } else if Oversized(s + [b], limit) {
      var i: nat :| Unbroken(s + [b], i, limit);
      UnbrokenBefore(s, b, limit, i);
    }
  }

  /** The bytes behind the last command delimiter. */
  predicate IsOpen(s: ByteString, open: ByteString) {
    && COMMAND_DELIMITER !in open && |open| <= |s| && open == s[|s| - |open|..]
    && (|open| < |s| ==> s[|s| - |open| - 1] == COMMAND_DELIMITER)
  }

  lemma OneMore(before: ByteString, p: ByteString, i: nat)
    requires i < |p|
    ensures before + p[..i + 1] == before + p[..i] + [p[i]]
    ensures before + p == before + p[..i + 1] + p[i + 1..]
  {
  }

  lemma OversizedStays(s: ByteString, more: ByteString, limit: nat)
    requires Oversized(s, limit)
    ensures Oversized(s + more, limit)
  {
    var i: nat :| Unbroken(s, i, limit);
    assert (s + more)[i..i + limit + 1] == s[i..i + limit + 1];
    assert Unbroken(s + more, i, limit);
  }

  /** The stream ends in a frame of limit + 1 bytes behind those commands. */
  ghost predicate TooLong(stream: ByteString, commands: seq<ByteString>, frame: ByteString, limit: nat) {
    |frame| == limit + 1 && COMMAND_DELIMITER !in frame && Frames(commands, COMMAND_DELIMITER) + frame == stream
  }

  /** The server's command input of one session. `commands` is what handleCommand was called with, and
      `limit` 0 stands for no limit. */
  class CommandReader {
    const limit: nat
    var writeBuf: ByteString
    var commands: seq<ByteString>
    var closed: bool

    /** The command bytes read since the session started or since an oversized frame was thrown away. */
    ghost function Stream(): ByteString
      reads this
    {
      Frames(commands, COMMAND_DELIMITER) + writeBuf
    }

    ghost predicate Valid()
      reads this
    {
      && Free(commands, COMMAND_DELIMITER) && COMMAND_DELIMITER !in writeBuf
      && (limit > 0 ==> |writeBuf| <= limit)
    }

    constructor (limit: nat)
      ensures Valid() && Stream() == [] && commands == [] && !closed && this.limit == limit
    {
      this.limit := limit;
      writeBuf, commands, closed := [], [], false;
    }

    method HandleCommand()
      requires Valid()
      modifies this`writeBuf, this`commands
      ensures Valid() && Stream() == old(Stream()) + [COMMAND_DELIMITER] && writeBuf == []
      ensures commands == old(commands) + [old(writeBuf)]
    {
      ghost var grown := commands + [writeBuf];
      assert grown[..|grown| - 1] == commands;
      commands, writeBuf := commands + [writeBuf], [];
    }

    /** One byte of input; `s` is the input since the last call of Write began, with the frame open then. */
    method WriteByte(b: byte, ghost s: ByteString) returns (ok: bool)
      requires Valid() && IsOpen(s, writeBuf) && (limit > 0 ==> !Oversized(s, limit))
      modifies this
      ensures Valid() && (limit > 0 ==> (ok <==> !Oversized(s + [b], limit)))
      ensures ok ==> IsOpen(s + [b], writeBuf) && Stream() == old(Stream()) + [b] && closed == old(closed)
      ensures !ok ==> limit > 0 && closed && writeBuf == [] && commands == old(commands)
      ensures !ok ==> |old(writeBuf)| == limit && b != COMMAND_DELIMITER
    {
      if limit > 0 {
        OversizedGrows(s, |writeBuf|, b, limit);
      }
      if b == COMMAND_DELIMITER {
        HandleCommand();
        return true;
      }
      writeBuf := writeBuf + [b];
      if limit > 0 && |writeBuf| > limit {
        writeBuf, closed := [], true;
        return false;
      }
      ok := true;
    }

    /** The session is closed exactly when a frame outgrows the limit. Otherwise the whole input joins
        the stream; if it is closed, the commands are those completed before the frame that was too long. */
    method Write(p: ByteString) returns (ok: bool)
      requires Valid()
      modifies this
      ensures Valid()
      ensures ok <==> limit == 0 || !Oversized(old(writeBuf) + p, limit)
      ensures ok ==> Stream() == old(Stream()) + p && closed == old(closed)
      ensures !ok ==> closed && writeBuf == []
      ensures !ok ==> exists k: nat, frame :: k <= |p| && TooLong(old(Stream()) + p[..k], commands, frame, limit)
    {
      ghost var before := writeBuf;
      assert old(Stream()) + p[..0] == old(Stream()) && before + p[..0] == before;
      for i := 0 to |p|
        invariant Valid() && closed == old(closed)
        invariant Stream() == old(Stream()) + p[..i]
        invariant limit > 0 ==> !Oversized(before + p[..i], limit)
        invariant IsOpen(before + p[..i], writeBuf)
      {
        ghost var s, frame := before + p[..i], writeBuf + [p[i]];
        OneMore(before, p, i);
        OneMore(old(Stream()), p, i);
        assert Frames(commands, COMMAND_DELIMITER) + frame == Stream() + [p[i]];
        ok := WriteByte(p[i], s);
        if !ok {
          OversizedStays(before + p[..i + 1], p[i + 1..], limit);
          assert TooLong(old(Stream()) + p[..i + 1], commands, frame, limit);
          return;
        }
      }
      assert p[..|p|] == p;
      ok := true;
    }
  }

  /** Frames of bodies within the limit hold no longer stretch without a delimiter. */
  lemma {:induction false} FramesFitTheLimit(bodies: seq<ByteString>, limit: nat, i: nat)
    requires forall j :: 0 <= j < |bodies| ==> |bodies[j]| <= limit
    ensures !Unbroken(Frames(bodies, COMMAND_DELIMITER), i, limit)
    decreases |bodies|
  {
    if bodies != [] {
      var s, n := Frames(bodies, COMMAND_DELIMITER), |bodies[0]|;
      var rest := Frames(bodies[1..], COMMAND_DELIMITER);
      FramesFirst(bodies, COMMAND_DELIMITER);
      if i <= n {
        DelimiterBreaks(s, i, limit, n);
      } else {
        FramesFitTheLimit(bodies[1..], limit, i - n - 1);
        UnbrokenBehind(bodies[0] + [COMMAND_DELIMITER], rest, i - n - 1, limit);
      }
    }
  }

  lemma DelimiterBreaks(s: ByteString, i: nat, limit: nat, n: nat)
    requires i <= n <= i + limit && n < |s| && s[n] == COMMAND_DELIMITER
    ensures !Unbroken(s, i, limit)
  {
    if i + limit < |s| {
      assert s[i..i + limit + 1][n - i] == COMMAND_DELIMITER;
    }
  }

  /** Stretches keep their bytes when something stands in front of them. */
  lemma UnbrokenBehind(front: ByteString, s: ByteString, i: nat, limit: nat)
    ensures Unbroken(front + s, |front| + i, limit) <==> Unbroken(s, i, limit)
  {
    if i + limit < |s| {
      assert (front + s)[|front| + i..|front| + i + limit + 1] == s[i..i + limit + 1];
    }
  }

  /** Commands within the limit never close the session, however their bytes are chunked: whatever part
      of them the server has read, the next part does not make its open frame too long. */
  lemma CommandsFitTheLimit(bodies: seq<ByteString>, limit: nat, read: ByteString, open: ByteString, p: ByteString, rest: ByteString)
    requires forall j :: 0 <= j < |bodies| ==> |bodies[j]| <= limit
    requires read + (open + p) + rest == Frames(bodies, COMMAND_DELIMITER)
    ensures !Oversized(open + p, limit)
  {
    forall i: nat
      ensures !Unbroken(open + p, i, limit)
    {
      FramesFitTheLimit(bodies, limit, |read| + i);
      UnbrokenAhead(read, open + p, rest, i, limit);
    }
  }

  lemma UnbrokenAhead(front: ByteString, s: ByteString, rest: ByteString, i: nat, limit: nat)
    ensures Unbroken(s, i, limit) ==> Unbroken(front + s + rest, |front| + i, limit)
  {
    if i + limit < |s| {
      assert (front + s + rest)[|front| + i..|front| + i + limit + 1] == s[i..i + limit + 1];
    }
  }

  lemma NextChunkFits(bodies: seq<ByteString>, limit: nat, got: seq<ByteString>, open: ByteString, p: ByteString, after: ByteString, pending: ByteString)
    requires forall j :: 0 <= j < |bodies| ==> |bodies[j]| <= limit
    requires Frames(got, COMMAND_DELIMITER) + open + p + after + pending == Frames(bodies, COMMAND_DELIMITER)
    ensures !Oversized(open + p, limit)
  {
    var read := Frames(got, COMMAND_DELIMITER);
    assert read + (open + p) + (after + pending) == read + open + p + after + pending;
    CommandsFitTheLimit(bodies, limit, read, open, p, after + pending);
  }

  /** The server's side of a connection: the transport writes what the client sent, in chunks of any size.
      With every command within the limit the session stays open, and the server has run a prefix of the
      commands the client dequeued; all of them once nothing is pending. */
  method DeliverCommands(reader: CommandReader, chunks: seq<ByteString>, ghost bodies: seq<ByteString>, ghost taken: seq<ByteString>, ghost pending: ByteString)
    requires reader.Valid() && reader.commands == [] && reader.writeBuf == [] && !reader.closed
    requires |taken| == |bodies| && Free(bodies, COMMAND_DELIMITER)
    requires forall i :: 0 <= i < |taken| ==> taken[i] == bodies[i] + [COMMAND_DELIMITER]
    requires reader.limit > 0 ==> forall i :: 0 <= i < |bodies| ==> |bodies[i]| <= reader.limit
    requires Concat(taken) == Concat(chunks) + pending
    modifies reader
    ensures reader.Valid() && !reader.closed && reader.commands <= bodies
    ensures pending == [] ==> reader.commands == bodies && reader.writeBuf == []
  {
    ConcatFrames(bodies, taken);
    for i := 0 to |chunks|
      invariant reader.Valid() && !reader.closed && reader.Stream() == Concat(chunks[..i])
    {
      ConcatTake(chunks, i);
      ConcatAt(chunks, i + 1);
      if reader.limit > 0 {
        NextChunkFits(bodies, reader.limit, reader.commands, reader.writeBuf, chunks[i], Concat(chunks[i + 1..]), pending);
      }
      var ok := reader.Write(chunks[i]);
    }
    assert chunks[..|chunks|] == chunks;
    CommandsArrive(bodies, taken, Concat(chunks), pending, reader.commands, reader.writeBuf);
  }

  lemma ConcatTake(parts: seq<ByteString>, i: nat)
    requires i < |parts|
    ensures Concat(parts[..i + 1]) == Concat(parts[..i]) + parts[i]
  {
    ConcatMore(parts[..i], parts[i]);
    assert parts[..i + 1] == parts[..i] + [parts[i]];
  }

  lemma ConcatAt(parts: seq<ByteString>, i: nat)
    requires i <= |parts|
    ensures Concat(parts) == Concat(parts[..i]) + Concat(parts[i..])
  {
    ConcatSplit(parts[..i], parts[i..]);
    assert parts == parts[..i] + parts[i..];
  }

  /** Commands travel whole: the server has run a prefix of the commands the client dequeued, and all of
      them once nothing is pending and every byte arrived. */
  lemma CommandsArrive(bodies: seq<ByteString>, taken: seq<ByteString>, sent: ByteString, pending: ByteString, got: seq<ByteString>, open: ByteString)
    requires |taken| == |bodies| && Free(bodies, COMMAND_DELIMITER)
    requires forall i :: 0 <= i < |taken| ==> taken[i] == bodies[i] + [COMMAND_DELIMITER]
    requires Concat(taken) == sent + pending && Reads(sent, got, open, COMMAND_DELIMITER)
    ensures got <= bodies
    ensures pending == [] ==> got == bodies && open == []
  {
    ConcatFrames(bodies, taken);
    ReceivesPrefix(bodies, sent, pending, got, open, COMMAND_DELIMITER);
  }

  lemma {:induction false} ConcatFrames(bodies: seq<ByteString>, taken: seq<ByteString>)
    requires |taken| == |bodies|
    requires forall i :: 0 <= i < |taken| ==> taken[i] == bodies[i] + [COMMAND_DELIMITER]
    ensures Concat(taken) == Frames(bodies, COMMAND_DELIMITER)
    decreases |taken|
  {
    if taken != [] {
      var n := |taken| - 1;
      ConcatFrames(bodies[..n], taken[..n]);
    }
  }
}
