/** The two context filters, updated line by line. Both are proved to emit exactly ContextGrep.Grep, and
    every pooled line buffer they are given is handed on or recycled once. */
module GrepFilters {
  import opened Bytes
  import opened ContextGrep

  /** A pooled line buffer; its identity is the position of the line it was filled with. */
  datatype Buffer = Buffer(id: nat, content: ByteString)

  datatype Status = Continue | Stop | Failed

  /** The buffers given away are exactly those of the first n lines. */
  ghost predicate GaveAway(gone: set<nat>, n: int) {
    forall id: nat :: id in gone <==> id < n
  }

  // ---------------------------------------------------------------- what the filters must remember

  /** How much after-context the last match still grants. */
  function AfterLeft(c: LContext, re: Regex, lines: seq<ByteString>): int {
    var last := LastHit(re, lines, |lines|);
    if c.after <= 0 || last < 0 || |lines| - 1 - last >= c.after then 0 else c.after - (|lines| - 1 - last)
  }

  lemma {:induction false} LastHitPrefix(re: Regex, a: seq<ByteString>, b: seq<ByteString>, n: nat)
    requires n <= |a|
    ensures LastHit(re, a + b, n) == LastHit(re, a, n)
  {
    if n > 0 {
      LastHitPrefix(re, a, b, n - 1);
    }
  }

  lemma RememberMiss(c: LContext, re: Regex, lines: seq<ByteString>, x: ByteString)
    requires !re(x)
    ensures var more := lines + [x];
            && Hits(re, more, |more|) == Hits(re, lines, |lines|)
            && LastHit(re, more, |more|) == LastHit(re, lines, |lines|)
            && if AfterLeft(c, re, lines) > 0 then
                 AfterLeft(c, re, more) == AfterLeft(c, re, lines) - 1 && Waiting(c, re, lines) == Waiting(c, re, more) == 0
               else
                 AfterLeft(c, re, more) == 0
                 && Waiting(c, re, more) == if c.before <= Waiting(c, re, lines) then Waiting(c, re, lines)
                                            else Waiting(c, re, lines) + 1
  {
    HitsPrefix(re, lines, [x], |lines|);
    LastHitPrefix(re, lines, [x], |lines|);
  }

  lemma RememberHit(c: LContext, re: Regex, lines: seq<ByteString>, x: ByteString)
    requires re(x)
    ensures var more := lines + [x];
            && Hits(re, more, |more|) == Hits(re, lines, |lines|) + 1
            && LastHit(re, more, |more|) == |lines|
            && AfterLeft(c, re, more) == (if c.after > 0 then c.after else 0)
            && Waiting(c, re, more) == 0
  {
    HitsPrefix(re, lines, [x], |lines|);
  }

  /** The buffers hold the waiting lines, oldest first. */
  ghost predicate HoldsWaiting(c: LContext, re: Regex, seen: seq<ByteString>, buffers: seq<Buffer>) {
    && |buffers| == Waiting(c, re, seen)
    && forall k :: 0 <= k < |buffers| ==>
         var i := |seen| - |buffers| + k; buffers[k] == Buffer(i, seen[i])
  }

  /** Nothing that may still follow adds to the output. */
  ghost predicate Final(c: LContext, re: Regex, seen: seq<ByteString>, out: seq<Emission>) {
    forall rest :: Grep(c, re, seen + rest) == out
  }

  lemma {:induction false} HitsMeansLast(re: Regex, lines: seq<ByteString>, n: nat)
    requires n <= |lines|
    ensures Hits(re, lines, n) > 0 ==> LastHit(re, lines, n) >= 0
  {
    if n > 0 {
      HitsMeansLast(re, lines, n - 1);
    }
  }

  lemma StopsHere(c: LContext, re: Regex, seen: seq<ByteString>)
    requires c.max > 0 && Hits(re, seen, |seen|) >= c.max && LastHit(re, seen, |seen|) + c.after < |seen|
    ensures Final(c, re, seen, Grep(c, re, seen))
  {
    forall rest
      ensures Grep(c, re, seen + rest) == Grep(c, re, seen)
    {
      StopIsFinal(c, re, seen, rest);
    }
  }

  lemma StopsBefore(c: LContext, re: Regex, seen: seq<ByteString>, x: ByteString)
    requires c.max > 0 && Hits(re, seen, |seen|) >= c.max && re(x)
    ensures Final(c, re, seen + [x], Grep(c, re, seen))
  {
    forall rest
      ensures Grep(c, re, seen + [x] + rest) == Grep(c, re, seen)
    {
      assert seen + [x] + rest == seen + ([x] + rest);
      StopIsFinal(c, re, seen, [x] + rest);
    }
  }

  /** What is out when the processor fails: a beginning of what the lines seen select. */
  ghost predicate Begun(c: LContext, re: Regex, seen: seq<ByteString>, out: seq<Emission>) {
    WithinMax(c, re, seen) && out <= Grep(c, re, seen)
  }

  lemma BegunStays(c: LContext, re: Regex, seen: seq<ByteString>, rest: seq<ByteString>, out: seq<Emission>)
    requires Begun(c, re, seen, out)
    ensures out <= Grep(c, re, seen + rest)
  {
    GrepGrows(c, re, seen, rest);
    assert out == Grep(c, re, seen)[..|out|];
    assert Grep(c, re, seen) == Grep(c, re, seen + rest)[..|Grep(c, re, seen)|];
  }

  lemma PrefixOfSum(a: seq<Emission>, x: seq<Emission>, y: seq<Emission>)
    requires x <= y
    ensures a + x <= a + y
  {
  }

  /** What a filter remembers between lines. */
  datatype Memory = Memory(before: seq<Buffer>, after: int, hits: int, closed: bool, out: seq<Emission>)

  /** The memory after the lines seen: everything decided is out, and the rest can still be decided. */
  ghost predicate Tracks(c: LContext, re: Regex, seen: seq<ByteString>, m: Memory) {
    && WithinMax(c, re, seen) && m.out == Grep(c, re, seen)
    && HoldsWaiting(c, re, seen, m.before)
    && m.after == AfterLeft(c, re, seen)
    && m.hits == (if c.max > 0 then Hits(re, seen, |seen|) else 0)
    && (m.closed <==> c.max > 0 && m.hits == c.max)
    && (c.after == 0 ==> !m.closed)
  }

  lemma TracksFromStart(c: LContext, re: Regex)
    ensures Tracks(c, re, [], Memory([], 0, 0, false, []))
  {
  }

  lemma TracksMissAfter(c: LContext, re: Regex, seen: seq<ByteString>, x: ByteString, m: Memory)
    requires Tracks(c, re, seen, m) && !re(x) && m.after > 0
    ensures Tracks(c, re, seen + [x], m.(after := m.after - 1, out := m.out + [(|seen| + 1, x)]))
    ensures m.before == []
  {
    GrepMiss(c, re, seen, x);
    RememberMiss(c, re, seen, x);
  }

  function Remember(c: LContext, before: seq<Buffer>, raw: Buffer): seq<Buffer> {
    if c.before <= 0 then before
    else (if |before| >= c.before then before[1..] else before) + [raw]
  }

  lemma TracksMiss(c: LContext, re: Regex, seen: seq<ByteString>, x: ByteString, m: Memory)
    requires Tracks(c, re, seen, m) && !re(x) && m.after == 0
    ensures Tracks(c, re, seen + [x], m.(before := Remember(c, m.before, Buffer(|seen|, x))))
    ensures |m.before| <= if c.before <= 0 then 0 else c.before
  {
    GrepMiss(c, re, seen, x);
    RememberMiss(c, re, seen, x);
  }

  /** The output once a match within the maximum has been emitted behind its before-context. */
  function HitOutput(m: Memory, seen: seq<ByteString>, x: ByteString): seq<Emission>
    requires |m.before| <= |seen|
  {
    m.out + Numbered(seen, |seen| - |m.before|, |seen|) + [(|seen| + 1, x)]
  }

  lemma HitIsGrepped(c: LContext, re: Regex, seen: seq<ByteString>, x: ByteString, m: Memory)
    requires Tracks(c, re, seen, m) && re(x) && !m.closed
    ensures WithinMax(c, re, seen + [x]) && |m.before| <= |seen|
    ensures Grep(c, re, seen + [x]) == HitOutput(m, seen, x)
  {
    RememberHit(c, re, seen, x);
    GrepHit(c, re, seen, x);
  }

  lemma TracksHit(c: LContext, re: Regex, seen: seq<ByteString>, x: ByteString, m: Memory)
    requires Tracks(c, re, seen, m) && re(x) && !m.closed
    requires !(c.max > 0 && m.hits + 1 >= c.max && c.after == 0)
    ensures |m.before| <= |seen|
    ensures var hits := if c.max > 0 then m.hits + 1 else 0;
            Tracks(c, re, seen + [x], Memory([], if c.after > 0 then c.after else 0, hits,
                                             c.max > 0 && hits >= c.max, HitOutput(m, seen, x)))
  {
    HitIsGrepped(c, re, seen, x, m);
    RememberHit(c, re, seen, x);
  }

  lemma LastHitIsFinal(c: LContext, re: Regex, seen: seq<ByteString>, x: ByteString, m: Memory)
    requires Tracks(c, re, seen, m) && re(x) && !m.closed
    requires c.max > 0 && m.hits + 1 >= c.max && c.after == 0
    ensures |m.before| <= |seen|
    ensures Final(c, re, seen + [x], HitOutput(m, seen, x))
  {
    HitIsGrepped(c, re, seen, x, m);
    RememberHit(c, re, seen, x);
    StopsHere(c, re, seen + [x]);
  }

  lemma TracksStop(c: LContext, re: Regex, seen: seq<ByteString>, x: ByteString, m: Memory)
    requires Tracks(c, re, seen, m) && m.closed && (re(x) || m.after == 0)
    ensures Final(c, re, seen + [x], m.out)
  {
    if re(x) {
      StopsBefore(c, re, seen, x);
    } else {
      GrepMiss(c, re, seen, x);
      RememberMiss(c, re, seen, x);
      HitsMeansLast(re, seen, |seen|);
      StopsHere(c, re, seen + [x]);
    }
  }

  /** filteringProcessor. `fails` says which hand-overs the downstream processor answers with an error;
      ownership of the buffer passes to it either way. */
  class FileFilter {
    const c: LContext
    const re: Regex
    const fails: nat -> bool
    var lineCount: nat
    var beforeBuf: seq<Buffer>
    var afterCount: int
    var maxCount: int
    var maxReached: bool
    var out: seq<Emission>
    ghost var seen: seq<ByteString>
    ghost var gone: set<nat>

    ghost predicate Valid()
      reads this
    {
      && lineCount == |seen|
      && Tracks(c, re, seen, Memory(beforeBuf, afterCount, maxCount, maxReached, out))
      && GaveAway(gone, lineCount - |beforeBuf|)
    }

    constructor (c: LContext, re: Regex, fails: nat -> bool)
      ensures Valid() && seen == [] && this.c == c && this.re == re && this.fails == fails
    {
      this.c, this.re, this.fails := c, re, fails;
      lineCount, beforeBuf, afterCount, maxCount, maxReached, out := 0, [], 0, 0, false, [];
      seen, gone := [], {};
      TracksFromStart(c, re);
    }

    /** Gives a buffer to the processor. No buffer is ever given away twice. */
    method HandOver(b: Buffer, lineNum: int) returns (ok: bool)
      requires b.id !in gone
      modifies this`out, this`gone
      ensures ok == !fails(|old(out)|)
      ensures out == old(out) + [(lineNum, b.content)] && gone == old(gone) + {b.id}
    {
      ok := !fails(|out|);
      out, gone := out + [(lineNum, b.content)], gone + {b.id};
    }

    /** Returns a buffer to the pool; again, never twice. */
    method Recycle(b: Buffer)
      requires b.id !in gone
      modifies this`gone
      ensures gone == old(gone) + {b.id}
    {
      gone := gone + {b.id};
    }

    method RecycleFrom(i: nat)
      requires i <= |beforeBuf| && HoldsWaiting(c, re, seen, beforeBuf) && GaveAway(gone, |seen| - |beforeBuf| + i)
      modifies this`gone
      ensures GaveAway(gone, |seen|)
    {
      for j := i to |beforeBuf|
        invariant GaveAway(gone, |seen| - |beforeBuf| + j)
      {
        Recycle(beforeBuf[j]);
      }
    }

    /** Emits the waiting lines, numbered backwards from the line that matched. After an error the rest
        is recycled, and beforeBuf still lists buffers that are gone: the run must end. */
    method EmitBefore(lineNum: int) returns (ok: bool)
      requires lineNum == |seen| + 1 && HoldsWaiting(c, re, seen, beforeBuf) && GaveAway(gone, |seen| - |beforeBuf|)
      modifies this`out, this`gone, this`beforeBuf
      ensures GaveAway(gone, |seen|)
      ensures out <= old(out) + Numbered(seen, |seen| - |old(beforeBuf)|, |seen|)
      ensures ok ==> beforeBuf == [] && out == old(out) + Numbered(seen, |seen| - |old(beforeBuf)|, |seen|)
      ensures (forall k :: !fails(k)) ==> ok
    {
      var total := |beforeBuf|;
      ghost var first := |seen| - total;
      for i := 0 to total
        invariant beforeBuf == old(beforeBuf) && GaveAway(gone, first + i)
        invariant out == old(out) + Numbered(seen, first, first + i)
      {
        ok := HandOver(beforeBuf[i], lineNum - (total - i));
        if !ok {
          assert out == old(out) + Numbered(seen, first, first + i + 1);
          NumberedStarts(seen, first, first + i + 1, |seen|);
          PrefixOfSum(old(out), Numbered(seen, first, first + i + 1), Numbered(seen, first, |seen|));
          RecycleFrom(i + 1);
          return false;
        }
      }
      beforeBuf := [];
      return true;
    }

    ghost function View(): Memory
      reads this
    {
      Memory(beforeBuf, afterCount, maxCount, maxReached, out)
    }

    method MissInAfterContext(raw: Buffer, lineNum: int) returns (status: Status)
      requires Valid() && !re(raw.content) && raw.id == |seen| && lineNum == |seen| + 1 && afterCount > 0
      modifies this
      ensures seen == old(seen) + [raw.content] && !status.Stop? && GaveAway(gone, |seen|)
      ensures status.Continue? ==> Valid()
      ensures status.Failed? ==> fails(|old(out)|) && Begun(c, re, seen, out)
    {
      TracksMissAfter(c, re, seen, raw.content, View());
      afterCount := afterCount - 1;
      var ok := HandOver(raw, lineNum);
      seen, lineCount := seen + [raw.content], lineCount + 1;
      return if ok then Continue else Failed;
    }

    method MissOutside(raw: Buffer)
      requires Valid() && !re(raw.content) && raw.id == |seen| && afterCount == 0
      modifies this
      ensures seen == old(seen) + [raw.content] && Valid() && old(gone) <= gone
    {
      TracksMiss(c, re, seen, raw.content, View());
      ghost var m := View();
      if c.before > 0 {
        if |beforeBuf| >= c.before {
          Recycle(beforeBuf[0]);
          beforeBuf := beforeBuf[1..];
        }
        beforeBuf := beforeBuf + [raw];
      } else {
        Recycle(raw);
      }
      assert beforeBuf == Remember(c, m.before, raw);
      seen, lineCount := seen + [raw.content], lineCount + 1;
    }

    /** Emits the waiting lines and the match itself. */
    method EmitHit(raw: Buffer, lineNum: int) returns (ok: bool)
      requires Valid() && re(raw.content) && !maxReached && raw.id == |seen| && lineNum == |seen| + 1
      modifies this`out, this`gone, this`beforeBuf
      ensures |old(beforeBuf)| <= |seen| && GaveAway(gone, |seen| + 1)
      ensures out <= HitOutput(old(View()), seen, raw.content)
      ensures ok ==> beforeBuf == [] && out == HitOutput(old(View()), seen, raw.content)
      ensures (forall k :: !fails(k)) ==> ok
    {
      if c.before > 0 && |beforeBuf| > 0 {
        ok := EmitBefore(lineNum);
        if !ok {
          Recycle(raw);
          return;
        }
      }
      assert beforeBuf == [];
      ok := HandOver(raw, lineNum);
    }

    method Hit(raw: Buffer, lineNum: int) returns (status: Status)
      requires Valid() && re(raw.content) && raw.id == |seen| && lineNum == |seen| + 1
      modifies this
      ensures seen == old(seen) + [raw.content] && old(gone) <= gone && (forall id :: id in gone ==> id < |seen|)
      ensures status.Continue? ==> Valid()
      ensures status.Stop? ==> Final(c, re, seen, out)
      ensures status.Failed? ==> Begun(c, re, seen, out)
      ensures (forall k :: !fails(k)) ==> !status.Failed?
    {
      ghost var m, before := View(), seen;
      if maxReached {
        TracksStop(c, re, seen, raw.content, m);
        Recycle(raw);
        seen, lineCount := seen + [raw.content], lineCount + 1;
        return Stop;
      }
      HitIsGrepped(c, re, seen, raw.content, m);
      var ok := EmitHit(raw, lineNum);
      seen, lineCount := seen + [raw.content], lineCount + 1;
      if !ok {
        return Failed;
      }
      status := CountHit(raw, m, before);
    }

    /** Counts an emitted match, which may be the last one, and opens its after-context. */
    method CountHit(raw: Buffer, ghost m: Memory, ghost before: seq<ByteString>) returns (status: Status)
      requires re(raw.content) && Tracks(c, re, before, m) && !m.closed && |m.before| <= |before|
      requires View() == m.(before := [], out := HitOutput(m, before, raw.content))
      requires seen == before + [raw.content] && lineCount == |seen| && GaveAway(gone, |seen|)
      modifies this`maxCount, this`maxReached, this`afterCount
      ensures !status.Failed?
      ensures status.Continue? ==> Valid()
      ensures status.Stop? ==> Final(c, re, seen, out)
    {
      if c.max > 0 {
        maxCount := maxCount + 1;
        if maxCount >= c.max {
          if c.after == 0 {
            LastHitIsFinal(c, re, before, raw.content, m);
            return Stop;
          }
          maxReached := true;
        }
      }
      if c.after > 0 {
        afterCount := c.after;
      }
      TracksHit(c, re, before, raw.content, m);
      return Continue;
    }

    /** The local-context path and, when no context is set, the plain one. A buffer given away stays given
        away, also when the processor fails, and no buffer is given away before it is received. */
    method ProcessLine(content: ByteString) returns (status: Status)
      requires Valid()
      modifies this
      ensures seen == old(seen) + [content]
      ensures old(gone) <= gone && (forall id :: id in gone ==> id < |seen|)
      ensures status.Continue? ==> Valid()
      ensures status.Stop? ==> Final(c, re, seen, out)
      ensures status.Failed? ==> Begun(c, re, seen, out)
      ensures (forall k :: !fails(k)) ==> !status.Failed?
    {
      var raw, lineNum := Buffer(lineCount, content), lineCount + 1;
      if re(content) {
        status := Hit(raw, lineNum);
      } else if c.after > 0 && afterCount > 0 {
        status := MissInAfterContext(raw, lineNum);
      } else {
        MissOutside(raw);
        status := Continue;
      }
    }
  }

  /** Reading a file through the filter: stops at the early-stop sentinel or at a processor error. If
      the processor never fails, what it was handed is exactly the grep of the whole input, and a beginning
      of it otherwise. */
  method GrepFile(c: LContext, re: Regex, fails: nat -> bool, lines: seq<ByteString>) returns (out: seq<Emission>, failed: bool)
    ensures out <= Grep(c, re, lines) && (!failed ==> out == Grep(c, re, lines))
    ensures (forall k :: !fails(k)) ==> !failed
  {
    var filter := new FileFilter(c, re, fails);
    for i := 0 to |lines|
      invariant fresh(filter) && filter.Valid() && filter.seen == lines[..i]
      invariant filter.c == c && filter.re == re && filter.fails == fails
    {
      var status := filter.ProcessLine(lines[i]);
      assert lines[..i] + [lines[i]] == lines[..i + 1];
      assert lines[..i + 1] + lines[i + 1..] == lines;
      if status.Failed? {
        BegunStays(c, re, lines[..i + 1], lines[i + 1..], filter.out);
        return filter.out, true;
      }
      if status.Stop? {
        return filter.out, false;
      }
    }
    assert lines[..|lines|] == lines;
    return filter.out, false;
  }

  /** bufferedLine: the journal filter stores the number with the line. */
  datatype Remembered = Remembered(buffer: Buffer, count: int)

  function Buffers(lines: seq<Remembered>): seq<Buffer> {
    seq(|lines|, i requires 0 <= i < |lines| => lines[i].buffer)
  }

  /** Remembered lines are consecutive and end with the line before position n. */
  ghost predicate Consecutive(lines: seq<Remembered>, n: nat) {
    |lines| <= n && forall k :: 0 <= k < |lines| ==>
      lines[k].buffer.id == n - |lines| + k && lines[k].count == lines[k].buffer.id + 1
  }

  function Trim(c: LContext, lines: seq<Remembered>): seq<Remembered> {
    if c.before > 0 && |lines| >= c.before then lines[1..] else lines
  }

  lemma RememberOne(c: LContext, lines: seq<Remembered>, raw: Buffer, n: nat)
    requires c.before > 0 && Consecutive(lines, n) && raw.id == n
    ensures var more := Trim(c, lines) + [Remembered(raw, n + 1)];
            Buffers(more) == Remember(c, Buffers(lines), raw) && Consecutive(more, n + 1)
  {
  }

  /** journalFilter. It stops as soon as the after-context of the last allowed match is over, where the
      file filter reads on until the next match. */
  class JournalFilter {
    const c: LContext
    const re: Regex
    const fails: nat -> bool
    var lineCount: nat
    var before: seq<Remembered>
    var after: int
    var maxHit: int
    var maxClosed: bool
    var out: seq<Emission>
    ghost var seen: seq<ByteString>
    ghost var gone: set<nat>

    ghost function View(): Memory
      reads this
    {
      Memory(Buffers(before), after, maxHit, maxClosed, out)
    }

    /** Every buffer received is either remembered or gone; this also holds after an error. */
    ghost predicate Owns()
      reads this
    {
      lineCount == |seen| && Consecutive(before, lineCount) && GaveAway(gone, lineCount - |before|)
    }

    ghost predicate Valid()
      reads this
    {
      Owns() && Tracks(c, re, seen, View()) && (maxClosed ==> before == [])
    }

    constructor (c: LContext, re: Regex, fails: nat -> bool)
      ensures Valid() && seen == [] && this.c == c && this.re == re && this.fails == fails
    {
      this.c, this.re, this.fails := c, re, fails;
      lineCount, before, after, maxHit, maxClosed, out := 0, [], 0, 0, false, [];
      seen, gone := [], {};
      TracksFromStart(c, re);
    }

    method Emit(b: Buffer, count: int) returns (ok: bool)
      requires b.id !in gone
      modifies this`out, this`gone
      ensures ok == !fails(|old(out)|)
      ensures out == old(out) + [(count, b.content)] && gone == old(gone) + {b.id}
    {
      ok := !fails(|out|);
      out, gone := out + [(count, b.content)], gone + {b.id};
    }

    method Recycle(b: Buffer)
      requires b.id !in gone
      modifies this`gone
      ensures gone == old(gone) + {b.id}
    {
      gone := gone + {b.id};
    }

    /** discardBeforeFrom: recycles the remembered lines from an index on and forgets all. */
    method DiscardBeforeFrom(index: nat)
      requires index <= |before| && Consecutive(before, |seen|) && GaveAway(gone, |seen| - |before| + index)
      modifies this`gone, this`before
      ensures before == [] && GaveAway(gone, |seen|)
    {
      for i := index to |before|
        invariant before == old(before) && GaveAway(gone, |seen| - |before| + i)
      {
        Recycle(before[i].buffer);
      }
      before := [];
    }

    /** Emits the remembered lines, or after an error recycles the rest; either way none is kept. */
    method EmitBefore() returns (ok: bool)
      requires Consecutive(before, |seen|) && GaveAway(gone, |seen| - |before|)
      requires forall k :: 0 <= k < |before| ==> before[k].buffer.content == seen[|seen| - |before| + k]
      modifies this`out, this`gone, this`before
      ensures before == [] && GaveAway(gone, |seen|)
      ensures out <= old(out) + Numbered(seen, |seen| - |old(before)|, |seen|)
      ensures ok ==> out == old(out) + Numbered(seen, |seen| - |old(before)|, |seen|)
      ensures (forall k :: !fails(k)) ==> ok
    {
      ghost var first := |seen| - |before|;
      for i := 0 to |before|
        invariant before == old(before) && GaveAway(gone, first + i)
        invariant out == old(out) + Numbered(seen, first, first + i)
      {
        ok := Emit(before[i].buffer, before[i].count);
        if !ok {
          assert out == old(out) + Numbered(seen, first, first + i + 1);
          NumberedStarts(seen, first, first + i + 1, |seen|);
          PrefixOfSum(old(out), Numbered(seen, first, first + i + 1), Numbered(seen, first, |seen|));
          DiscardBeforeFrom(i + 1);
          return;
        }
      }
      before := [];
      return true;
    }

    method MissInAfterContext(raw: Buffer) returns (status: Status)
      requires Valid() && !re(raw.content) && raw.id == |seen| && after > 0
      modifies this
      ensures seen == old(seen) + [raw.content] && Owns()
      ensures status.Continue? ==> Valid()
      ensures status.Stop? ==> Final(c, re, seen, out)
      ensures status.Failed? ==> fails(|old(out)|) && Begun(c, re, seen, out)
    {
      TracksMissAfter(c, re, seen, raw.content, View());
      assert |before| == |Buffers(before)|;
      after := after - 1;
      var ok := Emit(raw, lineCount + 1);
      seen, lineCount := seen + [raw.content], lineCount + 1;
      if !ok {
        return Failed;
      }
      assert Tracks(c, re, seen, View());
      if maxClosed && after == 0 {
        FinalWhenClosed(c, re, seen, View());
        return Stop;
      }
      return Continue;
    }

    method RememberBefore(raw: Buffer)
      requires Valid() && !re(raw.content) && raw.id == |seen| && after == 0 && !maxClosed && c.before > 0
      modifies this
      ensures seen == old(seen) + [raw.content] && Valid()
    {
      TracksMiss(c, re, seen, raw.content, View());
      RememberOne(c, before, raw, lineCount);
      assert |before| == |Buffers(before)|;
      ghost var m := View().(before := Remember(c, Buffers(before), raw));
      ghost var more := Trim(c, before) + [Remembered(raw, lineCount + 1)];
      TrimBefore();
      before := before + [Remembered(raw, lineCount + 1)];
      assert before == more && View() == m;
      seen, lineCount := seen + [raw.content], lineCount + 1;
    }

    /** Makes room for one more remembered line. */
    method TrimBefore()
      requires c.before > 0 && |before| <= c.before && Owns()
      modifies this`before, this`gone
      ensures before == Trim(c, old(before)) && Owns()
    {
      if |before| >= c.before {
        Recycle(before[0].buffer);
        before := before[1..];
      }
    }

    method DropMiss(raw: Buffer)
      requires Valid() && !re(raw.content) && raw.id == |seen| && after == 0 && c.before <= 0
      modifies this
      ensures seen == old(seen) + [raw.content] && Valid()
    {
      TracksMiss(c, re, seen, raw.content, View());
      assert |before| == |View().before|;
      Recycle(raw);
      seen, lineCount := seen + [raw.content], lineCount + 1;
    }

    /** The line that ends the reading is recycled unseen. */
    method StopReading(raw: Buffer)
      requires Valid() && raw.id == |seen| && maxClosed && (re(raw.content) || after == 0)
      modifies this
      ensures seen == old(seen) + [raw.content] && Owns() && Final(c, re, seen, out)
    {
      TracksStop(c, re, seen, raw.content, View());
      Recycle(raw);
      seen, lineCount := seen + [raw.content], lineCount + 1;
    }

    method Miss(raw: Buffer) returns (status: Status)
      requires Valid() && !re(raw.content) && raw.id == |seen|
      modifies this
      ensures seen == old(seen) + [raw.content]
      ensures Owns()
      ensures status.Continue? ==> Valid()
      ensures status.Stop? ==> Final(c, re, seen, out)
      ensures status.Failed? ==> fails(|old(out)|) && Begun(c, re, seen, out)
    {
      if maxClosed && after == 0 {
        StopReading(raw);
        return Stop;
      }
      if after > 0 {
        status := MissInAfterContext(raw);
        return;
      }
      if c.before > 0 {
        RememberBefore(raw);
      } else {
        DropMiss(raw);
      }
      return Continue;
    }

    /** Emits the remembered lines and the match itself; on an error the line is gone as well. */
    method EmitHit(raw: Buffer) returns (ok: bool)
      requires Valid() && re(raw.content) && raw.id == |seen| && !maxClosed
      modifies this`out, this`gone, this`before
      ensures before == [] && GaveAway(gone, |seen| + 1)
      ensures |old(before)| <= |seen| && out <= HitOutput(old(View()), seen, raw.content)
      ensures ok ==> out == HitOutput(old(View()), seen, raw.content)
      ensures (forall k :: !fails(k)) ==> ok
    {
      assert forall k :: 0 <= k < |before| ==> Buffers(before)[k] == before[k].buffer;
      ok := EmitBefore();
      if !ok {
        Recycle(raw);
        return;
      }
      ok := Emit(raw, lineCount + 1);
    }

    method Hit(raw: Buffer) returns (status: Status)
      requires Valid() && re(raw.content) && raw.id == |seen|
      modifies this
      ensures seen == old(seen) + [raw.content]
      ensures Owns()
      ensures status.Continue? ==> Valid()
      ensures status.Stop? ==> Final(c, re, seen, out)
      ensures status.Failed? ==> Begun(c, re, seen, out)
      ensures (forall k :: !fails(k)) ==> !status.Failed?
    {
      if maxClosed {
        StopReading(raw);
        return Stop;
      }
      ghost var m, earlier := View(), seen;
      HitIsGrepped(c, re, seen, raw.content, m);
      var ok := EmitHit(raw);
      seen, lineCount := seen + [raw.content], lineCount + 1;
      if !ok {
        return Failed;
      }
      assert Buffers(before) == [];
      status := CountHit(raw, m, earlier);
    }

    /** Counts an emitted match, which may be the last one, and opens its after-context. */
    method CountHit(raw: Buffer, ghost m: Memory, ghost earlier: seq<ByteString>) returns (status: Status)
      requires re(raw.content) && Tracks(c, re, earlier, m) && !m.closed && |m.before| <= |earlier|
      requires View() == m.(before := [], out := HitOutput(m, earlier, raw.content))
      requires seen == earlier + [raw.content] && Owns() && before == []
      modifies this`maxHit, this`maxClosed, this`after
      ensures !status.Failed? && Owns()
      ensures status.Continue? ==> Valid()
      ensures status.Stop? ==> Final(c, re, seen, out)
    {
      if c.max > 0 {
        maxHit := maxHit + 1;
        if maxHit >= c.max {
          if c.after == 0 {
            LastHitIsFinal(c, re, earlier, raw.content, m);
            return Stop;
          }
          maxClosed := true;
        }
      }
      if c.after > 0 {
        after := c.after;
      }
      TracksHit(c, re, earlier, raw.content, m);
      return Continue;
    }

    method Process(content: ByteString) returns (status: Status)
      requires Valid()
      modifies this
      ensures seen == old(seen) + [content]
      ensures Owns()
      ensures status.Continue? ==> Valid()
      ensures status.Stop? ==> Final(c, re, seen, out)
      ensures status.Failed? ==> Begun(c, re, seen, out)
      ensures (forall k :: !fails(k)) ==> !status.Failed?
    {
      var raw := Buffer(lineCount, content);
      if re(content) {
        status := Hit(raw);
      } else {
        status := Miss(raw);
      }
    }

    /** Recycles what is still remembered: now every buffer ever received is gone. */
    method Close()
      requires Owns()
      modifies this
      ensures GaveAway(gone, |seen|) && before == [] && seen == old(seen) && out == old(out)
    {
      DiscardBeforeFrom(0);
    }
  }

  lemma FinalWhenClosed(c: LContext, re: Regex, seen: seq<ByteString>, m: Memory)
    requires Tracks(c, re, seen, m) && m.closed && m.after == 0
    ensures Final(c, re, seen, m.out)
  {
    HitsMeansLast(re, seen, |seen|);
    StopsHere(c, re, seen);
  }

  /** Reading the journal through its filter gives the same output as reading a file. */
  method GrepJournal(c: LContext, re: Regex, fails: nat -> bool, lines: seq<ByteString>) returns (out: seq<Emission>, failed: bool)
    ensures out <= Grep(c, re, lines) && (!failed ==> out == Grep(c, re, lines))
    ensures (forall k :: !fails(k)) ==> !failed
  {
    var filter := new JournalFilter(c, re, fails);
    for i := 0 to |lines|
      invariant fresh(filter) && filter.Valid() && filter.seen == lines[..i]
      invariant filter.c == c && filter.re == re && filter.fails == fails
    {
      var status := filter.Process(lines[i]);
      assert lines[..i] + [lines[i]] == lines[..i + 1];
      assert lines[..i + 1] + lines[i + 1..] == lines;
      if status.Failed? {
        BegunStays(c, re, lines[..i + 1], lines[i + 1..], filter.out);
        return filter.out, true;
      }
      if status.Stop? {
        return filter.out, false;
      }
    }
    assert lines[..|lines|] == lines;
    return filter.out, false;
  }
}
