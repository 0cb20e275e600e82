/** Grep with context: which lines -before, -after and -max select, said without any state, and the two
    filters that compute it, for files (internal/io/fs/readfile_processor.go) and for the journal
    (internal/io/journal/filter.go). Matching is an arbitrary predicate on lines. */
module ContextGrep {
  import opened Bytes

  type Regex = ByteString -> bool

  /** A setting that is not positive is off. */
  datatype LContext = LContext(after: int, before: int, max: int)
  {
    predicate Has() {
      after > 0 || before > 0 || max > 0
    }
  }

  /** What the downstream processor is handed: the line number, counted from 1, and the line. */
  type Emission = (int, ByteString)

  // ---------------------------------------------------------------- the specification

  function Hits(re: Regex, lines: seq<ByteString>, n: nat): nat
    requires n <= |lines|
  {
    if n == 0 then 0 else Hits(re, lines, n - 1) + if re(lines[n - 1]) then 1 else 0
  }

  /** Lines before the match that exceeds the maximum; that match and all that follows are out. */
  predicate Allowed(c: LContext, re: Regex, lines: seq<ByteString>, i: nat)
    requires i < |lines|
  {
    c.max > 0 ==> Hits(re, lines, i + 1) <= c.max
  }

  ghost predicate AfterHit(c: LContext, re: Regex, lines: seq<ByteString>, i: nat)
    requires i < |lines|
  {
    exists j :: 0 <= j < i && re(lines[j]) && i - j <= c.after
  }

  ghost predicate BeforeHit(c: LContext, re: Regex, lines: seq<ByteString>, i: nat)
    requires i < |lines|
  {
    exists j :: i < j < |lines| && re(lines[j]) && j - i <= c.before && Allowed(c, re, lines, j)
  }

  /** A line is selected if it is within the maximum and matches, follows a match closely enough, or
      closely enough precedes a match that is itself within the maximum. */
  ghost predicate Kept(c: LContext, re: Regex, lines: seq<ByteString>, i: nat)
    requires i < |lines|
  {
    Allowed(c, re, lines, i) && (re(lines[i]) || AfterHit(c, re, lines, i) || BeforeHit(c, re, lines, i))
  }

  ghost function Collect(c: LContext, re: Regex, lines: seq<ByteString>, n: nat): seq<Emission>
    requires n <= |lines|
  {
    if n == 0 then []
    else Collect(c, re, lines, n - 1) + if Kept(c, re, lines, n - 1) then [(n, lines[n - 1])] else []
  }

  /** The selected lines with their numbers, each once, in order. */
  ghost function Grep(c: LContext, re: Regex, lines: seq<ByteString>): seq<Emission> {
    Collect(c, re, lines, |lines|)
  }

  lemma {:induction false} CollectSelects(c: LContext, re: Regex, lines: seq<ByteString>, n: nat)
    requires n <= |lines|
    ensures forall e :: e in Collect(c, re, lines, n) <==>
              0 < e.0 <= n && e.1 == lines[e.0 - 1] && Kept(c, re, lines, e.0 - 1)
    ensures forall i, j :: 0 <= i < j < |Collect(c, re, lines, n)| ==> Collect(c, re, lines, n)[i].0 < Collect(c, re, lines, n)[j].0
  {
    if n > 0 {
      CollectSelects(c, re, lines, n - 1);
      var before := Collect(c, re, lines, n - 1);
      assert forall i :: 0 <= i < |before| ==> before[i] in before;
    }
  }

  /** What the specification selects: exactly the kept lines, under their true numbers, in order and
      without duplicates. */
  lemma GrepSelects(c: LContext, re: Regex, lines: seq<ByteString>)
    ensures forall e :: e in Grep(c, re, lines) <==>
              0 < e.0 <= |lines| && e.1 == lines[e.0 - 1] && Kept(c, re, lines, e.0 - 1)
    ensures forall i, j :: 0 <= i < j < |Grep(c, re, lines)| ==> Grep(c, re, lines)[i].0 < Grep(c, re, lines)[j].0
  {
    CollectSelects(c, re, lines, |lines|);
  }

  // ---------------------------------------------------------------- the last match so far

  function LastHit(re: Regex, lines: seq<ByteString>, n: nat): (j: int)
    requires n <= |lines|
    ensures -1 <= j < n
    ensures j >= 0 ==> re(lines[j])
    ensures forall i :: j < i < n ==> !re(lines[i])
  {
    if n == 0 then -1 else if re(lines[n - 1]) then n - 1 else LastHit(re, lines, n - 1)
  }

  lemma {:induction false} HitsPrefix(re: Regex, a: seq<ByteString>, b: seq<ByteString>, n: nat)
    requires n <= |a|
    ensures Hits(re, a + b, n) == Hits(re, a, n)
  {
    if n > 0 {
      HitsPrefix(re, a, b, n - 1);
    }
  }

  lemma {:induction false} HitsMonotone(re: Regex, lines: seq<ByteString>, m: nat, n: nat)
    requires m <= n <= |lines|
    ensures Hits(re, lines, m) <= Hits(re, lines, n)
    decreases n
  {
    if m < n {
      HitsMonotone(re, lines, m, n - 1);
    }
  }

  lemma {:induction false} CollectFrame(c: LContext, re: Regex, a: seq<ByteString>, b: seq<ByteString>, n: nat)
    requires n <= |a| && n <= |b|
    requires forall i :: 0 <= i < n ==> a[i] == b[i] && (Kept(c, re, a, i) <==> Kept(c, re, b, i))
    ensures Collect(c, re, a, n) == Collect(c, re, b, n)
  {
    if n > 0 {
      CollectFrame(c, re, a, b, n - 1);
    }
  }

  /** The numbered lines m, ..., n - 1. */
  function Numbered(lines: seq<ByteString>, m: nat, n: nat): seq<Emission>
    requires m <= n <= |lines|
  {
    if m == n then [] else Numbered(lines, m, n - 1) + [(n, lines[n - 1])]
  }

  lemma {:induction false} CollectAll(c: LContext, re: Regex, lines: seq<ByteString>, m: nat, n: nat)
    requires m <= n <= |lines| && forall i :: m <= i < n ==> Kept(c, re, lines, i)
    ensures Collect(c, re, lines, n) == Collect(c, re, lines, m) + Numbered(lines, m, n)
    decreases n
  {
    if m < n {
      CollectAll(c, re, lines, m, n - 1);
    }
  }

  lemma {:induction false} CollectNone(c: LContext, re: Regex, lines: seq<ByteString>, m: nat, n: nat)
    requires m <= n <= |lines| && forall i :: m <= i < n ==> !Kept(c, re, lines, i)
    ensures Collect(c, re, lines, n) == Collect(c, re, lines, m)
    decreases n
  {
    if m < n {
      CollectNone(c, re, lines, m, n - 1);
    }
  }

  // ---------------------------------------------------------------- one more line

  /** The first line that the lines seen so far leave undecided: past the after-context of the last match. */
  function Undecided(c: LContext, re: Regex, lines: seq<ByteString>): (p: nat)
    ensures p <= |lines|
  {
    var last := LastHit(re, lines, |lines|);
    if last < 0 then 0
    else if c.after <= 0 then last + 1
    else if last + 1 + c.after < |lines| then last + 1 + c.after else |lines|
  }

  ghost predicate WithinMax(c: LContext, re: Regex, lines: seq<ByteString>) {
    c.max > 0 ==> Hits(re, lines, |lines|) <= c.max
  }

  lemma AllAllowed(c: LContext, re: Regex, lines: seq<ByteString>, i: nat)
    requires WithinMax(c, re, lines) && i < |lines|
    ensures Allowed(c, re, lines, i)
  {
    HitsMonotone(re, lines, i + 1, |lines|);
  }

  /** Undecided lines are not selected yet. */
  lemma UndecidedNotKept(c: LContext, re: Regex, lines: seq<ByteString>, i: nat)
    requires Undecided(c, re, lines) <= i < |lines|
    ensures !Kept(c, re, lines, i)
  {
  }

  lemma KeptAfterMiss(c: LContext, re: Regex, lines: seq<ByteString>, x: ByteString, i: nat)
    requires !re(x) && i < |lines|
    ensures Kept(c, re, lines + [x], i) <==> Kept(c, re, lines, i)
  {
    var more := lines + [x];
    HitsPrefix(re, lines, [x], i + 1);
    forall j | 0 <= j < |lines|
      ensures more[j] == lines[j] && (Allowed(c, re, more, j) <==> Allowed(c, re, lines, j))
    {
      HitsPrefix(re, lines, [x], j + 1);
    }
    if BeforeHit(c, re, lines, i) {
      var j :| i < j < |lines| && re(lines[j]) && j - i <= c.before && Allowed(c, re, lines, j);
      assert re(more[j]) && Allowed(c, re, more, j);
    }
    if AfterHit(c, re, lines, i) {
      var j :| 0 <= j < i && re(lines[j]) && i - j <= c.after;
      assert re(more[j]);
    }
  }

  /** A last line that does not match is selected for the match before it or not at all. */
  lemma KeptLastMiss(c: LContext, re: Regex, lines: seq<ByteString>, x: ByteString)
    requires !re(x) && WithinMax(c, re, lines)
    ensures var last, n := LastHit(re, lines, |lines|), |lines|;
            Kept(c, re, lines + [x], n) <==> last >= 0 && n - last <= c.after
    ensures WithinMax(c, re, lines + [x])
  {
    var more, n := lines + [x], |lines|;
    HitsPrefix(re, lines, [x], n);
    AllAllowed(c, re, more, n);
    var last := LastHit(re, lines, n);
    assert forall j :: 0 <= j < n ==> more[j] == lines[j];
    assert last >= 0 && n - last <= c.after ==> re(more[last]) && AfterHit(c, re, more, n);
  }

  lemma CollectAfterMiss(c: LContext, re: Regex, lines: seq<ByteString>, x: ByteString)
    requires !re(x) && WithinMax(c, re, lines)
    ensures Collect(c, re, lines + [x], |lines|) == Grep(c, re, lines)
  {
    var more, n := lines + [x], |lines|;
    forall i | 0 <= i < n
      ensures more[i] == lines[i] && (Kept(c, re, more, i) <==> Kept(c, re, lines, i))
    {
      KeptAfterMiss(c, re, lines, x, i);
    }
    CollectFrame(c, re, more, lines, n);
  }

  /** A line that does not match is selected at once or not yet, and changes nothing before it. */
  lemma GrepMiss(c: LContext, re: Regex, lines: seq<ByteString>, x: ByteString)
    requires !re(x) && WithinMax(c, re, lines)
    ensures var last, n := LastHit(re, lines, |lines|), |lines|;
            Grep(c, re, lines + [x])
            == Grep(c, re, lines) + if last >= 0 && n - last <= c.after then [(n + 1, x)] else []
    ensures WithinMax(c, re, lines + [x])
  {
    CollectAfterMiss(c, re, lines, x);
    KeptLastMiss(c, re, lines, x);
  }

  lemma KeptAfterHit(c: LContext, re: Regex, lines: seq<ByteString>, x: ByteString, i: nat)
    requires re(x) && WithinMax(c, re, lines + [x]) && i < |lines|
    ensures Kept(c, re, lines + [x], i) <==>
              Kept(c, re, lines, i) || (Undecided(c, re, lines) <= i && |lines| - i <= c.before)
  {
    var more, n := lines + [x], |lines|;
    forall j | 0 <= j < n
      ensures more[j] == lines[j] && Allowed(c, re, more, j) && Allowed(c, re, lines, j)
    {
      HitsPrefix(re, lines, [x], j + 1);
      AllAllowed(c, re, more, j);
    }
    AllAllowed(c, re, more, n);
    assert more[n] == x;
    if n - i <= c.before {
      assert BeforeHit(c, re, more, i);
      if i < Undecided(c, re, lines) {
        var last := LastHit(re, lines, n);
        assert re(lines[last]);
        assert i < last ==> BeforeHit(c, re, lines, i);
        assert last < i ==> AfterHit(c, re, lines, i);
      }
    }
    if AfterHit(c, re, lines, i) {
      var j :| 0 <= j < i && re(lines[j]) && i - j <= c.after;
      assert re(more[j]);
    }
    if BeforeHit(c, re, lines, i) {
      var j :| i < j < n && re(lines[j]) && j - i <= c.before && Allowed(c, re, lines, j);
      assert re(more[j]);
    }
    if BeforeHit(c, re, more, i) {
      var j :| i < j < |more| && re(more[j]) && j - i <= c.before && Allowed(c, re, more, j);
      if j < n {
        assert BeforeHit(c, re, lines, i);
      }
    }
  }

  /** How many of the undecided lines fit the before-context. */
  function Waiting(c: LContext, re: Regex, lines: seq<ByteString>): (w: nat)
    ensures w <= |lines|
  {
    var open := |lines| - Undecided(c, re, lines);
    if c.before <= 0 then 0 else if open < c.before then open else c.before
  }

  /** A match within the maximum selects the waiting lines in front of it and itself. */
  lemma GrepHit(c: LContext, re: Regex, lines: seq<ByteString>, x: ByteString)
    requires re(x) && WithinMax(c, re, lines + [x])
    ensures var n := |lines|;
            Grep(c, re, lines + [x])
            == Grep(c, re, lines) + Numbered(lines, n - Waiting(c, re, lines), n) + [(n + 1, x)]
  {
    WaitingJoins(c, re, lines, x);
    LastCollected(c, re, lines, x);
  }

  lemma WaitingJoins(c: LContext, re: Regex, lines: seq<ByteString>, x: ByteString)
    requires re(x) && WithinMax(c, re, lines + [x])
    ensures Collect(c, re, lines + [x], |lines|)
            == Grep(c, re, lines) + Numbered(lines, |lines| - Waiting(c, re, lines), |lines|)
  {
    var m := |lines| - Waiting(c, re, lines);
    forall i: nat | i < m
      ensures Kept(c, re, lines + [x], i) <==> Kept(c, re, lines, i)
    {
      WaitingKept(c, re, lines, x, i);
    }
    forall i: nat | m <= i < |lines|
      ensures Kept(c, re, lines + [x], i) && !Kept(c, re, lines, i)
    {
      WaitingKept(c, re, lines, x, i);
    }
    CollectJoins(c, re, lines, x, m);
  }

  lemma LastCollected(c: LContext, re: Regex, lines: seq<ByteString>, x: ByteString)
    requires re(x) && WithinMax(c, re, lines + [x])
    ensures Grep(c, re, lines + [x]) == Collect(c, re, lines + [x], |lines|) + [(|lines| + 1, x)]
  {
    AllAllowed(c, re, lines + [x], |lines|);
  }

  lemma CollectJoins(c: LContext, re: Regex, lines: seq<ByteString>, x: ByteString, m: nat)
    requires m <= |lines|
    requires forall i :: 0 <= i < m ==> (Kept(c, re, lines + [x], i) <==> Kept(c, re, lines, i))
    requires forall i :: m <= i < |lines| ==> Kept(c, re, lines + [x], i) && !Kept(c, re, lines, i)
    ensures Collect(c, re, lines + [x], |lines|) == Grep(c, re, lines) + Numbered(lines, m, |lines|)
  {
    CollectFrame(c, re, lines + [x], lines, m);
    CollectNone(c, re, lines, m, |lines|);
    CollectAll(c, re, lines + [x], m, |lines|);
    NumberedPrefix(lines, x, m, |lines|);
  }

  lemma WaitingKept(c: LContext, re: Regex, lines: seq<ByteString>, x: ByteString, i: nat)
    requires re(x) && WithinMax(c, re, lines + [x]) && i < |lines|
    ensures var m := |lines| - Waiting(c, re, lines);
            if i < m then Kept(c, re, lines + [x], i) <==> Kept(c, re, lines, i)
            else Kept(c, re, lines + [x], i) && !Kept(c, re, lines, i)
  {
    KeptAfterHit(c, re, lines, x, i);
    if |lines| - Waiting(c, re, lines) <= i {
      UndecidedNotKept(c, re, lines, i);
    }
  }

  lemma {:induction false} NumberedPrefix(lines: seq<ByteString>, x: ByteString, m: nat, n: nat)
    requires m <= n <= |lines|
    ensures Numbered(lines + [x], m, n) == Numbered(lines, m, n)
    decreases n
  {
    if m < n {
      NumberedPrefix(lines, x, m, n - 1);
    }
  }

  // ---------------------------------------------------------------- stopping early loses nothing

  /** The next line would be the match past the maximum. */
  ghost predicate Exhausted(c: LContext, re: Regex, seen: seq<ByteString>, rest: seq<ByteString>) {
    && c.max > 0 && Hits(re, seen, |seen|) >= c.max
    && ((rest != [] && re(rest[0])) || LastHit(re, seen, |seen|) + c.after < |seen|)
  }

  lemma NothingFurther(c: LContext, re: Regex, seen: seq<ByteString>, rest: seq<ByteString>, i: nat)
    requires Exhausted(c, re, seen, rest) && |seen| <= i < |seen + rest|
    ensures !Kept(c, re, seen + rest, i)
    ensures re((seen + rest)[i]) ==> !Allowed(c, re, seen + rest, i)
  {
    var all, n := seen + rest, |seen|;
    HitsPrefix(re, seen, rest, n);
    HitsMonotone(re, all, n, i);
    forall j | n <= j < |all| && re(all[j])
      ensures Hits(re, all, j + 1) > c.max
    {
      HitsMonotone(re, all, n, j);
    }
    if Allowed(c, re, all, i) {
      if rest != [] && re(rest[0]) {
        assert all[n] == rest[0];
        HitsMonotone(re, all, n + 1, i + 1);
      }
      if AfterHit(c, re, all, i) {
        var j :| 0 <= j < i && re(all[j]) && i - j <= c.after;
        if j >= n {
          HitsMonotone(re, all, j + 1, i + 1);
        }
      }
    }
  }

  /** Once the maximum is used up and the after-context is over, or the next match arrives, the output
      is complete, whatever the rest of the input holds. */
  lemma StopIsFinal(c: LContext, re: Regex, seen: seq<ByteString>, rest: seq<ByteString>)
    requires Exhausted(c, re, seen, rest)
    ensures Grep(c, re, seen + rest) == Grep(c, re, seen)
  {
    var all, n := seen + rest, |seen|;
    forall i | 0 <= i < n
      ensures all[i] == seen[i] && (Kept(c, re, all, i) <==> Kept(c, re, seen, i))
    {
      StopKeeps(c, re, seen, rest, i);
    }
    CollectFrame(c, re, all, seen, n);
    forall i | n <= i < |all|
      ensures !Kept(c, re, all, i)
    {
      NothingFurther(c, re, seen, rest, i);
    }
    CollectNone(c, re, all, n, |all|);
  }

  lemma StopKeeps(c: LContext, re: Regex, seen: seq<ByteString>, rest: seq<ByteString>, i: nat)
    requires Exhausted(c, re, seen, rest) && i < |seen|
    ensures Kept(c, re, seen + rest, i) <==> Kept(c, re, seen, i)
  {
    var all, n := seen + rest, |seen|;
    forall j | 0 <= j < n
      ensures all[j] == seen[j] && (Allowed(c, re, all, j) <==> Allowed(c, re, seen, j))
    {
      HitsPrefix(re, seen, rest, j + 1);
    }
    if BeforeHit(c, re, all, i) {
      var j :| i < j < |all| && re(all[j]) && j - i <= c.before && Allowed(c, re, all, j);
      if j >= n {
        NothingFurther(c, re, seen, rest, j);
      }
      assert re(seen[j]) && Allowed(c, re, seen, j);
    }
    if BeforeHit(c, re, seen, i) {
      var j :| i < j < n && re(seen[j]) && j - i <= c.before && Allowed(c, re, seen, j);
      assert re(all[j]) && Allowed(c, re, all, j);
    }
    if AfterHit(c, re, seen, i) {
      var j :| 0 <= j < i && re(seen[j]) && i - j <= c.after;
      assert re(all[j]);
    }
  }

  /** More input never takes back what is already selected: the output only grows at its end. */
  lemma {:induction false} GrepGrows(c: LContext, re: Regex, seen: seq<ByteString>, rest: seq<ByteString>)
    requires WithinMax(c, re, seen)
    ensures Grep(c, re, seen) <= Grep(c, re, seen + rest)
    decreases |rest|
  {
    if rest == [] {
      assert seen + rest == seen;
    } else {
      var more := seen + [rest[0]];
      assert more + rest[1..] == seen + rest;
      if re(rest[0]) && !WithinMax(c, re, more) {
        HitsPrefix(re, seen, [rest[0]], |seen|);
        StopIsFinal(c, re, seen, rest);
      } else {
        if re(rest[0]) {
          GrepHit(c, re, seen, rest[0]);
        } else {
          GrepMiss(c, re, seen, rest[0]);
        }
        GrepGrows(c, re, more, rest[1..]);
      }
    }
  }

  lemma {:induction false} NumberedStarts(lines: seq<ByteString>, m: nat, k: nat, n: nat)
    requires m <= k <= n <= |lines|
    ensures Numbered(lines, m, k) <= Numbered(lines, m, n)
    decreases n
  {
    if k < n {
      NumberedStarts(lines, m, k, n - 1);
    }
  }
}
