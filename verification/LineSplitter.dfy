/** Splitting a file into lines of bounded length under arbitrary read chunking
    (internal/io/fs/readfile_processor_optimized.go, the split functions given to bufio.Scanner). */
module LineSplitter {
  import opened Wrappers
  import opened Bytes

  const NEWLINE: byte := 0x0a

  /** The split function: a token length, or None to ask for more data. The two split functions of the
      source differ only in the warning they send. */
  function SplitAt(limit: nat, data: ByteString, atEOF: bool): Option<nat>
    requires limit > 0
  {
    if atEOF && data == [] then None
    else
      match IndexOf(data, NEWLINE)
      case Some(i) => if i > limit then Some(limit) else Some(i + 1)
      case None =>
        if atEOF then (if |data| > limit then Some(limit) else Some(|data|))
        else if |data| >= limit then Some(limit)
        else None
  }

  /** One call of the scanner: it shows the splitter some prefix of what is left, and says atEOF only
      when that is everything. */
  predicate Shows(rest: ByteString, k: nat, atEOF: bool) {
    k <= |rest| && (atEOF ==> k == |rest|)
  }

  /** A token of length n can come next under some chunking. */
  ghost predicate CanCut(limit: nat, rest: ByteString, n: nat)
    requires limit > 0
  {
    exists k: nat, atEOF :: Shows(rest, k, atEOF) && SplitAt(limit, rest[..k], atEOF) == Some(n)
  }

  /** A token list that some chunking of the input produces. */
  ghost predicate Produces(limit: nat, input: ByteString, tokens: seq<ByteString>)
    requires limit > 0
    decreases |tokens|
  {
    if tokens == [] then input == []
    else
      && |tokens[0]| <= |input| && tokens[0] == input[..|tokens[0]|]
      && CanCut(limit, input, |tokens[0]|)
      && Produces(limit, input[|tokens[0]|..], tokens[1..])
  }

  /** Where the line at the front ends: the position of its newline, or the end of the input. */
  function LineEnd(rest: ByteString): (n: nat)
    ensures n <= |rest| && NEWLINE !in rest[..n]
    ensures n < |rest| ==> rest[n] == NEWLINE
  {
    match IndexOf(rest, NEWLINE)
    case None => |rest|
    case Some(i) => i
  }

  predicate IsCut(limit: nat, rest: ByteString, n: nat) {
    var e := LineEnd(rest);
    if e > limit then n == limit
    else if e == |rest| then n == e
    else if e == limit then n == limit || n == e + 1
    else n == e + 1
  }

  /** The scanner has not shown the newline of the line at the front. */
  lemma CutBeforeNewline(limit: nat, rest: ByteString, k: nat, atEOF: bool, n: nat)
    requires limit > 0 && Shows(rest, k, atEOF) && SplitAt(limit, rest[..k], atEOF) == Some(n)
    requires k <= LineEnd(rest)
    ensures 0 < n <= |rest| && IsCut(limit, rest, n)
  {
    assert rest[..k] == rest[..LineEnd(rest)][..k];
    assert IndexOf(rest[..k], NEWLINE).None?;
  }

  lemma CutAfterNewline(limit: nat, rest: ByteString, k: nat, atEOF: bool, n: nat)
    requires limit > 0 && Shows(rest, k, atEOF) && SplitAt(limit, rest[..k], atEOF) == Some(n)
    requires k > LineEnd(rest)
    ensures 0 < n <= |rest| && IsCut(limit, rest, n)
  {
    var e := LineEnd(rest);
    assert IndexOf(rest[..k], NEWLINE) == Some(e) by {
      IndexAfter(rest[..e], NEWLINE, rest[e + 1..k]);
      assert rest[..k] == rest[..e] + [NEWLINE] + rest[e + 1..k];
    }
  }

  /** What the splitter can cut: a long line at the limit, a short one behind its newline. A terminated
      line of exactly the limit may go either way. */
  lemma CutShape(limit: nat, rest: ByteString, n: nat)
    requires limit > 0 && CanCut(limit, rest, n)
    ensures 0 < n <= |rest| && IsCut(limit, rest, n)
  {
    var k: nat, atEOF :| Shows(rest, k, atEOF) && SplitAt(limit, rest[..k], atEOF) == Some(n);
    if k <= LineEnd(rest) {
      CutBeforeNewline(limit, rest, k, atEOF, n);
    } else {
      CutAfterNewline(limit, rest, k, atEOF, n);
    }
  }

  /** A token of that length also comes when the scanner shows exactly its bytes, so every token list is
      that of a reader which hands the scanner one token after the other. */
  lemma CutShowsItself(limit: nat, rest: ByteString, n: nat)
    requires limit > 0 && CanCut(limit, rest, n)
    ensures n <= |rest|
    ensures Shows(rest, n, n == |rest|) && SplitAt(limit, rest[..n], n == |rest|) == Some(n)
  {
    CutShape(limit, rest, n);
    IndexInCut(rest, n);
  }

  /** Where the newline is in the bytes of one token. */
  lemma IndexInCut(rest: ByteString, n: nat)
    requires n <= |rest| && n <= LineEnd(rest) + 1
    ensures IndexOf(rest[..n], NEWLINE) == if n <= LineEnd(rest) then None else Some(n - 1)
  {
    var e := LineEnd(rest);
    if n <= e {
      assert rest[..n] == rest[..e][..n];
    } else {
      var line := rest[..e];
      assert rest[..n] == line + [NEWLINE] + [];
      IndexAfter(line, NEWLINE, []);
    }
  }

  /** Showing everything at once always yields a token, so the scanner cannot get stuck. */
  function WholeCut(limit: nat, rest: ByteString): (n: nat)
    requires limit > 0 && rest != []
    ensures CanCut(limit, rest, n) && 0 < n <= |rest|
  {
    assert rest[..|rest|] == rest;
    assert Shows(rest, |rest|, true);
    SplitAt(limit, rest[..|rest|], true).value
  }

  function WholeTokens(limit: nat, input: ByteString): (tokens: seq<ByteString>)
    requires limit > 0
    ensures Produces(limit, input, tokens)
    decreases |input|
  {
    if input == [] then []
    else
      var n := WholeCut(limit, input);
      [input[..n]] + WholeTokens(limit, input[n..])
  }

  /** A line piece: at most the limit plus a newline, and a newline only as its last byte. */
  predicate IsPiece(limit: nat, token: ByteString) {
    && 0 < |token| <= limit + 1
    && NEWLINE !in token[..|token| - 1]
    && (|token| == limit + 1 ==> token[limit] == NEWLINE)
  }

  lemma CutIsPiece(limit: nat, rest: ByteString, n: nat)
    requires limit > 0 && CanCut(limit, rest, n)
    ensures n <= |rest| && IsPiece(limit, rest[..n])
  {
    CutShape(limit, rest, n);
    assert rest[..n][..n - 1] == rest[..LineEnd(rest)][..n - 1];
  }

  lemma ConcatFirst(tokens: seq<ByteString>)
    requires tokens != []
    ensures Concat(tokens) == tokens[0] + Concat(tokens[1..])
  {
    ConcatSplit([tokens[0]], tokens[1..]);
    assert [tokens[0]] + tokens[1..] == tokens;
    assert Concat([tokens[0]]) == [] + tokens[0];
  }

  /** Under every chunking the tokens are the input again, cut into line pieces. */
  lemma {:induction false} TokensRebuildInput(limit: nat, input: ByteString, tokens: seq<ByteString>)
    requires limit > 0 && Produces(limit, input, tokens)
    ensures Concat(tokens) == input
    ensures forall i :: 0 <= i < |tokens| ==> IsPiece(limit, tokens[i])
    decreases |tokens|
  {
    if tokens != [] {
      var n := |tokens[0]|;
      CutIsPiece(limit, input, n);
      TokensRebuildInput(limit, input[n..], tokens[1..]);
      ConcatFirst(tokens);
      assert input == input[..n] + input[n..];
      assert forall i :: 1 <= i < |tokens| ==> tokens[i] == tokens[1..][i - 1];
    }
  }

  // ---------------------------------------------------------------- when chunking cannot be seen

  predicate IsMultiple(n: nat, m: nat)
    requires m > 0
  {
    n == 0 || (n >= m && IsMultiple(n - m, m))
  }

  /** The line at the front is terminated and its length is a non-zero multiple of the limit. */
  predicate Ambiguous(limit: nat, rest: ByteString)
    requires limit > 0
  {
    var e := LineEnd(rest);
    0 < e < |rest| && IsMultiple(e, limit)
  }

  /** The rest of the input behind the line at the front. */
  function NextLine(rest: ByteString): (r: ByteString)
    ensures rest != [] ==> |r| < |rest|
  {
    var e := LineEnd(rest);
    if e < |rest| then rest[e + 1..] else []
  }

  /** Some terminated line of the input has a length that is a non-zero multiple of the limit. */
  predicate HasAmbiguousLine(limit: nat, input: ByteString)
    requires limit > 0
    decreases |input|
  {
    input != [] && (Ambiguous(limit, input) || HasAmbiguousLine(limit, NextLine(input)))
  }

  lemma LineEndIs(rest: ByteString, n: nat)
    requires n <= |rest| && NEWLINE !in rest[..n] && (n < |rest| ==> rest[n] == NEWLINE)
    ensures LineEnd(rest) == n
  {
    if n < |rest| {
      IndexAfter(rest[..n], NEWLINE, rest[n + 1..]);
      assert rest == rest[..n] + [NEWLINE] + rest[n + 1..];
    } else {
      assert rest[..n] == rest;
    }
  }

  /** Cutting inside a line leaves the rest of that line and the same later lines. */
  lemma CutLeaves(rest: ByteString, n: nat)
    requires n <= LineEnd(rest)
    ensures LineEnd(rest[n..]) == LineEnd(rest) - n && NextLine(rest[n..]) == NextLine(rest)
  {
    var e := LineEnd(rest);
    assert rest[n..][..e - n] == rest[..e][n..];
    LineEndIs(rest[n..], e - n);
    if e < |rest| {
      assert rest[n..][e - n + 1..] == rest[e + 1..];
    }
  }

  lemma {:induction false} UnambiguousStays(limit: nat, rest: ByteString, n: nat)
    requires limit > 0 && CanCut(limit, rest, n) && !HasAmbiguousLine(limit, rest)
    ensures n <= |rest| && !HasAmbiguousLine(limit, rest[n..])
  {
    CutShape(limit, rest, n);
    assert IsMultiple(limit, limit);
    if n < LineEnd(rest) {
      CutLeaves(rest, n);
    } else if n > LineEnd(rest) {
      assert rest[n..] == NextLine(rest);
    }
  }

  lemma UnambiguousCut(limit: nat, rest: ByteString, n: nat, n': nat)
    requires limit > 0 && CanCut(limit, rest, n) && CanCut(limit, rest, n') && !Ambiguous(limit, rest)
    ensures n == n'
  {
    CutShape(limit, rest, n);
    CutShape(limit, rest, n');
    assert IsMultiple(limit, limit);
  }

  lemma {:induction false} UnambiguousIsUnique(limit: nat, input: ByteString, a: seq<ByteString>, b: seq<ByteString>)
    requires limit > 0 && !HasAmbiguousLine(limit, input)
    requires Produces(limit, input, a) && Produces(limit, input, b)
    ensures a == b
    decreases |a|
  {
    if a != [] && b != [] {
      CutShape(limit, input, |a[0]|);
      CutShape(limit, input, |b[0]|);
      UnambiguousCut(limit, input, |a[0]|, |b[0]|);
      UnambiguousStays(limit, input, |a[0]|);
      UnambiguousIsUnique(limit, input[|a[0]|..], a[1..], b[1..]);
    } else if a != [] {
      CutShape(limit, input, |a[0]|);
    } else if b != [] {
      CutShape(limit, input, |b[0]|);
    }
  }

  /** A line of exactly the limit can be cut with or without its newline. */
  lemma BothCuts(limit: nat, rest: ByteString)
    requires limit > 0 && LineEnd(rest) == limit < |rest|
    ensures CanCut(limit, rest, limit) && CanCut(limit, rest, limit + 1)
  {
    assert Shows(rest, limit, false) && Shows(rest, limit + 1, false);
    assert IndexOf(rest[..limit], NEWLINE).None?;
    IndexAfter(rest[..limit], NEWLINE, []);
    assert rest[..limit + 1] == rest[..limit] + [NEWLINE] + [];
  }

  lemma ProducesFirst(limit: nat, input: ByteString, n: nat, tokens: seq<ByteString>)
    requires limit > 0 && n <= |input| && CanCut(limit, input, n) && Produces(limit, input[n..], tokens)
    ensures Produces(limit, input, [input[..n]] + tokens)
  {
    var all := [input[..n]] + tokens;
    assert all[0] == input[..n] && all[1..] == tokens;
  }

  lemma {:induction false} AmbiguousDiffers(limit: nat, input: ByteString) returns (a: seq<ByteString>, b: seq<ByteString>)
    requires limit > 0 && HasAmbiguousLine(limit, input)
    ensures Produces(limit, input, a) && Produces(limit, input, b) && a != b
    decreases |input|
  {
    var e := LineEnd(input);
    if e == limit && e < |input| {
      BothCuts(limit, input);
      a, b := WholeTokens(limit, input[limit..]), WholeTokens(limit, input[limit + 1..]);
      ProducesFirst(limit, input, limit, a);
      ProducesFirst(limit, input, limit + 1, b);
      a, b := [input[..limit]] + a, [input[..limit + 1]] + b;
      assert |a[0]| != |b[0]|;
    } else {
      var n := WholeCut(limit, input);
      CutShape(limit, input, n);
      AmbiguityMoves(limit, input, n);
      a, b := AmbiguousDiffers(limit, input[n..]);
      ProducesFirst(limit, input, n, a);
      ProducesFirst(limit, input, n, b);
      var first := [input[..n]];
      assert (first + a)[1..] == a && (first + b)[1..] == b;
      a, b := first + a, first + b;
    }
  }

  lemma AmbiguityMoves(limit: nat, input: ByteString, n: nat)
    requires limit > 0 && HasAmbiguousLine(limit, input) && CanCut(limit, input, n)
    requires !(LineEnd(input) == limit < |input|)
    ensures n <= |input| && HasAmbiguousLine(limit, input[n..])
  {
    CutShape(limit, input, n);
    if n <= LineEnd(input) {
      CutLeaves(input, n);
      AmbiguousLater(limit, input, n);
    } else {
      assert input[n..] == NextLine(input);
    }
  }

  /** Cutting a whole limit off the front of a line keeps its length a multiple or not. */
  lemma AmbiguousLater(limit: nat, input: ByteString, n: nat)
    requires limit > 0 && n <= LineEnd(input) && HasAmbiguousLine(limit, input)
    requires IsCut(limit, input, n) && !(LineEnd(input) == limit < |input|)
    requires LineEnd(input[n..]) == LineEnd(input) - n && NextLine(input[n..]) == NextLine(input)
    ensures HasAmbiguousLine(limit, input[n..])
  {
    var rest := input[n..];
    assert rest != [];
    if Ambiguous(limit, input) {
      assert IsMultiple(LineEnd(rest), limit);
      assert Ambiguous(limit, rest);
    } else {
      assert HasAmbiguousLine(limit, NextLine(rest));
    }
  }

  /** Every chunking produces the same tokens. */
  ghost predicate ChunkingInvisible(limit: nat, input: ByteString)
    requires limit > 0
  {
    forall a, b :: Produces(limit, input, a) && Produces(limit, input, b) ==> a == b
  }

  /** The token list is independent of the chunking exactly when no terminated line's length is a
      non-zero multiple of the limit. */
  lemma ChunkingIsInvisibleIff(limit: nat, input: ByteString)
    requires limit > 0
    ensures ChunkingInvisible(limit, input) <==> !HasAmbiguousLine(limit, input)
  {
    if HasAmbiguousLine(limit, input) {
      var a, b := AmbiguousDiffers(limit, input);
      assert !ChunkingInvisible(limit, input);
    } else {
      forall a, b | Produces(limit, input, a) && Produces(limit, input, b)
        ensures a == b
      {
        UnambiguousIsUnique(limit, input, a, b);
      }
    }
  }
}
