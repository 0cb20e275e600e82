/** Byte strings and the few library operations on them that the server and the client share. */
module Bytes {
  import opened Wrappers

  newtype byte = x: int | 0 <= x < 256
  type ByteString = seq<byte>

  function Concat(parts: seq<ByteString>): (s: ByteString) {
    if parts == [] then [] else Concat(parts[..|parts| - 1]) + parts[|parts| - 1]
  }

  lemma {:induction false} ConcatSplit(a: seq<ByteString>, b: seq<ByteString>)
    ensures Concat(a + b) == Concat(a) + Concat(b)
    decreases |b|
  {
    if b == [] {
      assert a + b == a;
    } else {
      var n := |b| - 1;
      ConcatSplit(a, b[..n]);
      assert (a + b)[..|a + b| - 1] == a + b[..n];
    }
  }

  lemma ConcatMore(parts: seq<ByteString>, last: ByteString)
    ensures Concat(parts + [last]) == Concat(parts) + last
  {
    assert (parts + [last])[..|parts + [last]| - 1] == parts;
  }

  /** The first occurrence after a prefix that does not contain the byte is where that prefix ends. */
  lemma {:induction false} IndexAfter(p: ByteString, b: byte, rest: ByteString)
    requires b !in p
    ensures IndexOf(p + [b] + rest, b) == Some(|p|)
  {
    if p != [] {
      IndexAfter(p[1..], b, rest);
      assert (p + [b] + rest)[1..] == p[1..] + [b] + rest;
    }
  }

  function Min(a: nat, b: nat): nat {
    if a < b then a else b
  }

  // ---------------------------------------------------------------- decimal numbers

  const ZERO: byte := 0x30

  predicate IsDigit(b: byte) {
    ZERO <= b < ZERO + 10
  }

  predicate AllDigits(s: ByteString) {
    forall i :: 0 <= i < |s| ==> IsDigit(s[i])
  }

  /** The decimal text of a number, as the %d verb prints it. */
  function Decimal(n: nat): (s: ByteString)
    ensures s != [] && AllDigits(s)
  {
    if n < 10 then [ZERO + n as byte] else Decimal(n / 10) + [ZERO + (n % 10) as byte]
  }

  function Value(s: ByteString): nat
    requires AllDigits(s)
  {
    if s == [] then 0 else Value(s[..|s| - 1]) * 10 + (s[|s| - 1] - ZERO) as nat
  }

  lemma {:induction false} DecimalValue(n: nat)
    ensures Value(Decimal(n)) == n
  {
    if n >= 10 {
      DecimalValue(n / 10);
      var s := Decimal(n);
      assert s[..|s| - 1] == Decimal(n / 10);
    }
  }

  function Pow10(n: nat): nat {
    if n == 0 then 1 else 10 * Pow10(n - 1)
  }

  /** The first digit weighs most: each digit counts for ten times the one behind it. */
  lemma {:induction false} FirstDigitWeighsMost(first: byte, s: ByteString)
    requires IsDigit(first) && AllDigits(s)
    ensures AllDigits([first] + s) && Value([first] + s) == (first - ZERO) as nat * Pow10(|s|) + Value(s)
  {
    var d := (first - ZERO) as nat;
    if s == [] {
      assert [first] + s == [first] && [first][..0] == [];
    } else {
      var n := |s| - 1;
      FirstDigitWeighsMost(first, s[..n]);
      assert ([first] + s)[..|s|] == [first] + s[..n];
      assert d * Pow10(|s|) == 10 * (d * Pow10(n));
    }
  }

  /** No leading zeros. */
  lemma {:induction false} NoLeadingZero(n: nat)
    requires n > 0
    ensures Decimal(n)[0] != ZERO
  {
    if n >= 10 {
      NoLeadingZero(n / 10);
    }
  }
}
