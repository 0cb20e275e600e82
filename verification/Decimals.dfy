/** Exact integers printed in decimal: one way of printing and parsing numbers that meets everything the
    aggregation theorems ask of it, so those theorems speak of something. */
module Decimals {
  import opened Wrappers
  import opened Bytes
  import opened AggregateSets
  import opened AggregateWire
  import opened Pipeline

  function Chars(b: ByteString): string {
    seq(|b|, i requires 0 <= i < |b| => b[i] as char)
  }

  /** Back to bytes; a character that is no byte becomes one that is no digit. */
  function BytesOf(s: string): ByteString {
    seq(|s|, i requires 0 <= i < |s| => if s[i] as int < 256 then s[i] as int as byte else 0)
  }

  lemma BytesOfChars(b: ByteString)
    ensures BytesOf(Chars(b)) == b
  {
  }

  predicate IsNat(s: string) {
    s != "" && AllDigits(BytesOf(s))
  }

  function IntText(i: int): string {
    if i < 0 then "-" + Chars(Decimal(-i)) else Chars(Decimal(i))
  }

  function IntOf(s: string): Option<int> {
    if IsNat(s) then Some(Value(BytesOf(s)))
    else if s != "" && s[0] == '-' && IsNat(s[1..]) then Some(0 - Value(BytesOf(s[1..])))
    else None
  }

  lemma IntRoundTrip(i: int)
    ensures IntOf(IntText(i)) == Some(i) && DELIMITER !in IntText(i)
  {
    var n := if i < 0 then -i else i;
    DecimalValue(n);
    BytesOfChars(Decimal(n));
    var s := IntText(i);
    if i < 0 {
      assert s[0] == '-' && s[1..] == Chars(Decimal(n));
      assert !IsDigit(BytesOf(s)[0]);
    }
  }

  predicate IsWhole(v: real) {
    v.Floor as real == v
  }

  function ParseWhole(s: string): Option<real> {
    match IntOf(s)
    case None => None
    case Some(i) => Some(i as real)
  }

  function FormatWhole(v: real): string {
    if IsWhole(v) then IntText(v.Floor) else "?"
  }

  function WholeNumbers(): Numbers {
    Numbers(s => ParseWhole(s), v => FormatWhole(v))
  }

  function WholeQuery(select: seq<Entry>): Query {
    Query(WholeNumbers(), select, v => IsWhole(v))
  }

  function WholeCodec(): Codec {
    Codec(WholeNumbers(), i => IntText(i), s => IntOf(s))
  }

  lemma WholeSurvives(v: real)
    requires IsWhole(v)
    ensures ParseWhole(FormatWhole(v)) == Some(v)
  {
    IntRoundTrip(v.Floor);
  }

  lemma IntIsWhole(i: int)
    ensures IsWhole(i as real)
  {
  }

  lemma WholeAdds(x: real, y: real)
    requires IsWhole(x) && IsWhole(y)
    ensures IsWhole(x + y)
  {
    IntIsWhole(x.Floor + y.Floor);
    assert x + y == (x.Floor + y.Floor) as real;
  }

  /** Integers in decimal survive the wire and are closed under what the aggregation does with them. */
  lemma WholeQueryIsLawful(select: seq<Entry>)
    ensures Lawful(WholeQuery(select))
  {
    var q := WholeQuery(select);
    forall v
      ensures Survives(q, v)
    {
      if IsWhole(v) {
        WholeSurvives(v);
      }
    }
    forall text
      ensures Parses(q, text)
    {
      if IntOf(text).Some? {
        IntIsWhole(IntOf(text).value);
      }
    }
    forall x, y
      ensures Adds(q, x, y)
    {
      if IsWhole(x) && IsWhole(y) {
        WholeAdds(x, y);
      }
    }
    IntIsWhole(0);
    IntIsWhole(1);
  }

  /** And the text form of a group asks no more than they give. */
  lemma WholeCodecIsLawful()
    ensures WholeCodec().Lawful()
  {
    var c := WholeCodec();
    forall v
      ensures c.PrintsFloat(v)
    {
      IntRoundTrip(v.Floor);
    }
    forall i
      ensures c.PrintsInt(i)
    {
      IntRoundTrip(i);
    }
  }
}
