/** The UTF-8 form of text (section 3 of RFC 3629), whose length len() reports. */
module Utf8 {
  import opened Wrappers
  import opened Bytes
  import opened AggregateSets

  /** The rest of a number fits into its first byte, above the mark, when the others carry six bits each. */
  predicate Fits(mark: nat, c: nat, n: nat) {
    if n == 0 then mark + c < 256 else Fits(mark, c / 0x40, n - 1)
  }

  /** A first byte with the mark, and n more bytes. */
  function Form(mark: nat, c: nat, n: nat): (s: ByteString)
    requires Fits(mark, c, n)
    ensures |s| == n + 1
  {
    if n == 0 then [(mark + c) as byte] else Form(mark, c / 0x40, n - 1) + [(0x80 + c % 0x40) as byte]
  }

  function Value(mark: nat, s: ByteString, n: nat): int
    requires n < |s|
  {
    if n == 0 then s[0] as int - mark else Value(mark, s, n - 1) * 0x40 + (s[n] as int - 0x80)
  }

  function Encode(c: nat): (s: ByteString)
    requires c < 0x11_0000
    ensures |s| == if c < 0x80 then 1 else if c < 0x800 then 2 else if c < 0x1_0000 then 3 else 4
  {
    if c < 0x80 then [c as byte]
    else if c < 0x800 then FitsAt(0xc0, c, 1); Form(0xc0, c, 1)
    else if c < 0x1_0000 then FitsAt(0xe0, c, 2); Form(0xe0, c, 2)
    else FitsAt(0xf0, c, 3); Form(0xf0, c, 3)
  }

  function Room(n: nat): nat {
    if n == 0 then 1 else 0x40 * Room(n - 1)
  }

  lemma RoomScales(c: nat, n: nat, bound: nat)
    requires n > 0 && c < Room(n) * bound
    ensures c / 0x40 < Room(n - 1) * bound
  {
    var less := Room(n - 1) * bound;
    assert Room(n) * bound == 0x40 * less;
  }

  lemma {:induction false} FitsAt(mark: nat, c: nat, n: nat)
    requires mark < 256 && c < Room(n) * (256 - mark)
    ensures Fits(mark, c, n)
  {
    if n > 0 {
      RoomScales(c, n, 256 - mark);
      FitsAt(mark, c / 0x40, n - 1);
    }
  }

  /** Reads the character at the front: its first byte tells how many follow. */
  function Decode(s: ByteString): Option<(int, ByteString)> {
    if s == [] then None
    else
      var b := s[0] as int;
      var n := if b < 0x80 then 0 else if b < 0xe0 then 1 else if b < 0xf0 then 2 else 3;
      var mark := if n == 0 then 0 else if n == 1 then 0xc0 else if n == 2 then 0xe0 else 0xf0;
      if n >= |s| then None else Some((Value(mark, s, n), s[n + 1..]))
  }

  function EncodeAll(s: string): ByteString {
    if s == [] then [] else Encode(s[0] as nat) + EncodeAll(s[1..])
  }

  lemma {:induction false} FormReadsBack(mark: nat, c: nat, n: nat, rest: ByteString)
    requires Fits(mark, c, n)
    ensures Value(mark, Form(mark, c, n) + rest, n) == c && (Form(mark, c, n) + rest)[0] as int >= mark
  {
    if n > 0 {
      var last := [(0x80 + c % 0x40) as byte];
      FormReadsBack(mark, c / 0x40, n - 1, last + rest);
      assert Form(mark, c, n) + rest == Form(mark, c / 0x40, n - 1) + (last + rest);
    }
  }

  lemma {:induction false} FirstByte(mark: nat, c: nat, n: nat, bound: nat)
    requires Fits(mark, c, n) && c < Room(n) * bound
    ensures Form(mark, c, n)[0] as int < mark + bound
  {
    if n > 0 {
      RoomScales(c, n, bound);
      FirstByte(mark, c / 0x40, n - 1, bound);
    }
  }

  /** The form of a character in front of anything reads back as the character. */
  lemma DecodeInvertsEncode(c: nat, rest: ByteString)
    requires c < 0x11_0000
    ensures Decode(Encode(c) + rest) == Some((c, rest))
  {
    if c >= 0x80 {
      var n := |Encode(c)| - 1;
      var mark := if n == 1 then 0xc0 else if n == 2 then 0xe0 else 0xf0;
      FitsAt(mark, c, n);
      FormReadsBack(mark, c, n, rest);
      FirstByte(mark, c, n, if n == 1 then 0x20 else 0x10);
    }
    assert (Encode(c) + rest)[|Encode(c)|..] == rest;
  }

  function DecodeAll(s: ByteString): Option<seq<int>>
    decreases |s|
  {
    if s == [] then Some([])
    else
      match Decode(s)
      case None => None
      case Some((c, rest)) =>
        match DecodeAll(rest)
        case None => None
        case Some(more) => Some([c] + more)
  }

  function CodePoints(s: string): seq<int> {
    seq(|s|, i requires 0 <= i < |s| => s[i] as int)
  }

  lemma {:induction false} DecodeAllInverts(s: string)
    ensures DecodeAll(EncodeAll(s)) == Some(CodePoints(s))
  {
    if s == [] {
      assert CodePoints(s) == [];
    } else {
      DecodeInvertsEncode(s[0] as nat, EncodeAll(s[1..]));
      DecodeAllInverts(s[1..]);
      assert CodePoints(s) == [s[0] as int] + CodePoints(s[1..]);
    }
  }

  lemma {:induction false} EncodeAllAppend(s: string, c: char)
    ensures EncodeAll(s + [c]) == EncodeAll(s) + Encode(c as nat)
  {
    if s == [] {
      assert s + [c] == [c];
    } else {
      EncodeAllAppend(s[1..], c);
      assert (s + [c])[1..] == s[1..] + [c];
    }
  }

  /** The bytes that len() counts are those of a form that reads back as the text. */
  lemma {:induction false} ByteLenIsLength(s: string)
    ensures ByteLen(s) == |EncodeAll(s)|
  {
    if s != [] {
      var n := |s| - 1;
      ByteLenIsLength(s[..n]);
      EncodeAllAppend(s[..n], s[n]);
      assert s[..n] + [s[n]] == s;
    }
  }
}
