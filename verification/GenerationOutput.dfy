/** Generation tags on output payloads (internal/server/handlers/generation_output.go).
    A payload of session generation g > 0 travels as PREFIX, g in decimal, SEPARATOR, payload. */
module GenerationOutput {
  import opened Wrappers
  import opened Bytes

  const SEPARATOR: byte := 0x1e
  const PREFIX: ByteString := [0x1e, 0x67, 0x65, 0x6e, 0x3a]
  const MAX_UINT64: nat := 0xffff_ffff_ffff_ffff

  /** strconv.ParseUint(s, 10, 64): None stands for either of its errors. */
  function ParseUint(s: ByteString): Option<nat> {
    if s != [] && AllDigits(s) && Value(s) <= MAX_UINT64 then Some(Value(s)) else None
  }

  function EncodeMessage(generation: nat, message: ByteString): ByteString {
    if generation == 0 then message else PREFIX + Decimal(generation) + [SEPARATOR] + message
  }

  function DecodeMessage(message: ByteString): (nat, ByteString) {
    if !(PREFIX <= message) then (0, message)
    else
      var rest := message[|PREFIX|..];
      match IndexOf(rest, SEPARATOR)
      case None => (0, message)
      case Some(i) =>
        match ParseUint(rest[..i])
        case None => (0, message)
        case Some(generation) => (generation, rest[i + 1..])
  }

  /** The byte-slice form differs from the string form on generation 0: it gives the payload back whole. */
  function DecodeBytes(payload: ByteString): (nat, ByteString) {
    var (generation, decoded) := DecodeMessage(payload);
    if generation == 0 then (0, payload) else (generation, decoded)
  }

  /** Decoding inverts encoding for every generation a session can have and every payload,
      payloads that look like tags themselves included. */
  lemma {:induction false} DecodeInvertsEncode(generation: nat, payload: ByteString)
    requires 0 < generation <= MAX_UINT64
    ensures DecodeMessage(EncodeMessage(generation, payload)) == (generation, payload)
    ensures DecodeBytes(EncodeMessage(generation, payload)) == (generation, payload)
  {
    var digits := Decimal(generation);
    var message := EncodeMessage(generation, payload);
    assert message[|PREFIX|..] == digits + [SEPARATOR] + payload;
    assert PREFIX <= message;
    IndexAfter(digits, SEPARATOR, payload);
    DecimalValue(generation);
    var rest := message[|PREFIX|..];
    assert rest[..|digits|] == digits && rest[|digits| + 1..] == payload;
  }

  /** A message that reads as tagged, said without the decoder: prefix, a uint64 in digits, separator. */
  ghost predicate Tagged(message: ByteString, generation: nat, payload: ByteString) {
    exists digits :: ParseUint(digits) == Some(generation) && message == PREFIX + digits + [SEPARATOR] + payload
  }

  lemma {:induction false} TaggedDecodes(message: ByteString, generation: nat, payload: ByteString)
    requires Tagged(message, generation, payload)
    ensures DecodeMessage(message) == (generation, payload)
  {
    var digits :| ParseUint(digits) == Some(generation) && message == PREFIX + digits + [SEPARATOR] + payload;
    assert message[|PREFIX|..] == digits + [SEPARATOR] + payload;
    assert PREFIX <= message;
    IndexAfter(digits, SEPARATOR, payload);
    var rest := message[|PREFIX|..];
    assert rest[..|digits|] == digits && rest[|digits| + 1..] == payload;
  }

  /** A message taken apart behind the prefix and at a separator. */
  lemma TakenApart(message: ByteString, i: nat)
    requires PREFIX <= message && i < |message| - |PREFIX| && message[|PREFIX|..][i] == SEPARATOR
    ensures var rest := message[|PREFIX|..]; message == PREFIX + rest[..i] + [SEPARATOR] + rest[i + 1..]
  {
    var rest := message[|PREFIX|..];
    assert message == PREFIX + rest && rest == rest[..i] + [SEPARATOR] + rest[i + 1..];
  }

  lemma {:induction false} DecodesTagged(message: ByteString)
    ensures DecodeMessage(message) == (0, message) || Tagged(message, DecodeMessage(message).0, DecodeMessage(message).1)
  {
    if PREFIX <= message {
      var rest := message[|PREFIX|..];
      var i := IndexOf(rest, SEPARATOR);
      if i.Some? && ParseUint(rest[..i.value]).Some? {
        TakenApart(message, i.value);
        assert Tagged(message, ParseUint(rest[..i.value]).value, rest[i.value + 1..]);
      }
    }
  }

  /** Generation 0 sends the payload bare. It survives exactly when it does not itself read as tagged:
      any tag spoils a string message, only a non-zero one spoils a byte payload. */
  lemma {:induction false} UntaggedSurvives(payload: ByteString)
    ensures DecodeMessage(EncodeMessage(0, payload)) == (0, payload)
       <==> !exists g: nat, rest :: Tagged(payload, g, rest)
    ensures DecodeBytes(EncodeMessage(0, payload)) == (0, payload)
       <==> !exists g: nat, rest :: g != 0 && Tagged(payload, g, rest)
  {
    DecodesTagged(payload);
    forall g: nat, rest | Tagged(payload, g, rest)
      ensures DecodeMessage(payload) == (g, rest) && |rest| < |payload|
    {
      TaggedDecodes(payload, g, rest);
    }
  }
}
