/** The text form of an aggregate set: AggregateSet.Serialize on the server
    (internal/mapr/aggregateset.go), message parsing on the client (internal/mapr/client/aggregate.go). */
module AggregateWire {
  import opened Wrappers
  import opened AggregateSets

  const DELIMITER: char := '\U{2225}'
  const KV_DELIMITER: char := '\U{2254}'

  /** strconv.Itoa and strconv.Atoi (None: its error), next to the float conversions. */
  datatype Codec = Codec(num: Numbers, itoa: int -> string, atoi: string -> Option<int>)
  {
    ghost predicate PrintsFloat(v: real) {
      DELIMITER !in num.format(v)
    }

    ghost predicate PrintsInt(i: int) {
      atoi(itoa(i)) == Some(i) && DELIMITER !in itoa(i)
    }

    ghost predicate Lawful() {
      (forall v :: PrintsFloat(v)) && (forall i :: PrintsInt(i))
    }
  }

  type Pair = (string, string)

  /** The entries of a map in some iteration order. */
  ghost predicate Lists(pairs: seq<Pair>, values: map<string, string>) {
    && (forall i :: 0 <= i < |pairs| ==> pairs[i].0 in values && values[pairs[i].0] == pairs[i].1)
    && (forall k :: k in values ==> exists i :: 0 <= i < |pairs| && pairs[i].0 == k)
  }

  function PairText(p: Pair): string {
    p.0 + [KV_DELIMITER] + p.1
  }

  function Text(pairs: seq<Pair>): string {
    if pairs == [] then "" else PairText(pairs[0]) + [DELIMITER] + Text(pairs[1..])
  }

  function Formatted(num: Numbers, floats: map<string, real>): map<string, string> {
    map k | k in floats :: num.format(floats[k])
  }

  /** The message for one group, its two maps walked in the given orders. */
  function Serialize(codec: Codec, key: string, samples: int, floats: seq<Pair>, strings: seq<Pair>): string {
    key + [DELIMITER] + (codec.itoa(samples) + [DELIMITER] + (Text(floats) + Text(strings)))
  }

  /** strings.Split for a one-character separator. */
  function Split(s: string, d: char): (parts: seq<string>)
    ensures parts != []
  {
    if s == "" then [""]
    else
      var rest := Split(s[1..], d);
      if s[0] == d then [""] + rest else [[s[0]] + rest[0]] + rest[1..]
  }

  /** strings.Cut for a one-character separator. */
  function Cut(s: string, d: char): Option<(string, string)> {
    if s == "" then None
    else if s[0] == d then Some(("", s[1..]))
    else
      match Cut(s[1..], d)
      case None => None
      case Some((before, after)) => Some(([s[0]] + before, after))
  }

  function PutPart(fields: Fields, part: string): Fields {
    match Cut(part, KV_DELIMITER)
    case None => fields
    case Some((key, value)) => fields[key := value]
  }

  /** makeFields: a later part overwrites an earlier one, a part without the separator is skipped. */
  function MakeFields(fields: Fields, parts: seq<string>): Fields
    decreases |parts|
  {
    if parts == [] then fields else MakeFields(PutPart(fields, parts[0]), parts[1..])
  }

  datatype Message = Message(key: string, samples: int, fields: Fields)

  /** None: "aggregate message without any real data", or a sample count that does not parse. */
  function Parse(codec: Codec, text: string): Option<Message> {
    var parts := Split(text, DELIMITER);
    if |parts| < 4 then None
    else
      match codec.atoi(parts[1])
      case None => None
      case Some(samples) => Some(Message(parts[0], samples, MakeFields(map[], parts[2..])))
  }

  // ---------------------------------------------------------------- splitting what was joined

  lemma {:induction false} SplitFirst(a: string, d: char, rest: string)
    requires d !in a
    ensures Split(a + [d] + rest, d) == [a] + Split(rest, d)
  {
    if a == "" {
      assert a + [d] + rest == [d] + rest;
    } else {
      SplitFirst(a[1..], d, rest);
      assert (a + [d] + rest)[1..] == a[1..] + [d] + rest;
      assert [a[0]] + a[1..] == a;
    }
  }

  lemma {:induction false} SplitLast(s: string, d: char)
    requires d !in s
    ensures Split(s, d) == [s]
  {
    if s != "" {
      SplitLast(s[1..], d);
      assert [s[0]] + s[1..] == s;
    }
  }

  lemma {:induction false} CutFirst(a: string, d: char, rest: string)
    requires d !in a
    ensures Cut(a + [d] + rest, d) == Some((a, rest))
  {
    if a == "" {
      assert a + [d] + rest == [d] + rest;
    } else {
      CutFirst(a[1..], d, rest);
      assert (a + [d] + rest)[1..] == a[1..] + [d] + rest;
      assert [a[0]] + a[1..] == a;
    }
  }

  ghost predicate Clean(pairs: seq<Pair>) {
    forall i :: 0 <= i < |pairs| ==>
      DELIMITER !in pairs[i].0 && KV_DELIMITER !in pairs[i].0 && DELIMITER !in pairs[i].1
  }

  function Parts(pairs: seq<Pair>): seq<string> {
    if pairs == [] then [] else [PairText(pairs[0])] + Parts(pairs[1..])
  }

  lemma {:induction false} SplitText(pairs: seq<Pair>, rest: string)
    requires Clean(pairs)
    ensures Split(Text(pairs) + rest, DELIMITER) == Parts(pairs) + Split(rest, DELIMITER)
  {
    if pairs == [] {
      assert Text(pairs) + rest == rest;
    } else {
      var tail := Text(pairs[1..]) + rest;
      assert Text(pairs) + rest == PairText(pairs[0]) + [DELIMITER] + tail;
      SplitFirst(PairText(pairs[0]), DELIMITER, tail);
      SplitText(pairs[1..], rest);
    }
  }

  function Puts(fields: Fields, pairs: seq<Pair>): Fields
    decreases |pairs|
  {
    if pairs == [] then fields else Puts(fields[pairs[0].0 := pairs[0].1], pairs[1..])
  }

  lemma {:induction false} FieldsOfParts(fields: Fields, pairs: seq<Pair>, rest: seq<string>)
    requires Clean(pairs)
    ensures MakeFields(fields, Parts(pairs) + rest) == MakeFields(Puts(fields, pairs), rest)
    decreases |pairs|
  {
    if pairs == [] {
      assert Parts(pairs) + rest == rest;
    } else {
      CutFirst(pairs[0].0, KV_DELIMITER, pairs[0].1);
      assert (Parts(pairs) + rest)[1..] == Parts(pairs[1..]) + rest;
      FieldsOfParts(fields[pairs[0].0 := pairs[0].1], pairs[1..], rest);
    }
  }

  lemma {:induction false} PutsAt(fields: Fields, pairs: seq<Pair>, values: map<string, string>, k: string)
    requires forall i :: 0 <= i < |pairs| ==> pairs[i].0 in values && values[pairs[i].0] == pairs[i].1
    ensures var r := Puts(fields, pairs);
            if exists i :: 0 <= i < |pairs| && pairs[i].0 == k then k in r && r[k] == values[k]
            else (k in r <==> k in fields) && (k in r ==> r[k] == fields[k])
    decreases |pairs|
  {
    if pairs != [] {
      PutsAt(fields[pairs[0].0 := pairs[0].1], pairs[1..], values, k);
      assert forall i :: 1 <= i < |pairs| ==> pairs[i] == pairs[1..][i - 1];
      if pairs[0].0 != k && exists i :: 0 <= i < |pairs| && pairs[i].0 == k {
        var i :| 0 <= i < |pairs| && pairs[i].0 == k;
        assert pairs[1..][i - 1].0 == k;
      }
    }
  }

  lemma PutsAll(fields: Fields, pairs: seq<Pair>, values: map<string, string>)
    requires Lists(pairs, values)
    ensures Puts(fields, pairs) == fields + values
  {
    forall k
      ensures k in Puts(fields, pairs) <==> k in fields + values
      ensures k in fields + values ==> Puts(fields, pairs)[k] == (fields + values)[k]
    {
      PutsAt(fields, pairs, values, k);
    }
  }

  /** What the client finds under each storage: the formatted float, or the string if both are present. */
  function WireFields(num: Numbers, s: Summary): Fields {
    Formatted(num, s.floats) + s.strings
  }

  ghost predicate Sendable(key: string, s: Summary) {
    && DELIMITER !in key
    && (forall k :: k in s.floats ==> DELIMITER !in k && KV_DELIMITER !in k)
    && (forall k :: k in s.strings ==> DELIMITER !in k && KV_DELIMITER !in k && DELIMITER !in s.strings[k])
  }

  lemma ListedIsClean(codec: Codec, key: string, s: Summary, floats: seq<Pair>, strings: seq<Pair>)
    requires codec.Lawful() && Sendable(key, s)
    requires Lists(floats, Formatted(codec.num, s.floats)) && Lists(strings, s.strings)
    ensures Clean(floats) && Clean(strings)
  {
    forall i | 0 <= i < |floats|
      ensures DELIMITER !in floats[i].1
    {
      assert codec.PrintsFloat(s.floats[floats[i].0]);
    }
  }

  lemma SplitMessage(key: string, count: string, floats: seq<Pair>, strings: seq<Pair>)
    requires DELIMITER !in key && DELIMITER !in count && Clean(floats) && Clean(strings)
    ensures Split(key + [DELIMITER] + (count + [DELIMITER] + (Text(floats) + Text(strings))), DELIMITER)
            == [key] + ([count] + (Parts(floats) + (Parts(strings) + [""])))
  {
    SplitFirst(key, DELIMITER, count + [DELIMITER] + (Text(floats) + Text(strings)));
    SplitFirst(count, DELIMITER, Text(floats) + Text(strings));
    SplitText(floats, Text(strings));
    SplitText(strings, "");
    assert Text(strings) + "" == Text(strings);
  }

  lemma FieldsOfMessage(num: Numbers, s: Summary, floats: seq<Pair>, strings: seq<Pair>)
    requires Lists(floats, Formatted(num, s.floats)) && Lists(strings, s.strings)
    requires Clean(floats) && Clean(strings)
    ensures MakeFields(map[], Parts(floats) + (Parts(strings) + [""])) == WireFields(num, s)
  {
    FieldsOfParts(map[], floats, Parts(strings) + [""]);
    FieldsOfParts(Puts(map[], floats), strings, [""]);
    PutsAll(map[], floats, Formatted(num, s.floats));
    PutsAll(Formatted(num, s.floats), strings, s.strings);
    assert map[] + Formatted(num, s.floats) == Formatted(num, s.floats);
  }

  /** Parsing inverts serialising, for every iteration order of the two maps. Only a set that holds
      nothing at all has no text form the client accepts. */
  lemma ParseInvertsSerialize(codec: Codec, key: string, s: Summary, floats: seq<Pair>, strings: seq<Pair>)
    requires codec.Lawful() && Sendable(key, s)
    requires Lists(floats, Formatted(codec.num, s.floats)) && Lists(strings, s.strings)
    ensures Parse(codec, Serialize(codec, key, s.samples, floats, strings))
            == if s.floats == map[] && s.strings == map[] then None
               else Some(Message(key, s.samples, WireFields(codec.num, s)))
  {
    var count := codec.itoa(s.samples);
    assert codec.PrintsInt(s.samples);
    ListedIsClean(codec, key, s, floats, strings);
    SplitMessage(key, count, floats, strings);
    FieldsOfMessage(codec.num, s, floats, strings);
    NoPairsMeansEmpty(codec.num, s, floats, strings);
    var body := Parts(floats) + (Parts(strings) + [""]);
    var parts := [key] + ([count] + body);
    assert parts[1] == count && parts[2..] == body;
  }

  lemma NoPairsMeansEmpty(num: Numbers, s: Summary, floats: seq<Pair>, strings: seq<Pair>)
    requires Lists(floats, Formatted(num, s.floats)) && Lists(strings, s.strings)
    ensures |Parts(floats)| == |floats| && |Parts(strings)| == |strings|
    ensures s.floats == map[] <==> floats == []
    ensures s.strings == map[] <==> strings == []
  {
    if floats != [] {
      assert floats[0].0 in s.floats;
    }
    if strings != [] {
      assert strings[0].0 in s.strings;
    }
    if s.floats != map[] {
      var k :| k in s.floats;
      assert k in Formatted(num, s.floats);
    }
    PartsLength(floats);
    PartsLength(strings);
  }

  lemma PartsLength(pairs: seq<Pair>)
    ensures |Parts(pairs)| == |pairs|
  {
  }

  /** The sets a query builds: every selected cell has its operation's shape. */
  ghost predicate WellFormed(select: seq<Entry>, s: Summary) {
    forall i :: 0 <= i < |select| ==> Shaped(select[i].op, CellAt(s, select[i].storage))
  }

  /** The client reads back the numbers this set sends; len() also travels as a string, which wins. */
  ghost predicate Readable(num: Numbers, select: seq<Entry>, s: Summary) {
    forall i :: 0 <= i < |select| ==> ReadableCell(num, CellAt(s, select[i].storage))
  }

  ghost predicate ReadableCell(num: Numbers, c: Cell) {
    c.f.Some? && c.s.None? ==> num.RoundTrips(c.f.value)
  }

  /** Folding a parsed message into any client set combines every selected cell with the cell the server
      sent, len() included although it travels twice. Samples arrive whenever some value does. */
  lemma ClientReceivesCells(num: Numbers, select: seq<Entry>, local: Summary, s: Summary, j: nat)
    requires Readable(num, select, s) && Distinct(select) && j < |select|
    requires WellFormed(select, local) && WellFormed(select, s)
    ensures var r := AddRow(num, select, local, WireFields(num, s), s.samples, true);
            && CellAt(r, select[j].storage)
               == Combine(select[j].op, CellAt(local, select[j].storage), CellAt(s, select[j].storage))
            && WellFormed(select, r)
            && r.samples == local.samples
               + if exists i :: 0 <= i < |select| && CellAt(s, select[i].storage) != Cell(None, None) then s.samples else 0
  {
    var fields := WireFields(num, s);
    forall i | 0 <= i < |select|
      ensures Contribution(num, select[i], fields, true) == CellAt(s, select[i].storage)
    {
      ContributionIsCell(num, select[i], s);
    }
    AddRowCell(num, select, local, fields, s.samples, true, j);
    assert forall i :: 0 <= i < |select| ==>
      (Contributes(num, select[i], fields, true) <==> CellAt(s, select[i].storage) != Cell(None, None));
    var r := AddRow(num, select, local, fields, s.samples, true);
    forall i | 0 <= i < |select|
      ensures Shaped(select[i].op, CellAt(r, select[i].storage))
    {
      AddRowCell(num, select, local, fields, s.samples, true, i);
      ShapedCombine(num, select[i], CellAt(local, select[i].storage), fields, true);
    }
  }

  lemma ContributionIsCell(num: Numbers, e: Entry, s: Summary)
    requires ReadableCell(num, CellAt(s, e.storage)) && Shaped(e.op, CellAt(s, e.storage))
    ensures Contribution(num, e, WireFields(num, s), true) == CellAt(s, e.storage)
  {
    var fields := WireFields(num, s);
    if e.storage in s.floats && e.storage !in s.strings {
      assert fields[e.storage] == num.format(s.floats[e.storage]);
    }
  }

  // ---------------------------------------------------------------- the loops that build the message

  /** Ranging over a map writes its pairs in some order. */
  method WritePairs(values: map<string, string>) returns (text: string)
    ensures exists pairs :: Lists(pairs, values) && text == Text(pairs)
  {
    text := "";
    ghost var pairs: seq<Pair> := [];
    var todo := values.Keys;
    while todo != {}
      invariant todo <= values.Keys
      invariant forall i :: 0 <= i < |pairs| ==> pairs[i].0 in values && values[pairs[i].0] == pairs[i].1
      invariant forall k :: k in values && k !in todo ==> exists i :: 0 <= i < |pairs| && pairs[i].0 == k
      invariant text == Text(pairs)
      decreases |todo|
    {
      var k :| k in todo;
      TextAppend(pairs, (k, values[k]));
      ghost var before := pairs;
      text := text + k + [KV_DELIMITER] + values[k] + [DELIMITER];
      pairs := pairs + [(k, values[k])];
      todo := todo - {k};
      assert pairs[|pairs| - 1].0 == k && forall i :: 0 <= i < |before| ==> pairs[i] == before[i];
    }
    assert Lists(pairs, values);
  }

  lemma {:induction false} TextAppend(pairs: seq<Pair>, p: Pair)
    ensures Text(pairs + [p]) == Text(pairs) + p.0 + [KV_DELIMITER] + p.1 + [DELIMITER]
  {
    var tail := p.0 + [KV_DELIMITER] + p.1 + [DELIMITER];
    if pairs == [] {
      assert pairs + [p] == [p];
      assert Text([p]) == PairText(p) + [DELIMITER] + Text([]);
    } else {
      TextAppend(pairs[1..], p);
      assert (pairs + [p])[1..] == pairs[1..] + [p];
    }
  }

  /** AggregateSet.Serialize: two map loops writing one message. Its text parses back to the set. */
  method SerializeSet(codec: Codec, key: string, s: Summary) returns (text: string)
    requires codec.Lawful() && Sendable(key, s)
    ensures Parse(codec, text) == if s.floats == map[] && s.strings == map[] then None
                                  else Some(Message(key, s.samples, WireFields(codec.num, s)))
  {
    var floats := WritePairs(Formatted(codec.num, s.floats));
    var strings := WritePairs(s.strings);
    ghost var floatPairs :| Lists(floatPairs, Formatted(codec.num, s.floats)) && floats == Text(floatPairs);
    ghost var stringPairs :| Lists(stringPairs, s.strings) && strings == Text(stringPairs);
    text := key + [DELIMITER] + (codec.itoa(s.samples) + [DELIMITER] + (floats + strings));
    ParseInvertsSerialize(codec, key, s, floatPairs, stringPairs);
  }
}
