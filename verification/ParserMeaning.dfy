/** What the two log formats (internal/mapr/logformat/default.go, csv.go) make of a line, said without their
    loops: when a line is ignored or an error, and which token becomes which field. */
module ParserMeanings {
  import opened Wrappers
  import opened AggregateSets
  import opened AggregateWire
  import opened Queries
  import opened Pushdown

  predicate FieldIs(fields: Fields, name: string, value: string) {
    name in fields && fields[name] == value
  }

  // ---------------------------------------------------------------- csv

  /** None of the columns in this range has the name. */
  predicate Unnamed(header: seq<string>, from: nat, to: nat, name: string) {
    forall i :: from <= i < to && i < |header| ==> header[i] != name
  }

  lemma {:induction false} CsvOutcome(header: seq<string>, fields: Fields, column: nat, values: seq<string>)
    ensures var o := ParseCsv(AllFields, header, fields, column, values);
            if values == [] || column + |values| <= |header| then o.Parsed? else o == Error
    decreases |values|
  {
    if values != [] && column < |header| {
      CsvOutcome(header, Put(AllFields, fields, header[column], values[0]), column + 1, values[1..]);
    }
  }

  lemma {:induction false} CsvKeeps(header: seq<string>, fields: Fields, column: nat, values: seq<string>, name: string)
    requires Unnamed(header, column, column + |values|, name)
    ensures var o := ParseCsv(AllFields, header, fields, column, values);
            o.Parsed? ==> (name in o.fields <==> name in fields) && (name in fields ==> o.fields[name] == fields[name])
    decreases |values|
  {
    if values != [] && column < |header| {
      CsvKeeps(header, Put(AllFields, fields, header[column], values[0]), column + 1, values[1..], name);
    }
  }

  lemma {:induction false} CsvColumnFrom(header: seq<string>, fields: Fields, column: nat, values: seq<string>, i: nat)
    requires column + i < |header| && i < |values| && Unnamed(header, column + i + 1, column + |values|, header[column + i])
    ensures var o := ParseCsv(AllFields, header, fields, column, values);
            o.Parsed? ==> FieldIs(o.fields, header[column + i], values[i])
    decreases |values|
  {
    var more := Put(AllFields, fields, header[column], values[0]);
    if i == 0 {
      CsvKeeps(header, more, column + 1, values[1..], header[column]);
    } else {
      CsvColumnFrom(header, more, column + 1, values[1..], i - 1);
    }
  }

  /** A csv line is an error exactly if it has more values than the header has names. Otherwise each value is
      the field of its own column's name, the last one if the header repeats a name. */
  lemma CsvMeans(host: Host, header: seq<string>, line: string, i: nat)
    ensures var values, o := Split(line, ','), CsvFields(AllFields, host, header, line);
            && (o.Parsed? <==> |values| <= |header|) && (!o.Parsed? ==> o == Error)
            && (o.Parsed? && i < |values| && Unnamed(header, i + 1, |values|, header[i]) ==>
                  FieldIs(o.fields, header[i], values[i]))
  {
    var values, common := Split(line, ','), PutAll(AllFields, map[], CommonFields(host, line));
    CsvOutcome(header, common, 0, values);
    if i < |values| && i < |header| && Unnamed(header, i + 1, |values|, header[i]) {
      CsvColumnFrom(header, common, 0, values, i);
    }
  }

  // ---------------------------------------------------------------- lists of writes

  predicate NoWrite(writes: seq<(string, string)>, name: string) {
    forall i :: 0 <= i < |writes| ==> writes[i].0 != name
  }

  /** The last write of that name is the i-th. */
  predicate LastWrite(writes: seq<(string, string)>, i: nat, name: string, value: string) {
    i < |writes| && writes[i] == (name, value) && forall j :: i < j < |writes| ==> writes[j].0 != name
  }

  predicate SameAt(a: Fields, b: Fields, name: string) {
    (name in a <==> name in b) && (name in a ==> a[name] == b[name])
  }

  lemma {:induction false} PutAllKeeps(fields: Fields, writes: seq<(string, string)>, name: string)
    requires NoWrite(writes, name)
    ensures SameAt(PutAll(AllFields, fields, writes), fields, name)
    decreases |writes|
  {
    if writes != [] {
      PutAllKeeps(Put(AllFields, fields, writes[0].0, writes[0].1), writes[1..], name);
    }
  }

  lemma {:induction false} PutAllLast(fields: Fields, writes: seq<(string, string)>, i: nat, name: string, value: string)
    requires LastWrite(writes, i, name, value)
    ensures FieldIs(PutAll(AllFields, fields, writes), name, value)
    decreases |writes|
  {
    var more := Put(AllFields, fields, writes[0].0, writes[0].1);
    if i == 0 {
      PutAllKeeps(more, writes[1..], name);
    } else {
      PutAllLast(more, writes[1..], i - 1, name, value);
    }
  }

  /** The fields every line has, said once more as a table. */
  function CommonValue(host: Host, line: string, name: string): Option<string> {
    if name == "$line" then Some(line)
    else if name == "$hostname" || name == "$server" then Some(host.hostname)
    else if name == "$timezone" then Some(host.timeZoneName)
    else if name == "$timeoffset" then Some(host.timeZoneOffset)
    else if name == "$empty" then Some("")
    else if name == "*" then Some("*")
    else None
  }

  /** Where the source writes each of them. */
  function CommonPosition(name: string): nat {
    if name == "*" then 0 else if name == "$line" then 1 else if name == "$empty" then 2
    else if name == "$hostname" then 3 else if name == "$server" then 4 else if name == "$timezone" then 5 else 6
  }

  lemma CommonIs(host: Host, line: string, name: string)
    ensures var v := CommonValue(host, line, name);
            if v.Some? then LastWrite(CommonFields(host, line), CommonPosition(name), name, v.value)
            else NoWrite(CommonFields(host, line), name)
  {
  }

  /** A name that no column has is one of the fields every line has, or absent. */
  lemma CsvCommon(host: Host, header: seq<string>, line: string, name: string)
    requires Unnamed(header, 0, |header|, name)
    ensures var o, v := CsvFields(AllFields, host, header, line), CommonValue(host, line, name);
            o.Parsed? ==> if v.Some? then FieldIs(o.fields, name, v.value) else name !in o.fields
  {
    var none: Fields := map[];
    CsvKeeps(header, PutAll(AllFields, none, CommonFields(host, line)), 0, Split(line, ','), name);
    CommonIs(host, line, name);
    var v := CommonValue(host, line, name);
    if v.Some? {
      PutAllLast(none, CommonFields(host, line), CommonPosition(name), name, v.value);
    } else {
      PutAllKeeps(none, CommonFields(host, line), name);
    }
  }

  // ---------------------------------------------------------------- the default format

  predicate HasKey(token: string) {
    '=' in token
  }

  /** A line of the default format: a severity token, ten tokens in front of at least one more, and the mark. */
  predicate IsMapreduce(tokens: seq<string>) {
    |tokens| >= 11 && "INFO" <= tokens[0] && "MAPREDUCE:" <= tokens[9]
  }

  lemma {:induction false} CutFinds(s: string, d: char)
    ensures Cut(s, d).Some? <==> d in s
    ensures Cut(s, d).Some? ==> d !in Cut(s, d).value.0 && s == Cut(s, d).value.0 + [d] + Cut(s, d).value.1
  {
    if s != "" && s[0] != d {
      CutFinds(s[1..], d);
      assert s == [s[0]] + s[1..];
    }
  }

  lemma {:induction false} KeyOutcome(host: Host, line: string, fields: Fields, index: nat, tokens: seq<string>)
    requires index >= 10 && index + |tokens| >= 11
    ensures var o := ParseDefault(AllFields, host, line, fields, index, tokens);
            if forall i :: 0 <= i < |tokens| ==> HasKey(tokens[i]) then o.Parsed? else o == Error
    decreases |tokens|
  {
    if tokens != [] {
      CutFinds(tokens[0], '=');
      if HasKey(tokens[0]) {
        KeyOutcome(host, line, PutAll(AllFields, fields, DefaultToken(host, line, index, tokens[0]).value), index + 1, tokens[1..]);
        assert forall i :: 1 <= i < |tokens| ==> tokens[i] == tokens[1..][i - 1];
      }
    }
  }

  /** From a token on, the severity and the mark are as they should be, as far as they are still to come. */
  predicate Passes(index: nat, tokens: seq<string>) {
    && (index == 0 < |tokens| ==> "INFO" <= tokens[0])
    && (index <= 9 < index + |tokens| ==> "MAPREDUCE:" <= tokens[9 - index])
  }

  lemma {:induction false} HeadIgnores(host: Host, line: string, fields: Fields, index: nat, tokens: seq<string>)
    requires index <= 10 && (index + |tokens| < 11 || !Passes(index, tokens))
    ensures ParseDefault(AllFields, host, line, fields, index, tokens) == Ignore || (index == 10 && tokens != [])
    decreases |tokens|
  {
    if tokens != [] && index < 10 {
      var writes := DefaultToken(host, line, index, tokens[0]);
      if writes.Some? {
        HeadIgnores(host, line, PutAll(AllFields, fields, writes.value), index + 1, tokens[1..]);
      }
    }
  }

  lemma {:induction false} HeadPasses(host: Host, line: string, fields: Fields, index: nat, tokens: seq<string>) returns (fields': Fields)
    requires index <= 10 && index + |tokens| >= 11 && Passes(index, tokens)
    ensures ParseDefault(AllFields, host, line, fields, index, tokens)
            == ParseDefault(AllFields, host, line, fields', 10, tokens[10 - index..])
    decreases |tokens|
  {
    if index == 10 {
      fields' := fields;
    } else {
      var writes := DefaultToken(host, line, index, tokens[0]).value;
      fields' := HeadPasses(host, line, PutAll(AllFields, fields, writes), index + 1, tokens[1..]);
      assert tokens[1..][10 - (index + 1)..] == tokens[10 - index..];
    }
  }

  /** A line is ignored exactly if it is no mapreduce line, and otherwise an error exactly if some token after
      the mark has no key. */
  lemma DefaultOutcome(host: Host, line: string)
    ensures var tokens, o := Split(line, '|'), DefaultFields(AllFields, host, line);
            if !IsMapreduce(tokens) then o == Ignore
            else if forall i :: 10 <= i < |tokens| ==> HasKey(tokens[i]) then o.Parsed?
            else o == Error
  {
    var tokens := Split(line, '|');
    if IsMapreduce(tokens) {
      var fields := HeadPasses(host, line, map[], 0, tokens);
      KeyOutcome(host, line, fields, 10, tokens[10..]);
      assert forall i :: 10 <= i < |tokens| ==> tokens[i] == tokens[10..][i - 10];
    } else {
      HeadIgnores(host, line, map[], 0, tokens);
    }
  }

  /** The token at this position does not write the name. */
  predicate Quiet(host: Host, line: string, index: nat, token: string, name: string) {
    var writes := DefaultToken(host, line, index, token);
    writes.Some? ==> NoWrite(writes.value, name)
  }

  lemma {:induction false} TokensKeep(host: Host, line: string, fields: Fields, index: nat, tokens: seq<string>, name: string)
    requires forall k :: 0 <= k < |tokens| ==> Quiet(host, line, index + k, tokens[k], name)
    ensures var o := ParseDefault(AllFields, host, line, fields, index, tokens);
            o.Parsed? ==> SameAt(o.fields, fields, name)
    decreases |tokens|
  {
    if tokens != [] {
      var writes := DefaultToken(host, line, index, tokens[0]);
      if writes.Some? {
        assert Quiet(host, line, index + 0, tokens[0], name);
        PutAllKeeps(fields, writes.value, name);
        forall k | 0 <= k < |tokens| - 1
          ensures Quiet(host, line, index + 1 + k, tokens[1..][k], name)
        {
          assert Quiet(host, line, index + (k + 1), tokens[k + 1], name);
        }
        TokensKeep(host, line, PutAll(AllFields, fields, writes.value), index + 1, tokens[1..], name);
      }
    }
  }

  predicate Writes(host: Host, line: string, index: nat, token: string, i: nat, name: string, value: string) {
    var writes := DefaultToken(host, line, index, token);
    writes.Some? ==> LastWrite(writes.value, i, name, value)
  }

  /** The last token that writes a name decides its value. */
  lemma {:induction false} TokenWins(host: Host, line: string, fields: Fields, index: nat, tokens: seq<string>, k: nat, i: nat, name: string, value: string)
    requires k < |tokens| && Writes(host, line, index + k, tokens[k], i, name, value)
    requires forall j :: k < j < |tokens| ==> Quiet(host, line, index + j, tokens[j], name)
    ensures var o := ParseDefault(AllFields, host, line, fields, index, tokens);
            o.Parsed? ==> FieldIs(o.fields, name, value)
    decreases |tokens|
  {
    var writes := DefaultToken(host, line, index, tokens[0]);
    if writes.Some? {
      forall j | 0 <= j < |tokens| - 1 && k <= j
        ensures Quiet(host, line, index + 1 + j, tokens[1..][j], name)
      {
        assert Quiet(host, line, index + (j + 1), tokens[j + 1], name);
      }
      var more := PutAll(AllFields, fields, writes.value);
      if k == 0 {
        PutAllLast(fields, writes.value, i, name, value);
        TokensKeep(host, line, more, index + 1, tokens[1..], name);
      } else {
        TokenWins(host, line, more, index + 1, tokens[1..], k - 1, i, name, value);
      }
    }
  }

  /** No key-value token has this key. */
  predicate NoKey(tokens: seq<string>, from: nat, name: string) {
    forall k :: from <= k < |tokens| && Cut(tokens[k], '=').Some? ==> Cut(tokens[k], '=').value.0 != name
  }

  /** The last key-value token with a key gives that field its value. */
  lemma KeyMeans(host: Host, line: string, k: nat, name: string, value: string)
    requires var tokens := Split(line, '|');
             10 <= k < |tokens| && Cut(tokens[k], '=') == Some((name, value)) && NoKey(tokens, k + 1, name)
    ensures var o := DefaultFields(AllFields, host, line);
            o.Parsed? ==> FieldIs(o.fields, name, value)
  {
    TokenWins(host, line, map[], 0, Split(line, '|'), k, 0, name, value);
  }

  /** Which token of a mapreduce line a name stands for. */
  function TokenOf(name: string): Option<nat> {
    if name == "$severity" || name == "$loglevel" then Some(0)
    else if name == "$time" then Some(1)
    else if name == "$pid" then Some(2)
    else if name == "$caller" then Some(3)
    else if name == "$cpus" then Some(4)
    else if name == "$goroutines" then Some(5)
    else if name == "$cgocalls" then Some(6)
    else if name == "$loadavg" then Some(7)
    else if name == "$uptime" then Some(8)
    else None
  }

  /** Which characters of a 15-character time a name stands for. */
  function TimePart(name: string): Option<(nat, nat)> {
    if name == "$date" then Some((0, 8))
    else if name == "$hour" then Some((9, 11))
    else if name == "$minute" then Some((11, 13))
    else if name == "$second" then Some((13, 15))
    else None
  }

  /** The value of a field that no key-value token sets. */
  function HeadValue(host: Host, line: string, tokens: seq<string>, name: string): Option<string>
    requires |tokens| >= 11
  {
    if CommonValue(host, line, name).Some? then CommonValue(host, line, name)
    else if TokenOf(name).Some? && TokenOf(name).value < 9 then Some(tokens[TokenOf(name).value])
    else if TimePart(name).Some? && |tokens[1]| == 15 then
      var (from, to) := TimePart(name).value;
      if from <= to <= 15 then Some(tokens[1][from..to]) else None
    else None
  }

  /** Which of the first ten tokens writes the name, and which of its writes that is. */
  function WriterOf(name: string): (nat, nat) {
    if name == "$severity" then (0, 7)
    else if name == "$loglevel" then (0, 8)
    else if TokenOf(name).Some? then (TokenOf(name).value, 0)
    else if name == "$date" then (1, 1)
    else if name == "$hour" then (1, 2)
    else if name == "$minute" then (1, 3)
    else if name == "$second" then (1, 4)
    else (0, CommonPosition(name))
  }

  lemma FirstTokenWrites(host: Host, line: string, token: string, name: string)
    ensures if CommonValue(host, line, name).Some? then
              Writes(host, line, 0, token, CommonPosition(name), name, CommonValue(host, line, name).value)
            else if name == "$severity" || name == "$loglevel" then
              Writes(host, line, 0, token, if name == "$severity" then 7 else 8, name, token)
            else Quiet(host, line, 0, token, name)
  {
    CommonIs(host, line, name);
  }

  lemma TimeTokenWrites(host: Host, line: string, token: string, name: string)
    ensures if name == "$time" then Writes(host, line, 1, token, 0, name, token)
            else if TimePart(name).Some? && |token| == 15 then
              Writes(host, line, 1, token, WriterOf(name).1, name, token[TimePart(name).value.0..TimePart(name).value.1])
            else Quiet(host, line, 1, token, name)
  {
    if |token| == 15 {
      assert token[13..] == token[13..15];
    }
  }

  lemma PositionalTokenWrites(host: Host, line: string, index: nat, token: string, name: string)
    requires 2 <= index < 10
    ensures if TokenOf(name) == Some(index) then Writes(host, line, index, token, 0, name, token)
            else Quiet(host, line, index, token, name)
  {
  }

  lemma HeadWrites(host: Host, line: string, tokens: seq<string>, name: string, j: nat)
    requires |tokens| >= 11 && j < |tokens| && NoKey(tokens, 10, name)
    ensures var v := HeadValue(host, line, tokens, name);
            var (k, i) := WriterOf(name);
            && (v.Some? && j == k ==> Writes(host, line, j, tokens[j], i, name, v.value))
            && (v.None? || j > k ==> Quiet(host, line, j, tokens[j], name))
  {
    if j == 0 {
      FirstTokenWrites(host, line, tokens[0], name);
    } else if j == 1 {
      TimeTokenWrites(host, line, tokens[1], name);
    } else if j < 10 {
      PositionalTokenWrites(host, line, j, tokens[j], name);
    }
  }

  /** Every field of a parsed line that no key-value token sets is what the table says, and a name that is
      not in the table is absent. */
  lemma HeadMeans(host: Host, line: string, name: string)
    requires NoKey(Split(line, '|'), 10, name)
    ensures var tokens, o := Split(line, '|'), DefaultFields(AllFields, host, line);
            && (o.Parsed? ==> |tokens| >= 11)
            && (o.Parsed? ==>
                  var v := HeadValue(host, line, tokens, name);
                  if v.Some? then FieldIs(o.fields, name, v.value) else name !in o.fields)
  {
    var tokens, none: Fields := Split(line, '|'), map[];
    DefaultOutcome(host, line);
    if |tokens| >= 11 {
      var v := HeadValue(host, line, tokens, name);
      var (k, i) := WriterOf(name);
      forall j | 0 <= j < |tokens|
        ensures v.None? || j > k ==> Quiet(host, line, j, tokens[j], name)
      {
        HeadWrites(host, line, tokens, name, j);
      }
      if v.Some? {
        HeadWrites(host, line, tokens, name, k);
        TokenWins(host, line, none, 0, tokens, k, i, name, v.value);
      } else {
        TokensKeep(host, line, none, 0, tokens, name);
      }
    }
  }
}
