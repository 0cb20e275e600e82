/** Projection pushdown: the log parsers (internal/mapr/logformat/default.go, csv.go, delimited.go)
    materialise only the planned fields. Evaluating the query over those must give what evaluating it
    over all fields gives. */
module Pushdown {
  import opened Wrappers
  import opened AggregateSets
  import opened AggregateWire
  import opened Queries

  datatype Plan = AllFields | Only(names: set<string>)

  predicate Wants(plan: Plan, name: string) {
    plan.AllFields? || name in plan.names
  }

  function Put(plan: Plan, fields: Fields, name: string, value: string): Fields {
    if Wants(plan, name) then fields[name := value] else fields
  }

  function Restrict(plan: Plan, fields: Fields): Fields {
    map k | k in fields && Wants(plan, k) :: fields[k]
  }

  lemma PutRestricts(plan: Plan, fields: Fields, name: string, value: string)
    ensures Put(plan, Restrict(plan, fields), name, value) == Restrict(plan, Put(AllFields, fields, name, value))
  {
  }

  // ---------------------------------------------------------------- the parsers

  /** What a parser reports for one line. */
  datatype Outcome = Ignore | Error | Parsed(fields: Fields)

  function RestrictOutcome(plan: Plan, o: Outcome): Outcome {
    if o.Parsed? then Parsed(Restrict(plan, o.fields)) else o
  }

  datatype Host = Host(hostname: string, timeZoneName: string, timeZoneOffset: string)

  /** The field and value pairs a parser writes, in order; writing one is gated by the plan. */
  function PutAll(plan: Plan, fields: Fields, writes: seq<(string, string)>): Fields
    decreases |writes|
  {
    if writes == [] then fields else PutAll(plan, Put(plan, fields, writes[0].0, writes[0].1), writes[1..])
  }

  lemma {:induction false} PutAllRestricts(plan: Plan, fields: Fields, writes: seq<(string, string)>)
    ensures PutAll(plan, Restrict(plan, fields), writes) == Restrict(plan, PutAll(AllFields, fields, writes))
    decreases |writes|
  {
    if writes != [] {
      PutRestricts(plan, fields, writes[0].0, writes[0].1);
      PutAllRestricts(plan, Put(AllFields, fields, writes[0].0, writes[0].1), writes[1..]);
    }
  }

  function CommonFields(host: Host, line: string): seq<(string, string)> {
    [("*", "*"), ("$line", line), ("$empty", ""), ("$hostname", host.hostname), ("$server", host.hostname),
     ("$timezone", host.timeZoneName), ("$timeoffset", host.timeZoneOffset)]
  }

  function TimeFields(token: string): seq<(string, string)> {
    [("$time", token)]
    + if |token| == 15 then
        [("$date", token[0..8]), ("$hour", token[9..11]), ("$minute", token[11..13]), ("$second", token[13..])]
      else []
  }

  const POSITIONAL := ["$pid", "$caller", "$cpus", "$goroutines", "$cgocalls", "$loadavg", "$uptime"]

  /** What the default format writes for the token at a position, or why it gives up on the line. */
  function DefaultToken(host: Host, line: string, index: nat, token: string): Option<seq<(string, string)>> {
    if index == 0 then
      if "INFO" <= token then Some(CommonFields(host, line) + [("$severity", token), ("$loglevel", token)]) else None
    else if index == 1 then Some(TimeFields(token))
    else if index < 9 then Some([(POSITIONAL[index - 2], token)])
    else if index == 9 then (if "MAPREDUCE:" <= token then Some([]) else None)
    else
      match Cut(token, '=')
      case None => None
      case Some((key, value)) => Some([(key, value)])
  }

  /** The default format from a token position on. A line given up before its eleventh token is
      ignored, a later key-value token without '=' is an error. */
  function ParseDefault(plan: Plan, host: Host, line: string, fields: Fields, index: nat, tokens: seq<string>): Outcome
    decreases |tokens|
  {
    if tokens == [] then (if index < 11 then Ignore else Parsed(fields))
    else
      match DefaultToken(host, line, index, tokens[0])
      case None => if index < 10 then Ignore else Error
      case Some(writes) => ParseDefault(plan, host, line, PutAll(plan, fields, writes), index + 1, tokens[1..])
  }

  function DefaultFields(plan: Plan, host: Host, line: string): Outcome {
    ParseDefault(plan, host, line, map[], 0, Split(line, '|'))
  }

  function ParseCsv(plan: Plan, header: seq<string>, fields: Fields, column: nat, values: seq<string>): Outcome
    decreases |values|
  {
    if values == [] then Parsed(fields)
    else if column >= |header| then Error
    else ParseCsv(plan, header, Put(plan, fields, header[column], values[0]), column + 1, values[1..])
  }

  function CsvFields(plan: Plan, host: Host, header: seq<string>, line: string): Outcome {
    ParseCsv(plan, header, PutAll(plan, map[], CommonFields(host, line)), 0, Split(line, ','))
  }

  lemma {:induction false} DefaultRestricts(plan: Plan, host: Host, line: string, fields: Fields, index: nat, tokens: seq<string>)
    ensures ParseDefault(plan, host, line, Restrict(plan, fields), index, tokens)
            == RestrictOutcome(plan, ParseDefault(AllFields, host, line, fields, index, tokens))
    decreases |tokens|
  {
    if tokens != [] {
      var writes := DefaultToken(host, line, index, tokens[0]);
      if writes.Some? {
        PutAllRestricts(plan, fields, writes.value);
        DefaultRestricts(plan, host, line, PutAll(AllFields, fields, writes.value), index + 1, tokens[1..]);
      }
    }
  }

  lemma {:induction false} CsvRestricts(plan: Plan, header: seq<string>, fields: Fields, column: nat, values: seq<string>)
    ensures ParseCsv(plan, header, Restrict(plan, fields), column, values)
            == RestrictOutcome(plan, ParseCsv(AllFields, header, fields, column, values))
    decreases |values|
  {
    if values != [] && column < |header| {
      PutRestricts(plan, fields, header[column], values[0]);
      CsvRestricts(plan, header, Put(AllFields, fields, header[column], values[0]), column + 1, values[1..]);
    }
  }

  /** A planned parse is the restriction of the full parse, line for line, errors and ignored lines alike. */
  lemma PlannedParseIsRestriction(plan: Plan, host: Host, header: seq<string>, line: string)
    ensures DefaultFields(plan, host, line) == RestrictOutcome(plan, DefaultFields(AllFields, host, line))
    ensures CsvFields(plan, host, header, line) == RestrictOutcome(plan, CsvFields(AllFields, host, header, line))
  {
    assert Restrict(plan, map[]) == map[];
    DefaultRestricts(plan, host, line, map[], 0, Split(line, '|'));
    PutAllRestricts(plan, map[], CommonFields(host, line));
    CsvRestricts(plan, header, PutAll(AllFields, map[], CommonFields(host, line)), 0, Split(line, ','));
  }

  // ---------------------------------------------------------------- the clauses under a restriction

  ghost predicate Planned(q: Query, plan: set<string>) {
    forall name :: name in plan <==> Needs(q, name)
  }

  lemma {:induction false} UntouchedBySet(q: Query, fields: Fields, n: nat, name: string)
    requires n <= |q.set_| && name !in Produced(q, n)
    ensures name in SetClause(q, fields, n) <==> name in fields
    ensures name in fields ==> SetClause(q, fields, n)[name] == fields[name]
  {
    if n > 0 {
      UntouchedBySet(q, fields, n - 1, name);
    }
  }

  /** After n assignments the produced fields have the same values with and without the plan. */
  ghost predicate ProducedAgree(q: Query, plan: set<string>, fields: Fields, n: nat)
    requires n <= |q.set_|
  {
    var planned, all := SetClause(q, Restrict(Only(plan), fields), n), SetClause(q, fields, n);
    forall name :: name in Produced(q, n) ==> name in planned && name in all && planned[name] == all[name]
  }

  /** An assignment is sound if its source is planned, or produced earlier, or does not matter. */
  ghost predicate SoundSource(q: Query, plan: set<string>, i: nat)
    requires i < |q.set_|
  {
    var c := q.set_[i];
    || c.source in plan
    || c.source in Produced(q, i)
    || (c.kind.FunctionStack? && forall v :: c.call(v) == c.call(c.source))
  }

  lemma SetStepAgrees(q: Query, plan: set<string>, fields: Fields, n: nat)
    requires n < |q.set_| && ProducedAgree(q, plan, fields, n)
    requires q.set_[n].source in fields ==> SoundSource(q, plan, n)
    ensures ProducedAgree(q, plan, fields, n + 1)
  {
    var c := q.set_[n];
    if c.source !in Produced(q, n) {
      UntouchedBySet(q, fields, n, c.source);
      UntouchedBySet(q, Restrict(Only(plan), fields), n, c.source);
    }
  }

  lemma {:induction false} SetAgrees(q: Query, plan: set<string>, fields: Fields, n: nat)
    requires n <= |q.set_|
    requires forall i :: 0 <= i < n && q.set_[i].source in fields ==> SoundSource(q, plan, i)
    ensures ProducedAgree(q, plan, fields, n)
  {
    if n > 0 {
      SetAgrees(q, plan, fields, n - 1);
      SetStepAgrees(q, plan, fields, n - 1);
    }
  }

  /** Exactly when the set clause can be planned: for a given query, the produced fields agree after
      every assignment on every line if and only if every source is planned, produced earlier or
      irrelevant. What fails is the text of a float literal and an empty source, which the plan skips
      while the set clause looks them up. */
  lemma SetClauseIsPlannableIff(q: Query, plan: set<string>)
    ensures (forall fields: Fields, n: nat :: n <= |q.set_| ==> ProducedAgree(q, plan, fields, n))
       <==> (forall i :: 0 <= i < |q.set_| ==> SoundSource(q, plan, i))
  {
    if forall i :: 0 <= i < |q.set_| ==> SoundSource(q, plan, i) {
      forall fields: Fields, n: nat | n <= |q.set_|
        ensures ProducedAgree(q, plan, fields, n)
      {
        SetAgrees(q, plan, fields, n);
      }
    } else {
      var i :| 0 <= i < |q.set_| && !SoundSource(q, plan, i);
      var fields := UnsoundSourceShows(q, plan, i);
    }
  }

  /** Once an unsound source is a field whose value tells, the produced fields disagree. */
  lemma UnsoundFieldsDiffer(q: Query, plan: set<string>, i: nat, fields: Fields)
    requires i < |q.set_| && q.set_[i].source in fields
    requires q.set_[i].source !in plan && q.set_[i].source !in Produced(q, i)
    requires var c := q.set_[i];
             if c.kind.FunctionStack? then c.call(fields[c.source]) != c.call(c.source) else fields[c.source] != c.source
    ensures var planned, all := SetClause(q, Restrict(Only(plan), fields), i + 1), SetClause(q, fields, i + 1);
            var t := q.set_[i].target;
            t in planned && t in all && planned[t] != all[t]
    ensures !ProducedAgree(q, plan, fields, i + 1)
  {
    var c := q.set_[i];
    UntouchedBySet(q, fields, i, c.source);
    UntouchedBySet(q, Restrict(Only(plan), fields), i, c.source);
    assert c.target in Produced(q, i + 1);
  }

  /** An assignment stays visible until its target is assigned again. */
  lemma {:induction false} LaterKeeps(q: Query, fields: Fields, m: nat, n: nat, name: string)
    requires m <= n <= |q.set_| && forall i :: m <= i < n ==> q.set_[i].target != name
    requires name in SetClause(q, fields, m)
    ensures name in SetClause(q, fields, n) && SetClause(q, fields, n)[name] == SetClause(q, fields, m)[name]
    decreases n
  {
    if m < n {
      LaterKeeps(q, fields, m, n - 1, name);
    }
  }

  lemma UnsoundSourceShows(q: Query, plan: set<string>, i: nat) returns (fields: Fields)
    requires i < |q.set_| && !SoundSource(q, plan, i)
    ensures !ProducedAgree(q, plan, fields, i + 1)
  {
    var c := q.set_[i];
    var v: string;
    if c.kind.FunctionStack? {
      v :| c.call(v) != c.call(c.source);
    } else {
      v := c.source + "x";
      assert |v| != |c.source|;
    }
    fields := map[c.source := v];
    UnsoundFieldsDiffer(q, plan, i, fields);
  }

  /** A csv column can carry the source's name and a value that tells. */
  ghost predicate ShowsInCsv(q: Query, plan: set<string>, i: nat, v: string)
    requires i < |q.set_|
  {
    var c := q.set_[i];
    && c.source !in plan && c.source !in Produced(q, i)
    && ',' !in c.source && ',' !in v
    && if c.kind.FunctionStack? then c.call(v) != c.call(c.source) else v != c.source
  }

  lemma OneColumn(host: Host, name: string, v: string)
    requires ',' !in name && ',' !in v
    ensures Split(name, ',') == [name]
    ensures CsvFields(AllFields, host, Split(name, ','), v)
            == Parsed(PutAll(AllFields, map[], CommonFields(host, v))[name := v])
  {
    SplitLast(name, ',');
    SplitLast(v, ',');
    var common := PutAll(AllFields, map[], CommonFields(host, v));
    assert [v][1..] == [];
    assert ParseCsv(AllFields, [name], common, 0, [v]) == ParseCsv(AllFields, [name], Put(AllFields, common, name, v), 1, []);
  }

  /** Every unsound source that a csv column can carry shows on a csv file of two lines: a header with
      that one column, and the value. */
  lemma UnsoundSourceShowsInCsv(q: Query, plan: set<string>, i: nat, host: Host, v: string)
    requires i < |q.set_| && ShowsInCsv(q, plan, i, v)
    ensures var o := CsvFields(AllFields, host, Split(q.set_[i].source, ','), v);
            o.Parsed? && !ProducedAgree(q, plan, o.fields, i + 1)
  {
    OneColumn(host, q.set_[i].source, v);
    UnsoundFieldsDiffer(q, plan, i, CsvFields(AllFields, host, Split(q.set_[i].source, ','), v).fields);
  }

  /** The line names no field that only a float literal or an empty name of the query refers to. */
  ghost predicate LineFits(q: Query, fields: Fields) {
    && (InWhere(q, |q.where_|, "") || NamesEmpty(q) ==> "" !in fields)
    && forall i :: 0 <= i < |q.set_| && q.set_[i].source in fields && q.set_[i].source !in Produced(q, i) ==>
         q.set_[i].source != "" && (ReadsRaw(q, i) || Needs(q, q.set_[i].source))
  }

  lemma WhereAgrees(num: Numbers, q: Query, plan: set<string>, fields: Fields)
    requires Planned(q, plan) && LineFits(q, fields)
    ensures WhereClause(num, q, Restrict(Only(plan), fields)) <==> WhereClause(num, q, fields)
  {
    var planned := Restrict(Only(plan), fields);
    forall i | 0 <= i < |q.where_|
      ensures ConditionHolds(num, planned, q.where_[i]) <==> ConditionHolds(num, fields, q.where_[i])
    {
      var c := q.where_[i];
      forall o | o == c.left || o == c.right
        ensures o.kind.Field? ==> (o.text in planned <==> o.text in fields)
      {
        if o.kind.Field? {
          assert Mentions(c, o.text);
          assert InWhere(q, |q.where_|, o.text);
          assert o.text in fields ==> Needs(q, o.text);
        }
      }
    }
  }

  /** The group-by or the select clause reads the empty name from the line. */
  ghost predicate NamesEmpty(q: Query) {
    InGroup(q, |q.groupBy|, "") || InSelect(q, |q.select|, "")
  }

  /** A name that the group-by or select clause reads is found with and without the plan, unless it is empty. */
  lemma LookupAgrees(q: Query, plan: set<string>, fields: Fields, name: string)
    requires Planned(q, plan) && ProducedAgree(q, plan, fields, |q.set_|)
    requires name in Produced(q, |q.set_|) || InGroup(q, |q.groupBy|, name) || InSelect(q, |q.select|, name)
    ensures var a, b := SetClause(q, Restrict(Only(plan), fields), |q.set_|), SetClause(q, fields, |q.set_|);
            if name != "" || name in Produced(q, |q.set_|) then (name in a <==> name in b) && (name in a ==> a[name] == b[name])
            else name !in a && (name in b <==> name in fields) && (name in b ==> b[name] == fields[name])
  {
    if name !in Produced(q, |q.set_|) {
      UntouchedBySet(q, fields, |q.set_|, name);
      UntouchedBySet(q, Restrict(Only(plan), fields), |q.set_|, name);
    }
  }

  lemma {:induction false} GroupKeyAgrees(groupBy: seq<string>, a: Fields, b: Fields)
    requires forall i :: 0 <= i < |groupBy| ==> FieldOr(a, groupBy[i]) == FieldOr(b, groupBy[i])
    ensures GroupKey(groupBy, a) == GroupKey(groupBy, b)
  {
    if |groupBy| > 1 {
      GroupKeyAgrees(groupBy[..|groupBy| - 1], a, b);
    }
  }

  lemma ClausesAgree(q: Query, plan: set<string>, fields: Fields)
    requires Planned(q, plan) && ProducedAgree(q, plan, fields, |q.set_|) && (NamesEmpty(q) ==> "" !in fields)
    ensures var a, b := SetClause(q, Restrict(Only(plan), fields), |q.set_|), SetClause(q, fields, |q.set_|);
            GroupKey(q.groupBy, a) == GroupKey(q.groupBy, b) && Selected(q.select, a) == Selected(q.select, b)
  {
    var a, b := SetClause(q, Restrict(Only(plan), fields), |q.set_|), SetClause(q, fields, |q.set_|);
    forall i | 0 <= i < |q.groupBy|
      ensures FieldOr(a, q.groupBy[i]) == FieldOr(b, q.groupBy[i])
    {
      LookupAgrees(q, plan, fields, q.groupBy[i]);
    }
    GroupKeyAgrees(q.groupBy, a, b);
    forall i | 0 <= i < |q.select|
      ensures Selected(q.select, a)[i] == Selected(q.select, b)[i]
    {
      LookupAgrees(q, plan, fields, q.select[i].field);
    }
  }

  /** Evaluating the query over the planned fields gives the same where decision, the same group key
      and the same selected values as evaluating it over all of them. */
  lemma EvaluateAgrees(num: Numbers, q: Query, plan: set<string>, fields: Fields)
    requires Planned(q, plan) && LineFits(q, fields)
    ensures Evaluate(num, q, Restrict(Only(plan), fields)) == Evaluate(num, q, fields)
  {
    WhereAgrees(num, q, plan, fields);
    forall i | 0 <= i < |q.set_| && q.set_[i].source in fields
      ensures SoundSource(q, plan, i)
    {
      if q.set_[i].source !in Produced(q, i) && ReadsRaw(q, i) {
        assert InSet(q, |q.set_|, q.set_[i].source);
      }
    }
    SetAgrees(q, plan, fields, |q.set_|);
    ClausesAgree(q, plan, fields);
  }

  // ---------------------------------------------------------------- the theorem for whole lines

  /** processLine(): ignored, failed, skipped by where, or kept with its key and values. */
  datatype Result = Ignored | Failed | Evaluated(verdict: Verdict)

  function Process(num: Numbers, q: Query, o: Outcome): Result {
    match o
    case Ignore => Ignored
    case Error => Failed
    case Parsed(fields) => Evaluated(Evaluate(num, q, fields))
  }

  ghost predicate OutcomeFits(q: Query, o: Outcome) {
    o.Parsed? ==> LineFits(q, o.fields)
  }

  /** Projection pushdown is invisible: for every query and every line, in the default format and in
      csv under any header, parsing only the planned fields gives the same result as parsing all. */
  lemma PushdownIsInvisible(num: Numbers, q: Query, plan: set<string>, host: Host, header: seq<string>, line: string)
    requires Planned(q, plan)
    ensures OutcomeFits(q, DefaultFields(AllFields, host, line)) ==>
              Process(num, q, DefaultFields(Only(plan), host, line)) == Process(num, q, DefaultFields(AllFields, host, line))
    ensures OutcomeFits(q, CsvFields(AllFields, host, header, line)) ==>
              Process(num, q, CsvFields(Only(plan), host, header, line))
              == Process(num, q, CsvFields(AllFields, host, header, line))
  {
    PlannedParseIsRestriction(Only(plan), host, header, line);
    var d, c := DefaultFields(AllFields, host, line), CsvFields(AllFields, host, header, line);
    if d.Parsed? && OutcomeFits(q, d) {
      EvaluateAgrees(num, q, plan, d.fields);
    }
    if c.Parsed? && OutcomeFits(q, c) {
      EvaluateAgrees(num, q, plan, c.fields);
    }
  }

  lemma SelectedDiffers(num: Numbers, q: Query, a: Fields, b: Fields, j: nat)
    requires WhereClause(num, q, a) && WhereClause(num, q, b) && j < |q.select|
    requires var x, y, name := SetClause(q, a, |q.set_|), SetClause(q, b, |q.set_|), q.select[j].field;
             name in x && name in y && x[name] != y[name]
    ensures Evaluate(num, q, a) != Evaluate(num, q, b)
  {
    assert Selected(q.select, SetClause(q, a, |q.set_|))[j] != Selected(q.select, SetClause(q, b, |q.set_|))[j];
  }

  lemma UnsoundSourceChangesVerdict(num: Numbers, q: Query, plan: set<string>, i: nat, fields: Fields, v: string, j: nat)
    requires i < |q.set_| && ShowsInCsv(q, plan, i, v)
    requires WhereClause(num, q, fields) && WhereClause(num, q, Restrict(Only(plan), fields))
    requires q.set_[i].source in fields && fields[q.set_[i].source] == v
    requires forall k :: i < k < |q.set_| ==> q.set_[k].target != q.set_[i].target
    requires j < |q.select| && q.select[j].field == q.set_[i].target
    ensures Evaluate(num, q, Restrict(Only(plan), fields)) != Evaluate(num, q, fields)
  {
    var planned, n, t := Restrict(Only(plan), fields), |q.set_|, q.set_[i].target;
    UnsoundFieldsDiffer(q, plan, i, fields);
    LaterKeeps(q, fields, i + 1, n, t);
    LaterKeeps(q, planned, i + 1, n, t);
    SelectedDiffers(num, q, planned, fields, j);
  }

  ghost predicate Passes(num: Numbers, q: Query, o: Outcome) {
    o.Parsed? && WhereClause(num, q, o.fields)
  }

  /** If the where clause keeps the line under both parses and the query selects the field assigned from the
      unsound source, the results of the two parses differ. A line that only one of the parses keeps has
      different results anyway. */
  lemma UnsoundSourceChangesTheResult(num: Numbers, q: Query, plan: set<string>, i: nat, host: Host, v: string, j: nat)
    requires i < |q.set_| && ShowsInCsv(q, plan, i, v)
    requires var header := Split(q.set_[i].source, ',');
             Passes(num, q, CsvFields(AllFields, host, header, v)) || Passes(num, q, CsvFields(Only(plan), host, header, v))
    requires forall k :: i < k < |q.set_| ==> q.set_[k].target != q.set_[i].target
    requires j < |q.select| && q.select[j].field == q.set_[i].target
    ensures var header := Split(q.set_[i].source, ',');
            Process(num, q, CsvFields(Only(plan), host, header, v)) != Process(num, q, CsvFields(AllFields, host, header, v))
  {
    var header := Split(q.set_[i].source, ',');
    OneColumn(host, q.set_[i].source, v);
    PlannedParseIsRestriction(Only(plan), host, header, v);
    var fields := CsvFields(AllFields, host, header, v).fields;
    if WhereClause(num, q, fields) && WhereClause(num, q, Restrict(Only(plan), fields)) {
      UnsoundSourceChangesVerdict(num, q, plan, i, fields, v, j);
    }
  }

  // ---------------------------------------------------------------- empty field names

  /** The two csv parses of a line give the same result. */
  ghost predicate SameInCsv(num: Numbers, q: Query, plan: set<string>, host: Host, header: seq<string>, line: string) {
    Process(num, q, CsvFields(Only(plan), host, header, line)) == Process(num, q, CsvFields(AllFields, host, header, line))
  }

  /** A group key grows with its values. */
  lemma {:induction false} GroupKeyLonger(groupBy: seq<string>, a: Fields, b: Fields)
    requires forall i :: 0 <= i < |groupBy| ==> |FieldOr(a, groupBy[i])| <= |FieldOr(b, groupBy[i])|
    ensures |GroupKey(groupBy, a)| <= |GroupKey(groupBy, b)|
    ensures (exists i :: 0 <= i < |groupBy| && |FieldOr(a, groupBy[i])| < |FieldOr(b, groupBy[i])|) ==>
              |GroupKey(groupBy, a)| < |GroupKey(groupBy, b)|
  {
    if |groupBy| > 1 {
      var n := |groupBy| - 1;
      GroupKeyLonger(groupBy[..n], a, b);
      if i :| 0 <= i < n && |FieldOr(a, groupBy[i])| < |FieldOr(b, groupBy[i])| {
        assert groupBy[..n][i] == groupBy[i];
      }
    }
  }

  /** Every source of the set clause is sound, so the set clause itself agrees (SetClauseIsPlannableIff). */
  ghost predicate Plannable(q: Query, plan: set<string>) {
    Planned(q, plan) && forall i :: 0 <= i < |q.set_| ==> SoundSource(q, plan, i)
  }

  lemma EmptyNameShortens(q: Query, plan: set<string>, fields: Fields)
    requires Plannable(q, plan) && InGroup(q, |q.groupBy|, "") && FieldOr(fields, "") != ""
    ensures GroupKey(q.groupBy, SetClause(q, Restrict(Only(plan), fields), |q.set_|))
            != GroupKey(q.groupBy, SetClause(q, fields, |q.set_|))
  {
    var a, b := SetClause(q, Restrict(Only(plan), fields), |q.set_|), SetClause(q, fields, |q.set_|);
    SetAgrees(q, plan, fields, |q.set_|);
    forall i | 0 <= i < |q.groupBy|
      ensures |FieldOr(a, q.groupBy[i])| <= |FieldOr(b, q.groupBy[i])|
      ensures q.groupBy[i] == "" ==> |FieldOr(a, q.groupBy[i])| < |FieldOr(b, q.groupBy[i])|
    {
      LookupAgrees(q, plan, fields, q.groupBy[i]);
    }
    GroupKeyLonger(q.groupBy, a, b);
  }

  /** On a line with a value under the empty name, every query that reads it shows the plan. */
  lemma EmptyNameShows(num: Numbers, q: Query, plan: set<string>, fields: Fields)
    requires q.where_ == [] && Plannable(q, plan) && NamesEmpty(q) && FieldOr(fields, "") != ""
    ensures Evaluate(num, q, Restrict(Only(plan), fields)) != Evaluate(num, q, fields)
  {
    if InGroup(q, |q.groupBy|, "") {
      EmptyNameShortens(q, plan, fields);
    } else {
      SetAgrees(q, plan, fields, |q.set_|);
      LookupAgrees(q, plan, fields, "");
      var a, b := SetClause(q, Restrict(Only(plan), fields), |q.set_|), SetClause(q, fields, |q.set_|);
      var j :| 0 <= j < |q.select| && q.select[j].field == "";
      assert Selected(q.select, a)[j] == None && Selected(q.select, b)[j].Some?;
    }
  }

  /** The other family, exactly: for a query without where clause whose set clause can be planned, the plan
      is invisible in every csv file, under every host, if and only if neither the group-by nor the select
      clause reads the empty field name from the line. The plan skips that name, and a csv header can hold it. */
  lemma EmptyNamesIff(num: Numbers, q: Query, plan: set<string>)
    requires q.where_ == [] && Plannable(q, plan)
    ensures (forall host, header, line :: SameInCsv(num, q, plan, host, header, line)) <==> !NamesEmpty(q)
  {
    if NamesEmpty(q) {
      var host := Host("", "", "");
      OneColumn(host, "", "7");
      var header := Split("", ',');
      PlannedParseIsRestriction(Only(plan), host, header, "7");
      EmptyNameShows(num, q, plan, CsvFields(AllFields, host, header, "7").fields);
      assert !SameInCsv(num, q, plan, host, header, "7");
    } else {
      forall host, header, line
        ensures SameInCsv(num, q, plan, host, header, line)
      {
        NoEmptyNameAgrees(num, q, plan, host, header, line);
      }
    }
  }

  lemma NoEmptyNameAgrees(num: Numbers, q: Query, plan: set<string>, host: Host, header: seq<string>, line: string)
    requires q.where_ == [] && Plannable(q, plan) && !NamesEmpty(q)
    ensures SameInCsv(num, q, plan, host, header, line)
  {
    PlannedParseIsRestriction(Only(plan), host, header, line);
    var o := CsvFields(AllFields, host, header, line);
    if o.Parsed? {
      SetAgrees(q, plan, o.fields, |q.set_|);
      ClausesAgree(q, plan, o.fields);
    }
  }

  // ---------------------------------------------------------------- one query of each family

  /** select count($line) group by ``. */
  const EMPTY_NAME_QUERY := Query([], [], [""], [Entry("$line", "count($line)", Count)])

  /** A csv file whose only column has no name: the lines are grouped by that column, and under the plan
      they all fall into one group. */
  lemma EmptyColumnShows(num: Numbers, plan: set<string>, host: Host)
    requires Planned(EMPTY_NAME_QUERY, plan)
    ensures FromParser(EMPTY_NAME_QUERY)
    ensures Process(num, EMPTY_NAME_QUERY, CsvFields(AllFields, host, Split("", ','), "7")) == Evaluated(Kept("7", [Some("7")]))
    ensures Process(num, EMPTY_NAME_QUERY, CsvFields(Only(plan), host, Split("", ','), "7")) == Evaluated(Kept("", [Some("7")]))
  {
    var full := CsvFields(AllFields, host, Split("", ','), "7");
    OneColumn(host, "", "7");
    LineIsAField(host, "7");
    PlannedParseIsRestriction(Only(plan), host, Split("", ','), "7");
    assert !Needs(EMPTY_NAME_QUERY, "");
    assert EMPTY_NAME_QUERY.select[0].field == "$line";
    assert Needs(EMPTY_NAME_QUERY, "$line");
    EmptyNameVerdict(num, full.fields);
    EmptyNameVerdict(num, Restrict(Only(plan), full.fields));
  }

  lemma EmptyNameVerdict(num: Numbers, fields: Fields)
    requires "$line" in fields
    ensures Evaluate(num, EMPTY_NAME_QUERY, fields) == Kept(FieldOr(fields, ""), [Some(fields["$line"])])
  {
    assert Selected(EMPTY_NAME_QUERY.select, fields) == [Some(fields["$line"])];
  }

  lemma LineIsAField(host: Host, line: string)
    ensures var fields := PutAll(AllFields, map[], CommonFields(host, line));
            "$line" in fields && fields["$line"] == line
  {
    var writes := CommonFields(host, line);
    assert writes[1..][1..] == writes[2..];
    LaterWritesKeep(Put(AllFields, Put(AllFields, map[], "*", "*"), "$line", line), writes[2..], "$line");
  }

  lemma {:induction false} LaterWritesKeep(fields: Fields, writes: seq<(string, string)>, name: string)
    requires name in fields && forall i :: 0 <= i < |writes| ==> writes[i].0 != name
    ensures name in PutAll(AllFields, fields, writes) && PutAll(AllFields, fields, writes)[name] == fields[name]
    decreases |writes|
  {
    if writes != [] {
      LaterWritesKeep(Put(AllFields, fields, writes[0].0, writes[0].1), writes[1..], name);
    }
  }

  /** set $x = 5 select last($x), grouped by its first selected field as NewQuery does. */
  function FloatLiteralQuery(id: string -> string): Query {
    Query([], [SetCondition("$x", FloatLiteral, "5", id)], ["$x"], [Entry("$x", "last($x)", Last)])
  }

  /** With `set $x = 5` and a csv column named "5", the full parse of the line "7" gives $x the column's
      value and the planned parse gives it the text of the literal. */
  lemma FloatLiteralColumnShows(num: Numbers, plan: set<string>, id: string -> string, host: Host)
    requires Planned(FloatLiteralQuery(id), plan)
    ensures var q := FloatLiteralQuery(id);
            && FromParser(q)
            && Process(num, q, CsvFields(AllFields, host, ["5"], "7")) == Evaluated(Kept("7", [Some("7")]))
            && Process(num, q, CsvFields(Only(plan), host, ["5"], "7")) == Evaluated(Kept("5", [Some("5")]))
  {
    var q := FloatLiteralQuery(id);
    OneColumn(host, "5", "7");
    PlannedParseIsRestriction(Only(plan), host, ["5"], "7");
    FloatLiteralValue(num, q, CsvFields(AllFields, host, ["5"], "7").fields, id);
    assert q.select[0].field != "5" && q.groupBy[0] != "5";
    assert !Needs(q, "5");
    FloatLiteralValue(num, q, CsvFields(Only(plan), host, ["5"], "7").fields, id);
  }

  lemma FloatLiteralValue(num: Numbers, q: Query, fields: Fields, id: string -> string)
    requires q == FloatLiteralQuery(id)
    ensures var v := if "5" in fields then fields["5"] else "5";
            Evaluate(num, q, fields) == Kept(v, [Some(v)])
  {
    assert SetClause(q, fields, 1) == Assign(SetClause(q, fields, 0), q.set_[0]);
  }

  // ---------------------------------------------------------------- the parsers as loops over the line

  /** scanDelimitedField: the token from start on, where the next one begins, and whether it was the last. */
  function ScanDelimitedField(input: string, start: nat, d: char): (string, nat, bool)
    requires start <= |input|
  {
    match IndexOf(input[start..], d)
    case None => (input[start..], |input|, true)
    case Some(i) => (input[start..start + i], start + i + 1, false)
  }

  lemma SplitAtFirst(rest: string, d: char, i: nat)
    requires i < |rest| && rest[i] == d && d !in rest[..i]
    ensures Split(rest, d) == [rest[..i]] + Split(rest[i + 1..], d)
  {
    var a, b := rest[..i], rest[i + 1..];
    assert rest == a + [d] + b;
    SplitFirst(a, d, b);
  }

  lemma ScanNext(input: string, start: nat, d: char, i: nat)
    requires start + i < |input| && input[start + i] == d && d !in input[start..start + i]
    ensures Split(input[start..], d) == [input[start..start + i]] + Split(input[start + i + 1..], d)
  {
    var rest := input[start..];
    assert rest[..i] == input[start..start + i] && rest[i + 1..] == input[start + i + 1..];
    SplitAtFirst(rest, d, i);
  }

  /** Scanning from a position peels off the first part of what is left. */
  lemma ScanIsSplit(input: string, start: nat, d: char)
    requires start <= |input|
    ensures var (token, next, done) := ScanDelimitedField(input, start, d);
            && start <= next <= |input| && (!done ==> start < next)
            && (done ==> Split(input[start..], d) == [token])
            && (!done ==> Split(input[start..], d) == [token] + Split(input[next..], d))
  {
    var i := IndexOf(input[start..], d);
    if i.None? {
      SplitLast(input[start..], d);
    } else {
      assert input[start..][..i.value] == input[start..start + i.value];
      ScanNext(input, start, d, i.value);
    }
  }

  lemma Regroup(header: seq<string>, field: string, rest: seq<string>)
    ensures header + ([field] + rest) == header + [field] + rest
    ensures header + [field] + [] == header + [field]
  {
  }

  method MakeDefaultFields(plan: Plan, host: Host, line: string) returns (o: Outcome)
    ensures o == DefaultFields(plan, host, line)
  {
    var fields: Fields := map[];
    var index, start, done := 0, 0, false;
    assert line[0..] == line;
    while !done
      invariant 0 <= start <= |line|
      invariant DefaultFields(plan, host, line)
                == ParseDefault(plan, host, line, fields, index, if done then [] else Split(line[start..], '|'))
      decreases !done, |line| - start
    {
      ScanIsSplit(line, start, '|');
      var (token, next, last) := ScanDelimitedField(line, start, '|');
      var writes := DefaultToken(host, line, index, token);
      if writes.None? {
        return if index < 10 then Ignore else Error;
      }
      fields := PutAll(plan, fields, writes.value);
      index, start, done := index + 1, next, last;
    }
    return if index < 11 then Ignore else Parsed(fields);
  }

  /** The csv parser keeps one header per source: the first line seen from it. */
  class CsvParser {
    const plan: Plan
    const host: Host
    var headers: map<string, seq<string>>

    constructor (plan: Plan, host: Host)
      ensures this.plan == plan && this.host == host && headers == map[]
    {
      this.plan, this.host, headers := plan, host, map[];
    }

    method ParseHeader(line: string) returns (header: seq<string>)
      ensures header == Split(line, ',')
    {
      header := [];
      var start, done := 0, false;
      assert line[0..] == line;
      while !done
        invariant 0 <= start <= |line|
        invariant Split(line, ',') == header + if done then [] else Split(line[start..], ',')
        decreases !done, |line| - start
      {
        ScanIsSplit(line, start, ',');
        var (field, next, last) := ScanDelimitedField(line, start, ',');
        ghost var rest := if last then [] else Split(line[next..], ',');
        Regroup(header, field, rest);
        header, start, done := header + [field], next, last;
      }
    }

    method MakeFields(line: string, source: string) returns (o: Outcome)
      modifies this
      ensures source !in old(headers) ==> o == Ignore && headers == old(headers)[source := Split(line, ',')]
      ensures source in old(headers) ==>
                headers == old(headers) && o == CsvFields(plan, host, headers[source], line)
    {
      if source !in headers {
        var header := ParseHeader(line);
        headers := headers[source := header];
        return Ignore;
      }
      var header := headers[source];
      var fields := PutAll(plan, map[], CommonFields(host, line));
      var column, start, done := 0, 0, false;
      assert line[0..] == line;
      while !done
        invariant 0 <= start <= |line| && headers == old(headers)
        invariant CsvFields(plan, host, header, line)
                  == ParseCsv(plan, header, fields, column, if done then [] else Split(line[start..], ','))
        decreases !done, |line| - start
      {
        ScanIsSplit(line, start, ',');
        var (value, next, last) := ScanDelimitedField(line, start, ',');
        if column >= |header| {
          return Error;
        }
        fields := Put(plan, fields, header[column], value);
        column, start, done := column + 1, next, last;
      }
      return Parsed(fields);
    }
  }
}
