/** Evaluating a mapreduce query on one line: the parser's field plan (internal/mapr/parserfieldplan.go),
    the where and set clauses (whereclause.go, wherecondition.go, setclause.go) and the group key
    (internal/mapr/server/groupkey.go). */
module Queries {
  import opened Wrappers
  import opened AggregateSets

  datatype OperandType = Field | StringLiteral | FloatLiteral | FunctionStack

  datatype Comparison =
    | StringEq | StringNe | StringContains | StringNotContains
    | StringHasPrefix | StringNotHasPrefix | StringHasSuffix | StringNotHasSuffix
    | FloatEq | FloatNe | FloatLt | FloatLe | FloatGt | FloatGe

  predicate IsFloatOperation(op: Comparison) {
    op.FloatEq? || op.FloatNe? || op.FloatLt? || op.FloatLe? || op.FloatGt? || op.FloatGe?
  }

  datatype Operand = Operand(kind: OperandType, text: string, number: real)

  datatype WhereCondition = WhereCondition(left: Operand, op: Comparison, right: Operand)

  /** `call` is the parsed function stack; the identity when the right side is not a call. */
  datatype SetCondition = SetCondition(target: string, kind: OperandType, source: string, call: string -> string)

  datatype Query = Query(
    where_: seq<WhereCondition>, set_: seq<SetCondition>, groupBy: seq<string>, select: seq<Entry>)

  /** What NewQuery (internal/mapr/query.go, lines 110 to 118) guarantees: a select clause, and a group-by
      clause, which is the first selected field if the query has none. */
  predicate FromParser(q: Query) {
    q.select != [] && q.groupBy != []
  }

  // ---------------------------------------------------------------- where

  function OperandFloat(num: Numbers, fields: Fields, o: Operand): Option<real> {
    if o.kind.FloatLiteral? then Some(o.number)
    else if o.kind.Field? then (if o.text in fields then num.parse(fields[o.text]) else None)
    else None
  }

  function OperandString(fields: Fields, o: Operand): Option<string> {
    if o.kind.Field? then (if o.text in fields then Some(fields[o.text]) else None)
    else if o.kind.StringLiteral? then Some(o.text)
    else None
  }

  predicate FloatClause(op: Comparison, l: real, r: real)
    requires IsFloatOperation(op)
  {
    match op
    case FloatEq => l == r
    case FloatNe => l != r
    case FloatLt => l < r
    case FloatLe => l <= r
    case FloatGt => l > r
    case FloatGe => l >= r
  }

  predicate Contains(s: string, t: string) {
    exists i :: 0 <= i <= |s| && t <= s[i..]
  }

  predicate HasSuffix(s: string, t: string) {
    |t| <= |s| && s[|s| - |t|..] == t
  }

  predicate StringClause(op: Comparison, l: string, r: string)
    requires !IsFloatOperation(op)
  {
    match op
    case StringEq => l == r
    case StringNe => l != r
    case StringContains => Contains(l, r)
    case StringNotContains => !Contains(l, r)
    case StringHasPrefix => r <= l
    case StringNotHasPrefix => !(r <= l)
    case StringHasSuffix => HasSuffix(l, r)
    case StringNotHasSuffix => !HasSuffix(l, r)
  }

  predicate ConditionHolds(num: Numbers, fields: Fields, c: WhereCondition) {
    if IsFloatOperation(c.op) then
      var l, r := OperandFloat(num, fields, c.left), OperandFloat(num, fields, c.right);
      l.Some? && r.Some? && FloatClause(c.op, l.value, r.value)
    else
      var l, r := OperandString(fields, c.left), OperandString(fields, c.right);
      l.Some? && r.Some? && StringClause(c.op, l.value, r.value)
  }

  predicate WhereClause(num: Numbers, q: Query, fields: Fields) {
    forall i :: 0 <= i < |q.where_| ==> ConditionHolds(num, fields, q.where_[i])
  }

  // ---------------------------------------------------------------- set

  /** One assignment: a source that names no field stands for itself. */
  function Assign(fields: Fields, c: SetCondition): Fields {
    var value := if c.source in fields then fields[c.source] else c.source;
    fields[c.target := if c.kind.FunctionStack? then c.call(value) else value]
  }

  /** The first n assignments, each seeing the earlier ones. */
  function SetClause(q: Query, fields: Fields, n: nat): Fields
    requires n <= |q.set_|
  {
    if n == 0 then fields else Assign(SetClause(q, fields, n - 1), q.set_[n - 1])
  }

  method RunSetClause(q: Query, parsed: Fields) returns (fields: Fields)
    ensures fields == SetClause(q, parsed, |q.set_|)
  {
    fields := parsed;
    for i := 0 to |q.set_|
      invariant fields == SetClause(q, parsed, i)
    {
      var c := q.set_[i];
      var value := if c.source in fields then fields[c.source] else c.source;
      if c.kind.FunctionStack? {
        fields := fields[c.target := c.call(value)];
      } else {
        fields := fields[c.target := value];
      }
    }
  }

  // ---------------------------------------------------------------- group key and selected values

  function FieldOr(fields: Fields, name: string): string {
    if name in fields then fields[name] else ""
  }

  function GroupKey(groupBy: seq<string>, fields: Fields): string {
    if groupBy == [] then ""
    else if |groupBy| == 1 then FieldOr(fields, groupBy[0])
    else GroupKey(groupBy[..|groupBy| - 1], fields) + "," + FieldOr(fields, groupBy[|groupBy| - 1])
  }

  method BuildGroupKey(groupBy: seq<string>, fields: Fields) returns (key: string)
    ensures key == GroupKey(groupBy, fields)
  {
    key := "";
    for i := 0 to |groupBy|
      invariant key == GroupKey(groupBy[..i], fields)
    {
      if i > 0 {
        key := key + ",";
      }
      key := key + FieldOr(fields, groupBy[i]);
      assert groupBy[..i + 1][..i] == groupBy[..i];
    }
    assert groupBy[..|groupBy|] == groupBy;
  }

  function Selected(select: seq<Entry>, fields: Fields): seq<Option<string>> {
    seq(|select|, i requires 0 <= i < |select| =>
      if select[i].field in fields then Some(fields[select[i].field]) else None)
  }

  /** Everything processLine() derives from the parsed fields: whether the line is kept, under which
      group key, and the value every select entry sees. */
  datatype Verdict = Skipped | Kept(key: string, values: seq<Option<string>>)

  function Evaluate(num: Numbers, q: Query, fields: Fields): Verdict {
    if !WhereClause(num, q, fields) then Skipped
    else
      var after := SetClause(q, fields, |q.set_|);
      Kept(GroupKey(q.groupBy, after), Selected(q.select, after))
  }

  // ---------------------------------------------------------------- the plan

  /** Targets of the first n assignments. */
  function Produced(q: Query, n: nat): set<string>
    requires n <= |q.set_|
  {
    if n == 0 then {} else Produced(q, n - 1) + {q.set_[n - 1].target}
  }

  predicate Mentions(c: WhereCondition, name: string) {
    (c.left.kind.Field? && c.left.text == name) || (c.right.kind.Field? && c.right.text == name)
  }

  /** An assignment whose source is a field that no earlier assignment has produced. */
  predicate ReadsRaw(q: Query, i: nat)
    requires i < |q.set_|
  {
    (q.set_[i].kind.Field? || q.set_[i].kind.FunctionStack?) && q.set_[i].source !in Produced(q, i)
  }

  ghost predicate InWhere(q: Query, n: nat, name: string)
    requires n <= |q.where_|
  {
    exists i :: 0 <= i < n && Mentions(q.where_[i], name)
  }

  ghost predicate InSet(q: Query, n: nat, name: string)
    requires n <= |q.set_|
  {
    exists i :: 0 <= i < n && ReadsRaw(q, i) && q.set_[i].source == name
  }

  ghost predicate InGroup(q: Query, n: nat, name: string)
    requires n <= |q.groupBy|
  {
    name !in Produced(q, |q.set_|) && exists i :: 0 <= i < n && q.groupBy[i] == name
  }

  ghost predicate InSelect(q: Query, n: nat, name: string)
    requires n <= |q.select|
  {
    name !in Produced(q, |q.set_|) && exists i :: 0 <= i < n && q.select[i].field == name
  }

  /** The raw fields the parser is asked for. Empty names are skipped, and so is the text of a float. */
  ghost predicate Needs(q: Query, name: string) {
    && name != ""
    && (|| InWhere(q, |q.where_|, name)
        || InSet(q, |q.set_|, name)
        || InGroup(q, |q.groupBy|, name)
        || InSelect(q, |q.select|, name))
  }

  function Add(fields: set<string>, name: string): set<string> {
    if name == "" then fields else fields + {name}
  }

  /** The four loops that collect the plan compute exactly the names the query needs. */
  method ParserFieldPlan(q: Query) returns (plan: set<string>)
    ensures forall name :: name in plan <==> Needs(q, name)
  {
    plan := {};
    for i := 0 to |q.where_|
      invariant forall name :: name in plan <==> (name != "" && InWhere(q, i, name))
    {
      if q.where_[i].left.kind.Field? {
        plan := Add(plan, q.where_[i].left.text);
      }
      if q.where_[i].right.kind.Field? {
        plan := Add(plan, q.where_[i].right.text);
      }
    }
    ghost var fromWhere := plan;
    var produced: set<string> := {};
    for i := 0 to |q.set_|
      invariant produced == Produced(q, i)
      invariant forall name :: name in plan <==> (name in fromWhere || (name != "" && InSet(q, i, name)))
    {
      var c := q.set_[i];
      if (c.kind.Field? || c.kind.FunctionStack?) && c.source !in produced {
        plan := Add(plan, c.source);
      }
      produced := produced + {c.target};
    }
    ghost var fromSet := plan;
    for i := 0 to |q.groupBy|
      invariant forall name :: name in plan <==> (name in fromSet || (name != "" && InGroup(q, i, name)))
    {
      if q.groupBy[i] !in produced {
        plan := Add(plan, q.groupBy[i]);
      }
    }
    ghost var fromGroup := plan;
    for i := 0 to |q.select|
      invariant forall name :: name in plan <==> (name in fromGroup || (name != "" && InSelect(q, i, name)))
    {
      if q.select[i].field !in produced {
        plan := Add(plan, q.select[i].field);
      }
    }
  }
}
