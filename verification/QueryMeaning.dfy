/** What the clauses of a query mean: the comparisons of the where clause (internal/mapr/wherecondition.go)
    and the group key (internal/mapr/server/groupkey.go), said without the functions that evaluate them. */
module QueryMeanings {
  import opened Wrappers
  import opened AggregateSets
  import opened AggregateWire
  import opened Queries

  // ---------------------------------------------------------------- where

  /** An operand that stands for a number: a literal, or a field whose text parses. */
  ghost predicate HasNumber(num: Numbers, fields: Fields, o: Operand, v: real) {
    || (o.kind.FloatLiteral? && o.number == v)
    || (o.kind.Field? && o.text in fields && num.parse(fields[o.text]) == Some(v))
  }

  /** An operand that stands for a text: a literal, or a field of the line. */
  ghost predicate HasText(fields: Fields, o: Operand, v: string) {
    || (o.kind.StringLiteral? && o.text == v)
    || (o.kind.Field? && o.text in fields && fields[o.text] == v)
  }

  predicate Compares(num: Numbers, fields: Fields, left: Operand, op: Comparison, right: Operand) {
    WhereClause(num, Query([WhereCondition(left, op, right)], [], [], []), fields)
  }

  /** All conditions have to hold. */
  lemma WhereIsConjunction(num: Numbers, q: Query, c: WhereCondition, fields: Fields)
    ensures WhereClause(num, q.(where_ := []), fields)
    ensures WhereClause(num, q.(where_ := q.where_ + [c]), fields)
       <==> WhereClause(num, q, fields) && Compares(num, fields, c.left, c.op, c.right)
  {
    var one := Query([WhereCondition(c.left, c.op, c.right)], [], [], []);
    assert one.where_[0] == c;
    var more := q.(where_ := q.where_ + [c]);
    assert more.where_[|q.where_|] == c && forall i :: 0 <= i < |q.where_| ==> more.where_[i] == q.where_[i];
  }

  lemma Compared(num: Numbers, fields: Fields, left: Operand, op: Comparison, right: Operand)
    ensures Compares(num, fields, left, op, right) <==> ConditionHolds(num, fields, WhereCondition(left, op, right))
  {
    assert [WhereCondition(left, op, right)][0] == WhereCondition(left, op, right);
  }

  predicate IsAbove(r: real, l: real, d: real) {
    d > 0.0 && r == l + d
  }

  /** The six comparisons of numbers, in terms of addition and of each other. */
  lemma NumbersCompare(num: Numbers, fields: Fields, left: Operand, right: Operand, l: real, r: real)
    requires HasNumber(num, fields, left, l) && HasNumber(num, fields, right, r)
    ensures Compares(num, fields, left, FloatLt, right) <==> exists d :: IsAbove(r, l, d)
    ensures Compares(num, fields, left, FloatEq, right) <==> l == r
    ensures Compares(num, fields, left, FloatGt, right) <==> Compares(num, fields, right, FloatLt, left)
    ensures Compares(num, fields, left, FloatGe, right) <==> !Compares(num, fields, left, FloatLt, right)
    ensures Compares(num, fields, left, FloatLe, right) <==> !Compares(num, fields, left, FloatGt, right)
    ensures Compares(num, fields, left, FloatNe, right) <==> !Compares(num, fields, left, FloatEq, right)
  {
    forall op | IsFloatOperation(op)
      ensures Compares(num, fields, left, op, right) <==> FloatClause(op, l, r)
      ensures Compares(num, fields, right, op, left) <==> FloatClause(op, r, l)
    {
      Compared(num, fields, left, op, right);
      Compared(num, fields, right, op, left);
    }
    if l < r {
      assert IsAbove(r, l, r - l);
    }
  }

  /** Exactly one of less, equal and greater holds. */
  lemma NumbersAreOrdered(num: Numbers, fields: Fields, left: Operand, right: Operand, l: real, r: real)
    requires HasNumber(num, fields, left, l) && HasNumber(num, fields, right, r)
    ensures var lt := Compares(num, fields, left, FloatLt, right);
            var eq := Compares(num, fields, left, FloatEq, right);
            var gt := Compares(num, fields, left, FloatGt, right);
            (lt || eq || gt) && !(lt && eq) && !(lt && gt) && !(eq && gt)
  {
    forall op | IsFloatOperation(op)
      ensures Compares(num, fields, left, op, right) <==> FloatClause(op, l, r)
    {
      Compared(num, fields, left, op, right);
    }
  }

  /** A comparison of numbers needs a number on both sides: a line without the field, or with a text that
      does not parse, is rejected, also by `!=`. */
  lemma NumberIsMissing(num: Numbers, fields: Fields, left: Operand, op: Comparison, right: Operand)
    requires IsFloatOperation(op)
    requires (forall v :: !HasNumber(num, fields, left, v)) || (forall v :: !HasNumber(num, fields, right, v))
    ensures !Compares(num, fields, left, op, right)
  {
    Compared(num, fields, left, op, right);
    var l, r := OperandFloat(num, fields, left), OperandFloat(num, fields, right);
    if l.Some? && r.Some? {
      assert HasNumber(num, fields, left, l.value) && HasNumber(num, fields, right, r.value);
    }
  }

  predicate Around(l: string, a: string, r: string, b: string) {
    l == a + r + b
  }

  lemma ComparesTexts(num: Numbers, fields: Fields, left: Operand, op: Comparison, right: Operand, l: string, r: string)
    requires HasText(fields, left, l) && HasText(fields, right, r) && !IsFloatOperation(op)
    ensures Compares(num, fields, left, op, right) <==> StringClause(op, l, r)
  {
    Compared(num, fields, left, op, right);
  }

  /** The comparisons of texts, in terms of concatenation. */
  lemma TextsCompare(num: Numbers, fields: Fields, left: Operand, right: Operand, l: string, r: string)
    requires HasText(fields, left, l) && HasText(fields, right, r)
    ensures Compares(num, fields, left, StringEq, right) <==> l == r
    ensures Compares(num, fields, left, StringContains, right) <==> exists a, b :: Around(l, a, r, b)
    ensures Compares(num, fields, left, StringHasPrefix, right) <==> exists b :: Around(l, "", r, b)
    ensures Compares(num, fields, left, StringHasSuffix, right) <==> exists a :: Around(l, a, r, "")
  {
    ComparesTexts(num, fields, left, StringEq, right, l, r);
    ComparesTexts(num, fields, left, StringContains, right, l, r);
    ComparesTexts(num, fields, left, StringHasPrefix, right, l, r);
    ComparesTexts(num, fields, left, StringHasSuffix, right, l, r);
    ContainsMeans(l, r);
    PrefixMeans(l, r);
    SuffixMeans(l, r);
  }

  function Negation(op: Comparison): Comparison
    requires op in {StringEq, StringContains, StringHasPrefix, StringHasSuffix}
  {
    match op
    case StringEq => StringNe
    case StringContains => StringNotContains
    case StringHasPrefix => StringNotHasPrefix
    case _ => StringNotHasSuffix
  }

  /** The negated comparisons are the complements, on operands that both have a text. */
  lemma NegationsAreComplements(num: Numbers, fields: Fields, left: Operand, op: Comparison, right: Operand, l: string, r: string)
    requires HasText(fields, left, l) && HasText(fields, right, r)
    requires op in {StringEq, StringContains, StringHasPrefix, StringHasSuffix}
    ensures Compares(num, fields, left, Negation(op), right) <==> !Compares(num, fields, left, op, right)
  {
    ComparesTexts(num, fields, left, op, right, l, r);
    ComparesTexts(num, fields, left, Negation(op), right, l, r);
  }

  lemma ContainsMeans(l: string, r: string)
    ensures Contains(l, r) <==> exists a, b :: Around(l, a, r, b)
  {
    if Contains(l, r) {
      var i :| 0 <= i <= |l| && r <= l[i..];
      assert l[i..] == r + l[i + |r|..];
      assert Around(l, l[..i], r, l[i + |r|..]);
    }
    if a, b :| Around(l, a, r, b) {
      assert l[|a|..] == r + b;
    }
  }

  lemma PrefixMeans(l: string, r: string)
    ensures r <= l <==> exists b :: Around(l, "", r, b)
  {
    if r <= l {
      assert Around(l, "", r, l[|r|..]);
    }
    if b :| Around(l, "", r, b) {
      assert l == r + b;
    }
  }

  lemma SuffixMeans(l: string, r: string)
    ensures HasSuffix(l, r) <==> exists a :: Around(l, a, r, "")
  {
    if HasSuffix(l, r) {
      assert Around(l, l[..|l| - |r|], r, "");
    }
    if a :| Around(l, a, r, "") {
      assert l == a + r;
    }
  }

  lemma TextIsMissing(num: Numbers, fields: Fields, left: Operand, op: Comparison, right: Operand)
    requires !IsFloatOperation(op)
    requires (forall v :: !HasText(fields, left, v)) || (forall v :: !HasText(fields, right, v))
    ensures !Compares(num, fields, left, op, right)
  {
    Compared(num, fields, left, op, right);
    var l, r := OperandString(fields, left), OperandString(fields, right);
    if l.Some? && r.Some? {
      assert HasText(fields, left, l.value) && HasText(fields, right, r.value);
    }
  }

  // ---------------------------------------------------------------- the group key

  /** The group-by values of a line, a missing one empty. */
  function Values(groupBy: seq<string>, fields: Fields): seq<string> {
    seq(|groupBy|, i requires 0 <= i < |groupBy| => if groupBy[i] in fields then fields[groupBy[i]] else "")
  }

  predicate CommaFree(values: seq<string>) {
    forall i :: 0 <= i < |values| ==> ',' !in values[i]
  }

  lemma {:induction false} SplitAppend(s: string, d: char, last: string)
    requires d !in last
    ensures Split(s + [d] + last, d) == Split(s, d) + [last]
  {
    if s == "" {
      assert s + [d] + last == [d] + last;
      SplitFirst("", d, last);
      SplitLast(last, d);
    } else {
      SplitAppend(s[1..], d, last);
      assert (s + [d] + last)[1..] == s[1..] + [d] + last;
    }
  }

  lemma {:induction false} SplitIsFree(s: string, d: char)
    ensures forall i :: 0 <= i < |Split(s, d)| ==> d !in Split(s, d)[i]
  {
    if s != "" {
      SplitIsFree(s[1..], d);
    }
  }

  /** A group key can be taken apart again, into the group-by values in their order, if and only if no value
      holds a comma; so lines share a group exactly when their values agree, as long as none does. */
  lemma GroupKeyReadsBack(groupBy: seq<string>, fields: Fields)
    requires groupBy != []
    ensures Split(GroupKey(groupBy, fields), ',') == Values(groupBy, fields) <==> CommaFree(Values(groupBy, fields))
  {
    if CommaFree(Values(groupBy, fields)) {
      GroupKeySplits(groupBy, fields);
    } else {
      SplitIsFree(GroupKey(groupBy, fields), ',');
    }
  }

  lemma {:induction false} GroupKeySplits(groupBy: seq<string>, fields: Fields)
    requires groupBy != [] && CommaFree(Values(groupBy, fields))
    ensures Split(GroupKey(groupBy, fields), ',') == Values(groupBy, fields)
  {
    var n := |groupBy| - 1;
    var last := Values(groupBy, fields)[n];
    if n == 0 {
      SplitLast(last, ',');
    } else {
      var init := Values(groupBy[..n], fields);
      assert Values(groupBy, fields) == init + [last];
      assert forall i :: 0 <= i < n ==> init[i] == Values(groupBy, fields)[i];
      GroupKeySplits(groupBy[..n], fields);
      SplitAppend(GroupKey(groupBy[..n], fields), ',', last);
      assert GroupKey(groupBy, fields) == GroupKey(groupBy[..n], fields) + [','] + last;
    }
  }

  /** Two lines of comma-free values are in one group if and only if they agree on every group-by field. */
  lemma SameGroupIff(groupBy: seq<string>, a: Fields, b: Fields)
    requires CommaFree(Values(groupBy, a)) && CommaFree(Values(groupBy, b))
    ensures GroupKey(groupBy, a) == GroupKey(groupBy, b) <==> Values(groupBy, a) == Values(groupBy, b)
  {
    if groupBy != [] {
      GroupKeySplits(groupBy, a);
      GroupKeySplits(groupBy, b);
      if Values(groupBy, a) == Values(groupBy, b) {
        SameValues(groupBy, a, b);
      }
    }
  }

  lemma {:induction false} SameValues(groupBy: seq<string>, a: Fields, b: Fields)
    requires Values(groupBy, a) == Values(groupBy, b)
    ensures GroupKey(groupBy, a) == GroupKey(groupBy, b)
  {
    if groupBy != [] {
      var n := |groupBy| - 1;
      assert Values(groupBy[..n], a) == Values(groupBy, a)[..n] == Values(groupBy, b)[..n] == Values(groupBy[..n], b);
      assert Values(groupBy, a)[n] == Values(groupBy, b)[n];
      SameValues(groupBy[..n], a, b);
    }
  }

  /** A comma in a value can make two different groups one. */
  lemma CommaMergesGroups(first: string, second: string, a: Fields, b: Fields)
    requires first != second
    requires a == map[first := "a,b", second := "c"] && b == map[first := "a", second := "b,c"]
    ensures GroupKey([first, second], a) == GroupKey([first, second], b) == "a,b,c"
    ensures Values([first, second], a) != Values([first, second], b)
  {
    var groupBy := [first, second];
    assert groupBy[..1] == [first];
    assert Values(groupBy, a)[0] == "a,b" && Values(groupBy, b)[0] == "a";
  }
}
