/** What the aggregate functions compute over a group's lines, said without the folds and the maps. */
module AggregateMeanings {
  import opened Wrappers
  import opened AggregateSets
  import opened Groups
  import opened Utf8

  /** The numbers that the lines carry in a field, in order; texts that do not parse are skipped. */
  function NumbersIn(num: Numbers, field: string, rows: seq<Fields>): seq<real> {
    if rows == [] then []
    else
      var init, row := NumbersIn(num, field, rows[..|rows| - 1]), rows[|rows| - 1];
      if field in row && num.parse(row[field]).Some? then init + [num.parse(row[field]).value] else init
  }

  function SumOf(values: seq<real>): real {
    if values == [] then 0.0 else SumOf(values[..|values| - 1]) + values[|values| - 1]
  }

  predicate AtMostAll(v: real, values: seq<real>) {
    forall i :: 0 <= i < |values| ==> v <= values[i]
  }

  predicate AtLeastAll(v: real, values: seq<real>) {
    forall i :: 0 <= i < |values| ==> v >= values[i]
  }

  /** The lines that have a field. */
  function Having(field: string, rows: seq<Fields>): set<nat> {
    set i: nat | i < |rows| && field in rows[i]
  }

  ghost predicate IsLastHaving(field: string, rows: seq<Fields>, i: nat) {
    i < |rows| && field in rows[i] && forall j :: i < j < |rows| ==> field !in rows[j]
  }

  /** The cell that a query shows for an entry over the lines of a group. */
  function Result(num: Numbers, select: seq<Entry>, j: nat, rows: seq<Fields>): Cell
    requires j < |select|
  {
    CellAt(Fold(num, select, rows), select[j].storage)
  }

  lemma {:induction false} ExtremeMeans(num: Numbers, e: Entry, rows: seq<Fields>)
    requires e.op.Min? || e.op.Max?
    ensures var values, c := NumbersIn(num, e.field, rows), CellFold(num, e, rows);
            && c.s.None? && (c.f.Some? <==> values != [])
            && (c.f.Some? ==> c.f.value in values)
            && (c.f.Some? ==> if e.op.Min? then AtMostAll(c.f.value, values) else AtLeastAll(c.f.value, values))
  {
    if rows != [] {
      ExtremeMeans(num, e, rows[..|rows| - 1]);
    }
  }

  /** min() is the least of the numbers and one of them, max() the greatest. */
  lemma MinIsLeast(num: Numbers, select: seq<Entry>, j: nat, rows: seq<Fields>)
    requires Distinct(select) && j < |select| && (select[j].op.Min? || select[j].op.Max?)
    ensures var values, c := NumbersIn(num, select[j].field, rows), Result(num, select, j, rows);
            if values == [] then c == Cell(None, None)
            else
              && c.s.None? && c.f.Some? && c.f.value in values
              && if select[j].op.Min? then AtMostAll(c.f.value, values) else AtLeastAll(c.f.value, values)
  {
    FoldCell(num, select, rows, j);
    ExtremeMeans(num, select[j], rows);
  }

  lemma {:induction false} SumMeans(num: Numbers, e: Entry, rows: seq<Fields>)
    requires SumLike(e.op) && !e.op.Count?
    ensures var values, c := NumbersIn(num, e.field, rows), CellFold(num, e, rows);
            c.s.None? && (c.f.Some? <==> values != []) && Read(c).f == SumOf(values)
  {
    if rows != [] {
      SumMeans(num, e, rows[..|rows| - 1]);
    }
  }

  /** sum(), and what avg() and percentage() divide, is the sum of the numbers. */
  lemma SumIsSum(num: Numbers, select: seq<Entry>, j: nat, rows: seq<Fields>)
    requires Distinct(select) && j < |select| && SumLike(select[j].op) && !select[j].op.Count?
    ensures Read(Result(num, select, j, rows)) == Reading(SumOf(NumbersIn(num, select[j].field, rows)), "")
  {
    FoldCell(num, select, rows, j);
    SumMeans(num, select[j], rows);
  }

  lemma HavingGrows(field: string, rows: seq<Fields>)
    requires rows != []
    ensures var n := |rows| - 1;
            |Having(field, rows)| == |Having(field, rows[..n])| + if field in rows[n] then 1 else 0
  {
    var n := |rows| - 1;
    var before := Having(field, rows[..n]);
    assert n !in before;
    assert Having(field, rows) == if field in rows[n] then before + {n} else before;
  }

  lemma {:induction false} CountMeans(num: Numbers, e: Entry, rows: seq<Fields>)
    requires e.op.Count?
    ensures var c := CellFold(num, e, rows);
            c.s.None? && Read(c).f == |Having(e.field, rows)| as real
  {
    if rows != [] {
      CountMeans(num, e, rows[..|rows| - 1]);
      HavingGrows(e.field, rows);
    }
  }

  /** count() is the number of lines that have the field, whatever its text. */
  lemma CountIsCount(num: Numbers, select: seq<Entry>, j: nat, rows: seq<Fields>)
    requires Distinct(select) && j < |select| && select[j].op.Count?
    ensures Read(Result(num, select, j, rows)) == Reading(|Having(select[j].field, rows)| as real, "")
  {
    FoldCell(num, select, rows, j);
    CountMeans(num, select[j], rows);
  }

  lemma {:induction false} LastMeans(num: Numbers, e: Entry, rows: seq<Fields>, i: nat)
    requires (e.op.Last? || e.op.Len?) && IsLastHaving(e.field, rows, i)
    ensures CellFold(num, e, rows)
            == Cell(if e.op.Len? then Some(ByteLen(rows[i][e.field]) as real) else None, Some(rows[i][e.field]))
  {
    var n := |rows| - 1;
    if i < n {
      LastMeans(num, e, rows[..n], i);
    }
  }

  /** last() is the text of the last line that has the field, and len() the length of its UTF-8 form. */
  lemma LastIsLast(num: Numbers, select: seq<Entry>, j: nat, rows: seq<Fields>, i: nat)
    requires Distinct(select) && j < |select| && (select[j].op.Last? || select[j].op.Len?)
    requires IsLastHaving(select[j].field, rows, i)
    ensures var text := rows[i][select[j].field];
            Read(Result(num, select, j, rows)) == Reading(if select[j].op.Len? then |EncodeAll(text)| as real else 0.0, text)
  {
    FoldCell(num, select, rows, j);
    LastMeans(num, select[j], rows, i);
    ByteLenIsLength(rows[i][select[j].field]);
  }

  predicate GivesValue(num: Numbers, select: seq<Entry>, row: Fields) {
    exists j :: 0 <= j < |select| && EntryGivesValue(num, select[j], row)
  }

  predicate EntryGivesValue(num: Numbers, e: Entry, row: Fields) {
    e.field in row && (TakesText(e.op) || num.parse(row[e.field]).Some?)
  }

  function Sampling(num: Numbers, select: seq<Entry>, rows: seq<Fields>): set<nat> {
    set i: nat | i < |rows| && GivesValue(num, select, rows[i])
  }

  lemma GivesIsContributes(num: Numbers, select: seq<Entry>, row: Fields)
    ensures GivesValue(num, select, row) <==> exists i :: 0 <= i < |select| && Contributes(num, select[i], row, false)
  {
    assert forall i :: 0 <= i < |select| ==> (EntryGivesValue(num, select[i], row) <==> Contributes(num, select[i], row, false));
  }

  lemma SamplingGrows(num: Numbers, select: seq<Entry>, rows: seq<Fields>)
    requires rows != []
    ensures var n := |rows| - 1;
            |Sampling(num, select, rows)|
            == |Sampling(num, select, rows[..n])| + if GivesValue(num, select, rows[n]) then 1 else 0
  {
    var n := |rows| - 1;
    var before := Sampling(num, select, rows[..n]);
    assert n !in before;
    assert Sampling(num, select, rows) == if GivesValue(num, select, rows[n]) then before + {n} else before;
  }

  /** The sample count is the number of lines that give some entry of the query a value. */
  lemma {:induction false} SamplesCount(num: Numbers, select: seq<Entry>, rows: seq<Fields>)
    requires Distinct(select)
    ensures Fold(num, select, rows).samples == |Sampling(num, select, rows)|
  {
    if rows != [] {
      var n := |rows| - 1;
      SamplesCount(num, select, rows[..n]);
      SamplesStep(num, select, rows[..n], rows[n]);
      GivesIsContributes(num, select, rows[n]);
      SamplingGrows(num, select, rows);
    }
  }
}
