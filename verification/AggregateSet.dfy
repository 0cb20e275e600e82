/** Aggregate sets (internal/mapr/aggregateset.go) and the server's re-merge of an unsent snapshot
    (internal/mapr/server/aggregate.go). Numbers are exact reals; reading and printing a float are
    parameters. */
module AggregateSets {
  import opened Wrappers

  datatype Operation = Count | Sum | Min | Max | Last | Avg | Len | Percentage | Percentile

  /** One entry of the select clause. */
  datatype Entry = Entry(field: string, storage: string, op: Operation)

  type Fields = map<string, string>

  /** strconv.ParseFloat (None: its error) and strconv.FormatFloat. */
  datatype Numbers = Numbers(parse: string -> Option<real>, format: real -> string)
  {
    ghost predicate RoundTrips(v: real) {
      parse(format(v)) == Some(v)
    }
  }

  datatype Summary = Summary(samples: int, floats: map<string, real>, strings: map<string, string>)

  const EMPTY := Summary(0, map[], map[])

  predicate SumLike(op: Operation) {
    op.Count? || op.Sum? || op.Avg? || op.Percentage? || op.Percentile?
  }

  ghost predicate Distinct(select: seq<Entry>) {
    forall i, j :: 0 <= i < j < |select| ==> select[i].storage != select[j].storage
  }

  /** Bytes that len() counts: the UTF-8 length. */
  function ByteLen(s: string): nat {
    if s == [] then 0
    else
      var c := s[|s| - 1] as int;
      ByteLen(s[..|s| - 1]) + if c < 0x80 then 1 else if c < 0x800 then 2 else if c < 0x10000 then 3 else 4
  }

  function FloatAt(m: map<string, real>, key: string): real {
    if key in m then m[key] else 0.0
  }

  function StringAt(m: map<string, string>, key: string): string {
    if key in m then m[key] else ""
  }

  // ---------------------------------------------------------------- the operations on one storage

  function AddFloat(m: map<string, real>, key: string, v: real): map<string, real> {
    m[key := if key in m then m[key] + v else v]
  }

  function AddFloatMin(m: map<string, real>, key: string, v: real): map<string, real> {
    m[key := if key in m && m[key] <= v then m[key] else v]
  }

  function AddFloatMax(m: map<string, real>, key: string, v: real): map<string, real> {
    m[key := if key in m && m[key] >= v then m[key] else v]
  }

  /** Aggregate one value; None stands for the parse error that leaves the set as it was. */
  function Aggregate(num: Numbers, s: Summary, e: Entry, value: string, client: bool): Option<Summary> {
    if e.op.Count? && !client then Some(s.(floats := AddFloat(s.floats, e.storage, 1.0)))
    else if e.op.Last? then Some(s.(strings := s.strings[e.storage := value]))
    else if e.op.Len? then
      Some(s.(strings := s.strings[e.storage := value], floats := s.floats[e.storage := ByteLen(value) as real]))
    else
      match num.parse(value)
      case None => None
      case Some(f) =>
        Some(s.(floats := if e.op.Min? then AddFloatMin(s.floats, e.storage, f)
                          else if e.op.Max? then AddFloatMax(s.floats, e.storage, f)
                          else AddFloat(s.floats, e.storage, f)))
  }

  function MergeEntry(s: Summary, e: Entry, t: Summary): Summary {
    var f, v := FloatAt(t.floats, e.storage), StringAt(t.strings, e.storage);
    match e.op
    case Min => s.(floats := AddFloatMin(s.floats, e.storage, f))
    case Max => s.(floats := AddFloatMax(s.floats, e.storage, f))
    case Last => s.(strings := s.strings[e.storage := v])
    case Len => s.(strings := s.strings[e.storage := v], floats := s.floats[e.storage := f])
    case _ => s.(floats := AddFloat(s.floats, e.storage, f))
  }

  /** mergeCancelledSnapshot for one entry: the live value is the newer one. */
  function RemergeEntry(live: Summary, e: Entry, snap: Summary): Summary {
    var f := FloatAt(snap.floats, e.storage);
    match e.op
    case Min => live.(floats := AddFloatMin(live.floats, e.storage, f))
    case Max => live.(floats := AddFloatMax(live.floats, e.storage, f))
    case Last =>
      if e.storage in live.strings || e.storage !in snap.strings then live
      else live.(strings := live.strings[e.storage := snap.strings[e.storage]])
    case Len =>
      if e.storage in live.strings || e.storage !in snap.strings then live
      else live.(strings := live.strings[e.storage := snap.strings[e.storage]],
                 floats := live.floats[e.storage := f])
    case _ => live.(floats := live.floats[e.storage := FloatAt(live.floats, e.storage) + f])
  }

  // ---------------------------------------------------------------- the loops over the select clause

  /** Aggregates the first n entries; the flag tells whether any of them took a value. */
  function AggregateUpTo(num: Numbers, select: seq<Entry>, n: nat, s: Summary, row: Fields, client: bool): (Summary, bool)
    requires n <= |select|
  {
    if n == 0 then (s, false)
    else
      var (t, added) := AggregateUpTo(num, select, n - 1, s, row, client);
      var e := select[n - 1];
      var key := if client then e.storage else e.field;
      if key !in row then (t, added)
      else
        match Aggregate(num, t, e, row[key], client)
        case None => (t, added)
        case Some(u) => (u, true)
  }

  /** One accepted line on the server, or one message with its sample count on the client. */
  function AddRow(num: Numbers, select: seq<Entry>, s: Summary, row: Fields, samples: int, client: bool): Summary {
    var (t, added) := AggregateUpTo(num, select, |select|, s, row, client);
    if added then t.(samples := t.samples + samples) else t
  }

  function MergeUpTo(select: seq<Entry>, n: nat, s: Summary, t: Summary): Summary
    requires n <= |select|
  {
    if n == 0 then s.(samples := s.samples + t.samples)
    else MergeEntry(MergeUpTo(select, n - 1, s, t), select[n - 1], t)
  }

  function Merge(select: seq<Entry>, s: Summary, t: Summary): Summary {
    MergeUpTo(select, |select|, s, t)
  }

  function RemergeUpTo(select: seq<Entry>, n: nat, live: Summary, snap: Summary): Summary
    requires n <= |select|
  {
    if n == 0 then live.(samples := live.samples + snap.samples)
    else RemergeEntry(RemergeUpTo(select, n - 1, live, snap), select[n - 1], snap)
  }

  function Remerge(select: seq<Entry>, live: Summary, snap: Summary): Summary {
    RemergeUpTo(select, |select|, live, snap)
  }

  /** The aggregate of the accepted lines of one group, in order. */
  function Fold(num: Numbers, select: seq<Entry>, rows: seq<Fields>): Summary {
    if rows == [] then EMPTY
    else AddRow(num, select, Fold(num, select, rows[..|rows| - 1]), rows[|rows| - 1], 1, false)
  }

  // ---------------------------------------------------------------- cells: what one storage holds

  datatype Cell = Cell(f: Option<real>, s: Option<string>)

  function CellAt(s: Summary, storage: string): Cell {
    Cell(if storage in s.floats then Some(s.floats[storage]) else None,
         if storage in s.strings then Some(s.strings[storage]) else None)
  }

  /** What a result shows of a cell: an absent value reads as zero or as the empty string. */
  datatype Reading = Reading(f: real, s: string)

  function Read(c: Cell): Reading {
    Reading(if c.f.Some? then c.f.value else 0.0, if c.s.Some? then c.s.value else "")
  }

  function Better(op: Operation, x: real, y: real): real {
    if op.Min? then (if x <= y then x else y)
    else if op.Max? then (if x >= y then x else y)
    else x + y
  }

  /** The monoid every operation forms when an absent value is its unit: sums, extrema, newer wins. */
  function Combine(op: Operation, x: Cell, y: Cell): Cell {
    if op.Last? || op.Len? then (if y.s.Some? then y else x)
    else if x.f.None? then y
    else if y.f.None? then x
    else Cell(Some(Better(op, x.f.value, y.f.value)), None)
  }

  /** What one value is worth to an operation, before anything is stored. */
  function Contribution(num: Numbers, e: Entry, row: Fields, client: bool): Cell {
    var key := if client then e.storage else e.field;
    if key !in row then Cell(None, None)
    else if e.op.Count? && !client then Cell(Some(1.0), None)
    else if e.op.Last? then Cell(None, Some(row[key]))
    else if e.op.Len? then Cell(Some(ByteLen(row[key]) as real), Some(row[key]))
    else Cell(num.parse(row[key]), None)
  }

  predicate Contributes(num: Numbers, e: Entry, row: Fields, client: bool) {
    Contribution(num, e, row, client) != Cell(None, None)
  }

  /** The meaning of one entry over a sequence of lines, without any maps. */
  function CellFold(num: Numbers, e: Entry, rows: seq<Fields>): Cell {
    if rows == [] then Cell(None, None)
    else Combine(e.op, CellFold(num, e, rows[..|rows| - 1]), Contribution(num, e, rows[|rows| - 1], false))
  }

  /** Which halves of a cell an operation uses. */
  ghost predicate Shaped(op: Operation, c: Cell) {
    if op.Last? then c.f.None?
    else if op.Len? then (c.f.Some? <==> c.s.Some?) && (c.s.Some? ==> c.f == Some(ByteLen(c.s.value) as real))
    else c.s.None?
  }

  // ---------------------------------------------------------------- each operation acts cell by cell

  lemma AggregateCell(num: Numbers, s: Summary, e: Entry, row: Fields, client: bool)
    requires (if client then e.storage else e.field) in row
    requires Shaped(e.op, CellAt(s, e.storage))
    ensures var v := row[if client then e.storage else e.field];
            var r := Aggregate(num, s, e, v, client);
            var c := Contribution(num, e, row, client);
            && (r.Some? <==> Contributes(num, e, row, client))
            && (r.Some? ==>
                  && CellAt(r.value, e.storage) == Combine(e.op, CellAt(s, e.storage), c)
                  && r.value.samples == s.samples
                  && forall k :: k != e.storage ==> CellAt(r.value, k) == CellAt(s, k))
  {
  }

  /** t is s after the first n entries took a row's contributions, and `added` tells whether any did. */
  ghost predicate CellsUpTo(num: Numbers, select: seq<Entry>, n: nat, s: Summary, row: Fields, client: bool, t: Summary, added: bool)
    requires n <= |select|
  {
    && t.samples == s.samples
    && (added <==> exists i :: 0 <= i < n && Contributes(num, select[i], row, client))
    && (forall i :: 0 <= i < n ==>
          CellAt(t, select[i].storage)
          == Combine(select[i].op, CellAt(s, select[i].storage), Contribution(num, select[i], row, client)))
    && (forall k :: (forall i :: 0 <= i < n ==> select[i].storage != k) ==> CellAt(t, k) == CellAt(s, k))
  }

  lemma CellsStep(num: Numbers, select: seq<Entry>, n: nat, s: Summary, row: Fields, client: bool, t: Summary, added: bool, u: Summary)
    requires Distinct(select) && n < |select| && CellsUpTo(num, select, n, s, row, client, t, added)
    requires EntryTaken(num, select[n], row, client, t, u)
    ensures CellsUpTo(num, select, n + 1, s, row, client, u, added || Contributes(num, select[n], row, client))
  {
    assert CellAt(t, select[n].storage) == CellAt(s, select[n].storage);
  }

  /** One entry takes its contribution and leaves every other storage alone. */
  ghost predicate EntryTaken(num: Numbers, e: Entry, row: Fields, client: bool, t: Summary, u: Summary) {
    && u.samples == t.samples
    && CellAt(u, e.storage) == Combine(e.op, CellAt(t, e.storage), Contribution(num, e, row, client))
    && forall k :: k != e.storage ==> CellAt(u, k) == CellAt(t, k)
  }

  lemma AggregateOneMore(num: Numbers, select: seq<Entry>, n: nat, s: Summary, row: Fields, client: bool)
    requires n < |select|
    requires Shaped(select[n].op, CellAt(AggregateUpTo(num, select, n, s, row, client).0, select[n].storage))
    ensures var (t, added) := AggregateUpTo(num, select, n, s, row, client);
            var (u, more) := AggregateUpTo(num, select, n + 1, s, row, client);
            EntryTaken(num, select[n], row, client, t, u) && more == (added || Contributes(num, select[n], row, client))
  {
    var e := select[n];
    if (if client then e.storage else e.field) in row {
      AggregateCell(num, AggregateUpTo(num, select, n, s, row, client).0, e, row, client);
    }
  }

  lemma {:induction false} AggregateUpToCells(num: Numbers, select: seq<Entry>, n: nat, s: Summary, row: Fields, client: bool)
    requires Distinct(select) && n <= |select|
    requires forall i :: 0 <= i < |select| ==> Shaped(select[i].op, CellAt(s, select[i].storage))
    ensures var (t, added) := AggregateUpTo(num, select, n, s, row, client);
            CellsUpTo(num, select, n, s, row, client, t, added)
  {
    if n > 0 {
      var m := n - 1;
      AggregateUpToCells(num, select, m, s, row, client);
      var (t, added) := AggregateUpTo(num, select, m, s, row, client);
      assert CellAt(t, select[m].storage) == CellAt(s, select[m].storage);
      AggregateOneMore(num, select, m, s, row, client);
      CellsStep(num, select, m, s, row, client, t, added, AggregateUpTo(num, select, n, s, row, client).0);
    }
  }

  /** One line moves every selected cell by exactly that line's contribution. */
  lemma AddRowCell(num: Numbers, select: seq<Entry>, s: Summary, row: Fields, samples: int, client: bool, j: nat)
    requires Distinct(select) && j < |select|
    requires forall i :: 0 <= i < |select| ==> Shaped(select[i].op, CellAt(s, select[i].storage))
    ensures var t := AddRow(num, select, s, row, samples, client);
            && CellAt(t, select[j].storage)
               == Combine(select[j].op, CellAt(s, select[j].storage), Contribution(num, select[j], row, client))
            && t.samples == s.samples
               + if exists i :: 0 <= i < |select| && Contributes(num, select[i], row, client) then samples else 0
  {
    AggregateUpToCells(num, select, |select|, s, row, client);
  }

  lemma ShapedCombine(num: Numbers, e: Entry, x: Cell, row: Fields, client: bool)
    requires Shaped(e.op, x)
    ensures Shaped(e.op, Contribution(num, e, row, client))
    ensures Shaped(e.op, Combine(e.op, x, Contribution(num, e, row, client)))
  {
  }

  /** The maps hold exactly what the cells mean, for every selected entry and any number of lines. */
  lemma {:induction false} FoldCell(num: Numbers, select: seq<Entry>, rows: seq<Fields>, j: nat)
    requires Distinct(select) && j < |select|
    ensures CellAt(Fold(num, select, rows), select[j].storage) == CellFold(num, select[j], rows)
    ensures Shaped(select[j].op, CellFold(num, select[j], rows))
  {
    if rows != [] {
      var init, row := rows[..|rows| - 1], rows[|rows| - 1];
      forall i | 0 <= i < |select|
        ensures Shaped(select[i].op, CellAt(Fold(num, select, init), select[i].storage))
        ensures i == j ==> CellAt(Fold(num, select, init), select[i].storage) == CellFold(num, select[i], init)
      {
        FoldCell(num, select, init, i);
      }
      AddRowCell(num, select, Fold(num, select, init), row, 1, false, j);
      ShapedCombine(num, select[j], CellFold(num, select[j], init), row, false);
    }
  }

  lemma {:induction false} CellFoldSplit(num: Numbers, e: Entry, xs: seq<Fields>, ys: seq<Fields>)
    ensures CellFold(num, e, xs + ys) == Combine(e.op, CellFold(num, e, xs), CellFold(num, e, ys))
    ensures Shaped(e.op, CellFold(num, e, ys))
    decreases |ys|
  {
    if ys == [] {
      assert xs + ys == xs;
    } else {
      var n := |ys| - 1;
      CellFoldSplit(num, e, xs, ys[..n]);
      CellFoldShaped(num, e, xs);
      assert (xs + ys)[..|xs + ys| - 1] == xs + ys[..n];
      ShapedCombine(num, e, CellFold(num, e, ys[..n]), ys[n], false);
      Associative(e.op, CellFold(num, e, xs), CellFold(num, e, ys[..n]), Contribution(num, e, ys[n], false));
    }
  }

  lemma {:induction false} CellFoldShaped(num: Numbers, e: Entry, xs: seq<Fields>)
    ensures Shaped(e.op, CellFold(num, e, xs))
  {
    if xs != [] {
      CellFoldShaped(num, e, xs[..|xs| - 1]);
      ShapedCombine(num, e, CellFold(num, e, xs[..|xs| - 1]), xs[|xs| - 1], false);
    }
  }

  lemma Associative(op: Operation, x: Cell, y: Cell, z: Cell)
    requires Shaped(op, x) && Shaped(op, y) && Shaped(op, z)
    ensures Combine(op, Combine(op, x, y), z) == Combine(op, x, Combine(op, y, z))
  {
  }

  /** The merge step on cells: the second cell is read with its default. */
  function MergeCell(op: Operation, x: Cell, y: Cell): Cell {
    if op.Last? then x.(s := Some(Read(y).s))
    else if op.Len? then Cell(Some(Read(y).f), Some(Read(y).s))
    else if x.f.None? then x.(f := Some(Read(y).f))
    else x.(f := Some(Better(op, x.f.value, Read(y).f)))
  }

  function RemergeCell(op: Operation, live: Cell, snap: Cell): Cell {
    if op.Last? then (if live.s.Some? then live else live.(s := snap.s))
    else if op.Len? then (if live.s.Some? || snap.s.None? then live else Cell(Some(Read(snap).f), snap.s))
    else if live.f.None? then live.(f := Some(Read(snap).f))
    else live.(f := Some(Better(op, live.f.value, Read(snap).f)))
  }

  lemma MergeEntryCell(s: Summary, e: Entry, t: Summary, k: string)
    ensures CellAt(MergeEntry(s, e, t), k)
            == if k == e.storage then MergeCell(e.op, CellAt(s, k), CellAt(t, k)) else CellAt(s, k)
    ensures MergeEntry(s, e, t).samples == s.samples
  {
  }

  lemma RemergeEntryCell(live: Summary, e: Entry, snap: Summary, k: string)
    ensures CellAt(RemergeEntry(live, e, snap), k)
            == if k == e.storage then RemergeCell(e.op, CellAt(live, k), CellAt(snap, k)) else CellAt(live, k)
    ensures RemergeEntry(live, e, snap).samples == live.samples
  {
  }

  lemma {:induction false} MergeCells(select: seq<Entry>, n: nat, s: Summary, t: Summary, j: nat)
    requires Distinct(select) && j < |select| && n <= |select|
    ensures var r, k := MergeUpTo(select, n, s, t), select[j].storage;
            && r.samples == s.samples + t.samples
            && CellAt(r, k) == if j < n then MergeCell(select[j].op, CellAt(s, k), CellAt(t, k)) else CellAt(s, k)
  {
    if n > 0 {
      MergeCells(select, n - 1, s, t, j);
      MergeEntryCell(MergeUpTo(select, n - 1, s, t), select[n - 1], t, select[j].storage);
    }
  }

  lemma {:induction false} RemergeCells(select: seq<Entry>, n: nat, live: Summary, snap: Summary, j: nat)
    requires Distinct(select) && j < |select| && n <= |select|
    ensures var r, k := RemergeUpTo(select, n, live, snap), select[j].storage;
            && r.samples == live.samples + snap.samples
            && CellAt(r, k)
               == if j < n then RemergeCell(select[j].op, CellAt(live, k), CellAt(snap, k)) else CellAt(live, k)
  {
    if n > 0 {
      RemergeCells(select, n - 1, live, snap, j);
      RemergeEntryCell(RemergeUpTo(select, n - 1, live, snap), select[n - 1], snap, select[j].storage);
    }
  }

  lemma {:induction false} SamplesSplit(num: Numbers, select: seq<Entry>, xs: seq<Fields>, ys: seq<Fields>)
    requires Distinct(select)
    ensures Fold(num, select, xs + ys).samples == Fold(num, select, xs).samples + Fold(num, select, ys).samples
    decreases |ys|
  {
    if ys == [] {
      assert xs + ys == xs;
    } else {
      var n := |ys| - 1;
      SamplesSplit(num, select, xs, ys[..n]);
      assert (xs + ys)[..|xs + ys| - 1] == xs + ys[..n];
      SamplesStep(num, select, xs + ys[..n], ys[n]);
      SamplesStep(num, select, ys[..n], ys[n]);
    }
  }

  lemma SamplesStep(num: Numbers, select: seq<Entry>, xs: seq<Fields>, row: Fields)
    requires Distinct(select)
    ensures AddRow(num, select, Fold(num, select, xs), row, 1, false).samples
            == Fold(num, select, xs).samples
               + if exists i :: 0 <= i < |select| && Contributes(num, select[i], row, false) then 1 else 0
  {
    forall i | 0 <= i < |select|
      ensures Shaped(select[i].op, CellAt(Fold(num, select, xs), select[i].storage))
    {
      FoldCell(num, select, xs, i);
    }
    AggregateUpToCells(num, select, |select|, Fold(num, select, xs), row, false);
  }

  // ---------------------------------------------------------------- when merging is aggregation

  /** A value the second set lacks is read as zero (or as ""), so merging it must not win. */
  predicate MergeSafe(op: Operation, x: Cell, y: Cell) {
    match op
    case Min => y.f.Some? || x.f.None? || x.f.value <= 0.0
    case Max => y.f.Some? || x.f.None? || x.f.value >= 0.0
    case Last => y.s.Some? || x.s.None? || x.s.value == ""
    case Len => y.s.Some? || x.s.None? || x.s.value == ""
    case _ => true
  }

  /** The re-merge keeps a newer string, so only minima and maxima can be spoilt. */
  predicate RemergeSafe(op: Operation, snap: Cell, live: Cell) {
    match op
    case Min => snap.f.Some? || live.f.None? || live.f.value <= 0.0
    case Max => snap.f.Some? || live.f.None? || live.f.value >= 0.0
    case _ => true
  }

  lemma {:induction false} ByteLenZero(s: string)
    ensures ByteLen(s) == 0 <==> s == ""
  {
    if s != [] {
      ByteLenZero(s[..|s| - 1]);
    }
  }

  /** AggregateSet.Merge of the aggregates of two runs of lines is the aggregate of the concatenated
      lines, entry by entry, exactly when the entry is merge-safe. Sums, counts and averages always are. */
  lemma MergeIsConcatenation(num: Numbers, select: seq<Entry>, xs: seq<Fields>, ys: seq<Fields>, j: nat)
    requires Distinct(select) && j < |select|
    ensures var e := select[j];
            var merged := Merge(select, Fold(num, select, xs), Fold(num, select, ys));
            var whole := Fold(num, select, xs + ys);
            && merged.samples == whole.samples
            && (Read(CellAt(merged, e.storage)) == Read(CellAt(whole, e.storage))
                <==> MergeSafe(e.op, CellFold(num, e, xs), CellFold(num, e, ys)))
  {
    var e := select[j];
    FoldCell(num, select, xs, j);
    FoldCell(num, select, ys, j);
    FoldCell(num, select, xs + ys, j);
    CellFoldSplit(num, e, xs, ys);
    MergeCells(select, |select|, Fold(num, select, xs), Fold(num, select, ys), j);
    SamplesSplit(num, select, xs, ys);
    if CellFold(num, e, xs).s.Some? {
      ByteLenZero(CellFold(num, e, xs).s.value);
    }
  }

  /** Re-merging an unsent snapshot into the live set gives the aggregate of the snapshot's lines
      followed by the live lines: always for sums, counts, last() and len(), and for a minimum or a
      maximum exactly when the snapshot holds one or the live value wins against zero. */
  lemma RemergeIsConcatenation(num: Numbers, select: seq<Entry>, xs: seq<Fields>, ys: seq<Fields>, j: nat)
    requires Distinct(select) && j < |select|
    ensures var e := select[j];
            var merged := Remerge(select, Fold(num, select, ys), Fold(num, select, xs));
            var whole := Fold(num, select, xs + ys);
            && merged.samples == whole.samples
            && (Read(CellAt(merged, e.storage)) == Read(CellAt(whole, e.storage))
                <==> RemergeSafe(e.op, CellFold(num, e, xs), CellFold(num, e, ys)))
  {
    var e := select[j];
    FoldCell(num, select, xs, j);
    FoldCell(num, select, ys, j);
    FoldCell(num, select, xs + ys, j);
    CellFoldSplit(num, e, xs, ys);
    RemergeCells(select, |select|, Fold(num, select, ys), Fold(num, select, xs), j);
    SamplesSplit(num, select, xs, ys);
  }

  lemma {:induction false} CellFoldPresent(num: Numbers, e: Entry, rows: seq<Fields>, i: nat)
    requires i < |rows| && Contributes(num, e, rows[i], false)
    ensures CellFold(num, e, rows) != Cell(None, None)
  {
    var n := |rows| - 1;
    CellFoldShaped(num, e, rows[..n]);
    ShapedCombine(num, e, CellFold(num, e, rows[..n]), rows[n], false);
    if i < n {
      CellFoldPresent(num, e, rows[..n], i);
    }
  }

  /** A check on the lines alone that makes both merges exact: some line of the run that is read
      with a default carries the field. */
  lemma PresentIsSafe(num: Numbers, e: Entry, xs: seq<Fields>, ys: seq<Fields>, i: nat)
    requires i < |xs| && Contributes(num, e, xs[i], false)
    ensures MergeSafe(e.op, CellFold(num, e, ys), CellFold(num, e, xs))
    ensures RemergeSafe(e.op, CellFold(num, e, xs), CellFold(num, e, ys))
  {
    CellFoldPresent(num, e, xs, i);
    CellFoldShaped(num, e, xs);
  }

  /** The failing family is real: a group whose second server never saw the field loses its minimum. */
  lemma MergeLosesMinimum(num: Numbers)
    requires num.parse("5") == Some(5.0)
    ensures var select := [Entry("x", "min(x)", Min), Entry("y", "count(y)", Count)];
            var xs, ys := [map["x" := "5"]], [map["y" := "a"]];
            && Distinct(select)
            && Read(CellAt(Merge(select, Fold(num, select, xs), Fold(num, select, ys)), "min(x)"))
               != Read(CellAt(Fold(num, select, xs + ys), "min(x)"))
  {
    var select := [Entry("x", "min(x)", Min), Entry("y", "count(y)", Count)];
    var xs: seq<Fields>, ys: seq<Fields> := [map["x" := "5"]], [map["y" := "a"]];
    MergeIsConcatenation(num, select, xs, ys, 0);
    assert xs[..0] == [] && ys[..0] == [];
    assert CellFold(num, select[0], xs) == Cell(Some(5.0), None);
    assert CellFold(num, select[0], ys) == Cell(None, None);
  }

  // ---------------------------------------------------------------- the class

  /** AggregateSet, updated in place. */
  class AggregateSet {
    var samples: int
    var floats: map<string, real>
    var strings: map<string, string>

    ghost function View(): Summary
      reads this
    {
      Summary(samples, floats, strings)
    }

    constructor ()
      ensures View() == EMPTY
    {
      samples, floats, strings := 0, map[], map[];
    }

    method AggregateValue(num: Numbers, e: Entry, value: string, client: bool) returns (ok: bool)
      modifies this
      ensures var r := Aggregate(num, old(View()), e, value, client);
              ok == r.Some? && View() == if r.Some? then r.value else old(View())
    {
      if e.op.Count? && !client {
        floats := AddFloat(floats, e.storage, 1.0);
        return true;
      } else if e.op.Last? {
        strings := strings[e.storage := value];
        return true;
      } else if e.op.Len? {
        strings := strings[e.storage := value];
        floats := floats[e.storage := ByteLen(value) as real];
        return true;
      }
      var parsed := num.parse(value);
      if parsed.None? {
        return false;
      }
      if e.op.Min? {
        floats := AddFloatMin(floats, e.storage, parsed.value);
      } else if e.op.Max? {
        floats := AddFloatMax(floats, e.storage, parsed.value);
      } else {
        floats := AddFloat(floats, e.storage, parsed.value);
      }
      return true;
    }

    /** The server's loop over one accepted line (client == false, one sample) and the client's loop
        over one message (client == true). */
    method AggregateRow(num: Numbers, select: seq<Entry>, row: Fields, count: int, client: bool)
      modifies this
      ensures View() == AddRow(num, select, old(View()), row, count, client)
    {
      var added := false;
      for n := 0 to |select|
        invariant (View(), added) == AggregateUpTo(num, select, n, old(View()), row, client)
      {
        var e := select[n];
        var key := if client then e.storage else e.field;
        if key in row {
          var ok := AggregateValue(num, e, row[key], client);
          if ok {
            added := true;
          }
        }
      }
      if added {
        samples := samples + count;
      }
    }

    method MergeSet(select: seq<Entry>, set_: AggregateSet)
      requires set_ != this
      modifies this
      ensures View() == Merge(select, old(View()), set_.View())
    {
      samples := samples + set_.samples;
      for n := 0 to |select|
        invariant View() == MergeUpTo(select, n, old(View()), set_.View())
      {
        var e := select[n];
        var f, v := FloatAt(set_.floats, e.storage), StringAt(set_.strings, e.storage);
        match e.op
        case Min => floats := AddFloatMin(floats, e.storage, f);
        case Max => floats := AddFloatMax(floats, e.storage, f);
        case Last => strings := strings[e.storage := v];
        case Len =>
          strings := strings[e.storage := v];
          floats := floats[e.storage := f];
        case _ => floats := AddFloat(floats, e.storage, f);
      }
    }

    /** mergeCancelledSnapshot, with this set as the live one. */
    method MergeCancelledSnapshot(select: seq<Entry>, snapshot: AggregateSet)
      requires snapshot != this
      modifies this
      ensures View() == Remerge(select, old(View()), snapshot.View())
    {
      samples := samples + snapshot.samples;
      for n := 0 to |select|
        invariant View() == RemergeUpTo(select, n, old(View()), snapshot.View())
      {
        var e := select[n];
        var f := FloatAt(snapshot.floats, e.storage);
        match e.op
        case Min =>
          if e.storage !in floats || f < floats[e.storage] {
            floats := floats[e.storage := f];
          }
        case Max =>
          if e.storage !in floats || f > floats[e.storage] {
            floats := floats[e.storage := f];
          }
        case Last =>
          if e.storage !in strings && e.storage in snapshot.strings {
            strings := strings[e.storage := snapshot.strings[e.storage]];
          }
        case Len =>
          if e.storage !in strings && e.storage in snapshot.strings {
            strings := strings[e.storage := snapshot.strings[e.storage]];
            floats := floats[e.storage := f];
          }
        case _ => floats := floats[e.storage := FloatAt(floats, e.storage) + f];
      }
    }
  }
}
