/** Distributed aggregation: every accepted line travels from its server's batch through live groups,
    snapshots and messages into the client's per-server group and the global group. Any number of
    servers; every lock-protected or channel operation is one step; channels are reliable. */
module Pipeline {
  import opened Wrappers
  import opened AggregateSets
  import opened AggregateWire
  import opened Groups

  /** Where an accepted line's contribution currently is. */
  datatype Place =
    | Batch(server: nat)
    | Taken(server: nat)
    | Live(server: nat)
    | Snapshot(server: nat)
    | Wire(id: nat)
    | Local(server: nat)
    | Global

  /** One serialised group on its way to the client's handler of that server. */
  datatype Packet = Packet(server: nat, key: string, set_: Summary)

  datatype World = World(
    rows: seq<Row>,
    at: seq<Place>,
    live: map<nat, GroupSet>,
    snapshot: map<nat, GroupSet>,
    wire: map<nat, Packet>,
    local: map<nat, GroupSet>,
    global: GroupSet)

  const EMPTY_WORLD := World([], [], map[], map[], map[], map[], map[])

  /** `exact` tells the numbers that the servers and the client deal with. */
  datatype Query = Query(num: Numbers, select: seq<Entry>, exact: real -> bool)

  function Of(m: map<nat, GroupSet>, s: nat): GroupSet {
    if s in m then m[s] else map[]
  }

  datatype Step =
    | Accept(s: nat, row: Row)
    | TakeBatch(s: nat)
    | Process(s: nat, i: nat)
    | Swap(s: nat)
    | SendGroup(s: nat, key: string, id: nat)
    | Cancel(s: nat)
    | Deliver(id: nat, merged: bool)
    | Flush(s: nat)

  function Indices(at: seq<Place>, p: Place): set<nat> {
    set i: nat | i < |at| && at[i] == p
  }

  function Moved(at: seq<Place>, which: set<nat>, p: Place): seq<Place> {
    seq(|at|, i requires 0 <= i < |at| => if i in which then p else at[i])
  }

  function WithKey(rows: seq<Row>, which: set<nat>, key: string): set<nat> {
    set i | i in which && i < |rows| && rows[i].key == key
  }

  predicate CanStep(w: World, step: Step) {
    match step
    case Accept(_, _) => true
    case TakeBatch(_) => true
    case Process(s, i) => i < |w.at| && i < |w.rows| && w.at[i] == Taken(s)
    case Swap(s) => Of(w.snapshot, s) == map[]
    case SendGroup(s, key, id) => key in Of(w.snapshot, s) && id !in w.wire
    case Cancel(_) => true
    case Deliver(id, _) => id in w.wire
    case Flush(_) => true
  }

  function Apply(q: Query, w: World, step: Step): World
    requires CanStep(w, step)
  {
    match step
    case Accept(s, row) => w.(rows := w.rows + [row], at := w.at + [Batch(s)])
    case TakeBatch(s) => w.(at := Moved(w.at, Indices(w.at, Batch(s)), Taken(s)))
    case Process(s, i) =>
      w.(at := Moved(w.at, {i}, Live(s)),
         live := w.live[s := AggregateLine(q.num, q.select, Of(w.live, s), w.rows[i])])
    case Swap(s) =>
      w.(at := Moved(w.at, Indices(w.at, Live(s)), Snapshot(s)),
         snapshot := w.snapshot[s := Of(w.live, s)], live := w.live[s := map[]])
    case SendGroup(s, key, id) =>
      w.(at := Moved(w.at, WithKey(w.rows, Indices(w.at, Snapshot(s)), key), Wire(id)),
         wire := w.wire[id := Packet(s, key, Of(w.snapshot, s)[key])],
         snapshot := w.snapshot[s := Of(w.snapshot, s) - {key}])
    case Cancel(s) =>
      w.(at := Moved(w.at, Indices(w.at, Snapshot(s)), Live(s)),
         live := w.live[s := RemergeGroups(q.select, Of(w.live, s), Of(w.snapshot, s))],
         snapshot := w.snapshot[s := map[]])
    case Deliver(id, merged) =>
      var p := w.wire[id];
      var received := w.(at := Moved(w.at, Indices(w.at, Wire(id)), Local(p.server)),
                         local := w.local[p.server := ReceiveSet(q.num, q.select, Of(w.local, p.server), p.key, p.set_)],
                         wire := w.wire - {id});
      if merged then FlushLocal(q, received, p.server) else received
    case Flush(s) => FlushLocal(q, w, s)
  }

  /** A merge that got the global semaphore, blocking or not. */
  function FlushLocal(q: Query, w: World, s: nat): World {
    w.(at := Moved(w.at, Indices(w.at, Local(s)), Global),
       global := MergeGroups(q.select, w.global, Of(w.local, s)),
       local := w.local[s := map[]])
  }

  // ---------------------------------------------------------------- what a set of lines amounts to

  /** The value of one entry for one group over the chosen lines. */
  function Part(num: Numbers, e: Entry, rows: seq<Row>, which: set<nat>, key: string): Cell {
    if rows == [] then Cell(None, None)
    else
      var n := |rows| - 1;
      var init := Part(num, e, rows[..n], which, key);
      if n in which && rows[n].key == key then Combine(e.op, init, Contribution(num, e, rows[n].fields, false)) else init
  }

  predicate Sampled(q: Query, row: Row) {
    exists i :: 0 <= i < |q.select| && Contributes(q.num, q.select[i], row.fields, false)
  }

  function Count(q: Query, rows: seq<Row>, which: set<nat>, key: string): int {
    if rows == [] then 0
    else
      var n := |rows| - 1;
      Count(q, rows[..n], which, key) + if n in which && rows[n].key == key && Sampled(q, rows[n]) then 1 else 0
  }

  predicate Numeric(op: Operation) {
    SumLike(op) || op.Min? || op.Max?
  }

  lemma {:induction false} PartShaped(num: Numbers, e: Entry, rows: seq<Row>, which: set<nat>, key: string)
    requires Numeric(e.op)
    ensures Part(num, e, rows, which, key).s.None?
  {
    if rows != [] {
      PartShaped(num, e, rows[..|rows| - 1], which, key);
    }
  }

  lemma {:induction false} PartUnion(num: Numbers, e: Entry, rows: seq<Row>, a: set<nat>, b: set<nat>, key: string)
    requires Numeric(e.op) && a !! b
    ensures Part(num, e, rows, a + b, key) == Combine(e.op, Part(num, e, rows, a, key), Part(num, e, rows, b, key))
  {
    PartShaped(num, e, rows, a, key);
    PartShaped(num, e, rows, b, key);
    if rows != [] {
      var n := |rows| - 1;
      PartUnion(num, e, rows[..n], a, b, key);
      PartShaped(num, e, rows[..n], a, key);
      PartShaped(num, e, rows[..n], b, key);
      Commutes(e.op, Part(num, e, rows[..n], a, key), Part(num, e, rows[..n], b, key),
               Contribution(num, e, rows[n].fields, false));
    }
  }

  lemma Commutes(op: Operation, x: Cell, y: Cell, z: Cell)
    requires Numeric(op) && x.s.None? && y.s.None? && z.s.None?
    ensures Combine(op, Combine(op, x, y), z) == Combine(op, Combine(op, x, z), y)
    ensures Combine(op, Combine(op, x, y), z) == Combine(op, x, Combine(op, y, z))
  {
  }

  /** Only the chosen lines of the group itself matter. */
  lemma {:induction false} PartFrame(num: Numbers, e: Entry, rows: seq<Row>, a: set<nat>, b: set<nat>, key: string)
    requires forall i :: 0 <= i < |rows| && rows[i].key == key ==> (i in a <==> i in b)
    ensures Part(num, e, rows, a, key) == Part(num, e, rows, b, key)
  {
    if rows != [] {
      PartFrame(num, e, rows[..|rows| - 1], a, b, key);
    }
  }

  lemma {:induction false} PartNone(num: Numbers, e: Entry, rows: seq<Row>, key: string)
    ensures Part(num, e, rows, {}, key) == Cell(None, None)
  {
    if rows != [] {
      PartNone(num, e, rows[..|rows| - 1], key);
    }
  }

  lemma {:induction false} PartOne(num: Numbers, e: Entry, rows: seq<Row>, i: nat, key: string)
    requires i < |rows| && Numeric(e.op)
    ensures Part(num, e, rows, {i}, key)
            == if rows[i].key == key then Contribution(num, e, rows[i].fields, false) else Cell(None, None)
  {
    var n := |rows| - 1;
    if i < n {
      PartOne(num, e, rows[..n], i, key);
    } else {
      PartFrame(num, e, rows[..n], {i}, {}, key);
      PartNone(num, e, rows[..n], key);
    }
  }

  lemma {:induction false} CountUnion(q: Query, rows: seq<Row>, a: set<nat>, b: set<nat>, key: string)
    requires a !! b
    ensures Count(q, rows, a + b, key) == Count(q, rows, a, key) + Count(q, rows, b, key)
  {
    if rows != [] {
      CountUnion(q, rows[..|rows| - 1], a, b, key);
    }
  }

  lemma {:induction false} CountFrame(q: Query, rows: seq<Row>, a: set<nat>, b: set<nat>, key: string)
    requires forall i :: 0 <= i < |rows| && rows[i].key == key ==> (i in a <==> i in b)
    ensures Count(q, rows, a, key) == Count(q, rows, b, key)
  {
    if rows != [] {
      CountFrame(q, rows[..|rows| - 1], a, b, key);
    }
  }

  lemma {:induction false} CountNone(q: Query, rows: seq<Row>, key: string)
    ensures Count(q, rows, {}, key) == 0
  {
    if rows != [] {
      CountNone(q, rows[..|rows| - 1], key);
    }
  }

  lemma {:induction false} CountOne(q: Query, rows: seq<Row>, i: nat, key: string)
    requires i < |rows|
    ensures Count(q, rows, {i}, key) == if rows[i].key == key && Sampled(q, rows[i]) then 1 else 0
  {
    var n := |rows| - 1;
    if i < n {
      CountOne(q, rows[..n], i, key);
    } else {
      CountFrame(q, rows[..n], {i}, {}, key);
      CountNone(q, rows[..n], key);
    }
  }

  // ---------------------------------------------------------------- a group set summarises lines

  /** For sums an absent value and zero mean the same; a minimum or maximum must be exact. */
  predicate Agrees(op: Operation, c: Cell, part: Cell) {
    c.s.None? && part.s.None? && if SumLike(op) then Read(c).f == Read(part).f else c == part
  }

  /** Merges read a missing minimum or maximum as zero, so a cell that is not what the lines amount to is
      the better of that and zero. */
  predicate Near(op: Operation, c: Cell, part: Cell) {
    && c.s.None? && part.s.None?
    && (SumLike(op) || c == part || c.f == Some(Better(op, Read(part).f, 0.0)))
  }

  predicate Present(select: seq<Entry>, s: Summary) {
    exists i :: 0 <= i < |select| && CellAt(s, select[i].storage) != Cell(None, None)
  }

  /** Sets that can be sent: shaped cells, and no samples without a value. */
  ghost predicate SetOk(select: seq<Entry>, s: Summary) {
    WellFormed(select, s) && (s.samples != 0 ==> Present(select, s))
  }

  // The numbers of a query: zero, one, everything that a field parses to, and their sums, all of which
  // have to survive being printed and parsed. See Decimals.WholeQueryIsLawful for an instance.

  ghost predicate Survives(q: Query, v: real) {
    q.exact(v) ==> q.num.RoundTrips(v)
  }

  ghost predicate Parses(q: Query, text: string) {
    q.num.parse(text).Some? ==> q.exact(q.num.parse(text).value)
  }

  ghost predicate Adds(q: Query, x: real, y: real) {
    q.exact(x) && q.exact(y) ==> q.exact(x + y)
  }

  ghost predicate Lawful(q: Query) {
    && q.exact(0.0) && q.exact(1.0)
    && (forall v :: Survives(q, v)) && (forall text :: Parses(q, text)) && (forall x, y :: Adds(q, x, y))
  }

  ghost predicate ExactCell(q: Query, c: Cell) {
    c.f.Some? && c.s.None? ==> q.exact(c.f.value)
  }

  ghost predicate Exact(q: Query, s: Summary) {
    forall i :: 0 <= i < |q.select| ==> ExactCell(q, CellAt(s, q.select[i].storage))
  }

  lemma ExactIsReadable(q: Query, s: Summary)
    requires Lawful(q) && Exact(q, s)
    ensures Readable(q.num, q.select, s)
  {
    forall i | 0 <= i < |q.select|
      ensures ReadableCell(q.num, CellAt(s, q.select[i].storage))
    {
      var c := CellAt(s, q.select[i].storage);
      assert ExactCell(q, c);
      if c.f.Some? {
        assert Survives(q, c.f.value);
      }
    }
  }

  lemma CombineIsExact(q: Query, op: Operation, x: Cell, y: Cell)
    requires Lawful(q) && ExactCell(q, x) && ExactCell(q, y) && Shaped(op, x) && Shaped(op, y)
    ensures ExactCell(q, Combine(op, x, y)) && ExactCell(q, MergeCell(op, x, y)) && ExactCell(q, RemergeCell(op, x, y))
  {
    assert Adds(q, Read(x).f, Read(y).f);
  }

  lemma ContributionIsExact(q: Query, e: Entry, row: Fields)
    requires Lawful(q)
    ensures ExactCell(q, Contribution(q.num, e, row, false))
  {
    if e.field in row {
      assert Parses(q, row[e.field]);
    }
  }

  ghost predicate SetSound(q: Query, s: Summary) {
    SetOk(q.select, s) && Exact(q, s)
  }

  /** A minimum or maximum is covered if every line of the group that reaches a set carries the field. */
  ghost predicate Carried(q: Query, j: nat, rows: seq<Row>, k: string)
    requires j < |q.select|
  {
    SumLike(q.select[j].op)
    || forall i :: 0 <= i < |rows| && rows[i].key == k && Matches(q.select, rows[i]) ==>
         Contributes(q.num, q.select[j], rows[i].fields, false)
  }

  /** A value that loses against a zero: a positive minimum or a negative maximum. */
  predicate LosesToZero(op: Operation, v: real) {
    (op.Min? && v > 0.0) || (op.Max? && v < 0.0)
  }

  /** How a cell may differ from what its lines amount to; `present` tells whether there is a set at all. */
  ghost predicate Amounts(op: Operation, carried: bool, present: bool, c: Cell, part: Cell) {
    && (Numeric(op) ==> Near(op, c, part))
    && (carried ==> Agrees(op, c, part) && (!SumLike(op) && present ==> part.f.Some?))
  }

  lemma CombineAmounts(op: Operation, carried: bool, p: bool, p': bool, c: Cell, c': Cell, part: Cell, part': Cell, both: bool)
    requires Numeric(op) && Amounts(op, carried, p, c, part) && Amounts(op, carried, p', c', part')
    requires both ==> p || p'
    ensures Amounts(op, carried, both, Combine(op, c, c'), Combine(op, part, part'))
  {
  }

  /** Two present sets: the second cell is read with its default. */
  lemma MergeAmounts(op: Operation, carried: bool, p: bool, c: Cell, c': Cell, part: Cell, part': Cell)
    requires Numeric(op) && Amounts(op, carried, p, c, part) && Amounts(op, carried, true, c', part')
    ensures Amounts(op, carried, true, MergeCell(op, c, c'), Combine(op, part, part'))
    ensures RemergeCell(op, c, c') == MergeCell(op, c, c')
  {
  }

  lemma AmountsMeans(op: Operation, carried: bool, present: bool, c: Cell, part: Cell)
    requires Numeric(op) && Amounts(op, carried, present, c, part) && (SumLike(op) ==> carried)
    ensures Read(c) == Read(part) || (LosesToZero(op, Read(part).f) && Read(c) == Read(part).(f := 0.0))
    ensures carried ==> Read(c) == Read(part)
  {
  }

  /** What the groups hold under one key is what the chosen lines of that key amount to: the samples and
      every sum exactly, a minimum or maximum up to a zero and, where it is carried, exactly. */
  ghost predicate HoldsAt(q: Query, j: nat, groups: GroupSet, rows: seq<Row>, which: set<nat>, k: string)
    requires j < |q.select|
  {
    var e := q.select[j];
    && GetSet(groups, k).samples == Count(q, rows, which, k)
    && Amounts(e.op, Carried(q, j, rows, k), k in groups, CellAt(GetSet(groups, k), e.storage), Part(q.num, e, rows, which, k))
  }

  ghost predicate SetsOk(q: Query, groups: GroupSet) {
    forall k :: k in groups ==> SetSound(q, groups[k])
  }

  /** The groups hold exactly the chosen lines, as far as entry j and the sample counts can tell. */
  ghost predicate Holds(q: Query, j: nat, groups: GroupSet, rows: seq<Row>, which: set<nat>)
    requires j < |q.select|
  {
    SetsOk(q, groups) && forall k :: HoldsAt(q, j, groups, rows, which, k)
  }

  /** Entries the theorem covers: everything but last() and len(), which depend on the order of servers. */
  ghost predicate Covered(q: Query, j: nat) {
    Lawful(q) && Distinct(q.select) && j < |q.select| && Numeric(q.select[j].op)
  }

  lemma HoldsEmpty(q: Query, j: nat, rows: seq<Row>)
    requires j < |q.select|
    ensures Holds(q, j, map[], rows, {})
  {
    forall k
      ensures HoldsAt(q, j, map[], rows, {}, k)
    {
      PartNone(q.num, q.select[j], rows, k);
      CountNone(q, rows, k);
    }
  }

  lemma HoldsGrow(q: Query, j: nat, groups: GroupSet, rows: seq<Row>, row: Row, which: set<nat>)
    requires j < |q.select| && Holds(q, j, groups, rows, which) && |rows| !in which
    ensures Holds(q, j, groups, rows + [row], which)
  {
    var more := rows + [row];
    assert more[..|rows|] == rows;
    forall k
      ensures HoldsAt(q, j, groups, more, which, k)
    {
      assert HoldsAt(q, j, groups, rows, which, k);
      assert forall i :: 0 <= i < |rows| ==> rows[i] == more[i];
    }
  }

  /** One more line through the server's aggregate(). */
  lemma HoldsLine(q: Query, j: nat, groups: GroupSet, rows: seq<Row>, which: set<nat>, i: nat)
    requires Covered(q, j) && Holds(q, j, groups, rows, which) && i < |rows| && i !in which
    ensures Holds(q, j, AggregateLine(q.num, q.select, groups, rows[i]), rows, which + {i})
  {
    var row := rows[i];
    var after := AggregateLine(q.num, q.select, groups, row);
    if Matches(q.select, row) {
      LineKeepsSetOk(q, GetSet(groups, row.key), row.fields);
      LineIsExact(q, GetSet(groups, row.key), row.fields);
    }
    forall k
      ensures HoldsAt(q, j, after, rows, which + {i}, k)
    {
      HoldsLineAt(q, j, groups, rows, which, i, k);
    }
  }

  /** What one line does to the set of its own group. */
  lemma AddedLine(q: Query, j: nat, groups: GroupSet, row: Row)
    requires Covered(q, j) && SetsOk(q, groups)
    ensures var before := GetSet(groups, row.key);
            var after := GetSet(AggregateLine(q.num, q.select, groups, row), row.key);
            var e := q.select[j];
            && CellAt(after, e.storage) == Combine(e.op, CellAt(before, e.storage), Contribution(q.num, e, row.fields, false))
            && after.samples == before.samples + if Sampled(q, row) then 1 else 0
  {
    GetIsSound(q, groups, row.key);
    if Matches(q.select, row) {
      AddRowCell(q.num, q.select, GetSet(groups, row.key), row.fields, 1, false, j);
    } else {
      assert !Sampled(q, row);
    }
  }

  lemma HoldsLineAt(q: Query, j: nat, groups: GroupSet, rows: seq<Row>, which: set<nat>, i: nat, k: string)
    requires Covered(q, j) && SetsOk(q, groups) && HoldsAt(q, j, groups, rows, which, k)
    requires i < |rows| && i !in which
    ensures HoldsAt(q, j, AggregateLine(q.num, q.select, groups, rows[i]), rows, which + {i}, k)
  {
    var row, e := rows[i], q.select[j];
    PartUnion(q.num, e, rows, which, {i}, k);
    PartOne(q.num, e, rows, i, k);
    CountUnion(q, rows, which, {i}, k);
    CountOne(q, rows, i, k);
    if row.key == k {
      AddedLine(q, j, groups, row);
      var d := Contribution(q.num, e, row.fields, false);
      CombineAmounts(e.op, Carried(q, j, rows, k), k in groups, Matches(q.select, row),
                     CellAt(GetSet(groups, k), e.storage), d, Part(q.num, e, rows, which, k), d,
                     k in groups || Matches(q.select, row));
    }
  }

  lemma LineKeepsSetOk(q: Query, s: Summary, fields: Fields)
    requires Distinct(q.select) && SetOk(q.select, s)
    ensures SetOk(q.select, AddRow(q.num, q.select, s, fields, 1, false))
  {
    var t := AddRow(q.num, q.select, s, fields, 1, false);
    AggregateUpToCells(q.num, q.select, |q.select|, s, fields, false);
    forall i | 0 <= i < |q.select|
      ensures Shaped(q.select[i].op, CellAt(t, q.select[i].storage))
      ensures CellAt(s, q.select[i].storage) != Cell(None, None) ==> CellAt(t, q.select[i].storage) != Cell(None, None)
      ensures Contributes(q.num, q.select[i], fields, false) ==> CellAt(t, q.select[i].storage) != Cell(None, None)
    {
      ShapedCombine(q.num, q.select[i], CellAt(s, q.select[i].storage), fields, false);
    }
    if Present(q.select, s) {
      var i :| 0 <= i < |q.select| && CellAt(s, q.select[i].storage) != Cell(None, None);
      assert Present(q.select, t);
    }
    if exists i :: 0 <= i < |q.select| && Contributes(q.num, q.select[i], fields, false) {
      assert Present(q.select, t);
    }
  }

  lemma LineIsExact(q: Query, s: Summary, fields: Fields)
    requires Lawful(q) && Distinct(q.select) && WellFormed(q.select, s) && Exact(q, s)
    ensures Exact(q, AddRow(q.num, q.select, s, fields, 1, false))
  {
    forall i | 0 <= i < |q.select|
      ensures ExactCell(q, CellAt(AddRow(q.num, q.select, s, fields, 1, false), q.select[i].storage))
    {
      var e := q.select[i];
      AddRowCell(q.num, q.select, s, fields, 1, false, i);
      ContributionIsExact(q, e, fields);
      ShapedCombine(q.num, e, CellAt(s, e.storage), fields, false);
      CombineIsExact(q, e.op, CellAt(s, e.storage), Contribution(q.num, e, fields, false));
    }
  }

  // ---------------------------------------------------------------- merging group sets adds their lines

  lemma MergeIsExact(q: Query, s: Summary, t: Summary)
    requires Lawful(q) && Distinct(q.select)
    requires WellFormed(q.select, s) && WellFormed(q.select, t) && Exact(q, s) && Exact(q, t)
    ensures Exact(q, Merge(q.select, s, t)) && Exact(q, Remerge(q.select, s, t))
  {
    forall i | 0 <= i < |q.select|
      ensures ExactCell(q, CellAt(Merge(q.select, s, t), q.select[i].storage))
      ensures ExactCell(q, CellAt(Remerge(q.select, s, t), q.select[i].storage))
    {
      var e := q.select[i];
      MergeCells(q.select, |q.select|, s, t, i);
      RemergeCells(q.select, |q.select|, s, t, i);
      CombineIsExact(q, e.op, CellAt(s, e.storage), CellAt(t, e.storage));
    }
  }

  lemma MergeKeepsSetOk(q: Query, j: nat, s: Summary, t: Summary)
    requires Distinct(q.select) && j < |q.select| && Numeric(q.select[j].op)
    requires WellFormed(q.select, s) && WellFormed(q.select, t)
    ensures SetOk(q.select, Merge(q.select, s, t))
  {
    forall i | 0 <= i < |q.select|
      ensures var k := q.select[i].storage;
              CellAt(Merge(q.select, s, t), k) == MergeCell(q.select[i].op, CellAt(s, k), CellAt(t, k))
    {
      MergeCells(q.select, |q.select|, s, t, i);
    }
    assert CellAt(Merge(q.select, s, t), q.select[j].storage).f.Some?;
  }

  lemma RemergeKeepsSetOk(q: Query, j: nat, s: Summary, t: Summary)
    requires Distinct(q.select) && j < |q.select| && Numeric(q.select[j].op)
    requires WellFormed(q.select, s) && WellFormed(q.select, t)
    ensures SetOk(q.select, Remerge(q.select, s, t))
  {
    forall i | 0 <= i < |q.select|
      ensures var k := q.select[i].storage;
              CellAt(Remerge(q.select, s, t), k) == RemergeCell(q.select[i].op, CellAt(s, k), CellAt(t, k))
    {
      RemergeCells(q.select, |q.select|, s, t, i);
    }
    assert CellAt(Remerge(q.select, s, t), q.select[j].storage).f.Some?;
  }

  lemma MergeIsSound(q: Query, j: nat, s: Summary, t: Summary)
    requires Covered(q, j) && SetSound(q, s) && SetSound(q, t)
    ensures SetSound(q, Merge(q.select, s, t)) && SetSound(q, Remerge(q.select, s, t))
  {
    MergeKeepsSetOk(q, j, s, t);
    RemergeKeepsSetOk(q, j, s, t);
    MergeIsExact(q, s, t);
  }

  lemma OverlayIsSound(q: Query, groups: GroupSet, keys: set<string>, next: string -> Summary)
    requires SetsOk(q, groups) && forall k :: k in keys ==> SetSound(q, next(k))
    ensures SetsOk(q, Overlay(groups, keys, next))
  {
  }

  lemma EmptyIsSound(q: Query)
    ensures SetSound(q, EMPTY)
  {
  }

  lemma GetIsSound(q: Query, groups: GroupSet, k: string)
    requires SetsOk(q, groups)
    ensures SetSound(q, GetSet(groups, k))
  {
    EmptyIsSound(q);
  }

  lemma MergeKeepsSetsOk(q: Query, j: nat, groups: GroupSet, other: GroupSet)
    requires Covered(q, j) && SetsOk(q, groups) && SetsOk(q, other)
    ensures SetsOk(q, MergeGroups(q.select, groups, other)) && SetsOk(q, RemergeGroups(q.select, groups, other))
  {
    var next, again := Merged(q.select, groups, other), Remerged(q.select, groups, other);
    forall k
      ensures SetSound(q, next(k)) && SetSound(q, again(k))
    {
      GetIsSound(q, groups, k);
      GetIsSound(q, other, k);
      MergeIsSound(q, j, GetSet(groups, k), GetSet(other, k));
    }
    OverlayIsSound(q, groups, other.Keys, next);
    OverlayIsSound(q, groups, other.Keys, again);
  }

  lemma HoldsMerge(q: Query, j: nat, groups: GroupSet, other: GroupSet, rows: seq<Row>, a: set<nat>, b: set<nat>)
    requires Covered(q, j) && a !! b
    requires Holds(q, j, groups, rows, a) && Holds(q, j, other, rows, b)
    ensures Holds(q, j, MergeGroups(q.select, groups, other), rows, a + b)
    ensures Holds(q, j, RemergeGroups(q.select, groups, other), rows, a + b)
  {
    var merged, remerged := MergeGroups(q.select, groups, other), RemergeGroups(q.select, groups, other);
    MergeKeepsSetsOk(q, j, groups, other);
    forall k
      ensures HoldsAt(q, j, merged, rows, a + b, k) && HoldsAt(q, j, remerged, rows, a + b, k)
    {
      assert HoldsAt(q, j, groups, rows, a, k) && HoldsAt(q, j, other, rows, b, k);
      HoldsMergeAt(q, j, groups, other, rows, a, b, k);
      HoldsRemergeAt(q, j, groups, other, rows, a, b, k);
    }
  }

  lemma HoldsMergeAt(q: Query, j: nat, groups: GroupSet, other: GroupSet, rows: seq<Row>, a: set<nat>, b: set<nat>, k: string)
    requires Covered(q, j) && a !! b
    requires HoldsAt(q, j, groups, rows, a, k) && HoldsAt(q, j, other, rows, b, k)
    ensures HoldsAt(q, j, MergeGroups(q.select, groups, other), rows, a + b, k)
  {
    var e := q.select[j];
    PartUnion(q.num, e, rows, a, b, k);
    CountUnion(q, rows, a, b, k);
    if k in other {
      MergeCells(q.select, |q.select|, GetSet(groups, k), GetSet(other, k), j);
      MergeAmounts(e.op, Carried(q, j, rows, k), k in groups, CellAt(GetSet(groups, k), e.storage),
                   CellAt(GetSet(other, k), e.storage), Part(q.num, e, rows, a, k), Part(q.num, e, rows, b, k));
    }
  }

  lemma HoldsRemergeAt(q: Query, j: nat, groups: GroupSet, other: GroupSet, rows: seq<Row>, a: set<nat>, b: set<nat>, k: string)
    requires Covered(q, j) && a !! b
    requires HoldsAt(q, j, groups, rows, a, k) && HoldsAt(q, j, other, rows, b, k)
    ensures HoldsAt(q, j, RemergeGroups(q.select, groups, other), rows, a + b, k)
  {
    var e := q.select[j];
    PartUnion(q.num, e, rows, a, b, k);
    CountUnion(q, rows, a, b, k);
    if k in other {
      RemergeCells(q.select, |q.select|, GetSet(groups, k), GetSet(other, k), j);
      MergeAmounts(e.op, Carried(q, j, rows, k), k in groups, CellAt(GetSet(groups, k), e.storage),
                   CellAt(GetSet(other, k), e.storage), Part(q.num, e, rows, a, k), Part(q.num, e, rows, b, k));
    }
  }

  /** What the client holds after folding in a received set. */
  function Folded(q: Query, local: Summary, s: Summary): Summary {
    AddRow(q.num, q.select, local, WireFields(q.num, s), s.samples, true)
  }

  lemma FoldedCells(q: Query, local: Summary, s: Summary)
    requires Distinct(q.select) && SetOk(q.select, local) && SetOk(q.select, s) && Readable(q.num, q.select, s)
    ensures forall i :: 0 <= i < |q.select| ==>
      CellAt(Folded(q, local, s), q.select[i].storage)
      == Combine(q.select[i].op, CellAt(local, q.select[i].storage), CellAt(s, q.select[i].storage))
  {
    forall i | 0 <= i < |q.select|
      ensures CellAt(Folded(q, local, s), q.select[i].storage)
              == Combine(q.select[i].op, CellAt(local, q.select[i].storage), CellAt(s, q.select[i].storage))
    {
      ClientReceivesCells(q.num, q.select, local, s, i);
    }
  }

  lemma ReceiveKeepsSetOk(q: Query, local: Summary, s: Summary)
    requires Lawful(q) && Distinct(q.select) && |q.select| > 0
    requires SetOk(q.select, local) && SetOk(q.select, s) && Exact(q, local) && Exact(q, s)
    ensures SetOk(q.select, Folded(q, local, s)) && Exact(q, Folded(q, local, s))
  {
    ExactIsReadable(q, s);
    FoldedCells(q, local, s);
    ClientReceivesCells(q.num, q.select, local, s, 0);
    CombinedIsPresent(q.select, local, s, Folded(q, local, s));
    CombinedIsExact(q, local, s, Folded(q, local, s));
  }

  lemma CombinedIsExact(q: Query, local: Summary, s: Summary, r: Summary)
    requires Lawful(q) && WellFormed(q.select, local) && WellFormed(q.select, s) && Exact(q, local) && Exact(q, s)
    requires forall i :: 0 <= i < |q.select| ==>
      CellAt(r, q.select[i].storage)
      == Combine(q.select[i].op, CellAt(local, q.select[i].storage), CellAt(s, q.select[i].storage))
    ensures Exact(q, r)
  {
    forall i | 0 <= i < |q.select|
      ensures ExactCell(q, CellAt(r, q.select[i].storage))
    {
      var e := q.select[i];
      CombineIsExact(q, e.op, CellAt(local, e.storage), CellAt(s, e.storage));
    }
  }

  lemma CombinedIsPresent(select: seq<Entry>, local: Summary, s: Summary, r: Summary)
    requires WellFormed(select, local) && WellFormed(select, s)
    requires forall i :: 0 <= i < |select| ==>
      CellAt(r, select[i].storage) == Combine(select[i].op, CellAt(local, select[i].storage), CellAt(s, select[i].storage))
    ensures Present(select, local) || Present(select, s) ==> Present(select, r)
  {
    if Present(select, local) {
      var i :| 0 <= i < |select| && CellAt(local, select[i].storage) != Cell(None, None);
      assert CellAt(r, select[i].storage) != Cell(None, None);
    }
    if Present(select, s) {
      var i :| 0 <= i < |select| && CellAt(s, select[i].storage) != Cell(None, None);
      assert CellAt(r, select[i].storage) != Cell(None, None);
    }
  }

  /** The set received for a key: what the client then holds there. A set without values is rejected. */
  lemma ReceivedSet(q: Query, j: nat, local: GroupSet, key: string, s: Summary)
    requires Covered(q, j) && SetOk(q.select, GetSet(local, key)) && SetSound(q, s)
    ensures var r := GetSet(ReceiveSet(q.num, q.select, local, key, s), key);
            var k := q.select[j].storage;
            && CellAt(r, k) == Combine(q.select[j].op, CellAt(GetSet(local, key), k), CellAt(s, k))
            && r.samples == GetSet(local, key).samples + s.samples
  {
    ExactIsReadable(q, s);
    ClientReceivesCells(q.num, q.select, GetSet(local, key), s, j);
  }

  lemma HoldsReceiveAt(q: Query, j: nat, local: GroupSet, key: string, s: Summary, rows: seq<Row>, a: set<nat>, b: set<nat>, k: string)
    requires Covered(q, j) && a !! b && SetOk(q.select, GetSet(local, k)) && SetSound(q, s)
    requires HoldsAt(q, j, local, rows, a, k) && HoldsAt(q, j, map[key := s], rows, b, k)
    ensures HoldsAt(q, j, ReceiveSet(q.num, q.select, local, key, s), rows, a + b, k)
  {
    var e := q.select[j];
    PartUnion(q.num, e, rows, a, b, k);
    CountUnion(q, rows, a, b, k);
    if k == key {
      ReceivedSet(q, j, local, key, s);
      CombineAmounts(e.op, Carried(q, j, rows, k), k in local, true,
                     CellAt(GetSet(local, k), e.storage), CellAt(s, e.storage),
                     Part(q.num, e, rows, a, k), Part(q.num, e, rows, b, k), k in ReceiveSet(q.num, q.select, local, key, s));
    }
  }

  lemma HoldsReceive(q: Query, j: nat, local: GroupSet, key: string, s: Summary, rows: seq<Row>, a: set<nat>, b: set<nat>)
    requires Covered(q, j) && a !! b
    requires Holds(q, j, local, rows, a) && Holds(q, j, map[key := s], rows, b)
    ensures Holds(q, j, ReceiveSet(q.num, q.select, local, key, s), rows, a + b)
  {
    assert SetSound(q, map[key := s][key]);
    ReceiveKeepsSetOk(q, GetSet(local, key), s);
    forall k
      ensures HoldsAt(q, j, ReceiveSet(q.num, q.select, local, key, s), rows, a + b, k)
    {
      assert HoldsAt(q, j, local, rows, a, k) && HoldsAt(q, j, map[key := s], rows, b, k);
      HoldsReceiveAt(q, j, local, key, s, rows, a, b, k);
    }
  }

  /** Lines that amount to nothing may join any group set. */
  lemma HoldsWithNothing(q: Query, j: nat, groups: GroupSet, rows: seq<Row>, a: set<nat>, b: set<nat>)
    requires Covered(q, j) && a !! b
    requires Holds(q, j, map[], rows, a) && Holds(q, j, groups, rows, b)
    ensures Holds(q, j, groups, rows, a + b)
  {
    forall k
      ensures HoldsAt(q, j, groups, rows, a + b, k)
    {
      assert HoldsAt(q, j, map[], rows, a, k) && HoldsAt(q, j, groups, rows, b, k);
      PartUnion(q.num, q.select[j], rows, a, b, k);
      CountUnion(q, rows, a, b, k);
    }
  }

  /** Taking one group out takes that group's lines out. */
  lemma HoldsKey(q: Query, j: nat, groups: GroupSet, rows: seq<Row>, which: set<nat>, key: string)
    requires j < |q.select| && Holds(q, j, groups, rows, which) && key in groups
    ensures Holds(q, j, map[key := groups[key]], rows, WithKey(rows, which, key))
    ensures Holds(q, j, groups - {key}, rows, which - WithKey(rows, which, key))
  {
    var mine := WithKey(rows, which, key);
    forall k
      ensures HoldsAt(q, j, map[key := groups[key]], rows, mine, k)
      ensures HoldsAt(q, j, groups - {key}, rows, which - mine, k)
    {
      assert HoldsAt(q, j, groups, rows, which, k);
      var e := q.select[j];
      PartNone(q.num, e, rows, k);
      CountNone(q, rows, k);
      PartFrame(q.num, e, rows, mine, if k == key then which else {}, k);
      CountFrame(q, rows, mine, if k == key then which else {}, k);
      PartFrame(q.num, e, rows, which - mine, if k == key then {} else which, k);
      CountFrame(q, rows, which - mine, if k == key then {} else which, k);
    }
  }

  // ---------------------------------------------------------------- the invariant of the whole pipeline

  predicate Stored(p: Place) {
    !p.Batch? && !p.Taken?
  }

  /** The group set kept at a place. */
  function At(w: World, p: Place): GroupSet
    requires Stored(p)
  {
    match p
    case Live(s) => Of(w.live, s)
    case Snapshot(s) => Of(w.snapshot, s)
    case Wire(id) => if id in w.wire then map[w.wire[id].key := w.wire[id].set_] else map[]
    case Local(s) => Of(w.local, s)
    case Global => w.global
  }

  ghost predicate HoldsPlace(q: Query, j: nat, w: World, p: Place)
    requires j < |q.select|
  {
    Stored(p) ==> Holds(q, j, At(w, p), w.rows, Indices(w.at, p))
  }

  ghost predicate Inv(q: Query, j: nat, w: World)
    requires j < |q.select|
  {
    |w.at| == |w.rows| && forall p :: HoldsPlace(q, j, w, p)
  }

  lemma IndicesMoved(at: seq<Place>, which: set<nat>, to: Place, p: Place)
    requires forall i :: i in which ==> i < |at|
    ensures Indices(Moved(at, which, to), p) == if p == to then Indices(at, p) + which else Indices(at, p) - which
  {
  }

  /** Lines go from one place to another, and nothing else changes. */
  lemma Transfer(q: Query, j: nat, w: World, w': World, which: set<nat>, from: Place, to: Place)
    requires j < |q.select| && Inv(q, j, w) && from != to && which <= Indices(w.at, from)
    requires w'.rows == w.rows && w'.at == Moved(w.at, which, to)
    requires forall p :: Stored(p) && p != from && p != to ==> At(w', p) == At(w, p)
    requires Stored(from) ==> Holds(q, j, At(w', from), w.rows, Indices(w.at, from) - which)
    requires Stored(to) ==> Holds(q, j, At(w', to), w.rows, Indices(w.at, to) + which)
    ensures Inv(q, j, w')
  {
    forall p
      ensures HoldsPlace(q, j, w', p)
    {
      assert HoldsPlace(q, j, w, p);
      IndicesMoved(w.at, which, to, p);
      if p != from && p != to {
        assert Indices(w.at, p) - which == Indices(w.at, p);
      }
    }
  }

  /** All lines of one place go to another, whose group set takes in the first one's. */
  lemma TransferAll(q: Query, j: nat, w: World, w': World, from: Place, to: Place)
    requires j < |q.select| && Inv(q, j, w) && from != to && Stored(from) && Stored(to)
    requires w'.rows == w.rows && w'.at == Moved(w.at, Indices(w.at, from), to)
    requires forall p :: Stored(p) && p != from && p != to ==> At(w', p) == At(w, p)
    requires At(w', from) == map[] && Holds(q, j, At(w', to), w.rows, Indices(w.at, to) + Indices(w.at, from))
    ensures Inv(q, j, w')
  {
    var mine := Indices(w.at, from);
    HoldsEmpty(q, j, w.rows);
    assert mine - mine == {};
    Transfer(q, j, w, w', mine, from, to);
  }

  lemma FlushStep(q: Query, j: nat, w: World, s: nat)
    requires Covered(q, j) && Inv(q, j, w)
    ensures Inv(q, j, FlushLocal(q, w, s))
  {
    var mine := Indices(w.at, Local(s));
    assert HoldsPlace(q, j, w, Local(s)) && HoldsPlace(q, j, w, Global);
    HoldsMerge(q, j, w.global, Of(w.local, s), w.rows, Indices(w.at, Global), mine);
    FlushTransfer(q, j, w, s, MergeGroups(q.select, w.global, Of(w.local, s)));
  }

  lemma FlushTransfer(q: Query, j: nat, w: World, s: nat, merged: GroupSet)
    requires j < |q.select| && Inv(q, j, w)
    requires Holds(q, j, merged, w.rows, Indices(w.at, Global) + Indices(w.at, Local(s)))
    ensures Inv(q, j, w.(at := Moved(w.at, Indices(w.at, Local(s)), Global), global := merged, local := w.local[s := map[]]))
  {
    var w' := w.(at := Moved(w.at, Indices(w.at, Local(s)), Global), global := merged, local := w.local[s := map[]]);
    TransferAll(q, j, w, w', Local(s), Global);
  }

  lemma ReceiveTransfer(q: Query, j: nat, w: World, id: nat, received: GroupSet)
    requires j < |q.select| && Inv(q, j, w) && id in w.wire
    requires Holds(q, j, received, w.rows, Indices(w.at, Local(w.wire[id].server)) + Indices(w.at, Wire(id)))
    ensures Inv(q, j, w.(at := Moved(w.at, Indices(w.at, Wire(id)), Local(w.wire[id].server)),
                         local := w.local[w.wire[id].server := received], wire := w.wire - {id}))
  {
    var s := w.wire[id].server;
    var w' := w.(at := Moved(w.at, Indices(w.at, Wire(id)), Local(s)), local := w.local[s := received], wire := w.wire - {id});
    TransferAll(q, j, w, w', Wire(id), Local(s));
  }

  lemma ReceiveStep(q: Query, j: nat, w: World, id: nat)
    requires Covered(q, j) && Inv(q, j, w) && id in w.wire
    ensures Inv(q, j, Apply(q, w, Deliver(id, false)))
  {
    var p := w.wire[id];
    var mine := Indices(w.at, Wire(id));
    assert HoldsPlace(q, j, w, Wire(id)) && HoldsPlace(q, j, w, Local(p.server));
    HoldsReceive(q, j, Of(w.local, p.server), p.key, p.set_, w.rows, Indices(w.at, Local(p.server)), mine);
    ReceiveTransfer(q, j, w, id, ReceiveSet(q.num, q.select, Of(w.local, p.server), p.key, p.set_));
  }

  lemma DeliverStep(q: Query, j: nat, w: World, id: nat, merged: bool)
    requires Covered(q, j) && Inv(q, j, w) && id in w.wire
    ensures Inv(q, j, Apply(q, w, Deliver(id, merged)))
  {
    ReceiveStep(q, j, w, id);
    if merged {
      FlushStep(q, j, Apply(q, w, Deliver(id, false)), w.wire[id].server);
    }
  }

  lemma SendTransfer(q: Query, j: nat, w: World, s: nat, key: string, id: nat, mine: set<nat>)
    requires j < |q.select| && Inv(q, j, w) && CanStep(w, SendGroup(s, key, id))
    requires mine == WithKey(w.rows, Indices(w.at, Snapshot(s)), key)
    requires Holds(q, j, Of(w.snapshot, s) - {key}, w.rows, Indices(w.at, Snapshot(s)) - mine)
    requires Holds(q, j, map[key := Of(w.snapshot, s)[key]], w.rows, Indices(w.at, Wire(id)) + mine)
    ensures Inv(q, j, Apply(q, w, SendGroup(s, key, id)))
  {
    var w' := Apply(q, w, SendGroup(s, key, id));
    assert At(w', Wire(id)) == map[key := Of(w.snapshot, s)[key]];
    assert At(w', Snapshot(s)) == Of(w.snapshot, s) - {key};
    Transfer(q, j, w, w', mine, Snapshot(s), Wire(id));
  }

  lemma SendStep(q: Query, j: nat, w: World, s: nat, key: string, id: nat)
    requires Covered(q, j) && Inv(q, j, w) && CanStep(w, SendGroup(s, key, id))
    ensures Inv(q, j, Apply(q, w, SendGroup(s, key, id)))
  {
    var groups, which := Of(w.snapshot, s), Indices(w.at, Snapshot(s));
    var mine := WithKey(w.rows, which, key);
    assert HoldsPlace(q, j, w, Snapshot(s)) && HoldsPlace(q, j, w, Wire(id));
    HoldsKey(q, j, groups, w.rows, which, key);
    HoldsWithNothing(q, j, map[key := groups[key]], w.rows, Indices(w.at, Wire(id)), mine);
    SendTransfer(q, j, w, s, key, id, mine);
  }

  lemma SwapTransfer(q: Query, j: nat, w: World, s: nat)
    requires j < |q.select| && Inv(q, j, w) && CanStep(w, Swap(s))
    requires Holds(q, j, Of(w.live, s), w.rows, Indices(w.at, Snapshot(s)) + Indices(w.at, Live(s)))
    ensures Inv(q, j, Apply(q, w, Swap(s)))
  {
    TransferAll(q, j, w, Apply(q, w, Swap(s)), Live(s), Snapshot(s));
  }

  lemma SwapStep(q: Query, j: nat, w: World, s: nat)
    requires Covered(q, j) && Inv(q, j, w) && CanStep(w, Swap(s))
    ensures Inv(q, j, Apply(q, w, Swap(s)))
  {
    assert HoldsPlace(q, j, w, Live(s)) && HoldsPlace(q, j, w, Snapshot(s));
    HoldsWithNothing(q, j, Of(w.live, s), w.rows, Indices(w.at, Snapshot(s)), Indices(w.at, Live(s)));
    SwapTransfer(q, j, w, s);
  }

  lemma CancelStep(q: Query, j: nat, w: World, s: nat)
    requires Covered(q, j) && Inv(q, j, w)
    ensures Inv(q, j, Apply(q, w, Cancel(s)))
  {
    var mine := Indices(w.at, Snapshot(s));
    assert HoldsPlace(q, j, w, Snapshot(s)) && HoldsPlace(q, j, w, Live(s));
    HoldsMerge(q, j, Of(w.live, s), Of(w.snapshot, s), w.rows, Indices(w.at, Live(s)), mine);
    CancelTransfer(q, j, w, s, RemergeGroups(q.select, Of(w.live, s), Of(w.snapshot, s)));
  }

  lemma CancelTransfer(q: Query, j: nat, w: World, s: nat, merged: GroupSet)
    requires j < |q.select| && Inv(q, j, w)
    requires Holds(q, j, merged, w.rows, Indices(w.at, Live(s)) + Indices(w.at, Snapshot(s)))
    ensures Inv(q, j, w.(at := Moved(w.at, Indices(w.at, Snapshot(s)), Live(s)),
                         live := w.live[s := merged], snapshot := w.snapshot[s := map[]]))
  {
    var w' := w.(at := Moved(w.at, Indices(w.at, Snapshot(s)), Live(s)),
                 live := w.live[s := merged], snapshot := w.snapshot[s := map[]]);
    TransferAll(q, j, w, w', Snapshot(s), Live(s));
  }

  lemma ProcessStep(q: Query, j: nat, w: World, s: nat, i: nat)
    requires Covered(q, j) && Inv(q, j, w) && CanStep(w, Process(s, i))
    ensures Inv(q, j, Apply(q, w, Process(s, i)))
  {
    assert HoldsPlace(q, j, w, Live(s));
    HoldsLine(q, j, Of(w.live, s), w.rows, Indices(w.at, Live(s)), i);
    Transfer(q, j, w, Apply(q, w, Process(s, i)), {i}, Taken(s), Live(s));
  }

  lemma AcceptStep(q: Query, j: nat, w: World, s: nat, row: Row)
    requires j < |q.select| && Inv(q, j, w)
    ensures Inv(q, j, Apply(q, w, Accept(s, row)))
  {
    var w' := Apply(q, w, Accept(s, row));
    forall p
      ensures HoldsPlace(q, j, w', p)
    {
      assert HoldsPlace(q, j, w, p);
      if Stored(p) {
        assert Indices(w'.at, p) == Indices(w.at, p);
        HoldsGrow(q, j, At(w, p), w.rows, row, Indices(w.at, p));
      }
    }
  }

  lemma InvStep(q: Query, j: nat, w: World, step: Step)
    requires CanStep(w, step) && Covered(q, j) && Inv(q, j, w)
    ensures Inv(q, j, Apply(q, w, step))
  {
    match step
    case Accept(s, row) => AcceptStep(q, j, w, s, row);
    case TakeBatch(s) => Transfer(q, j, w, Apply(q, w, step), Indices(w.at, Batch(s)), Batch(s), Taken(s));
    case Process(s, i) => ProcessStep(q, j, w, s, i);
    case Swap(s) => SwapStep(q, j, w, s);
    case SendGroup(s, key, id) => SendStep(q, j, w, s, key, id);
    case Cancel(s) => CancelStep(q, j, w, s);
    case Deliver(id, merged) => DeliverStep(q, j, w, id, merged);
    case Flush(s) => FlushStep(q, j, w, s);
  }

  // ---------------------------------------------------------------- whole runs

  ghost predicate Run(q: Query, w: World, steps: seq<Step>, end: World)
    decreases |steps|
  {
    if steps == [] then w == end
    else CanStep(w, steps[0]) && Run(q, Apply(q, w, steps[0]), steps[1..], end)
  }

  lemma {:induction false} InvRun(q: Query, j: nat, w: World, steps: seq<Step>, end: World)
    requires Run(q, w, steps, end) && Covered(q, j) && Inv(q, j, w)
    ensures Inv(q, j, end)
    decreases |steps|
  {
    if steps != [] {
      InvStep(q, j, w, steps[0]);
      InvRun(q, j, Apply(q, w, steps[0]), steps[1..], end);
    }
  }

  lemma InitialInv(q: Query, j: nat)
    requires j < |q.select|
    ensures Inv(q, j, EMPTY_WORLD)
  {
    forall p
      ensures HoldsPlace(q, j, EMPTY_WORLD, p)
    {
      HoldsEmpty(q, j, []);
      assert Indices([], p) == {};
    }
  }

  /** The first n accepted lines. */
  function Below(n: nat): (r: set<nat>)
    ensures forall i: nat :: i in r <==> i < n
  {
    if n == 0 then {} else Below(n - 1) + {n - 1}
  }

  lemma {:induction false} DirectHolds(q: Query, j: nat, rows: seq<Row>)
    requires Covered(q, j)
    ensures Holds(q, j, Direct(q.num, q.select, rows), rows, Below(|rows|))
  {
    if rows == [] {
      HoldsEmpty(q, j, rows);
    } else {
      var n := |rows| - 1;
      var init := rows[..n];
      var earlier := Below(n);
      DirectHolds(q, j, init);
      assert init + [rows[n]] == rows;
      HoldsGrow(q, j, Direct(q.num, q.select, init), init, rows[n], earlier);
      HoldsLine(q, j, Direct(q.num, q.select, init), rows, earlier, n);
    }
  }

  /** One aggregate over all lines never reads a missing value as zero. */
  lemma {:induction false} DirectExact(q: Query, j: nat, rows: seq<Row>, key: string)
    requires Covered(q, j)
    ensures var e := q.select[j];
            CellAt(GetSet(Direct(q.num, q.select, rows), key), e.storage) == Part(q.num, e, rows, Below(|rows|), key)
  {
    if rows != [] {
      var n := |rows| - 1;
      var init := rows[..n];
      DirectExact(q, j, init, key);
      PartFrame(q.num, q.select[j], init, Below(n), Below(|rows|), key);
      DirectHolds(q, j, init);
      if rows[n].key == key {
        AddedLine(q, j, Direct(q.num, q.select, init), rows[n]);
      }
    }
  }

  /** Nothing is on its way: no line waits in a batch, and no group set is live, swapped out, on the wire
      or unmerged on the client. */
  ghost predicate Quiescent(w: World) {
    && (forall i :: 0 <= i < |w.at| ==> Stored(w.at[i]))
    && (forall s :: Of(w.live, s) == map[] && Of(w.snapshot, s) == map[] && Of(w.local, s) == map[])
    && w.wire == map[]
  }

  /** The lines at any of the places. */
  function IndicesOf(at: seq<Place>, places: set<Place>): set<nat> {
    set i: nat | i < |at| && at[i] in places
  }

  /** In a quiescent world the lines anywhere but in the global group amount to nothing. */
  lemma {:induction false} GlobalHoldsAll(q: Query, j: nat, w: World, places: set<Place>)
    requires Covered(q, j) && Inv(q, j, w) && Quiescent(w) && Global !in places
    requires forall p :: p in places ==> Stored(p)
    ensures Holds(q, j, w.global, w.rows, Indices(w.at, Global) + IndicesOf(w.at, places))
    decreases places
  {
    if places == {} {
      assert IndicesOf(w.at, places) == {};
      assert Indices(w.at, Global) + {} == Indices(w.at, Global);
      assert HoldsPlace(q, j, w, Global);
    } else {
      var p :| p in places;
      var rest := places - {p};
      GlobalHoldsAll(q, j, w, rest);
      assert HoldsPlace(q, j, w, p) && At(w, p) == map[];
      var here, done := Indices(w.at, p), Indices(w.at, Global) + IndicesOf(w.at, rest);
      HoldsWithNothing(q, j, w.global, w.rows, here, done);
      assert here + done == Indices(w.at, Global) + IndicesOf(w.at, places);
    }
  }

  /** What a group set shows of entry j under a key. */
  function Shown(q: Query, j: nat, groups: GroupSet, key: string): Reading
    requires j < |q.select|
  {
    Read(CellAt(GetSet(groups, key), q.select[j].storage))
  }

  /** The distributed result is the direct one. After any run, over any servers and any schedule of
      batches, serialisations, cancelled serialisations, deliveries, failed non-blocking merges and
      flushes, once nothing is on its way any more, every group shows the same sample count as one
      aggregate over all accepted lines would, and the same value of entry j; only a positive minimum or a
      negative maximum may be zero instead, and not if every line of the group that reaches a set carries
      the field. Schedules.AgreementIff shows that nothing more can be promised. */
  lemma DistributedEqualsDirect(q: Query, j: nat, steps: seq<Step>, end: World, key: string)
    requires Run(q, EMPTY_WORLD, steps, end) && Covered(q, j) && Quiescent(end)
    ensures GetSet(end.global, key).samples == GetSet(Direct(q.num, q.select, end.rows), key).samples
    ensures var direct, result := Shown(q, j, Direct(q.num, q.select, end.rows), key), Shown(q, j, end.global, key);
            && (result == direct || (LosesToZero(q.select[j].op, direct.f) && result == direct.(f := 0.0)))
            && (Carried(q, j, end.rows, key) ==> result == direct)
  {
    InitialInv(q, j);
    InvRun(q, j, EMPTY_WORLD, steps, end);
    DirectHolds(q, j, end.rows);
    DirectExact(q, j, end.rows, key);
    var places := set p | p in end.at && p != Global;
    GlobalHoldsAll(q, j, end, places);
    var all := Indices(end.at, Global) + IndicesOf(end.at, places);
    assert all == Below(|end.rows|);
    assert HoldsAt(q, j, end.global, end.rows, all, key);
    assert HoldsAt(q, j, Direct(q.num, q.select, end.rows), end.rows, all, key);
    var e := q.select[j];
    AmountsMeans(e.op, Carried(q, j, end.rows, key), key in end.global,
                 CellAt(GetSet(end.global, key), e.storage), Part(q.num, e, end.rows, all, key));
  }
}
