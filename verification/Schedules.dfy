/** Schedules of the distributed aggregation: every world can be brought to rest, and exactly which groups
    show the same value under every schedule. */
module Schedules {
  import opened Wrappers
  import opened AggregateSets
  import opened AggregateWire
  import opened Groups
  import opened Pipeline

  // ---------------------------------------------------------------- every world can come to rest

  /** What is still on its way: lines in a batch, lines taken from one, servers with live groups, groups of
      a snapshot, messages, and servers with unmerged groups on the client. */
  datatype Work = Work(
    waiting: set<nat>, taken: set<nat>, live: set<nat>, unsent: set<(nat, string)>, wire: set<nat>, local: set<nat>)

  function WorkOf(w: World): Work {
    Work((set i: nat | i < |w.at| && w.at[i].Batch?),
         (set i: nat | i < |w.at| && w.at[i].Taken?),
         Busy(w.live),
         (set s, k | s in w.snapshot && k in w.snapshot[s] :: (s, k)),
         w.wire.Keys,
         Busy(w.local))
  }

  function Busy(m: map<nat, GroupSet>): set<nat> {
    set s | s in m && m[s] != map[]
  }

  predicate Less(a: Work, b: Work) {
    || a.waiting < b.waiting
    || (a.waiting == b.waiting && a.taken < b.taken)
    || (a.waiting == b.waiting && a.taken == b.taken && LaterLess(a, b))
  }

  predicate LaterLess(a: Work, b: Work) {
    || a.live < b.live
    || (a.live == b.live && a.unsent < b.unsent)
    || (a.live == b.live && a.unsent == b.unsent && a.wire < b.wire)
    || (a.live == b.live && a.unsent == b.unsent && a.wire == b.wire && a.local < b.local)
  }

  /** A step that takes in no line and leaves less to do. */
  ghost predicate Settles(q: Query, w: World, step: Step) {
    && CanStep(w, step)
    && var w' := Apply(q, w, step);
       w'.rows == w.rows && |w'.at| == |w.at| && Less(WorkOf(w'), WorkOf(w))
  }

  lemma {:induction false} FreshId(used: set<nat>) returns (id: nat)
    ensures forall x :: x in used ==> x < id
  {
    if used == {} {
      id := 0;
    } else {
      var x :| x in used;
      var rest := FreshId(used - {x});
      id := if x < rest then rest else x + 1;
      assert used == used - {x} + {x};
    }
  }

  lemma LinesStay(w: World, which: set<nat>, to: Place)
    requires Stored(to) && forall i :: i in which ==> i < |w.at| && Stored(w.at[i])
    ensures forall w': World :: w'.at == Moved(w.at, which, to) ==>
              WorkOf(w').waiting == WorkOf(w).waiting && WorkOf(w').taken == WorkOf(w).taken
  {
  }

  lemma TakeSettles(q: Query, w: World, i: nat)
    requires i < |w.at| && w.at[i].Batch?
    ensures Settles(q, w, TakeBatch(w.at[i].server))
  {
    var w' := Apply(q, w, TakeBatch(w.at[i].server));
    assert i in WorkOf(w).waiting && i !in WorkOf(w').waiting;
  }

  lemma ProcessSettles(q: Query, w: World, i: nat)
    requires |w.at| == |w.rows| && i < |w.at| && w.at[i].Taken?
    ensures Settles(q, w, Process(w.at[i].server, i))
  {
    var w' := Apply(q, w, Process(w.at[i].server, i));
    assert WorkOf(w').waiting == WorkOf(w).waiting;
    assert i in WorkOf(w).taken && i !in WorkOf(w').taken;
  }

  lemma SendSettles(q: Query, w: World, s: nat, key: string, id: nat)
    requires CanStep(w, SendGroup(s, key, id))
    ensures Settles(q, w, SendGroup(s, key, id))
  {
    var w' := Apply(q, w, SendGroup(s, key, id));
    LinesStay(w, WithKey(w.rows, Indices(w.at, Snapshot(s)), key), Wire(id));
    assert (s, key) in WorkOf(w).unsent && (s, key) !in WorkOf(w').unsent;
  }

  lemma SwapSettles(q: Query, w: World, s: nat)
    requires CanStep(w, Swap(s)) && Of(w.live, s) != map[]
    ensures Settles(q, w, Swap(s))
  {
    var w' := Apply(q, w, Swap(s));
    LinesStay(w, Indices(w.at, Live(s)), Snapshot(s));
    assert s in Busy(w.live) && s !in Busy(w'.live);
  }

  lemma FlushSettles(q: Query, w: World, s: nat)
    requires Of(w.local, s) != map[]
    ensures Settles(q, w, Flush(s))
  {
    var w' := Apply(q, w, Flush(s));
    LinesStay(w, Indices(w.at, Local(s)), Global);
    assert s in Busy(w.local) && s !in Busy(w'.local);
  }

  lemma DeliverSettles(q: Query, w: World, id: nat)
    requires id in w.wire
    ensures Settles(q, w, Deliver(id, false))
  {
    var w' := Apply(q, w, Deliver(id, false));
    LinesStay(w, Indices(w.at, Wire(id)), Local(w.wire[id].server));
    assert id in w.wire.Keys && id !in w'.wire.Keys;
  }

  lemma NextStep(q: Query, w: World) returns (step: Step)
    requires |w.at| == |w.rows| && !Quiescent(w)
    ensures Settles(q, w, step)
  {
    if i: nat :| i < |w.at| && w.at[i].Batch? {
      step := TakeBatch(w.at[i].server);
      TakeSettles(q, w, i);
    } else if i: nat :| i < |w.at| && w.at[i].Taken? {
      step := Process(w.at[i].server, i);
      ProcessSettles(q, w, i);
    } else if s, k :| s in w.snapshot && k in w.snapshot[s] {
      var id := FreshId(w.wire.Keys);
      step := SendGroup(s, k, id);
      SendSettles(q, w, s, k, id);
    } else if s: nat :| Of(w.live, s) != map[] {
      assert Of(w.snapshot, s) == map[];
      step := Swap(s);
      SwapSettles(q, w, s);
    } else if id :| id in w.wire {
      step := Deliver(id, false);
      DeliverSettles(q, w, id);
    } else {
      var s: nat :| Of(w.local, s) != map[];
      step := Flush(s);
      FlushSettles(q, w, s);
    }
  }

  /** No reachable world is stuck: without accepting another line it can always be brought to rest. */
  lemma {:induction false} Settle(q: Query, w: World) returns (steps: seq<Step>, end: World)
    requires |w.at| == |w.rows|
    ensures Run(q, w, steps, end) && Quiescent(end) && end.rows == w.rows
    decreases WorkOf(w).waiting, WorkOf(w).taken, WorkOf(w).live, WorkOf(w).unsent, WorkOf(w).wire, WorkOf(w).local
  {
    if Quiescent(w) {
      steps, end := [], w;
    } else {
      var step := NextStep(q, w);
      var rest;
      rest, end := Settle(q, Apply(q, w, step));
      steps := [step] + rest;
      assert steps[1..] == rest;
    }
  }

  lemma {:induction false} RunConcat(q: Query, w: World, first: seq<Step>, mid: World, second: seq<Step>, end: World)
    requires Run(q, w, first, mid) && Run(q, mid, second, end)
    ensures Run(q, w, first + second, end)
    decreases |first|
  {
    if first == [] {
      assert first + second == second;
    } else {
      RunConcat(q, Apply(q, w, first[0]), first[1..], mid, second, end);
      assert (first + second)[1..] == first[1..] + second;
    }
  }

  lemma {:induction false} RunKeepsPlaces(q: Query, w: World, steps: seq<Step>, end: World)
    requires Run(q, w, steps, end) && |w.at| == |w.rows|
    ensures |end.at| == |end.rows|
    decreases |steps|
  {
    if steps != [] {
      RunKeepsPlaces(q, Apply(q, w, steps[0]), steps[1..], end);
    }
  }

  /** No run is stuck: without accepting another line it can be continued until nothing is on its way. */
  lemma EveryRunCanFinish(q: Query, steps: seq<Step>, w: World) returns (more: seq<Step>, end: World)
    requires Run(q, EMPTY_WORLD, steps, w)
    ensures Run(q, EMPTY_WORLD, steps + more, end) && Run(q, w, more, end) && Quiescent(end) && end.rows == w.rows
  {
    RunKeepsPlaces(q, EMPTY_WORLD, steps, w);
    more, end := Settle(q, w);
    RunConcat(q, EMPTY_WORLD, steps, w, more, end);
  }

  // ---------------------------------------------------------------- a zero stays

  /** A value that no zero can spoil any more. */
  predicate Low(op: Operation, c: Cell) {
    c.f.Some? && c.s.None? && !LosesToZero(op, c.f.value)
  }

  ghost predicate LowIn(q: Query, j: nat, groups: GroupSet, key: string)
    requires j < |q.select|
  {
    Low(q.select[j].op, CellAt(GetSet(groups, key), q.select[j].storage))
  }

  ghost predicate LowAt(q: Query, j: nat, w: World, key: string, p: Place)
    requires j < |q.select|
  {
    Stored(p) && LowIn(q, j, At(w, p), key)
  }

  ghost predicate LowSomewhere(q: Query, j: nat, w: World, key: string)
    requires j < |q.select|
  {
    exists p :: LowAt(q, j, w, key, p)
  }

  ghost predicate Extreme(q: Query, j: nat) {
    Covered(q, j) && !SumLike(q.select[j].op)
  }

  lemma MergedCellIsLow(op: Operation, c: Cell, c': Cell)
    requires (op.Min? || op.Max?) && c.s.None? && (Low(op, c) || Low(op, c'))
    ensures Low(op, MergeCell(op, c, c')) && Low(op, RemergeCell(op, c, c'))
  {
  }

  lemma MergeKeepsLow(q: Query, j: nat, groups: GroupSet, other: GroupSet, key: string)
    requires Extreme(q, j) && SetsOk(q, groups) && SetsOk(q, other)
    requires LowIn(q, j, groups, key) || LowIn(q, j, other, key)
    ensures LowIn(q, j, MergeGroups(q.select, groups, other), key)
    ensures LowIn(q, j, RemergeGroups(q.select, groups, other), key)
  {
    if key in other {
      var s, t, e := GetSet(groups, key), other[key], q.select[j];
      GetIsSound(q, groups, key);
      MergeCells(q.select, |q.select|, s, t, j);
      RemergeCells(q.select, |q.select|, s, t, j);
      MergedCellIsLow(e.op, CellAt(s, e.storage), CellAt(t, e.storage));
    }
  }

  lemma LineKeepsLow(q: Query, j: nat, groups: GroupSet, row: Row, key: string)
    requires Extreme(q, j) && SetsOk(q, groups) && LowIn(q, j, groups, key)
    ensures LowIn(q, j, AggregateLine(q.num, q.select, groups, row), key)
  {
    if row.key == key {
      AddedLine(q, j, groups, row);
    }
  }

  lemma ReceiveKeepsLow(q: Query, j: nat, local: GroupSet, s: Summary, from: string, key: string)
    requires Extreme(q, j) && SetsOk(q, local) && SetSound(q, s)
    requires LowIn(q, j, local, key) || LowIn(q, j, map[from := s], key)
    ensures LowIn(q, j, ReceiveSet(q.num, q.select, local, from, s), key)
  {
    GetIsSound(q, local, key);
    if from == key {
      ReceivedSet(q, j, local, key, s);
    }
  }

  lemma SoundAt(q: Query, j: nat, w: World, p: Place)
    requires j < |q.select| && Inv(q, j, w) && Stored(p)
    ensures SetsOk(q, At(w, p))
  {
    assert HoldsPlace(q, j, w, p);
  }

  lemma LowMoves(q: Query, j: nat, w: World, w': World, key: string, from: Place, to: Place)
    requires j < |q.select| && LowSomewhere(q, j, w, key)
    requires forall p :: Stored(p) && p != from && p != to ==> At(w', p) == At(w, p)
    requires LowAt(q, j, w, key, from) || LowAt(q, j, w, key, to) ==>
               LowAt(q, j, w', key, from) || LowAt(q, j, w', key, to)
    ensures LowSomewhere(q, j, w', key)
  {
    var p :| LowAt(q, j, w, key, p);
    if p != from && p != to {
      assert LowAt(q, j, w', key, p);
    }
  }

  lemma MergedLow(q: Query, j: nat, w: World, key: string, from: Place, to: Place)
    requires Extreme(q, j) && Inv(q, j, w) && Stored(from) && Stored(to)
    requires LowIn(q, j, At(w, to), key) || LowIn(q, j, At(w, from), key)
    ensures LowIn(q, j, MergeGroups(q.select, At(w, to), At(w, from)), key)
    ensures LowIn(q, j, RemergeGroups(q.select, At(w, to), At(w, from)), key)
  {
    SoundAt(q, j, w, from);
    SoundAt(q, j, w, to);
    MergeKeepsLow(q, j, At(w, to), At(w, from), key);
  }

  lemma FlushMoves(q: Query, j: nat, w: World, s: nat, at: seq<Place>, merged: GroupSet, key: string)
    requires j < |q.select| && LowSomewhere(q, j, w, key)
    requires LowIn(q, j, w.global, key) || LowIn(q, j, Of(w.local, s), key) ==> LowIn(q, j, merged, key)
    ensures LowSomewhere(q, j, w.(at := at, global := merged, local := w.local[s := map[]]), key)
  {
    LowMoves(q, j, w, w.(at := at, global := merged, local := w.local[s := map[]]), key, Local(s), Global);
  }

  lemma FlushKeepsLow(q: Query, j: nat, w: World, s: nat, key: string)
    requires Extreme(q, j) && Inv(q, j, w) && LowSomewhere(q, j, w, key)
    ensures LowSomewhere(q, j, FlushLocal(q, w, s), key)
  {
    if LowIn(q, j, w.global, key) || LowIn(q, j, Of(w.local, s), key) {
      MergedLow(q, j, w, key, Local(s), Global);
    }
    FlushMoves(q, j, w, s, Moved(w.at, Indices(w.at, Local(s)), Global),
               MergeGroups(q.select, w.global, Of(w.local, s)), key);
  }

  lemma ServerMoves(q: Query, j: nat, w: World, s: nat, at: seq<Place>, live: GroupSet, snapshot: GroupSet, key: string)
    requires j < |q.select| && LowSomewhere(q, j, w, key)
    requires LowIn(q, j, Of(w.live, s), key) || LowIn(q, j, Of(w.snapshot, s), key) ==>
               LowIn(q, j, live, key) || LowIn(q, j, snapshot, key)
    ensures LowSomewhere(q, j, w.(at := at, live := w.live[s := live], snapshot := w.snapshot[s := snapshot]), key)
  {
    var w' := w.(at := at, live := w.live[s := live], snapshot := w.snapshot[s := snapshot]);
    LowMoves(q, j, w, w', key, Snapshot(s), Live(s));
  }

  lemma CancelKeepsLow(q: Query, j: nat, w: World, s: nat, key: string)
    requires Extreme(q, j) && Inv(q, j, w) && LowSomewhere(q, j, w, key)
    ensures LowSomewhere(q, j, Apply(q, w, Cancel(s)), key)
  {
    if LowIn(q, j, Of(w.live, s), key) || LowIn(q, j, Of(w.snapshot, s), key) {
      MergedLow(q, j, w, key, Snapshot(s), Live(s));
    }
    ServerMoves(q, j, w, s, Moved(w.at, Indices(w.at, Snapshot(s)), Live(s)),
                RemergeGroups(q.select, Of(w.live, s), Of(w.snapshot, s)), map[], key);
  }

  lemma ReceivedMoves(q: Query, j: nat, w: World, id: nat, at: seq<Place>, received: GroupSet, key: string)
    requires j < |q.select| && LowSomewhere(q, j, w, key) && id in w.wire
    requires LowIn(q, j, At(w, Local(w.wire[id].server)), key) || LowIn(q, j, At(w, Wire(id)), key) ==> LowIn(q, j, received, key)
    ensures LowSomewhere(q, j, w.(at := at, local := w.local[w.wire[id].server := received], wire := w.wire - {id}), key)
  {
    var s := w.wire[id].server;
    var w' := w.(at := at, local := w.local[s := received], wire := w.wire - {id});
    LowMoves(q, j, w, w', key, Wire(id), Local(s));
  }

  lemma DeliverKeepsLow(q: Query, j: nat, w: World, id: nat, key: string)
    requires Extreme(q, j) && Inv(q, j, w) && LowSomewhere(q, j, w, key) && id in w.wire
    ensures LowSomewhere(q, j, Apply(q, w, Deliver(id, false)), key)
  {
    var p := w.wire[id];
    SoundAt(q, j, w, Local(p.server));
    SoundAt(q, j, w, Wire(id));
    assert SetSound(q, At(w, Wire(id))[p.key]);
    if LowIn(q, j, Of(w.local, p.server), key) || LowIn(q, j, map[p.key := p.set_], key) {
      ReceiveKeepsLow(q, j, Of(w.local, p.server), p.set_, p.key, key);
    }
    ReceivedMoves(q, j, w, id, Moved(w.at, Indices(w.at, Wire(id)), Local(p.server)),
                  ReceiveSet(q.num, q.select, Of(w.local, p.server), p.key, p.set_), key);
  }

  lemma LiveMoves(q: Query, j: nat, w: World, s: nat, at: seq<Place>, groups: GroupSet, key: string)
    requires j < |q.select| && LowSomewhere(q, j, w, key)
    requires LowIn(q, j, Of(w.live, s), key) ==> LowIn(q, j, groups, key)
    ensures LowSomewhere(q, j, w.(at := at, live := w.live[s := groups]), key)
  {
    LowMoves(q, j, w, w.(at := at, live := w.live[s := groups]), key, Live(s), Live(s));
  }

  lemma ProcessKeepsLow(q: Query, j: nat, w: World, s: nat, i: nat, key: string)
    requires Extreme(q, j) && Inv(q, j, w) && LowSomewhere(q, j, w, key) && CanStep(w, Process(s, i))
    ensures LowSomewhere(q, j, Apply(q, w, Process(s, i)), key)
  {
    SoundAt(q, j, w, Live(s));
    if LowIn(q, j, Of(w.live, s), key) {
      LineKeepsLow(q, j, Of(w.live, s), w.rows[i], key);
    }
    LiveMoves(q, j, w, s, Moved(w.at, {i}, Live(s)), AggregateLine(q.num, q.select, Of(w.live, s), w.rows[i]), key);
  }

  lemma SwapKeepsLow(q: Query, j: nat, w: World, s: nat, key: string)
    requires j < |q.select| && LowSomewhere(q, j, w, key) && CanStep(w, Swap(s))
    ensures LowSomewhere(q, j, Apply(q, w, Swap(s)), key)
  {
    ServerMoves(q, j, w, s, Moved(w.at, Indices(w.at, Live(s)), Snapshot(s)), map[], Of(w.live, s), key);
  }

  lemma SendKeepsLow(q: Query, j: nat, w: World, s: nat, k: string, id: nat, key: string)
    requires j < |q.select| && LowSomewhere(q, j, w, key) && CanStep(w, SendGroup(s, k, id))
    ensures LowSomewhere(q, j, Apply(q, w, SendGroup(s, k, id)), key)
  {
    LowMoves(q, j, w, Apply(q, w, SendGroup(s, k, id)), key, Snapshot(s), Wire(id));
  }

  lemma StepKeepsLow(q: Query, j: nat, w: World, step: Step, key: string)
    requires Extreme(q, j) && Inv(q, j, w) && LowSomewhere(q, j, w, key) && CanStep(w, step)
    ensures LowSomewhere(q, j, Apply(q, w, step), key)
  {
    match step
    case Accept(_, _) => LowMoves(q, j, w, Apply(q, w, step), key, Global, Global);
    case TakeBatch(_) => LowMoves(q, j, w, Apply(q, w, step), key, Global, Global);
    case Process(s, i) => ProcessKeepsLow(q, j, w, s, i, key);
    case Swap(s) => SwapKeepsLow(q, j, w, s, key);
    case SendGroup(s, k, id) => SendKeepsLow(q, j, w, s, k, id, key);
    case Cancel(s) => CancelKeepsLow(q, j, w, s, key);
    case Deliver(id, merged) =>
      DeliverKeepsLow(q, j, w, id, key);
      if merged {
        InvStep(q, j, w, Deliver(id, false));
        FlushKeepsLow(q, j, Apply(q, w, Deliver(id, false)), w.wire[id].server, key);
      }
    case Flush(s) => FlushKeepsLow(q, j, w, s, key);
  }

  /** A zero that a missing value was read as never leaves the pipeline again. */
  lemma {:induction false} RunKeepsLow(q: Query, j: nat, w: World, steps: seq<Step>, end: World, key: string)
    requires Run(q, w, steps, end) && Extreme(q, j) && Inv(q, j, w) && LowSomewhere(q, j, w, key)
    ensures LowSomewhere(q, j, end, key)
    decreases |steps|
  {
    if steps != [] {
      InvStep(q, j, w, steps[0]);
      StepKeepsLow(q, j, w, steps[0], key);
      RunKeepsLow(q, j, Apply(q, w, steps[0]), steps[1..], end, key);
    }
  }

  lemma LowAtRest(q: Query, j: nat, w: World, key: string)
    requires j < |q.select| && Quiescent(w) && LowSomewhere(q, j, w, key)
    ensures LowIn(q, j, w.global, key)
  {
    var p :| LowAt(q, j, w, key, p);
  }

  // ---------------------------------------------------------------- the schedule that shows the zero

  function Accepted(rows: seq<Row>): World {
    EMPTY_WORLD.(rows := rows, at := seq(|rows|, i => Batch(0)))
  }

  lemma {:induction false} AcceptAll(q: Query, rows: seq<Row>) returns (steps: seq<Step>)
    ensures Run(q, EMPTY_WORLD, steps, Accepted(rows))
  {
    if rows == [] {
      steps := [];
    } else {
      var n := |rows| - 1;
      var init := AcceptAll(q, rows[..n]);
      var last := Accept(0, rows[n]);
      assert Apply(q, Accepted(rows[..n]), last) == Accepted(rows);
      assert Run(q, Accepted(rows), [], Accepted(rows));
      assert Run(q, Accepted(rows[..n]), [last], Accepted(rows));
      RunConcat(q, EMPTY_WORLD, init, Accepted(rows[..n]), [last], Accepted(rows));
      steps := init + [last];
    }
  }

  /** What one server holds after taking in a line without the field, swapping, taking in a line with it
      and giving up the serialisation: the missing value came back as a zero. */
  lemma CancelReadsZero(q: Query, j: nat, without: Row, with_: Row)
    requires Extreme(q, j) && without.key == with_.key && Matches(q.select, without)
    requires !Contributes(q.num, q.select[j], without.fields, false)
    requires Contributes(q.num, q.select[j], with_.fields, false)
    ensures var snapshot := AggregateLine(q.num, q.select, map[], without);
            var live := AggregateLine(q.num, q.select, map[], with_);
            LowIn(q, j, RemergeGroups(q.select, live, snapshot), with_.key)
  {
    var none: GroupSet := map[];
    var snapshot, live := AggregateLine(q.num, q.select, none, without), AggregateLine(q.num, q.select, none, with_);
    AddedLine(q, j, none, without);
    AddedLine(q, j, none, with_);
    RemergeCells(q.select, |q.select|, live[with_.key], snapshot[with_.key], j);
  }

  /** The worlds on the way there. */
  lemma ZeroWorlds(q: Query, rows: seq<Row>, a: nat, b: nat) returns (w1: World, w2: World, w3: World, w4: World)
    requires a < |rows| && b < |rows| && a != b
    ensures w1 == Apply(q, Accepted(rows), TakeBatch(0))
    ensures CanStep(w1, Process(0, a)) && w2 == Apply(q, w1, Process(0, a))
    ensures CanStep(w2, Swap(0)) && w3 == Apply(q, w2, Swap(0))
    ensures CanStep(w3, Process(0, b)) && w4 == Apply(q, w3, Process(0, b)) && w4.rows == rows
    ensures Of(w4.live, 0) == AggregateLine(q.num, q.select, map[], rows[b])
    ensures Of(w4.snapshot, 0) == AggregateLine(q.num, q.select, map[], rows[a])
  {
    w1 := Apply(q, Accepted(rows), TakeBatch(0));
    assert w1.at[a] == Taken(0) && w1.at[b] == Taken(0);
    w2 := Apply(q, w1, Process(0, a));
    w3 := Apply(q, w2, Swap(0));
    assert w3.at[b] == Taken(0);
    w4 := Apply(q, w3, Process(0, b));
  }

  lemma RunStep(q: Query, w: World, step: Step, steps: seq<Step>, end: World)
    requires CanStep(w, step) && Run(q, Apply(q, w, step), steps, end)
    ensures Run(q, w, [step] + steps, end)
  {
    assert ([step] + steps)[1..] == steps;
  }

  lemma ZeroRun(q: Query, rows: seq<Row>, a: nat, b: nat) returns (steps: seq<Step>, w: World)
    requires a < |rows| && b < |rows| && a != b
    ensures Run(q, Accepted(rows), steps, w) && w.rows == rows
    ensures Of(w.live, 0) == RemergeGroups(q.select, AggregateLine(q.num, q.select, map[], rows[b]),
                                           AggregateLine(q.num, q.select, map[], rows[a]))
  {
    var w1, w2, w3, w4 := ZeroWorlds(q, rows, a, b);
    w := Apply(q, w4, Cancel(0));
    RunStep(q, w4, Cancel(0), [], w);
    RunStep(q, w3, Process(0, b), [Cancel(0)] + [], w);
    RunStep(q, w2, Swap(0), [Process(0, b)] + ([Cancel(0)] + []), w);
    RunStep(q, w1, Process(0, a), [Swap(0)] + ([Process(0, b)] + ([Cancel(0)] + [])), w);
    steps := [Process(0, a)] + ([Swap(0)] + ([Process(0, b)] + ([Cancel(0)] + [])));
    RunStep(q, Accepted(rows), TakeBatch(0), steps, w);
    steps := [TakeBatch(0)] + steps;
  }

  lemma ZeroAppears(q: Query, j: nat, rows: seq<Row>, a: nat, b: nat) returns (steps: seq<Step>, w: World)
    requires Extreme(q, j) && a < |rows| && b < |rows| && rows[a].key == rows[b].key && Matches(q.select, rows[a])
    requires !Contributes(q.num, q.select[j], rows[a].fields, false)
    requires Contributes(q.num, q.select[j], rows[b].fields, false)
    ensures Run(q, EMPTY_WORLD, steps, w) && w.rows == rows && LowAt(q, j, w, rows[b].key, Live(0))
  {
    var accept := AcceptAll(q, rows);
    var zero;
    zero, w := ZeroRun(q, rows, a, b);
    CancelReadsZero(q, j, rows[a], rows[b]);
    RunConcat(q, EMPTY_WORLD, accept, Accepted(rows), zero, w);
    steps := accept + zero;
  }

  lemma ZeroIsShown(q: Query, j: nat, steps: seq<Step>, w: World, key: string) returns (more: seq<Step>, end: World)
    requires Extreme(q, j) && Run(q, EMPTY_WORLD, steps, w) && LowSomewhere(q, j, w, key)
    ensures Run(q, EMPTY_WORLD, steps + more, end) && Quiescent(end) && end.rows == w.rows
    ensures LowIn(q, j, end.global, key)
  {
    InitialInv(q, j);
    InvRun(q, j, EMPTY_WORLD, steps, w);
    more, end := EveryRunCanFinish(q, steps, w);
    RunKeepsLow(q, j, w, more, end, key);
    LowAtRest(q, j, end, key);
  }

  /** If one line of a group reaches a set without the field and another one carries it, some schedule
      ends with a minimum of at most zero, or a maximum of at least zero. */
  lemma ZeroSchedule(q: Query, j: nat, rows: seq<Row>, a: nat, b: nat) returns (steps: seq<Step>, end: World)
    requires Extreme(q, j) && a < |rows| && b < |rows| && rows[a].key == rows[b].key && Matches(q.select, rows[a])
    requires !Contributes(q.num, q.select[j], rows[a].fields, false)
    requires Contributes(q.num, q.select[j], rows[b].fields, false)
    ensures Run(q, EMPTY_WORLD, steps, end) && Quiescent(end) && end.rows == rows
    ensures LowIn(q, j, end.global, rows[b].key)
  {
    var first, w := ZeroAppears(q, j, rows, a, b);
    var more;
    more, end := ZeroIsShown(q, j, first, w, rows[b].key);
    steps := first + more;
  }

  // ---------------------------------------------------------------- which groups every schedule shows alike

  /** If this is a whole run over these lines, it shows the direct value. */
  ghost predicate Agreeing(q: Query, j: nat, rows: seq<Row>, key: string, steps: seq<Step>, end: World)
    requires j < |q.select|
  {
    Run(q, EMPTY_WORLD, steps, end) && Quiescent(end) && end.rows == rows ==>
      Shown(q, j, end.global, key) == Shown(q, j, Direct(q.num, q.select, rows), key)
  }

  lemma {:induction false} PartNeedsALine(num: Numbers, e: Entry, rows: seq<Row>, which: set<nat>, key: string) returns (b: nat)
    requires Numeric(e.op) && Part(num, e, rows, which, key).f.Some?
    ensures b < |rows| && rows[b].key == key && Contributes(num, e, rows[b].fields, false)
  {
    var n := |rows| - 1;
    if n in which && rows[n].key == key && Contributes(num, e, rows[n].fields, false) {
      b := n;
    } else {
      b := PartNeedsALine(num, e, rows[..n], which, key);
    }
  }

  /** Exactly when the result does not depend on the schedule: a group shows the direct value in every run
      over the lines if and only if all its lines that reach a set carry the field, or the direct value does
      not lose to a zero. Sums are always carried. */
  lemma AgreementIff(q: Query, j: nat, rows: seq<Row>, key: string)
    requires Covered(q, j)
    ensures (forall steps, end :: Agreeing(q, j, rows, key, steps, end))
       <==> (Carried(q, j, rows, key)
             || !LosesToZero(q.select[j].op, Shown(q, j, Direct(q.num, q.select, rows), key).f))
  {
    var direct := Shown(q, j, Direct(q.num, q.select, rows), key);
    if Carried(q, j, rows, key) || !LosesToZero(q.select[j].op, direct.f) {
      forall steps, end
        ensures Agreeing(q, j, rows, key, steps, end)
      {
        if Run(q, EMPTY_WORLD, steps, end) && Quiescent(end) && end.rows == rows {
          DistributedEqualsDirect(q, j, steps, end, key);
        }
      }
    } else {
      DirectExact(q, j, rows, key);
      var a :| 0 <= a < |rows| && rows[a].key == key && Matches(q.select, rows[a])
               && !Contributes(q.num, q.select[j], rows[a].fields, false);
      var b := PartNeedsALine(q.num, q.select[j], rows, Below(|rows|), key);
      var steps, end := ZeroSchedule(q, j, rows, a, b);
      assert !Agreeing(q, j, rows, key, steps, end);
    }
  }
}
