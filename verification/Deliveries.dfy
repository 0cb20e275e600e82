/** The messages of the distributed aggregation as text: what a server serialises is what the client reads. */
module Deliveries {
  import opened Wrappers
  import opened AggregateSets
  import opened AggregateWire
  import opened Groups
  import opened Pipeline

  predicate CleanName(name: string) {
    DELIMITER !in name && KV_DELIMITER !in name
  }

  predicate CleanSelect(select: seq<Entry>) {
    forall i :: 0 <= i < |select| ==> CleanName(select[i].storage)
  }

  ghost predicate CleanFields(fields: Fields) {
    forall k :: k in fields ==> DELIMITER !in fields[k]
  }

  /** The group key and the field values of a line are free of the message delimiter. */
  ghost predicate CleanRow(row: Row) {
    DELIMITER !in row.key && CleanFields(row.fields)
  }

  ghost predicate CleanRows(rows: seq<Row>) {
    forall i :: 0 <= i < |rows| ==> CleanRow(rows[i])
  }

  ghost predicate AllSendable(groups: GroupSet) {
    forall k :: k in groups ==> Sendable(k, groups[k])
  }

  /** Every set on a server or on the wire can be sent. */
  ghost predicate WorldSendable(w: World) {
    && (forall s :: AllSendable(Of(w.live, s)) && AllSendable(Of(w.snapshot, s)))
    && (forall id :: id in w.wire ==> Sendable(w.wire[id].key, w.wire[id].set_))
  }

  lemma {:induction false} AggregateSendable(num: Numbers, select: seq<Entry>, n: nat, key: string, s: Summary, row: Fields)
    requires n <= |select| && CleanSelect(select) && CleanFields(row) && Sendable(key, s)
    ensures Sendable(key, AggregateUpTo(num, select, n, s, row, false).0)
  {
    if n > 0 {
      AggregateSendable(num, select, n - 1, key, s, row);
    }
  }

  lemma LineSendable(q: Query, groups: GroupSet, row: Row)
    requires CleanSelect(q.select) && CleanRow(row) && AllSendable(groups)
    ensures AllSendable(AggregateLine(q.num, q.select, groups, row))
  {
    AggregateSendable(q.num, q.select, |q.select|, row.key, GetSet(groups, row.key), row.fields);
  }

  lemma {:induction false} RemergeSendable(select: seq<Entry>, n: nat, key: string, live: Summary, snap: Summary)
    requires n <= |select| && CleanSelect(select) && Sendable(key, live) && Sendable(key, snap)
    ensures Sendable(key, RemergeUpTo(select, n, live, snap))
  {
    if n > 0 {
      RemergeSendable(select, n - 1, key, live, snap);
    }
  }

  lemma PutBackSendable(select: seq<Entry>, live: GroupSet, snapshot: GroupSet)
    requires CleanSelect(select) && AllSendable(live) && AllSendable(snapshot)
    ensures AllSendable(RemergeGroups(select, live, snapshot))
  {
    forall k | k in RemergeGroups(select, live, snapshot)
      ensures Sendable(k, RemergeGroups(select, live, snapshot)[k])
    {
      if k in live && k in snapshot {
        RemergeSendable(select, |select|, k, live[k], snapshot[k]);
      }
    }
  }

  lemma ServerSendable(w: World, w': World, s: nat)
    requires WorldSendable(w) && AllSendable(Of(w'.live, s)) && AllSendable(Of(w'.snapshot, s))
    requires forall t :: t != s ==> Of(w'.live, t) == Of(w.live, t) && Of(w'.snapshot, t) == Of(w.snapshot, t)
    requires forall id :: id in w'.wire ==> Sendable(w'.wire[id].key, w'.wire[id].set_)
    ensures WorldSendable(w')
  {
  }

  lemma ProcessSendable(q: Query, w: World, s: nat, i: nat)
    requires CanStep(w, Process(s, i)) && CleanSelect(q.select) && CleanRows(w.rows) && WorldSendable(w)
    ensures WorldSendable(Apply(q, w, Process(s, i)))
  {
    LineSendable(q, Of(w.live, s), w.rows[i]);
    ServerSendable(w, Apply(q, w, Process(s, i)), s);
  }

  lemma CancelSendable(q: Query, w: World, s: nat)
    requires CleanSelect(q.select) && WorldSendable(w)
    ensures WorldSendable(Apply(q, w, Cancel(s)))
  {
    PutBackSendable(q.select, Of(w.live, s), Of(w.snapshot, s));
    ServerSendable(w, Apply(q, w, Cancel(s)), s);
  }

  lemma SendSendable(q: Query, w: World, s: nat, key: string, id: nat)
    requires CanStep(w, SendGroup(s, key, id)) && WorldSendable(w)
    ensures WorldSendable(Apply(q, w, SendGroup(s, key, id)))
  {
    var w' := Apply(q, w, SendGroup(s, key, id));
    assert Of(w'.snapshot, s) == Of(w.snapshot, s) - {key};
    ServerSendable(w, w', s);
  }

  lemma SendableStep(q: Query, w: World, step: Step)
    requires CanStep(w, step) && CleanSelect(q.select) && CleanRows(w.rows) && WorldSendable(w)
    ensures WorldSendable(Apply(q, w, step))
  {
    match step
    case Process(s, i) => ProcessSendable(q, w, s, i);
    case Swap(s) => ServerSendable(w, Apply(q, w, step), s);
    case SendGroup(s, key, id) => SendSendable(q, w, s, key, id);
    case Cancel(s) => CancelSendable(q, w, s);
    case _ => ServerSendable(w, Apply(q, w, step), 0);
  }

  lemma RowsOnlyGrow(q: Query, w: World, step: Step)
    requires CanStep(w, step)
    ensures w.rows <= Apply(q, w, step).rows
  {
  }

  lemma {:induction false} RunRowsGrow(q: Query, w: World, steps: seq<Step>, end: World)
    requires Run(q, w, steps, end)
    ensures w.rows <= end.rows
    decreases |steps|
  {
    if steps != [] {
      RowsOnlyGrow(q, w, steps[0]);
      RunRowsGrow(q, Apply(q, w, steps[0]), steps[1..], end);
    }
  }

  lemma {:induction false} SendableRun(q: Query, w: World, steps: seq<Step>, end: World)
    requires Run(q, w, steps, end) && CleanSelect(q.select) && CleanRows(end.rows) && WorldSendable(w)
    ensures WorldSendable(end)
    decreases |steps|
  {
    if steps != [] {
      RunRowsGrow(q, w, steps, end);
      assert forall i :: 0 <= i < |w.rows| ==> w.rows[i] == end.rows[i];
      SendableStep(q, w, steps[0]);
      SendableRun(q, Apply(q, w, steps[0]), steps[1..], end);
    }
  }

  /** The client's handler: a message that does not parse is dropped. */
  function ReceiveText(codec: Codec, select: seq<Entry>, local: GroupSet, text: string): GroupSet {
    match Parse(codec, text)
    case None => local
    case Some(m) => local[m.key := AddRow(codec.num, select, GetSet(local, m.key), m.fields, m.samples, true)]
  }

  lemma ReadingTextIsReceiving(
    codec: Codec, select: seq<Entry>, local: GroupSet, key: string, s: Summary, floats: seq<Pair>, strings: seq<Pair>)
    requires codec.Lawful() && Sendable(key, s)
    requires Lists(floats, Formatted(codec.num, s.floats)) && Lists(strings, s.strings)
    ensures ReceiveText(codec, select, local, Serialize(codec, key, s.samples, floats, strings))
            == ReceiveSet(codec.num, select, local, key, s)
  {
    ParseInvertsSerialize(codec, key, s, floats, strings);
  }

  lemma PacketsAreSendable(q: Query, steps: seq<Step>, w: World, id: nat)
    requires Run(q, EMPTY_WORLD, steps, w) && CleanSelect(q.select) && CleanRows(w.rows) && id in w.wire
    ensures Sendable(w.wire[id].key, w.wire[id].set_)
  {
    SendableRun(q, EMPTY_WORLD, steps, w);
  }

  /** In every reachable world, delivering the text of a message, its two maps written in any order, does
      to the client's group what the delivery step does with the set itself. Only the group keys, the field
      values and the names of the select clause have to be free of the delimiters. */
  lemma TextIsTheSet(codec: Codec, q: Query, steps: seq<Step>, w: World, id: nat, floats: seq<Pair>, strings: seq<Pair>)
    requires Run(q, EMPTY_WORLD, steps, w) && id in w.wire
    requires CleanSelect(q.select) && CleanRows(w.rows) && codec.Lawful() && codec.num == q.num
    requires Lists(floats, Formatted(q.num, w.wire[id].set_.floats)) && Lists(strings, w.wire[id].set_.strings)
    ensures var p := w.wire[id];
            var text := Serialize(codec, p.key, p.set_.samples, floats, strings);
            Of(Apply(q, w, Deliver(id, false)).local, p.server)
            == ReceiveText(codec, q.select, Of(w.local, p.server), text)
  {
    var p := w.wire[id];
    PacketsAreSendable(q, steps, w, id);
    ReadingTextIsReceiving(codec, q.select, Of(w.local, p.server), p.key, p.set_, floats, strings);
  }
}
