/** Group sets: aggregate sets under their group keys, on the server (internal/mapr/server/aggregate.go),
    per server on the client (internal/mapr/client/aggregate.go) and merged (internal/mapr/globalgroupset.go). */
module Groups {
  import opened Wrappers
  import opened AggregateSets
  import opened AggregateWire

  type GroupSet = map<string, Summary>

  /** An accepted line after where and set: its group key and its fields. */
  datatype Row = Row(key: string, fields: Fields)

  function GetSet(groups: GroupSet, key: string): Summary {
    if key in groups then groups[key] else EMPTY
  }

  predicate Matches(select: seq<Entry>, row: Row) {
    exists i :: 0 <= i < |select| && select[i].field in row.fields
  }

  /** The server's aggregate(): the set is looked up or made at the first selected field the line has. */
  function AggregateLine(num: Numbers, select: seq<Entry>, groups: GroupSet, row: Row): GroupSet {
    if Matches(select, row) then groups[row.key := AddRow(num, select, GetSet(groups, row.key), row.fields, 1, false)]
    else groups
  }

  function AggregateLines(num: Numbers, select: seq<Entry>, groups: GroupSet, rows: seq<Row>): GroupSet {
    if rows == [] then groups
    else AggregateLine(num, select, AggregateLines(num, select, groups, rows[..|rows| - 1]), rows[|rows| - 1])
  }

  /** All accepted lines through one aggregate, in order. */
  function Direct(num: Numbers, select: seq<Entry>, rows: seq<Row>): GroupSet {
    AggregateLines(num, select, map[], rows)
  }

  /** The group set with the sets of some keys replaced or added. */
  function Overlay(groups: GroupSet, keys: set<string>, next: string -> Summary): GroupSet {
    map k | k in groups.Keys + keys :: if k in keys then next(k) else groups[k]
  }

  lemma OverlayStep(groups: GroupSet, keys: set<string>, next: string -> Summary, k: string)
    ensures Overlay(groups, keys, next)[k := next(k)] == Overlay(groups, keys + {k}, next)
    ensures k !in keys ==> GetSet(Overlay(groups, keys, next), k) == GetSet(groups, k)
    ensures k !in keys ==> (k in Overlay(groups, keys, next) <==> k in groups)
    ensures Overlay(groups, {}, next) == groups
  {
  }

  function Merged(select: seq<Entry>, groups: GroupSet, other: GroupSet): string -> Summary {
    k => Merge(select, GetSet(groups, k), GetSet(other, k))
  }

  function Remerged(select: seq<Entry>, live: GroupSet, remaining: GroupSet): string -> Summary {
    k => if k in live then Remerge(select, live[k], GetSet(remaining, k)) else GetSet(remaining, k)
  }

  /** GlobalGroupSet.merge. */
  function MergeGroups(select: seq<Entry>, groups: GroupSet, other: GroupSet): GroupSet {
    Overlay(groups, other.Keys, Merged(select, groups, other))
  }

  /** mergeRemainingLocked. */
  function RemergeGroups(select: seq<Entry>, live: GroupSet, remaining: GroupSet): GroupSet {
    Overlay(live, remaining.Keys, Remerged(select, live, remaining))
  }

  /** The client folds a received set into its group for that server. A set without any value is
      rejected by the parser (AggregateWire.ParseInvertsSerialize). */
  function ReceiveSet(num: Numbers, select: seq<Entry>, local: GroupSet, key: string, s: Summary): GroupSet {
    if s.floats == map[] && s.strings == map[] then local
    else local[key := AddRow(num, select, GetSet(local, key), WireFields(num, s), s.samples, true)]
  }

  /** The comment on aggregate() says that it keeps sets without samples out of the map. It does so
      only for lines without any selected field: a set is also made when every selected field present
      fails to parse, and exactly then it has no samples. */
  lemma EmptySetEntersTheMap(num: Numbers, select: seq<Entry>, groups: GroupSet, row: Row)
    requires Distinct(select) && row.key !in groups
    ensures var after := AggregateLine(num, select, groups, row);
            (row.key in after && after[row.key].samples == 0)
            <==> ((exists i :: 0 <= i < |select| && select[i].field in row.fields)
                  && forall i :: 0 <= i < |select| && select[i].field in row.fields
                       ==> !TakesText(select[i].op) && num.parse(row.fields[select[i].field]).None?)
  {
    AggregateUpToCells(num, select, |select|, EMPTY, row.fields, false);
    assert forall i :: 0 <= i < |select| ==>
      (Contributes(num, select[i], row.fields, false) <==>
        select[i].field in row.fields
        && (TakesText(select[i].op) || num.parse(row.fields[select[i].field]).Some?));
  }

  /** Operations that take any text: the others parse a number. */
  predicate TakesText(op: Operation) {
    op.Count? || op.Last? || op.Len?
  }

  /** The server side of one map command: the live group sets, swapped out while they are serialised. */
  class ServerAggregate {
    const num: Numbers
    const select: seq<Entry>
    const batchSize: nat
    var batch: seq<Row>
    var groupSets: GroupSet

    constructor (num: Numbers, select: seq<Entry>)
      ensures this.num == num && this.select == select && batch == [] && groupSets == map[] && batchSize == 100
    {
      this.num, this.select, batchSize, batch, groupSets := num, select, 100, [], map[];
    }

    method Enqueue(row: Row) returns (full: bool)
      modifies this`batch
      ensures batch == old(batch) + [row] && full == (|batch| >= batchSize)
    {
      batch := batch + [row];
      full := |batch| >= batchSize;
    }

    method TakeBatch() returns (taken: seq<Row>)
      modifies this`batch
      ensures taken == old(batch) && batch == []
    {
      taken, batch := batch, [];
    }

    /** processRawBatch: each line under the group lock. */
    method ProcessBatch(rows: seq<Row>)
      modifies this`groupSets
      ensures groupSets == AggregateLines(num, select, old(groupSets), rows)
    {
      for i := 0 to |rows|
        invariant groupSets == AggregateLines(num, select, old(groupSets), rows[..i])
      {
        AggregateFields(rows[i]);
        assert rows[..i + 1][..i] == rows[..i];
      }
      assert rows[..|rows|] == rows;
    }

    method AggregateFields(row: Row)
      modifies this`groupSets
      ensures groupSets == AggregateLine(num, select, old(groupSets), row)
    {
      var s := EMPTY;
      var have, added := false, false;
      for n := 0 to |select|
        invariant have == exists i :: 0 <= i < n && select[i].field in row.fields
        invariant groupSets == old(groupSets)
        invariant have ==> (s, added) == AggregateUpTo(num, select, n, GetSet(old(groupSets), row.key), row.fields, false)
        invariant !have ==> !added
        invariant !have ==>
          AggregateUpTo(num, select, n, GetSet(old(groupSets), row.key), row.fields, false)
          == (GetSet(old(groupSets), row.key), false)
      {
        var e := select[n];
        if e.field in row.fields {
          if !have {
            have := true;
            s := GetSet(groupSets, row.key);
          }
          var result := Aggregate(num, s, e, row.fields[e.field], false);
          if result.Some? {
            s, added := result.value, true;
          }
        }
      }
      if added {
        s := s.(samples := s.samples + 1);
      }
      if have {
        groupSets := groupSets[row.key := s];
      }
    }

    method SwapGroupSets() returns (snapshot: GroupSet)
      modifies this`groupSets
      ensures snapshot == old(groupSets) && groupSets == map[]
    {
      snapshot, groupSets := groupSets, map[];
    }

    method MergeRemaining(remaining: GroupSet)
      modifies this`groupSets
      ensures groupSets == RemergeGroups(select, old(groupSets), remaining)
    {
      ghost var live := groupSets;
      ghost var next := Remerged(select, live, remaining);
      OverlayStep(groupSets, {}, next, "");
      var todo := remaining.Keys;
      ghost var done: set<string> := {};
      while todo != {}
        invariant todo !! done && todo + done == remaining.Keys
        invariant groupSets == Overlay(live, done, next)
        decreases todo
      {
        var k :| k in todo;
        OverlayStep(live, done, next, k);
        groupSets := groupSets[k := if k in groupSets then Remerge(select, groupSets[k], remaining[k]) else remaining[k]];
        todo, done := todo - {k}, done + {k};
      }
    }
  }

  /** GlobalGroupSet.merge: every group of one server's set goes into the global set. */
  method MergeIntoGlobal(select: seq<Entry>, global: GroupSet, group: GroupSet) returns (merged: GroupSet)
    ensures merged == MergeGroups(select, global, group)
  {
    merged := global;
    ghost var next := Merged(select, global, group);
    OverlayStep(merged, {}, next, "");
    var todo := group.Keys;
    ghost var done: set<string> := {};
    while todo != {}
      invariant todo !! done && todo + done == group.Keys
      invariant merged == Overlay(global, done, next)
      decreases todo
    {
      var k :| k in todo;
      OverlayStep(global, done, next, k);
      merged := merged[k := Merge(select, GetSet(merged, k), group[k])];
      todo, done := todo - {k}, done + {k};
    }
  }
}
