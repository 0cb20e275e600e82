/** Query generations on the client: the session state shared by the reporter and the handlers of all
    servers (internal/mapr/client/session_state.go) and the per-server aggregates that fold into it
    (internal/mapr/client/aggregate.go). */
module ClientSession {
  import opened Wrappers
  import opened Bytes

  /** A folded message, with the number of the commit whose query selected its fields. */
  datatype Datum = Datum(message: ByteString, query: nat)

  /** The global group of one commit. */
  datatype Global = Global(generation: nat, data: seq<Datum>)

  /** Generation and global group are captured together, under the session's lock. */
  datatype Snapshot = Snapshot(generation: nat, query: nat)

  /** Where a server's handler is inside Aggregate or Flush. */
  datatype Phase = Ready | Aggregating(snap: Snapshot) | Merging(snap: Snapshot) | Flushing(snap: Snapshot)

  datatype Handler = Handler(group: seq<Datum>, generation: nat, phase: Phase)

  /** `globals` lists the global groups of all commits, the active one last; `lastResult` names the
      commit that it was rendered from. */
  datatype System = System(
    globals: seq<Global>,
    lastResult: Option<(nat, ByteString)>,
    handlers: map<nat, Handler>,
    reporter: Option<Snapshot>)

  const INITIAL := System([Global(0, [])], None, map[], None)

  function Current(s: System): Snapshot {
    if s.globals == [] then Snapshot(0, 0) else Snapshot(s.globals[|s.globals| - 1].generation, |s.globals| - 1)
  }

  datatype Step =
    | NewHandler(h: nat)
    | StartAggregate(h: nat)
    | Fold(h: nat, message: ByteString, wellFormed: bool)
    | Merge(h: nat)
    | SkipMerge(h: nat)
    | StartFlush(h: nat)
    | Flush(h: nat)
    | CommitQuery(generation: nat)
    | StartReport
    | CommitResult(result: ByteString)
    | SwapOut

  predicate Enabled(s: System, step: Step) {
    match step
    case NewHandler(h) => h !in s.handlers
    case StartAggregate(h) => h in s.handlers && s.handlers[h].phase.Ready?
    case Fold(h, _, _) => h in s.handlers && s.handlers[h].phase.Aggregating?
    case Merge(h) => h in s.handlers && s.handlers[h].phase.Merging?
    case SkipMerge(h) => h in s.handlers && s.handlers[h].phase.Merging?
    case StartFlush(h) => h in s.handlers && s.handlers[h].phase.Ready?
    case Flush(h) => h in s.handlers && s.handlers[h].phase.Flushing?
    case CommitQuery(_) => true
    case StartReport => true
    case CommitResult(_) => s.reporter.Some?
    case SwapOut => s.globals != []
  }

  /** A handler that sees a new generation starts an empty group. */
  function Adopt(h: Handler, snap: Snapshot): Handler {
    if snap.generation != h.generation then h.(group := [], generation := snap.generation) else h
  }

  function Set(s: System, h: nat, handler: Handler): System {
    s.(handlers := s.handlers[h := handler])
  }

  /** Merges a handler's group into a global group and empties it. */
  function MergeGroup(s: System, h: nat, query: nat): System
    requires h in s.handlers
  {
    Set(s.(globals := Into(s.globals, query, s.handlers[h].group)), h, s.handlers[h].(group := [], phase := Ready))
  }

  function Into(globals: seq<Global>, query: nat, data: seq<Datum>): seq<Global> {
    if query < |globals| then globals[query := globals[query].(data := globals[query].data + data)] else globals
  }

  function Apply(s: System, step: Step): System
    requires Enabled(s, step)
  {
    match step
    case NewHandler(h) => Set(s, h, Handler([], Current(s).generation, Ready))
    case StartAggregate(h) => Set(s, h, s.handlers[h].(phase := Aggregating(Current(s))))
    case Fold(h, message, wellFormed) =>
      var snap := s.handlers[h].phase.snap;
      var handler := Adopt(s.handlers[h], snap);
      if !wellFormed then Set(s, h, handler.(phase := Ready))
      else Set(s, h, handler.(group := handler.group + [Datum(message, snap.query)], phase := Merging(snap)))
    case Merge(h) => MergeGroup(s, h, s.handlers[h].phase.snap.query)
    case SkipMerge(h) => Set(s, h, s.handlers[h].(phase := Ready))
    case StartFlush(h) => Set(s, h, s.handlers[h].(phase := Flushing(Current(s))))
    case Flush(h) =>
      var snap := s.handlers[h].phase.snap;
      if snap.generation != s.handlers[h].generation then Set(s, h, Adopt(s.handlers[h], snap).(phase := Ready))
      else MergeGroup(s, h, snap.query)
    case CommitQuery(generation) => s.(globals := s.globals + [Global(generation, [])], lastResult := None)
    case StartReport => s.(reporter := Some(Current(s)))
    case CommitResult(result) =>
      if Current(s).generation != s.reporter.value.generation then s.(reporter := None)
      else s.(reporter := None, lastResult := Some((s.reporter.value.query, result)))
    case SwapOut =>
      var n := |s.globals| - 1;
      s.(globals := s.globals[n := s.globals[n].(data := [])])
  }

  // ---------------------------------------------------------------- what every step keeps

  predicate Of(s: System, query: nat, generation: nat) {
    query < |s.globals| && s.globals[query].generation == generation
  }

  predicate AllOf(s: System, data: seq<Datum>, generation: nat) {
    forall i :: 0 <= i < |data| ==> Of(s, data[i].query, generation)
  }

  predicate HandlerSound(s: System, h: Handler) {
    && AllOf(s, h.group, h.generation)
    && (!h.phase.Ready? ==> Of(s, h.phase.snap.query, h.phase.snap.generation))
    && (h.phase.Merging? ==> h.phase.snap.generation == h.generation)
  }

  /** Every datum is where data of its generation belongs. */
  ghost predicate Inv(s: System) {
    && s.globals != []
    && (forall q :: 0 <= q < |s.globals| ==> AllOf(s, s.globals[q].data, s.globals[q].generation))
    && (forall h :: h in s.handlers ==> HandlerSound(s, s.handlers[h]))
    && (s.reporter.Some? ==> Of(s, s.reporter.value.query, s.reporter.value.generation))
    && (s.lastResult.Some? ==> Of(s, s.lastResult.value.0, Current(s).generation))
  }

  /** The same commits with the same generations, perhaps more of them. */
  predicate Extends(s: System, s': System) {
    |s.globals| <= |s'.globals| && forall q :: 0 <= q < |s.globals| ==> s'.globals[q].generation == s.globals[q].generation
  }

  lemma StepExtends(s: System, step: Step)
    requires Inv(s) && Enabled(s, step)
    ensures Extends(s, Apply(s, step))
  {
  }

  lemma SoundExtends(s: System, s': System, h: Handler)
    requires HandlerSound(s, h) && Extends(s, s')
    ensures HandlerSound(s', h)
  {
  }

  /** The handler that took the step. */
  lemma ActorStep(s: System, step: Step)
    requires Inv(s) && Enabled(s, step) && !step.CommitQuery? && !step.StartReport? && !step.CommitResult? && !step.SwapOut?
    ensures HandlerSound(s, Apply(s, step).handlers[step.h])
  {
    if !step.NewHandler? {
      assert HandlerSound(s, s.handlers[step.h]);
    }
  }

  lemma HandlersStep(s: System, step: Step)
    requires Inv(s) && Enabled(s, step)
    ensures var s' := Apply(s, step); forall h :: h in s'.handlers ==> HandlerSound(s', s'.handlers[h])
  {
    StepExtends(s, step);
    var s' := Apply(s, step);
    forall h | h in s'.handlers
      ensures HandlerSound(s', s'.handlers[h])
    {
      if h in s.handlers && s'.handlers[h] == s.handlers[h] {
        assert HandlerSound(s, s.handlers[h]);
      } else {
        ActorStep(s, step);
      }
      SoundExtends(s, s', s'.handlers[h]);
    }
  }

  lemma GlobalsStep(s: System, step: Step)
    requires Inv(s) && Enabled(s, step)
    ensures var s' := Apply(s, step);
            forall q :: 0 <= q < |s'.globals| ==> AllOf(s', s'.globals[q].data, s'.globals[q].generation)
  {
    StepExtends(s, step);
    var s' := Apply(s, step);
    forall q | 0 <= q < |s'.globals|
      ensures AllOf(s', s'.globals[q].data, s'.globals[q].generation)
    {
      if q < |s.globals| {
        assert AllOf(s, s.globals[q].data, s.globals[q].generation);
        if step.Merge? || step.Flush? {
          assert HandlerSound(s, s.handlers[step.h]);
        }
      }
    }
  }

  lemma InvStep(s: System, step: Step)
    requires Inv(s) && Enabled(s, step)
    ensures Inv(Apply(s, step))
  {
    StepExtends(s, step);
    HandlersStep(s, step);
    GlobalsStep(s, step);
  }

  ghost predicate Run(s: System, steps: seq<Step>, end: System)
    decreases |steps|
  {
    if steps == [] then s == end else Enabled(s, steps[0]) && Run(Apply(s, steps[0]), steps[1..], end)
  }

  ghost predicate Reachable(s: System) {
    exists steps :: Run(INITIAL, steps, s)
  }

  lemma {:induction false} InvRun(s: System, steps: seq<Step>, end: System)
    requires Inv(s) && Run(s, steps, end)
    ensures Inv(end)
    decreases |steps|
  {
    if steps != [] {
      InvStep(s, steps[0]);
      InvRun(Apply(s, steps[0]), steps[1..], end);
    }
  }

  lemma ReachableInv(s: System)
    requires Reachable(s)
    ensures Inv(s)
  {
    var steps :| Run(INITIAL, steps, s);
    InvRun(INITIAL, steps, s);
  }

  lemma {:induction false} RunExtends(s: System, steps: seq<Step>, end: System, step: Step)
    requires Run(s, steps, end) && Enabled(end, step)
    ensures Run(s, steps + [step], Apply(end, step))
    decreases |steps|
  {
    if steps == [] {
      assert (steps + [step])[1..] == [];
    } else {
      RunExtends(Apply(s, steps[0]), steps[1..], end, step);
      assert (steps + [step])[1..] == steps[1..] + [step];
    }
  }

  lemma ReachableStep(s: System, step: Step) returns (s': System)
    requires Reachable(s) && Enabled(s, step)
    ensures s' == Apply(s, step) && Reachable(s')
  {
    var steps :| Run(INITIAL, steps, s);
    RunExtends(INITIAL, steps, s, step);
    s' := Apply(s, step);
  }

  // ---------------------------------------------------------------- theorems over all interleavings

  /** No two commits use the same generation. */
  predicate Distinct(s: System) {
    forall i, j :: 0 <= i < j < |s.globals| ==> s.globals[i].generation != s.globals[j].generation
  }

  /** Data folded in for one generation never reaches the global group of another. */
  lemma GenerationsDoNotMix(s: System, q: nat, i: nat)
    requires Reachable(s) && q < |s.globals| && i < |s.globals[q].data|
    ensures var d := s.globals[q].data[i];
            d.query < |s.globals| && s.globals[d.query].generation == s.globals[q].generation
  {
    ReachableInv(s);
  }

  /** With distinct generations every datum is in the global group of the very query it was folded for,
      and the recorded result was rendered from the active query. */
  lemma QueriesDoNotMix(s: System)
    requires Reachable(s) && Distinct(s)
    ensures forall q, i :: 0 <= q < |s.globals| && 0 <= i < |s.globals[q].data| ==> s.globals[q].data[i].query == q
    ensures s.lastResult.Some? ==> s.lastResult.value.0 == |s.globals| - 1
  {
    ReachableInv(s);
    forall q, i | 0 <= q < |s.globals| && 0 <= i < |s.globals[q].data|
      ensures s.globals[q].data[i].query == q
    {
      GenerationsDoNotMix(s, q, i);
    }
  }

  /** A result rendered from the active query is recorded as that query's. */
  lemma ReportIsRecorded(s: System, result: ByteString)
    requires Reachable(s)
    ensures Apply(Apply(s, StartReport), CommitResult(result)).lastResult == Some((|s.globals| - 1, result))
  {
    ReachableInv(s);
  }

  /** The generations committed so far, the initial one first. */
  function Generations(s: System): seq<nat> {
    seq(|s.globals|, i requires 0 <= i < |s.globals| => s.globals[i].generation)
  }

  predicate HasDuplicate(gs: seq<nat>) {
    exists i, j :: 0 <= i < j < |gs| && gs[i] == gs[j]
  }

  /** Some global group holds data that was folded in for another query. */
  ghost predicate Mixes(s: System) {
    exists q, i :: 0 <= q < |s.globals| && 0 <= i < |s.globals[q].data| && s.globals[q].data[i].query != q
  }

  /** Commits one query after the other and does nothing else. */
  lemma {:induction false} CommitAll(s: System, gs: seq<nat>) returns (s': System)
    requires Reachable(s)
    ensures Reachable(s') && s'.handlers == s.handlers && |s'.globals| == |s.globals| + |gs|
    ensures forall q :: 0 <= q < |s.globals| ==> s'.globals[q] == s.globals[q]
    ensures forall q :: 0 <= q < |gs| ==> s'.globals[|s.globals| + q] == Global(gs[q], [])
    decreases |gs|
  {
    s' := s;
    if gs != [] {
      s' := ReachableStep(s, CommitQuery(gs[0]));
      s' := CommitAll(s', gs[1..]);
      assert forall q :: 1 <= q < |gs| ==> gs[q] == gs[1..][q - 1];
    }
  }

  /** A handler folds one message, does not get the merge semaphore and stays idle. */
  lemma FoldAndWait(s: System) returns (s': System)
    requires Reachable(s) && s.globals != [] && s.handlers == map[]
    ensures Reachable(s') && s'.globals == s.globals
    ensures s'.handlers == map[0 := Handler([Datum([], |s.globals| - 1)], Current(s).generation, Ready)]
  {
    var d := Datum([], |s.globals| - 1);
    s' := ReachableStep(s, NewHandler(0));
    s' := ReachableStep(s', StartAggregate(0));
    s' := ReachableStep(s', Fold(0, [], true));
    assert s'.handlers[0].group == [d];
    s' := ReachableStep(s', SkipMerge(0));
    assert s'.handlers[0] == Handler([d], Current(s).generation, Ready);
    assert s'.handlers == map[0 := Handler([Datum([], |s.globals| - 1)], Current(s).generation, Ready)];
  }

  lemma FlushLate(s: System, d: Datum) returns (s': System)
    requires Reachable(s) && s.globals != [] && s.globals[|s.globals| - 1].data == []
    requires s.handlers == map[0 := Handler([d], Current(s).generation, Ready)]
    ensures Reachable(s') && |s'.globals| == |s.globals| && Generations(s') == Generations(s)
    ensures s'.globals[|s.globals| - 1].data == [d]
  {
    s' := ReachableStep(s, StartFlush(0));
    s' := ReachableStep(s', Flush(0));
  }

  /** Some run has committed exactly these generations, and data waits in a handler of the one at i. */
  lemma ReachWaiting(gs: seq<nat>, i: nat) returns (s: System)
    requires i < |gs| && gs[0] == 0
    ensures Reachable(s) && Generations(s) == gs[..i + 1]
    ensures s.handlers == map[0 := Handler([Datum([], i)], gs[i], Ready)]
  {
    assert Run(INITIAL, [], INITIAL);
    assert Generations(INITIAL) == gs[..1];
    s := CommitMore(INITIAL, gs, i + 1);
    assert Current(s).generation == Generations(s)[i];
    s := FoldAndWait(s);
  }

  lemma CommitMore(s: System, gs: seq<nat>, n: nat) returns (s': System)
    requires Reachable(s) && n <= |gs| && |s.globals| <= n && Generations(s) == gs[..|s.globals|]
    ensures Reachable(s') && Generations(s') == gs[..n] && s'.handlers == s.handlers
    ensures |s'.globals| == n && forall q :: 0 <= q < |s.globals| ==> s'.globals[q] == s.globals[q]
    ensures forall q :: |s.globals| <= q < n ==> s'.globals[q].data == []
  {
    var m := |s.globals|;
    var more := gs[m..n];
    s' := CommitAll(s, more);
    assert forall q :: 0 <= q < m ==> s'.globals[q].generation == Generations(s)[q];
    assert forall q :: m <= q < n ==> s'.globals[q] == Global(more[q - m], []);
  }

  /** A generation that is committed twice, at positions i and j, lets data of query i into the group of
      query j in some run with exactly those commits. */
  lemma ReusedGenerationLeaks(gs: seq<nat>, i: nat, j: nat) returns (s: System)
    requires i < j < |gs| && gs[0] == 0 && gs[i] == gs[j]
    ensures Reachable(s) && Generations(s) == gs && |s.globals| == |gs| && s.globals[j].data == [Datum([], i)]
  {
    s := ReachWaiting(gs, i);
    s := CommitMore(s, gs, j + 1);
    assert Current(s).generation == Generations(s)[j];
    s := FlushLate(s, Datum([], i));
    s := CommitMore(s, gs, |gs|);
  }

  /** Exactly when queries can mix: a list of committed generations has a run in which data of one query
      ends up in another one's result if and only if it repeats a generation. */
  lemma QueriesMixIff(gs: seq<nat>)
    requires gs != [] && gs[0] == 0
    ensures (exists s :: Reachable(s) && Generations(s) == gs && Mixes(s)) <==> HasDuplicate(gs)
  {
    if HasDuplicate(gs) {
      var i, j :| 0 <= i < j < |gs| && gs[i] == gs[j];
      var s := ReusedGenerationLeaks(gs, i, j);
      assert s.globals[j].data[0].query != j;
      assert Mixes(s);
    }
    forall s | Reachable(s) && Generations(s) == gs && !HasDuplicate(gs)
      ensures !Mixes(s)
    {
      assert forall q :: 0 <= q < |gs| ==> s.globals[q].generation == gs[q];
      assert Distinct(s);
      QueriesDoNotMix(s);
    }
  }

  // ---------------------------------------------------------------- the shared state

  /** The session state. `query` counts the commits and stands for the parsed query and its global group. */
  class SessionState {
    var generation: nat
    var query: nat
    var lastResult: ByteString

    constructor ()
      ensures generation == 0 && query == 0 && lastResult == []
    {
      generation, query, lastResult := 0, 0, [];
    }

    method Capture() returns (snap: Snapshot)
      ensures snap == Snapshot(generation, query)
    {
      snap := Snapshot(generation, query);
    }

    /** A query that does not parse changes nothing. */
    method Commit(generation: nat, parses: bool) returns (ok: bool)
      modifies this
      ensures ok == parses
      ensures ok ==> this.generation == generation && query == old(query) + 1 && lastResult == []
      ensures !ok ==> unchanged(this)
    {
      if !parses {
        return false;
      }
      this.generation, query, lastResult := generation, query + 1, [];
      ok := true;
    }

    method CommitRenderedResult(generation: nat, result: ByteString) returns (changed: bool, ok: bool)
      modifies this`lastResult
      ensures ok <==> generation == this.generation
      ensures changed <==> ok && old(lastResult) != result
      ensures lastResult == if ok then result else old(lastResult)
    {
      if this.generation != generation {
        return false, false;
      }
      if lastResult == result {
        return false, true;
      }
      lastResult := result;
      return true, true;
    }
  }
}
