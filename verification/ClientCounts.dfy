/** How often a folded message counts on the client: never twice, and exactly once while the query stays. */
module ClientCounts {
  import opened Wrappers
  import opened Bytes
  import opened ClientSession

  function InGlobals(globals: seq<Global>, d: Datum): nat {
    if globals == [] then 0
    else InGlobals(globals[..|globals| - 1], d) + multiset(globals[|globals| - 1].data)[d]
  }

  function InHandler(handlers: map<nat, Handler>, h: nat, d: Datum): nat {
    if h in handlers then multiset(handlers[h].group)[d] else 0
  }

  /** In the groups of the first n handlers. */
  function InHandlers(handlers: map<nat, Handler>, n: nat, d: Datum): nat {
    if n == 0 then 0 else InHandlers(handlers, n - 1, d) + InHandler(handlers, n - 1, d)
  }

  /** Copies of a datum in the global groups and the per-server groups. */
  function Copies(s: System, n: nat, d: Datum): nat {
    InGlobals(s.globals, d) + InHandlers(s.handlers, n, d)
  }

  function FoldedBy(s: System, step: Step, d: Datum): nat
    requires Enabled(s, step)
  {
    if step.Fold? && step.wellFormed && d == Datum(step.message, s.handlers[step.h].phase.snap.query) then 1 else 0
  }

  function FoldedIn(s: System, steps: seq<Step>, d: Datum): nat
    decreases |steps|
  {
    if steps == [] || !Enabled(s, steps[0]) then 0
    else FoldedBy(s, steps[0], d) + FoldedIn(Apply(s, steps[0]), steps[1..], d)
  }

  lemma {:induction false} HandlersSet(handlers: map<nat, Handler>, n: nat, h: nat, handler: Handler, d: Datum)
    requires h < n
    ensures InHandlers(handlers[h := handler], n, d) + InHandler(handlers, h, d)
            == InHandlers(handlers, n, d) + multiset(handler.group)[d]
  {
    if h < n - 1 {
      HandlersSet(handlers, n - 1, h, handler, d);
    } else {
      HandlersFrame(handlers, handlers[h := handler], n - 1, d);
    }
  }

  lemma {:induction false} HandlersFrame(a: map<nat, Handler>, b: map<nat, Handler>, n: nat, d: Datum)
    requires forall h :: 0 <= h < n ==> InHandler(a, h, d) == InHandler(b, h, d)
    ensures InHandlers(a, n, d) == InHandlers(b, n, d)
  {
    if n > 0 {
      HandlersFrame(a, b, n - 1, d);
    }
  }

  lemma {:induction false} GlobalsSet(globals: seq<Global>, q: nat, g: Global, d: Datum)
    requires q < |globals|
    ensures InGlobals(globals[q := g], d) + multiset(globals[q].data)[d] == InGlobals(globals, d) + multiset(g.data)[d]
  {
    var n := |globals| - 1;
    if q < n {
      GlobalsSet(globals[..n], q, g, d);
      assert globals[q := g][..n] == globals[..n][q := g];
    } else {
      assert globals[q := g][..n] == globals[..n];
    }
  }

  lemma GlobalsInto(globals: seq<Global>, q: nat, data: seq<Datum>, d: Datum)
    requires q < |globals|
    ensures InGlobals(Into(globals, q, data), d) == InGlobals(globals, d) + multiset(data)[d]
  {
    GlobalsSet(globals, q, globals[q].(data := globals[q].data + data), d);
  }

  /** Only one query so far, and every handler is at it. */
  ghost predicate OneQuery(s: System) {
    Inv(s) && |s.globals| == 1 && forall h :: h in s.handlers ==> s.handlers[h].generation == s.globals[0].generation
  }

  predicate KeepsQuery(step: Step) {
    !step.CommitQuery? && !step.SwapOut?
  }

  predicate Below(s: System, n: nat) {
    forall h :: h in s.handlers ==> h < n
  }

  lemma MergeCounts(s: System, h: nat, q: nat, n: nat, d: Datum)
    requires h in s.handlers && h < n && q < |s.globals|
    ensures Copies(MergeGroup(s, h, q), n, d) == Copies(s, n, d)
  {
    HandlersSet(s.handlers, n, h, s.handlers[h].(group := [], phase := Ready), d);
    GlobalsInto(s.globals, q, s.handlers[h].group, d);
  }

  lemma FoldCounts(s: System, step: Step, n: nat, d: Datum)
    requires Inv(s) && Enabled(s, step) && step.Fold? && Below(s, n)
    ensures Copies(Apply(s, step), n, d) <= Copies(s, n, d) + FoldedBy(s, step, d)
    ensures OneQuery(s) ==> Copies(Apply(s, step), n, d) == Copies(s, n, d) + FoldedBy(s, step, d)
  {
    assert HandlerSound(s, s.handlers[step.h]);
    HandlersSet(s.handlers, n, step.h, Apply(s, step).handlers[step.h], d);
  }

  lemma FlushCounts(s: System, step: Step, n: nat, d: Datum)
    requires Inv(s) && Enabled(s, step) && (step.Flush? || step.Merge?) && Below(s, n)
    ensures Copies(Apply(s, step), n, d) <= Copies(s, n, d)
    ensures OneQuery(s) ==> Copies(Apply(s, step), n, d) == Copies(s, n, d)
  {
    var h := step.h;
    assert HandlerSound(s, s.handlers[h]);
    var snap := s.handlers[h].phase.snap;
    if step.Flush? && snap.generation != s.handlers[h].generation {
      HandlersSet(s.handlers, n, h, Apply(s, step).handlers[h], d);
    } else {
      MergeCounts(s, h, snap.query, n, d);
    }
  }

  lemma OtherCounts(s: System, step: Step, n: nat, d: Datum)
    requires Inv(s) && Enabled(s, step) && Below(Apply(s, step), n)
    requires !step.Fold? && !step.Flush? && !step.Merge?
    ensures Copies(Apply(s, step), n, d) <= Copies(s, n, d)
    ensures KeepsQuery(step) ==> Copies(Apply(s, step), n, d) == Copies(s, n, d)
  {
    var s' := Apply(s, step);
    if step.CommitQuery? {
      assert s'.globals[..|s'.globals| - 1] == s.globals;
    } else if step.SwapOut? {
      var q := |s.globals| - 1;
      GlobalsSet(s.globals, q, s.globals[q].(data := []), d);
    } else if step.NewHandler? || step.StartAggregate? || step.SkipMerge? || step.StartFlush? {
      HandlersSet(s.handlers, n, step.h, s'.handlers[step.h], d);
    }
  }

  lemma StepCounts(s: System, step: Step, n: nat, d: Datum)
    requires Inv(s) && Enabled(s, step) && Below(Apply(s, step), n)
    ensures Copies(Apply(s, step), n, d) <= Copies(s, n, d) + FoldedBy(s, step, d)
    ensures OneQuery(s) && KeepsQuery(step) ==> Copies(Apply(s, step), n, d) == Copies(s, n, d) + FoldedBy(s, step, d)
  {
    assert s.handlers.Keys <= Apply(s, step).handlers.Keys;
    if step.Fold? {
      FoldCounts(s, step, n, d);
    } else if step.Flush? || step.Merge? {
      FlushCounts(s, step, n, d);
    } else {
      OtherCounts(s, step, n, d);
    }
  }

  lemma OneQueryStays(s: System, step: Step)
    requires OneQuery(s) && Enabled(s, step) && KeepsQuery(step)
    ensures OneQuery(Apply(s, step))
  {
    InvStep(s, step);
    var s' := Apply(s, step);
    forall h | h in s'.handlers
      ensures s'.handlers[h].generation == s'.globals[0].generation
    {
      if h in s.handlers {
        assert HandlerSound(s, s.handlers[h]);
      }
    }
  }

  lemma {:induction false} HandlersStay(s: System, steps: seq<Step>, end: System, n: nat)
    requires Run(s, steps, end) && Below(end, n)
    ensures Below(s, n)
    decreases |steps|
  {
    if steps != [] {
      HandlersStay(Apply(s, steps[0]), steps[1..], end, n);
      assert s.handlers.Keys <= Apply(s, steps[0]).handlers.Keys;
    }
  }

  lemma {:induction false} RunCounts(s: System, steps: seq<Step>, end: System, n: nat, d: Datum)
    requires Inv(s) && Run(s, steps, end) && Below(end, n)
    ensures Copies(end, n, d) <= Copies(s, n, d) + FoldedIn(s, steps, d)
    ensures OneQuery(s) && (forall i :: 0 <= i < |steps| ==> KeepsQuery(steps[i])) ==>
              Copies(end, n, d) == Copies(s, n, d) + FoldedIn(s, steps, d)
    decreases |steps|
  {
    if steps != [] {
      var s', rest := Apply(s, steps[0]), steps[1..];
      InvStep(s, steps[0]);
      HandlersStay(s', rest, end, n);
      StepCounts(s, steps[0], n, d);
      if OneQuery(s) && KeepsQuery(steps[0]) {
        OneQueryStays(s, steps[0]);
      }
      RunCounts(s', rest, end, n, d);
    }
  }

  lemma {:induction false} NoHandlers(n: nat, d: Datum)
    ensures InHandlers(map[], n, d) == 0
  {
    if n > 0 {
      NoHandlers(n - 1, d);
    }
  }

  /** In every interleaving a folded message is in at most one group, and while no query is committed and no
      result swapped out it is in exactly one: a merge moves data and never copies or drops any. */
  lemma FoldedOnce(steps: seq<Step>, end: System, n: nat, d: Datum)
    requires Run(INITIAL, steps, end) && Below(end, n)
    ensures Copies(end, n, d) <= FoldedIn(INITIAL, steps, d)
    ensures (forall i :: 0 <= i < |steps| ==> KeepsQuery(steps[i])) ==> Copies(end, n, d) == FoldedIn(INITIAL, steps, d)
  {
    assert InGlobals(INITIAL.globals[..0], d) == 0;
    NoHandlers(n, d);
    RunCounts(INITIAL, steps, end, n, d);
  }
}
