/** Reloading an interactive query on all connections of a client (internal/clients/interactive_control.go),
    the session request of one connection (internal/clients/connectors/sessiontransport.go) and the
    session state it meets on the server (internal/server/handlers/sessioncommand.go). */
module SessionReload {
  import opened Bytes

  /** A session spec; the blank one is the zero value. */
  datatype Spec = Spec(text: ByteString)
  const BLANK := Spec([])

  /** The session state one server connection keeps. */
  datatype Session = Session(active: bool, generation: nat, spec: Spec)
  const RESET := Session(false, 0, BLANK)

  datatype Ack = Rejected | Accepted(start: bool, generation: nat)

  function Start(s: Session, spec: Spec, dispatched: bool): (Session, Ack) {
    if s.active then (s, Rejected)
    else if !dispatched then (RESET, Rejected)
    else (Session(true, 1, spec), Accepted(true, 1))
  }

  /** Generation 0 asks the server to count up by itself. */
  function Update(s: Session, spec: Spec, generation: nat, dispatched: bool): (Session, Ack) {
    if !s.active then (s, Rejected)
    else if !dispatched then (RESET, Rejected)
    else
      var g := if generation == 0 then s.generation + 1 else generation;
      (Session(true, g, spec), Accepted(false, g))
  }

  class SessionCommandState {
    var active: bool
    var generation: nat
    var spec: Spec

    ghost function View(): Session
      reads this
    {
      Session(active, generation, spec)
    }

    constructor ()
      ensures View() == RESET
    {
      active, generation, spec := false, 0, BLANK;
    }

    method Reset()
      modifies this
      ensures View() == RESET
    {
      active, generation, spec := false, 0, BLANK;
    }

    method StartSession(spec: Spec, dispatched: bool) returns (ack: Ack)
      modifies this
      ensures (View(), ack) == Start(old(View()), spec, dispatched)
    {
      if active {
        return Rejected;
      }
      active, generation, this.spec := true, 1, spec;
      if !dispatched {
        Reset();
        return Rejected;
      }
      ack := Accepted(true, 1);
    }

    method UpdateSession(spec: Spec, generation: nat, dispatched: bool) returns (ack: Ack)
      modifies this
      ensures (View(), ack) == Update(old(View()), spec, generation, dispatched)
    {
      if !active {
        return Rejected;
      }
      var next := if generation == 0 then this.generation + 1 else generation;
      active, this.generation, this.spec := true, next, spec;
      if !dispatched {
        Reset();
        return Rejected;
      }
      ack := Accepted(false, next);
    }
  }

  // ---------------------------------------------------------------- the session over a history of commands

  datatype Command = Starting(spec: Spec, dispatched: bool) | Updating(spec: Spec, generation: nat, dispatched: bool)

  function Play(s: Session, c: Command): (Session, Ack) {
    match c
    case Starting(spec, dispatched) => Start(s, spec, dispatched)
    case Updating(spec, generation, dispatched) => Update(s, spec, generation, dispatched)
  }

  function Played(history: seq<Command>): Session {
    if history == [] then RESET else Play(Played(history[..|history| - 1]), history[|history| - 1]).0
  }

  function AckOf(history: seq<Command>, i: nat): Ack
    requires i < |history|
  {
    Play(Played(history[..i]), history[i]).1
  }

  /** The session is the one that the i-th command was acknowledged for, and only starts came since. */
  ghost predicate IsCurrent(history: seq<Command>, i: nat, s: Session) {
    && i < |history| && AckOf(history, i) == Accepted(history[i].Starting?, s.generation)
    && s.active && s.spec == history[i].spec && s.generation > 0
    && forall j :: i < j < |history| ==> history[j].Starting? && AckOf(history, j) == Rejected
  }

  lemma CurrentGrows(history: seq<Command>, i: nat, s: Session, c: Command)
    requires IsCurrent(history, i, s) && Played(history) == s && c.Starting?
    ensures IsCurrent(history + [c], i, s)
  {
    var more := history + [c];
    assert more[..|history|] == history && more[..i] == history[..i];
    forall j | i < j < |more|
      ensures more[j].Starting? && AckOf(more, j) == Rejected
    {
      if j < |history| {
        assert more[..j] == history[..j];
        assert AckOf(history, j) == Rejected;
      }
    }
  }

  /** Over every history of session commands: the session is blank, or it holds the spec and the generation
      of the last acknowledged command, and every command since was a start, which it refused. So a failed
      dispatch leaves nothing behind. */
  lemma {:induction false} SessionHistory(history: seq<Command>) returns (i: nat)
    ensures Played(history) == RESET || IsCurrent(history, i, Played(history))
  {
    i := 0;
    if history != [] {
      var n := |history| - 1;
      var before, c := history[..n], history[n];
      i := SessionHistory(before);
      if Played(before).active && c.Starting? {
        CurrentGrows(before, i, Played(before), c);
        assert before + [c] == history;
      } else {
        i := n;
      }
    }
  }

  /** Which commands are acknowledged: a start of a blank session, at generation 1, and an update of an active
      one, at the generation asked for or one above. One that is dispatched in vain leaves a blank session,
      which takes the next start. */
  lemma AcknowledgedIff(history: seq<Command>, c: Command, next: Spec)
    ensures var s, ack := Played(history), AckOf(history + [c], |history|);
            && (ack.Accepted? <==> c.dispatched && (c.Starting? <==> s == RESET))
            && (ack.Accepted? && c.Starting? ==> ack.generation == 1)
            && (ack.Accepted? && c.Updating? ==>
                  ack.generation == if c.generation > 0 then c.generation else s.generation + 1)
            && (!c.dispatched && (c.Starting? <==> s == RESET) ==>
                  AckOf(history + [c, Starting(next, true)], |history| + 1) == Accepted(true, 1))
            && (!ack.Accepted? && c.dispatched ==> Played(history + [c]) == s)
  {
    var i := SessionHistory(history);
    assert (history + [c])[..|history|] == history;
    assert (history + [c, Starting(next, true)])[..|history| + 1] == history + [c];
  }

  // ---------------------------------------------------------------- one request

  datatype Delivery = Delivered | Lost | Stray(ack: Ack)

  /** What the environment does to one request: whether it can be built and sent, whether it reaches the
      server, whether the server finds its spec valid and can dispatch its commands, and which answer the
      client then sees. */
  datatype Env = Env(sent: bool, reached: bool, valid: bool, dispatched: bool, delivery: Delivery)

  predicate Smooth(e: Env) {
    e.sent && e.reached && e.valid && e.dispatched && e.delivery == Delivered
  }

  /** What was asked of a connection and what the client committed. Generation 0 asks for a start. */
  datatype Event = Asked(spec: Spec, generation: nat) | Committed(spec: Spec, generation: nat)

  /** Both ends of a connection: the client's committed session and the server's. */
  datatype Conn = Conn(committed: bool, generation: nat, spec: Spec, server: Session, log: seq<Event>)

  datatype Outcome = Success | Unsent | Timeout | Refused | Unexpected

  function Serve(s: Session, spec: Spec, generation: nat, e: Env): (Session, Ack) {
    if !e.valid then (s, Rejected)
    else if generation == 0 then Start(s, spec, e.dispatched)
    else Update(s, spec, generation, e.dispatched)
  }

  function Judge(generation: nat, ack: Ack): Outcome {
    if ack.Rejected? then Refused
    else if ack.start != (generation == 0) || ack.generation == 0 then Unexpected
    else if generation != 0 && ack.generation != generation then Unexpected
    else Success
  }

  /** The generation asked for on top of a known one. */
  function Above(generation: nat): nat {
    if generation == 0 then 0 else generation + 1
  }

  function Request(c: Conn, spec: Spec, base: nat, e: Env): (Conn, Outcome) {
    if !e.sent then (c, Unsent)
    else
      var g := Above(base);
      var (server, reply) := if e.reached then Serve(c.server, spec, g, e) else (c.server, Rejected);
      var c' := c.(server := server, log := c.log + [Asked(spec, g)]);
      if e.delivery.Lost? || (e.delivery.Delivered? && !e.reached) then (c', Timeout)
      else
        var ack := if e.delivery.Stray? then e.delivery.ack else reply;
        if Judge(g, ack) != Success then (c', Judge(g, ack))
        else (c'.(committed := true, generation := ack.generation, spec := spec,
                  log := c'.log + [Committed(spec, ack.generation)]), Success)
  }

  // ---------------------------------------------------------------- a reload

  /** What a rollback sends to a connection: its earlier spec, and the generation to go above. */
  datatype Undo = Undo(spec: Spec, generation: nat)

  /** The state after the loop over the connections; `generation` 0 reports a failure. The i-th undo is
      for the i-th connection. */
  datatype Applied = Applied(conns: seq<Conn>, undos: seq<Undo>, generation: nat)

  predicate Envs(conns: seq<Conn>, envs: seq<Env>) {
    |envs| == |conns|
  }

  function ApplyFrom(conns: seq<Conn>, i: nat, undos: seq<Undo>, generation: nat, next: Spec, envs: seq<Env>): Applied
    requires Envs(conns, envs) && i <= |conns|
    decreases |conns| - i
  {
    if i == |conns| then Applied(conns, undos, generation)
    else
      var c := conns[i];
      var (c', outcome) := Request(c, next, c.generation, envs[i]);
      var conns' := conns[i := c'];
      if outcome == Timeout || outcome == Unexpected then
        Applied(conns', undos + [Undo(c.spec, if generation == 0 then c.generation else generation)], 0)
      else if outcome != Success then Applied(conns', undos, 0)
      else
        var undos' := undos + [Undo(c.spec, c'.generation)];
        if generation != 0 && generation != c'.generation then Applied(conns', undos', 0)
        else ApplyFrom(conns', i + 1, undos', c'.generation, next, envs)
  }

  /** Undoes the first n connections, the last of them first. */
  function Rollback(conns: seq<Conn>, undos: seq<Undo>, n: nat, envs: seq<Env>): (r: seq<Conn>)
    requires Envs(conns, envs) && n <= |undos| <= |conns|
    ensures |r| == |conns|
    decreases n
  {
    if n == 0 then conns
    else
      var i := n - 1;
      Rollback(conns[i := Request(conns[i], undos[i].spec, undos[i].generation, envs[i]).0], undos, i, envs)
  }

  /** What one connection makes of the new spec, whatever the others do. */
  function After(c: Conn, next: Spec, e: Env): (Conn, Outcome) {
    Request(c, next, c.generation, e)
  }

  /** What a rollback without an acknowledgement goes above: the generation the earlier connections took,
      or for the first one its own. */
  function UndoBase(c: Conn, j: nat, g: nat): nat {
    if j == 0 then c.generation else g
  }

  /** The loop from position i on came to its end or stopped at position k: the connections before k took
      the spec at generation g, the one at k did not or has another generation, the rest is untouched. */
  ghost predicate Stopped(conns: seq<Conn>, i: nat, g: nat, next: Spec, envs: seq<Env>, a: Applied, k: nat)
    requires Envs(conns, envs)
  {
    && i <= k <= |conns| && |a.conns| == |conns|
    && (forall j :: 0 <= j < |conns| ==> a.conns[j] == if i <= j <= k then After(conns[j], next, envs[j]).0 else conns[j])
    && (forall j :: i <= j < k ==> After(conns[j], next, envs[j]).1 == Success && a.conns[j].generation == g)
    && |a.undos| == (if k == |conns| || After(conns[k], next, envs[k]).1 in {Unsent, Refused} then k else k + 1)
    && (forall j :: i <= j < k ==> a.undos[j] == Undo(conns[j].spec, g))
    && (k < |conns| ==> a.generation == 0)
    && (k < |conns| && After(conns[k], next, envs[k]).1 == Success ==>
          a.undos[k] == Undo(conns[k].spec, a.conns[k].generation) && a.conns[k].generation != g && k > 0)
    && (k < |conns| && After(conns[k], next, envs[k]).1 in {Timeout, Unexpected} ==>
          a.undos[k] == Undo(conns[k].spec, UndoBase(conns[k], k, g)))
  }

  /** A request that succeeds commits a generation above zero. */
  lemma SuccessCommits(c: Conn, spec: Spec, base: nat, e: Env)
    ensures var (c', outcome) := Request(c, spec, base, e);
            if outcome == Success then
              && c'.committed && c'.spec == spec && c'.generation > 0
              && (base > 0 ==> c'.generation == base + 1)
              && c'.log == c.log + [Asked(spec, Above(base)), Committed(spec, c'.generation)]
            else
              && c'.committed == c.committed && c'.spec == c.spec && c'.generation == c.generation
              && c'.log == c.log + if outcome == Unsent then [] else [Asked(spec, Above(base))]
  {
  }

  lemma {:induction false} ApplyStops(conns: seq<Conn>, i: nat, undos: seq<Undo>, generation: nat, next: Spec, envs: seq<Env>)
    returns (k: nat, g: nat)
    requires Envs(conns, envs) && i <= |conns| && |undos| == i && (i > 0 <==> generation > 0)
    ensures var a := ApplyFrom(conns, i, undos, generation, next, envs);
            && Stopped(conns, i, g, next, envs, a, k) && a.undos[..i] == undos
            && (generation > 0 ==> g == generation) && (k == |conns| ==> a.generation == g)
            && (k > 0 ==> g > 0)
    decreases |conns| - i
  {
    if i == |conns| {
      return i, generation;
    }
    var c := conns[i];
    SuccessCommits(c, next, c.generation, envs[i]);
    var (c', outcome) := After(c, next, envs[i]);
    if outcome == Success && (generation == 0 || generation == c'.generation) {
      k, g := ApplyStops(conns[i := c'], i + 1, undos + [Undo(c.spec, c'.generation)], c'.generation, next, envs);
      StoppedBack(conns, i, undos, g, next, envs, ApplyFrom(conns, i, undos, generation, next, envs), k);
    } else {
      k, g := i, generation;
    }
  }

  lemma StoppedBack(conns: seq<Conn>, i: nat, undos: seq<Undo>, g: nat, next: Spec, envs: seq<Env>, a: Applied, k: nat)
    requires Envs(conns, envs) && i < |conns| && |undos| == i
    requires var (c', outcome) := After(conns[i], next, envs[i]);
             && outcome == Success && c'.generation == g && Stopped(conns[i := c'], i + 1, g, next, envs, a, k)
             && a.undos[..i + 1] == undos + [Undo(conns[i].spec, g)]
    ensures Stopped(conns, i, g, next, envs, a, k) && a.undos[..i] == undos
  {
    var conns' := conns[i := After(conns[i], next, envs[i]).0];
    assert forall j :: 0 <= j < |conns| && j != i ==> conns'[j] == conns[j];
    assert a.undos[i] == a.undos[..i + 1][i];
    assert a.undos[..i] == a.undos[..i + 1][..i];
  }

  lemma {:induction false} RollbackPointwise(conns: seq<Conn>, undos: seq<Undo>, n: nat, envs: seq<Env>)
    requires Envs(conns, envs) && n <= |undos| <= |conns|
    ensures forall j :: 0 <= j < |conns| ==>
      Rollback(conns, undos, n, envs)[j] ==
        if j < n then Request(conns[j], undos[j].spec, undos[j].generation, envs[j]).0 else conns[j]
    decreases n
  {
    if n > 0 {
      var i := n - 1;
      RollbackPointwise(conns[i := Request(conns[i], undos[i].spec, undos[i].generation, envs[i]).0], undos, i, envs);
    }
  }

  /** What a reload meets: whether every connection supports updates, each connection's handling of the
      request and of its rollback, and whether the client can commit the new session. */
  datatype ReloadEnv = ReloadEnv(supported: bool, apply: seq<Env>, rollback: seq<Env>, commits: bool)

  predicate For(env: ReloadEnv, conns: seq<Conn>) {
    Envs(conns, env.apply) && Envs(conns, env.rollback)
  }

  lemma UndosFit(conns: seq<Conn>, next: Spec, envs: seq<Env>)
    requires Envs(conns, envs)
    ensures var a := ApplyFrom(conns, 0, [], 0, next, envs); |a.undos| <= |a.conns| == |conns|
  {
    var k, g := ApplyStops(conns, 0, [], 0, next, envs);
  }

  /** The connections after a reload and the common generation, 0 if the reload failed. */
  function Reload(conns: seq<Conn>, next: Spec, env: ReloadEnv): (seq<Conn>, nat)
    requires For(env, conns)
  {
    if conns == [] || !env.supported then (conns, 0)
    else
      var a := ApplyFrom(conns, 0, [], 0, next, env.apply);
      UndosFit(conns, next, env.apply);
      if a.generation == 0 || !env.commits then (Rollback(a.conns, a.undos, |a.undos|, env.rollback), 0)
      else (a.conns, a.generation)
  }


  // ---------------------------------------------------------------- what a reload achieves

  /** Committed to the new spec at the generation. */
  ghost predicate Reloaded(c: Conn, c': Conn, next: Spec, generation: nat) {
    && c'.committed && c'.spec == next && c'.generation == generation
    && c'.log == c.log + [Asked(next, Above(c.generation)), Committed(next, generation)]
  }

  predicate SameSession(c: Conn, c': Conn) {
    c'.committed == c.committed && c'.generation == c.generation && c'.spec == c.spec
  }

  /** A reload that succeeds leaves every connection committed to the new spec at one generation. */
  lemma SuccessIsUniform(conns: seq<Conn>, next: Spec, env: ReloadEnv)
    requires For(env, conns)
    ensures var (conns', generation) := Reload(conns, next, env);
            generation != 0 ==>
              |conns'| == |conns| && forall j :: 0 <= j < |conns| ==> Reloaded(conns[j], conns'[j], next, generation)
  {
    if conns != [] && env.supported {
      var k, g := ApplyStops(conns, 0, [], 0, next, env.apply);
      forall j | 0 <= j < k
        ensures Reloaded(conns[j], After(conns[j], next, env.apply[j]).0, next, g)
      {
        SuccessCommits(conns[j], next, conns[j].generation, env.apply[j]);
      }
    }
  }

  /** Asked for a spec at a generation: the request could not be sent, was not acknowledged and left the
      committed session alone, or was committed. */
  ghost predicate AsksAgain(c: Conn, c': Conn, spec: Spec, g: nat, e: Env) {
    if !e.sent then c' == c
    else
      || (c'.log == c.log + [Asked(spec, g)] && SameSession(c, c'))
      || (&& c'.log == c.log + [Asked(spec, g), Committed(spec, c'.generation)]
          && c'.committed && c'.spec == spec && (g > 0 ==> c'.generation == g))
  }

  /** How a failed reload leaves a connection that was asked for the new spec. If it acknowledged, it is
      asked for its own earlier spec above the generation it acknowledged; if it may have switched without
      a proper acknowledgement, it is asked for its earlier spec above `base`; if it refused, it is left
      as it is. */
  ghost predicate Undone(c: Conn, c': Conn, next: Spec, e: Env, undo: Env, base: nat) {
    var (asked, outcome) := After(c, next, e);
    match outcome
    case Success => AsksAgain(asked, c', c.spec, asked.generation + 1, undo)
    case Timeout => AsksAgain(asked, c', c.spec, Above(base), undo)
    case Unexpected => AsksAgain(asked, c', c.spec, Above(base), undo)
    case _ => c' == asked
  }

  lemma RequestAsksAgain(c: Conn, spec: Spec, base: nat, e: Env)
    ensures AsksAgain(c, Request(c, spec, base, e).0, spec, Above(base), e)
  {
    SuccessCommits(c, spec, base, e);
  }

  lemma UndoneAt(c: Conn, c': Conn, next: Spec, e: Env, undo: Env, u: Undo, base: nat)
    requires After(c, next, e).1 !in {Unsent, Refused} && u.spec == c.spec
    requires u.generation == if After(c, next, e).1 == Success then After(c, next, e).0.generation else base
    requires c' == Request(After(c, next, e).0, u.spec, u.generation, undo).0
    ensures Undone(c, c', next, e, undo, base)
  {
    var asked := After(c, next, e).0;
    SuccessCommits(c, next, c.generation, e);
    RequestAsksAgain(asked, u.spec, u.generation, undo);
    assert AsksAgain(asked, c', c.spec, Above(u.generation), undo);
  }

  /** A reload that fails undoes what it did: some connections at the end of the list were never asked,
      and each one that was asked is left as Undone says. */
  lemma FailureIsUndone(conns: seq<Conn>, next: Spec, env: ReloadEnv) returns (asked: nat, g: nat)
    requires For(env, conns) && Reload(conns, next, env).1 == 0
    ensures var conns' := Reload(conns, next, env).0;
            && asked <= |conns| == |conns'|
            && (forall j :: 0 <= j < asked ==>
                  Undone(conns[j], conns'[j], next, env.apply[j], env.rollback[j], UndoBase(conns[j], j, g)))
            && (forall j :: 0 <= j < asked - 1 ==>
                  After(conns[j], next, env.apply[j]).1 == Success && After(conns[j], next, env.apply[j]).0.generation == g)
            && (forall j :: asked <= j < |conns| ==> conns'[j] == conns[j])
  {
    if conns == [] || !env.supported {
      return 0, 0;
    }
    var k;
    k, g := ApplyStops(conns, 0, [], 0, next, env.apply);
    var a := ApplyFrom(conns, 0, [], 0, next, env.apply);
    var conns' := Reload(conns, next, env).0;
    RollbackPointwise(a.conns, a.undos, |a.undos|, env.rollback);
    asked := if k < |conns| then k + 1 else k;
    forall j | 0 <= j < asked
      ensures Undone(conns[j], conns'[j], next, env.apply[j], env.rollback[j], UndoBase(conns[j], j, g))
    {
      StoppedUndoes(conns, next, env.apply, a, k, g, j);
      if j < |a.undos| {
        UndoneAt(conns[j], conns'[j], next, env.apply[j], env.rollback[j], a.undos[j], UndoBase(conns[j], j, g));
      }
    }
  }

  /** What the loop prepared for a connection it reached. */
  lemma StoppedUndoes(conns: seq<Conn>, next: Spec, envs: seq<Env>, a: Applied, k: nat, g: nat, j: nat)
    requires Envs(conns, envs) && Stopped(conns, 0, g, next, envs, a, k) && j < |conns| && j <= k
    ensures var (asked, outcome) := After(conns[j], next, envs[j]);
            && a.conns[j] == asked
            && (j < |a.undos| <==> outcome !in {Unsent, Refused})
            && (j < |a.undos| ==> a.undos[j].spec == conns[j].spec)
            && (j < |a.undos| ==>
                  a.undos[j].generation == if outcome == Success then asked.generation else UndoBase(conns[j], j, g))
  {
  }

  /** A first connection whose request got no answer is rolled back under the generation of the lost
      request, so a late switch of its server and the rollback cannot be told apart by generation. */
  lemma FirstTimeoutReusesGeneration(conns: seq<Conn>, next: Spec, env: ReloadEnv)
    requires For(env, conns) && conns != [] && env.supported && env.rollback[0].sent
    requires After(conns[0], next, env.apply[0]).1 == Timeout
    ensures var g := Above(conns[0].generation);
            conns[0].log + [Asked(next, g), Asked(conns[0].spec, g)] <= Reload(conns, next, env).0[0].log
  {
    var c := conns[0];
    var (asked, _) := After(c, next, env.apply[0]);
    SuccessCommits(c, next, c.generation, env.apply[0]);
    var a := ApplyFrom(conns, 0, [], 0, next, env.apply);
    assert a == Applied(conns[0 := asked], [Undo(c.spec, c.generation)], 0);
    RollbackPointwise(a.conns, a.undos, 1, env.rollback);
    SuccessCommits(asked, c.spec, c.generation, env.rollback[0]);
  }

  /** A connection that was reached after others took the new spec, and whose request got no answer, is asked
      for its own earlier spec again, above the generation of those others. */
  lemma LostAnswersAreUndone(conns: seq<Conn>, next: Spec, env: ReloadEnv, j: nat, g: nat)
    requires For(env, conns) && env.supported && j < |conns| && env.apply[j].sent && env.rollback[j].sent
    requires env.apply[j].delivery.Lost? || (env.apply[j].delivery.Delivered? && !env.apply[j].reached)
    requires forall i :: 0 <= i < j ==>
               After(conns[i], next, env.apply[i]).1 == Success && After(conns[i], next, env.apply[i]).0.generation == g
    ensures var (conns', generation) := Reload(conns, next, env);
            && generation == 0 && |conns'| == |conns|
            && conns[j].log + [Asked(next, Above(conns[j].generation)), Asked(conns[j].spec, Above(UndoBase(conns[j], j, g)))]
               <= conns'[j].log
            && SameSession(conns[j], After(conns[j], next, env.apply[j]).0)
  {
    var k, g' := ApplyStops(conns, 0, [], 0, next, env.apply);
    var a := ApplyFrom(conns, 0, [], 0, next, env.apply);
    assert After(conns[j], next, env.apply[j]).1 == Timeout;
    assert k > 0 ==> a.conns[0].generation == g';
    assert k == j;
    StoppedUndoes(conns, next, env.apply, a, k, g', j);
    RollbackPointwise(a.conns, a.undos, |a.undos|, env.rollback);
    SuccessCommits(conns[j], next, conns[j].generation, env.apply[j]);
    SuccessCommits(a.conns[j], a.undos[j].spec, a.undos[j].generation, env.rollback[j]);
  }

  // ---------------------------------------------------------------- client and server agree

  /** The client's committed session is the server's session. */
  predicate InSync(c: Conn) {
    c.server == Session(c.committed, c.generation, c.spec) && (c.committed <==> c.generation > 0)
  }

  lemma SmoothRequest(c: Conn, spec: Spec, base: nat, e: Env)
    requires InSync(c) && Smooth(e) && (base > 0 <==> c.generation > 0)
    ensures var (c', outcome) := Request(c, spec, base, e);
            outcome == Success && InSync(c') && c'.spec == spec && c'.generation == base + 1
  {
  }

  ghost predicate AllInSync(conns: seq<Conn>) {
    forall j :: 0 <= j < |conns| ==> InSync(conns[j])
  }

  predicate AllSmooth(envs: seq<Env>) {
    forall j :: 0 <= j < |envs| ==> Smooth(envs[j])
  }

  predicate SmoothEnv(env: ReloadEnv) {
    env.supported && env.commits && AllSmooth(env.apply) && AllSmooth(env.rollback)
  }

  /** Some connection's generation differs from the first one's. */
  ghost predicate Skewed(conns: seq<Conn>) {
    exists j :: 0 <= j < |conns| && conns[j].generation != conns[0].generation
  }

  /** With every request acknowledged and every dispatch successful, client and server agree on spec and
      generation on every connection, and the reload succeeds exactly when all connections start from one
      generation. If it fails, the specs are as before and the connections up to the first that differs
      have moved on by two generations. */
  lemma SmoothReload(conns: seq<Conn>, next: Spec, env: ReloadEnv)
    requires For(env, conns) && conns != [] && AllInSync(conns) && SmoothEnv(env)
    ensures var (conns', generation) := Reload(conns, next, env);
            && |conns'| == |conns| && AllInSync(conns')
            && (generation != 0 <==> !Skewed(conns))
            && (generation == 0 ==> forall j :: 0 <= j < |conns| ==> conns'[j].spec == conns[j].spec)
            && (Skewed(conns) ==> Skewed(conns'))
  {
    var (conns', generation) := Reload(conns, next, env);
    var k, g := ApplyStops(conns, 0, [], 0, next, env.apply);
    var a := ApplyFrom(conns, 0, [], 0, next, env.apply);
    forall j | 0 <= j < |conns|
      ensures SmoothlyApplied(conns[j], After(conns[j], next, env.apply[j]))
    {
      SmoothRequest(conns[j], next, conns[j].generation, env.apply[j]);
    }
    if k < |conns| {
      SmoothFailure(conns, next, env, a, k, g);
    } else {
      assert forall j :: 0 <= j < |conns| ==> SmoothlyApplied(conns[j], After(conns[j], next, env.apply[j]));
    }
  }

  predicate SmoothlyApplied(c: Conn, r: (Conn, Outcome)) {
    r.1 == Success && InSync(r.0) && r.0.generation == c.generation + 1
  }

  lemma SmoothFailure(conns: seq<Conn>, next: Spec, env: ReloadEnv, a: Applied, k: nat, g: nat)
    requires For(env, conns) && conns != [] && SmoothEnv(env) && k < |conns| && g > 0
    requires a == ApplyFrom(conns, 0, [], 0, next, env.apply) && Stopped(conns, 0, g, next, env.apply, a, k)
    requires forall j :: 0 <= j < |conns| ==> InSync(conns[j]) && SmoothlyApplied(conns[j], After(conns[j], next, env.apply[j]))
    ensures var (conns', generation) := Reload(conns, next, env);
            && generation == 0 && |conns'| == |conns| && AllInSync(conns') && Skewed(conns) && Skewed(conns')
            && forall j :: 0 <= j < |conns| ==> conns'[j].spec == conns[j].spec
  {
    var conns' := Reload(conns, next, env).0;
    RollbackPointwise(a.conns, a.undos, |a.undos|, env.rollback);
    assert forall j :: 0 <= j < |conns| ==> SmoothlyApplied(conns[j], After(conns[j], next, env.apply[j]));
    forall j | 0 <= j <= k
      ensures InSync(conns'[j]) && conns'[j].spec == conns[j].spec && conns'[j].generation == conns[j].generation + 2
    {
      assert SmoothlyApplied(conns[j], After(conns[j], next, env.apply[j]));
      SmoothRequest(a.conns[j], a.undos[j].spec, a.undos[j].generation, env.rollback[j]);
    }
    assert a.conns[0].generation == g;
  }

  /** Smooth reloads one after the other. */
  ghost predicate Reloads(states: seq<seq<Conn>>, specs: seq<Spec>, envs: seq<ReloadEnv>) {
    && |specs| == |envs| && |states| == |specs| + 1
    && forall t :: 0 <= t < |specs| ==>
         SmoothEnv(envs[t]) && For(envs[t], states[t]) && states[t + 1] == Reload(states[t], specs[t], envs[t]).0
  }

  /** Once the connections' generations differ no later reload succeeds, although every server accepts
      every request: the rollback moves the differing connections on by equal amounts. */
  lemma {:induction false} SkewIsForever(states: seq<seq<Conn>>, specs: seq<Spec>, envs: seq<ReloadEnv>, t: nat)
    requires Reloads(states, specs, envs) && AllInSync(states[0]) && Skewed(states[0]) && t < |specs|
    ensures Skewed(states[t]) && AllInSync(states[t])
    ensures Reload(states[t], specs[t], envs[t]).1 == 0
  {
    if t > 0 {
      SkewIsForever(states, specs, envs, t - 1);
      SmoothReload(states[t - 1], specs[t - 1], envs[t - 1]);
    }
    SmoothReload(states[t], specs[t], envs[t]);
  }

  /** One server that finds the new spec invalid is enough to get there, unless it is the first one: the
      connections before it are rolled back two generations higher, the others stay where they were. */
  lemma OneRefusalSkews(conns: seq<Conn>, next: Spec, env: ReloadEnv, bad: nat)
    requires For(env, conns) && AllInSync(conns) && !Skewed(conns) && 0 < bad < |conns|
    requires env.supported && AllSmooth(env.rollback) && forall j :: 0 <= j < bad ==> Smooth(env.apply[j])
    requires Smooth(env.apply[bad].(valid := true)) && !env.apply[bad].valid
    ensures var (conns', generation) := Reload(conns, next, env);
            generation == 0 && AllInSync(conns') && Skewed(conns')
  {
    var (conns', generation) := Reload(conns, next, env);
    var k, g := ApplyStops(conns, 0, [], 0, next, env.apply);
    var a := ApplyFrom(conns, 0, [], 0, next, env.apply);
    forall j | 0 <= j < bad
      ensures SmoothlyApplied(conns[j], After(conns[j], next, env.apply[j]))
    {
      SmoothRequest(conns[j], next, conns[j].generation, env.apply[j]);
    }
    assert After(conns[bad], next, env.apply[bad]).1 == Refused;
    assert SmoothlyApplied(conns[0], After(conns[0], next, env.apply[0]));
    assert k == bad;
    RollbackPointwise(a.conns, a.undos, |a.undos|, env.rollback);
    forall j | 0 <= j < bad
      ensures InSync(conns'[j]) && conns'[j].generation == conns[j].generation + 2
    {
      SmoothRequest(a.conns[j], a.undos[j].spec, a.undos[j].generation, env.rollback[j]);
    }
    assert InSync(conns'[bad]) && conns'[bad].generation == conns[bad].generation;
  }

  // ---------------------------------------------------------------- the client

  class Client {
    var args: ByteString
    var spec: Spec
    var conns: seq<Conn>

    constructor (args: ByteString, spec: Spec, conns: seq<Conn>)
      ensures this.args == args && this.spec == spec && this.conns == conns
    {
      this.args, this.spec, this.conns := args, spec, conns;
    }

    method ApplyConnections(next: Spec, envs: seq<Env>) returns (undos: seq<Undo>, generation: nat)
      requires Envs(conns, envs)
      modifies this`conns
      ensures Applied(conns, undos, generation) == ApplyFrom(old(conns), 0, [], 0, next, envs)
    {
      undos, generation := [], 0;
      var i := 0;
      while i < |conns|
        invariant i <= |conns| && Envs(conns, envs)
        invariant ApplyFrom(conns, i, undos, generation, next, envs) == ApplyFrom(old(conns), 0, [], 0, next, envs)
        decreases |conns| - i
      {
        var c := conns[i];
        var (c', outcome) := Request(c, next, c.generation, envs[i]);
        conns := conns[i := c'];
        if outcome != Success {
          if outcome == Timeout || outcome == Unexpected {
            undos := undos + [Undo(c.spec, if generation == 0 then c.generation else generation)];
          }
          generation := 0;
          return;
        }
        undos := undos + [Undo(c.spec, c'.generation)];
        if generation != 0 && generation != c'.generation {
          generation := 0;
          return;
        }
        generation := c'.generation;
        i := i + 1;
      }
    }

    method RollbackConnections(undos: seq<Undo>, envs: seq<Env>)
      requires Envs(conns, envs) && |undos| <= |conns|
      modifies this`conns
      ensures conns == Rollback(old(conns), undos, |undos|, envs)
    {
      var n: nat := |undos|;
      while n > 0
        invariant n <= |undos| <= |conns| && Envs(conns, envs)
        invariant Rollback(conns, undos, n, envs) == Rollback(old(conns), undos, |undos|, envs)
      {
        n := n - 1;
        conns := conns[n := Request(conns[n], undos[n].spec, undos[n].generation, envs[n]).0];
      }
    }

    /** The arguments and the spec change only when every connection took the new spec. */
    method ApplyReload(nextArgs: ByteString, nextSpec: Spec, env: ReloadEnv) returns (ok: bool)
      requires For(env, conns)
      modifies this
      ensures conns == Reload(old(conns), nextSpec, env).0
      ensures ok <==> Reload(old(conns), nextSpec, env).1 != 0
      ensures ok ==> args == nextArgs && spec == nextSpec
      ensures !ok ==> args == old(args) && spec == old(spec)
    {
      if conns == [] || !env.supported {
        return false;
      }
      UndosFit(conns, nextSpec, env.apply);
      var undos, generation := ApplyConnections(nextSpec, env.apply);
      if generation == 0 || !env.commits {
        RollbackConnections(undos, env.rollback);
        return false;
      }
      args, spec := nextArgs, nextSpec;
      ok := true;
    }
  }
}
