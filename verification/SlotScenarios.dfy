/**
 Runs of the broker in which a promise fails: why the theorems of SlotCompute,
 SlotProfile and SlotLeases need their conditions. Each lemma builds one
 concrete run.
 */
module SlotScenarios {
  import opened Wrappers
  import opened SlotTable
  import opened SlotProtocol
  import opened SlotOwnership
  import opened SlotLeases
  import opened SlotCompute

  /** Some run from a broker that found no agents ends in this world. */
  ghost predicate Reachable(cfg: Config, w: World) {
    exists ws, ls :: Run(cfg, ws, ls) && ws[0] == Fresh(map[], 0) && ws[|ls|] == w
  }

  /** The scenarios are built against any set of worlds closed under steps. */
  ghost predicate Closed(cfg: Config, reach: World -> bool) {
    forall w, l | reach(w) && Enabled(cfg, w, l) :: reach(Apply(cfg, w, l))
  }

  lemma {:induction false} Step(cfg: Config, reach: World -> bool, w: World, l: Label) returns (w': World)
    requires Closed(cfg, reach) && reach(w) && Enabled(cfg, w, l)
    ensures reach(w') && w' == Apply(cfg, w, l)
  {
    w' := Apply(cfg, w, l);
  }

  lemma {:induction false} ReachableStart(cfg: Config)
    ensures Reachable(cfg, Fresh(map[], 0))
  {
    var none: map<AgentRef, Agent> := map[];
    assert Run(cfg, [Fresh(none, 0)], []);
  }

  lemma {:induction false} ReachableClosed(cfg: Config)
    ensures Closed(cfg, w => Reachable(cfg, w))
  {
    forall w, l | Reachable(cfg, w) && Enabled(cfg, w, l)
      ensures Reachable(cfg, Apply(cfg, w, l))
    {
      var ws, ls :| Run(cfg, ws, ls) && ws[0] == Fresh(map[], 0) && ws[|ls|] == w;
      var ws', ls' := ws + [Apply(cfg, w, l)], ls + [l];
      forall i | 0 <= i < |ls'|
        ensures Next(cfg, ws'[i], ls'[i], ws'[i + 1])
      {
        assert i < |ls| ==> Next(cfg, ws[i], ls[i], ws[i + 1]);
      }
      assert Run(cfg, ws', ls');
    }
  }

  const KEYED := Agent(true, "", None, [])
  const RUNNING := EMPTY_ENTRY.(agent := Some(KEYED))
  const A := AgentRef("pi", "a")
  const B := AgentRef("pi", "b")
  const ONE := Config(1, 0, 0, 0)

  /** A new request for an agent without an entry starts its pod. */
  lemma {:induction false} Launch(cfg: Config, reach: World -> bool, v: World, c: nat, r: AgentRef) returns (w: World)
    requires Closed(cfg, reach) && reach(v)
    requires c !in v.calls && r !in v.compute && Lookup(v.table, r) == EMPTY_ENTRY
    requires v.table.queue == [] && |UsedSet(v.table)| < cfg.k && IsVictim(cfg, v.table, 0, None)
    ensures reach(w)
    ensures w == v.(table := Put(v.table, r, EMPTY_ENTRY.(busy := true)),
                    calls := v.calls[c := Starting(r, None, None, true)],
                    compute := v.compute + {r})
  {
    w := Step(cfg, reach, v, Begin(c, r));
    w := Step(cfg, reach, w, Try(c, 0, None));
    assert w.calls[c] == Starting(r, None, None, false);
    w := Step(cfg, reach, w, PodCreated(c));
    assert w.calls == v.calls[c := Starting(r, None, None, true)];
  }

  /** The pod comes up and the start ends. */
  lemma {:induction false} Settle(cfg: Config, reach: World -> bool, v: World, c: nat, r: AgentRef) returns (w: World)
    requires Closed(cfg, reach) && reach(v)
    requires c in v.calls && v.calls[c] == Starting(r, None, None, true) && r in v.compute
    requires Lookup(v.table, r) == EMPTY_ENTRY.(busy := true)
    ensures reach(w)
    ensures w == v.(table := Put(v.table, r, RUNNING), calls := v.calls[c := Trying(r, None, false)])
  {
    w := Step(cfg, reach, v, StartReturns(c, Some(KEYED)));
    assert w.calls[c] == Started(r, None, None, KEYED);
    w := Step(cfg, reach, w, StartEnds(c, 0));
    assert w.calls == v.calls[c := Trying(r, None, false)];
  }

  /** The request is served: its agent runs with one request. */
  lemma {:induction false} Serve(cfg: Config, reach: World -> bool, v: World, c: nat, r: AgentRef) returns (w: World)
    requires Closed(cfg, reach) && reach(v)
    requires c in v.calls && v.calls[c] == Trying(r, None, false)
    requires Lookup(v.table, r) == RUNNING && IsVictim(cfg, v.table, 0, None)
    ensures reach(w)
    ensures w == v.(table := Put(v.table, r, RUNNING.(inflight := 1)), calls := v.calls[c := Serving(r)])
  {
    w := Step(cfg, reach, v, Try(c, 0, None));
    assert w.calls[c] == Returning(r, None);
    w := Step(cfg, reach, w, Leave(c));
    assert w.calls == v.calls[c := Serving(r)];
  }

  /** Reconcile with an empty listing forgets the one settled agent. */
  lemma {:induction false} ForgetOne(cfg: Config, reach: World -> bool, v: World, c: nat, r: AgentRef)
    returns (w: World)
    requires Closed(cfg, reach) && reach(v)
    requires c in v.calls && v.calls[c] == Reconciling({})
    requires v.table.users.Keys == {r} && v.table.users[r] == RUNNING.(inflight := v.table.users[r].inflight)
    ensures reach(w)
    ensures w == v.(table := Put(v.table, r, EMPTY_ENTRY), calls := v.calls - {c}, dropped := w.dropped)
    ensures UsedSet(w.table) == {}
  {
    w := Step(cfg, reach, v, Forget(c));
    assert w.table.users == v.table.users[r := EMPTY_ENTRY];
  }

  lemma {:induction false} Start(cfg: Config) returns (w: World)
    ensures Closed(cfg, x => Reachable(cfg, x)) && Reachable(cfg, w)
    ensures w == World(EMPTY_TABLE, map[], {}, map[], map[], map[], map[]) && UsedSet(w.table) == {}
  {
    w := Fresh(map[], 0);
    assert w.table.users == map[];
    ReachableStart(cfg);
    ReachableClosed(cfg);
  }

  /** A listing is taken, then an agent starts. */
  lemma {:induction false} ListThenStart() returns (w: World)
    ensures Reachable(ONE, w)
    ensures w.table == EMPTY_TABLE.(users := map[A := RUNNING]) && w.compute == {A}
    ensures w.calls == map[9 := Reconciling({}), 0 := Trying(A, None, false)]
  {
    var reach := x => Reachable(ONE, x);
    w := Start(ONE);
    w := Step(ONE, reach, w, Snapshot(9));
    assert w.calls == map[9 := Reconciling({})];
    w := Launch(ONE, reach, w, 0, A);
    w := Settle(ONE, reach, w, 0, A);
  }

  /** Reconcile then forgets the agent while it runs: with K = 1, two agents
      run once another is started. */
  lemma {:induction false} StaleListingOverruns() returns (w: World)
    ensures Reachable(ONE, w) && |w.compute| == 2
  {
    var reach := x => Reachable(ONE, x);
    ReachableClosed(ONE);
    w := ListThenStart();
    w := ForgetOne(ONE, reach, w, 9, A);
    w := Launch(ONE, reach, w, 1, B);
    assert w.compute == {A, B};
  }

  /** A failed start whose pod survives the cleanup (both backend calls fail). */
  lemma {:induction false} LeakedStart() returns (w: World)
    ensures Reachable(ONE, w) && UsedSet(w.table) == {}
    ensures w == World(EMPTY_TABLE.(users := map[A := EMPTY_ENTRY]), map[0 := Failing(None)], {A},
                       map[], map[], map[], map[])
  {
    var reach := x => Reachable(ONE, x);
    w := Start(ONE);
    w := Launch(ONE, reach, w, 0, A);
    w := Step(ONE, reach, w, StartReturns(0, None));
    w := Step(ONE, reach, w, CleanupReturns(0, false));
    assert w.calls[0] == Cleaned(A, None, false);
    w := Step(ONE, reach, w, StartEnds(0, 0));
    assert w.table.users == map[A := EMPTY_ENTRY];
  }

  /** After it a second agent can be started: with K = 1, two agents run. */
  lemma {:induction false} LeakedStartOverruns() returns (w: World)
    ensures Reachable(ONE, w) && |w.compute| == 2
  {
    ReachableClosed(ONE);
    w := LeakedStart();
    w := Launch(ONE, x => Reachable(ONE, x), w, 1, B);
    assert w.compute == {A, B};
  }

  /** A start that carries a selection but finds the pod already running. */
  lemma {:induction false} Attach(cfg: Config, reach: World -> bool, v: World, c: nat, r: AgentRef, p: Pending)
    returns (w: World)
    requires Closed(cfg, reach) && reach(v)
    requires c in v.calls && v.calls[c] == Trying(r, None, false) && r in v.compute
    requires Lookup(v.table, r) == EMPTY_ENTRY.(pending := Some(p)) && IsVictim(cfg, v.table, 0, None)
    requires v.table.queue == [] && UsedSet(v.table) == {} && cfg.k > 0
    ensures reach(w)
    ensures w == v.(table := Put(v.table, r, RUNNING), calls := v.calls[c := Trying(r, None, false)],
                    applied := v.applied[r := p.id])
  {
    w := Step(cfg, reach, v, Try(c, 0, None));
    assert w.calls[c] == Starting(r, None, Some(p), false);
    w := Step(cfg, reach, w, StartReturns(c, Some(KEYED)));
    assert w.calls[c] == Started(r, None, Some(p), KEYED);
    w := Step(cfg, reach, w, StartEnds(c, 0));
    assert w.calls == v.calls[c := Trying(r, None, false)];
  }

  /** And a selection made for the surviving pod counts as applied although
      no pod was created with it: Acquire returns the old agent. */
  lemma {:induction false} LeakedStartLosesSelection(sel: Selection) returns (w: World, l: Label)
    ensures Reachable(ONE, w) && Enabled(ONE, w, l)
    ensures l.Try? && Apply(ONE, w, l).calls[l.c].Returning?
    ensures Get(w.applied, A) == Get(w.latest, A) != Get(w.profile, A)
  {
    var reach := x => Reachable(ONE, x);
    ReachableClosed(ONE);
    w := LeakedStart();
    w := Step(ONE, reach, w, Select(A, sel));
    w := Step(ONE, reach, w, Begin(1, A));
    assert Lookup(w.table, A) == EMPTY_ENTRY.(pending := Some(Pending(1, sel)));
    w := Attach(ONE, reach, w, 1, A, Pending(1, sel));
    l := Try(1, 0, Some(A));
    assert IsVictim(ONE, w.table, 0, Some(A));
  }

  lemma {:induction false} FirstRequest(cfg: Config) returns (w: World)
    requires cfg.k >= 1 && cfg.idleTimeout > 0
    ensures Reachable(cfg, w) && w.compute == {A}
    ensures w.table == EMPTY_TABLE.(users := map[A := RUNNING.(inflight := 1)]) && w.calls == map[0 := Serving(A)]
  {
    var reach := x => Reachable(cfg, x);
    w := Start(cfg);
    w := Launch(cfg, reach, w, 0, A);
    w := Settle(cfg, reach, w, 0, A);
    w := Serve(cfg, reach, w, 0, A);
  }

  /** A request is being served when its pod vanishes and reconcile drops it. */
  lemma {:induction false} DropRequest(cfg: Config) returns (w: World)
    requires cfg.k >= 1 && cfg.idleTimeout > 0
    ensures Reachable(cfg, w) && UsedSet(w.table) == {}
    ensures w.table == EMPTY_TABLE.(users := map[A := EMPTY_ENTRY]) && w.calls == map[0 := Serving(A)]
    ensures w.compute == {}
  {
    var reach := x => Reachable(cfg, x);
    ReachableClosed(cfg);
    w := FirstRequest(cfg);
    w := Step(cfg, reach, w, Vanish(A));
    assert w.compute == {};
    w := Step(cfg, reach, w, Snapshot(9));
    assert w.calls == map[0 := Serving(A), 9 := Reconciling({})];
    w := ForgetOne(cfg, reach, w, 9, A);
  }

  /** The user's next request starts a new pod. */
  lemma {:induction false} NextStart(cfg: Config) returns (w: World)
    requires cfg.k >= 1 && cfg.idleTimeout > 0
    ensures Reachable(cfg, w)
    ensures w.table == EMPTY_TABLE.(users := map[A := RUNNING])
    ensures w.calls == map[0 := Serving(A), 1 := Trying(A, None, false)]
  {
    var reach := x => Reachable(cfg, x);
    ReachableClosed(cfg);
    w := DropRequest(cfg);
    w := Launch(cfg, reach, w, 1, A);
    w := Settle(cfg, reach, w, 1, A);
    assert w.table.users == map[A := RUNNING];
  }

  /** It is served there. */
  lemma {:induction false} NextRequest(cfg: Config) returns (w: World)
    requires cfg.k >= 1 && cfg.idleTimeout > 0
    ensures Reachable(cfg, w)
    ensures w.table.users == map[A := RUNNING.(inflight := 1)]
    ensures w.calls == map[0 := Serving(A), 1 := Serving(A)]
  {
    ReachableClosed(cfg);
    w := NextStart(cfg);
    w := Serve(cfg, x => Reachable(cfg, x), w, 1, A);
  }

  /** Then the dropped request is released. */
  lemma {:induction false} DroppedRelease(cfg: Config) returns (w: World)
    requires cfg.k >= 1 && cfg.idleTimeout > 0
    ensures Reachable(cfg, w)
    ensures w.table.users == map[A := RUNNING] && w.calls == map[1 := Serving(A)]
  {
    ReachableClosed(cfg);
    w := NextRequest(cfg);
    w := Step(cfg, x => Reachable(cfg, x), w, Finish(0, 0));
  }

  /** That hides the next request, and the reaper stops an agent that is still
      serving. */
  lemma {:induction false} DroppedRequestCutsOffAnother(cfg: Config) returns (w: World, l: Label)
    requires cfg.k >= 1 && cfg.idleTimeout > 0 && cfg.idleShutdown == 0
    ensures Reachable(cfg, w) && Enabled(cfg, w, l) && Takes(cfg, w, l, A)
    ensures Holders(w, A) == {1} && Inflight(w, A) == 0
  {
    w := DroppedRelease(cfg);
    l := Reap(2, 0, "", [A]);
    assert Reapable(cfg, RUNNING, 0, "");
  }
}
