/**
 Lease conservation: the requests an agent is serving are the ones its
 `inflight` counter shows plus the ones `reconcile` stopped counting. It gives
 the exact number of requests an eviction, restart or reap cuts off.
 */
module SlotLeases {
  import opened Wrappers
  import opened SlotTable
  import opened SlotProtocol
  import opened SlotOwnership

  /** A call between the return of Acquire and its Release. */
  predicate Holds(call: Call, r: AgentRef) {
    (call.Returning? || call.Serving?) && call.ref == r
  }

  function Holders(w: World, r: AgentRef): set<nat> {
    set c | c in w.calls && Holds(w.calls[c], r)
  }

  function Inflight(w: World, r: AgentRef): int {
    Lookup(w.table, r).inflight
  }

  ghost predicate ConservedFor(w: World, r: AgentRef) {
    && |Holders(w, r)| == Inflight(w, r) + GetInt(w.dropped, r)
    && (Holders(w, r) != {} ==> r in w.table.users)
  }

  ghost predicate Conserved(w: World) {
    forall r :: ConservedFor(w, r)
  }

  /** Only a settled, running agent with a key can have requests counted. */
  predicate Quiet(e: Entry) {
    (e.busy || e.agent.None? || !e.agent.value.keyed) ==> e.inflight <= 0
  }

  ghost predicate Settled(w: World) {
    forall r | r in w.table.users :: Quiet(w.table.users[r])
  }

  // ---- Settled ----

  lemma {:induction false} SettledTry(cfg: Config, t: Table, ref: AgentRef, ticket: Option<nat>, now: int,
                                      victim: Option<AgentRef>)
    requires forall r | r in t.users :: Quiet(t.users[r])
    requires IsVictim(cfg, t, now, victim)
    ensures var t' := TryAcquire(cfg, t, ref, ticket, now, victim).0;
            forall r | r in t'.users :: Quiet(t'.users[r])
  {}

  lemma {:induction false} SettledEnds(cfg: Config, w: World, l: Label)
    requires Ownership(w) && Settled(w) && Ends(cfg, w, l)
    ensures Settled(Apply(cfg, w, l))
  {
    var r, t' := Ending(w.calls[l.c]), Apply(cfg, w, l).table;
    EndsPut(cfg, w, l);
    assert r in Busy(w.table);
    assert Quiet(w.table.users[r]);
    assert Lookup(t', r).inflight == w.table.users[r].inflight;
  }

  /** Every step keeps busy, absent and unkeyed agents without requests. */
  lemma {:induction false} SettledStep(cfg: Config, w: World, l: Label)
    requires Ownership(w) && Settled(w) && Enabled(cfg, w, l)
    ensures Settled(Apply(cfg, w, l))
  {
    match l
    case Try(c, now, victim) =>
      SettledTry(cfg, w.table, w.calls[c].ref, w.calls[c].ticket, now, victim);
    case StartEnds(_, _) => SettledEnds(cfg, w, l);
    case StopEnds(_) => SettledEnds(cfg, w, l);
    case Finish(_, _) => SettledFinish(cfg, w, l);
    case Select(_, _) => SettledSelect(cfg, w, l);
    case Forget(_) => SettledForget(cfg, w, l);
    case Reap(_, _, _, _) => SettledReap(cfg, w, l);
    case _ => SettledMoves(cfg, w, l);
  }

  lemma {:induction false} SettledFinish(cfg: Config, w: World, l: Label)
    requires Settled(w) && Enabled(cfg, w, l) && l.Finish?
    ensures Settled(Apply(cfg, w, l))
  {}

  lemma {:induction false} SettledSelect(cfg: Config, w: World, l: Label)
    requires Settled(w) && Enabled(cfg, w, l) && l.Select?
    ensures Settled(Apply(cfg, w, l))
  {}

  lemma {:induction false} SettledForget(cfg: Config, w: World, l: Label)
    requires Settled(w) && Enabled(cfg, w, l) && l.Forget?
    ensures Settled(Apply(cfg, w, l))
  {}

  lemma {:induction false} SettledReap(cfg: Config, w: World, l: Label)
    requires Settled(w) && Enabled(cfg, w, l) && l.Reap?
    ensures Settled(Apply(cfg, w, l))
  {}

  lemma {:induction false} SettledMoves(cfg: Config, w: World, l: Label)
    requires Settled(w) && Enabled(cfg, w, l) && (Moves(l) || l.Leave? || l.Vanish?)
    ensures Settled(Apply(cfg, w, l))
  {
    assert Apply(cfg, w, l).table.users == w.table.users;
  }

  // ---- Conserved ----

  lemma {:induction false} Remove<T>(s: set<T>, x: T)
    ensures |s - {x}| == |s| - if x in s then 1 else 0
  {
    if x in s {
      assert s == (s - {x}) + {x};
    } else {
      assert s - {x} == s;
    }
  }

  lemma {:induction false} HoldersMove(w: World, w': World, c: nat, r: AgentRef)
    requires forall d | d != c :: d in w'.calls <==> d in w.calls
    requires forall d | d in w.calls && d != c :: w'.calls[d] == w.calls[d]
    ensures |Holders(w', r)| == |Holders(w, r)|
                                - (if c in Holders(w, r) then 1 else 0)
                                + (if c in Holders(w', r) then 1 else 0)
    ensures (c in Holders(w, r) <==> c in Holders(w', r)) ==> Holders(w', r) == Holders(w, r)
  {
    var before, after := Holders(w, r), Holders(w', r);
    forall d | d != c
      ensures d in before <==> d in after
    {}
    assert before - {c} == after - {c};
    Remove(before, c);
    Remove(after, c);
  }

  /** Steps that only move a goroutine on. */
  lemma {:induction false} ConservedMoves(cfg: Config, w: World, l: Label, r: AgentRef)
    requires ConservedFor(w, r) && Enabled(cfg, w, l)
    requires Moves(l)
    ensures ConservedFor(Apply(cfg, w, l), r)
  {
    HoldersMove(w, Apply(cfg, w, l), l.c, r);
  }

  /** Steps that change the table but neither grant, return nor forget. */
  lemma {:induction false} ConservedEnds(cfg: Config, w: World, l: Label, r: AgentRef)
    requires ConservedFor(w, r) && Ends(cfg, w, l)
    ensures ConservedFor(Apply(cfg, w, l), r)
  {
    EndsPut(cfg, w, l);
    EndsCounts(cfg, w, l);
    HoldersMove(w, Apply(cfg, w, l), l.c, r);
  }

  lemma {:induction false} EndsCounts(cfg: Config, w: World, l: Label)
    requires Ends(cfg, w, l)
    ensures var w', r := Apply(cfg, w, l), Ending(w.calls[l.c]);
            && Inflight(w', r) == Inflight(w, r) && w'.dropped == w.dropped
            && (forall q :: l.c !in Holders(w, q) && l.c !in Holders(w', q))
  {}

  lemma {:induction false} ConservedReap(cfg: Config, w: World, l: Label, r: AgentRef)
    requires ConservedFor(w, r) && Enabled(cfg, w, l) && l.Reap?
    ensures ConservedFor(Apply(cfg, w, l), r)
  {
    HoldersMove(w, Apply(cfg, w, l), l.c, r);
  }

  lemma {:induction false} ConservedLeave(cfg: Config, w: World, l: Label, r: AgentRef)
    requires ConservedFor(w, r) && Enabled(cfg, w, l) && l.Leave?
    ensures ConservedFor(Apply(cfg, w, l), r)
  {
    HoldersMove(w, Apply(cfg, w, l), l.c, r);
  }

  lemma {:induction false} TryCounts(cfg: Config, t: Table, ref: AgentRef, ticket: Option<nat>, now: int,
                                     victim: Option<AgentRef>, r: AgentRef)
    requires IsVictim(cfg, t, now, victim)
    ensures var (t', d) := TryAcquire(cfg, t, ref, ticket, now, victim);
            && Lookup(t', r).inflight == Lookup(t, r).inflight + (if d.Serve? && r == ref then 1 else 0)
            && (r in t.users || r == ref ==> r in t'.users)
  {}

  lemma {:induction false} ConservedTry(cfg: Config, w: World, l: Label, r: AgentRef)
    requires ConservedFor(w, r) && Enabled(cfg, w, l) && l.Try?
    ensures ConservedFor(Apply(cfg, w, l), r)
  {
    TryCounts(cfg, w.table, w.calls[l.c].ref, w.calls[l.c].ticket, l.now, l.victim, r);
    HoldersMove(w, Apply(cfg, w, l), l.c, r);
  }

  lemma {:induction false} ConservedFinish(cfg: Config, w: World, l: Label, r: AgentRef)
    requires ConservedFor(w, r) && Enabled(cfg, w, l) && l.Finish?
    ensures ConservedFor(Apply(cfg, w, l), r)
  {
    assert r == w.calls[l.c].ref ==> l.c in Holders(w, r);
    HoldersMove(w, Apply(cfg, w, l), l.c, r);
  }

  lemma {:induction false} ForgetCounts(cfg: Config, w: World, l: Label, r: AgentRef)
    requires Enabled(cfg, w, l) && l.Forget?
    ensures var w' := Apply(cfg, w, l);
            Inflight(w', r) + GetInt(w'.dropped, r) == Inflight(w, r) + GetInt(w.dropped, r)
  {}

  lemma {:induction false} ConservedForget(cfg: Config, w: World, l: Label, r: AgentRef)
    requires ConservedFor(w, r) && Enabled(cfg, w, l) && l.Forget?
    ensures ConservedFor(Apply(cfg, w, l), r)
  {
    ForgetCounts(cfg, w, l, r);
    HoldersMove(w, Apply(cfg, w, l), l.c, r);
  }

  lemma {:induction false} ConservedSame(cfg: Config, w: World, l: Label, r: AgentRef)
    requires ConservedFor(w, r) && Enabled(cfg, w, l) && (l.Select? || l.Vanish?)
    ensures ConservedFor(Apply(cfg, w, l), r)
  {
    assert Holders(Apply(cfg, w, l), r) == Holders(w, r);
  }

  lemma {:induction false} ConservedStepFor(cfg: Config, w: World, l: Label, r: AgentRef)
    requires ConservedFor(w, r) && Enabled(cfg, w, l)
    ensures ConservedFor(Apply(cfg, w, l), r)
  {
    match l
    case Try(_, _, _) => ConservedTry(cfg, w, l, r);
    case Finish(_, _) => ConservedFinish(cfg, w, l, r);
    case Forget(_) => ConservedForget(cfg, w, l, r);
    case Select(_, _) => ConservedSame(cfg, w, l, r);
    case Vanish(_) => ConservedSame(cfg, w, l, r);
    case StartEnds(_, _) => ConservedEnds(cfg, w, l, r);
    case StopEnds(_) => ConservedEnds(cfg, w, l, r);
    case Reap(_, _, _, _) => ConservedReap(cfg, w, l, r);
    case Leave(_) => ConservedLeave(cfg, w, l, r);
    case _ => ConservedMoves(cfg, w, l, r);
  }

  lemma {:induction false} ConservedStep(cfg: Config, w: World, l: Label)
    requires Conserved(w) && Enabled(cfg, w, l)
    ensures Conserved(Apply(cfg, w, l))
  {
    forall r
      ensures ConservedFor(Apply(cfg, w, l), r)
    {
      ConservedStepFor(cfg, w, l, r);
    }
  }

  lemma {:induction false} ConservedInit(w: World)
    requires Init(w)
    ensures Conserved(w)
  {
    forall r
      ensures ConservedFor(w, r)
    {
      assert Holders(w, r) == {};
    }
  }

  lemma {:induction false} SettledRun(cfg: Config, ws: seq<World>, ls: seq<Label>, i: nat)
    requires Run(cfg, ws, ls) && i <= |ls|
    ensures Settled(ws[i])
  {
    if i > 0 {
      SettledRun(cfg, ws, ls, i - 1);
      OwnershipRun(cfg, ws, ls, i - 1);
      assert Next(cfg, ws[i - 1], ls[i - 1], ws[i]);
      SettledStep(cfg, ws[i - 1], ls[i - 1]);
    }
  }

  /** Conservation holds in every world of every run. */
  lemma {:induction false} LeaseConservation(cfg: Config, ws: seq<World>, ls: seq<Label>, i: nat)
    requires Run(cfg, ws, ls) && i <= |ls|
    ensures Conserved(ws[i])
  {
    if i == 0 {
      ConservedInit(ws[0]);
    } else {
      LeaseConservation(cfg, ws, ls, i - 1);
      assert Next(cfg, ws[i - 1], ls[i - 1], ws[i]);
      ConservedStep(cfg, ws[i - 1], ls[i - 1]);
    }
  }

  // ---- who is cut off when an agent is stopped ----

  /** The step takes `v` out of service: eviction, selection restart or reap. */
  ghost predicate Takes(cfg: Config, w: World, l: Label, v: AgentRef)
    requires Enabled(cfg, w, l)
  {
    v in Busy(Apply(cfg, w, l).table) && v !in Busy(w.table)
    && Lookup(w.table, v).agent.Some? && !(l.Try? && Apply(cfg, w, l).calls[l.c].Starting?)
  }

  /** An agent is only taken with no request counted, and by an eviction or a
      restart only with the counter at zero. */
  lemma {:induction false} TakenQuiet(cfg: Config, w: World, l: Label, v: AgentRef)
    requires Enabled(cfg, w, l) && Takes(cfg, w, l, v)
    ensures v in w.table.users && Inflight(w, v) <= 0 && (l.Try? ==> Inflight(w, v) == 0)
  {
    match l
    case Try(c, now, victim) =>
      BusyTry(cfg, w.table, w.calls[c].ref, w.calls[c].ticket, now, victim);
    case Reap(_, now, current, order) =>
      BusyReaped(cfg, w.table, now, current, order);
    case StartEnds(_, _) => EndsPut(cfg, w, l);
    case StopEnds(_) => EndsPut(cfg, w, l);
    case _ =>
      if l.Finish? || l.Select? || l.Forget? || l.Leave? {
        BusyKept(cfg, w, l);
      }
  }

  /** A stop cuts off the requests that reconcile stopped counting, less those
      of them released since; an eviction or restart exactly the dropped ones.
      Some request is cut off iff more were dropped than the counter is below
      zero. */
  lemma {:induction false} CutOff(cfg: Config, ws: seq<World>, ls: seq<Label>, i: nat, v: AgentRef)
    requires Run(cfg, ws, ls) && i < |ls|
    requires Enabled(cfg, ws[i], ls[i]) && Takes(cfg, ws[i], ls[i], v)
    ensures |Holders(ws[i], v)| == GetInt(ws[i].dropped, v) + Inflight(ws[i], v) <= GetInt(ws[i].dropped, v)
    ensures Holders(ws[i], v) != {} <==> GetInt(ws[i].dropped, v) > -Inflight(ws[i], v)
    ensures ls[i].Try? ==> |Holders(ws[i], v)| == GetInt(ws[i].dropped, v)
  {
    LeaseConservation(cfg, ws, ls, i);
    assert ConservedFor(ws[i], v);
    TakenQuiet(cfg, ws[i], ls[i], v);
  }

  /** While reconcile has dropped no request of an agent, its counter is the
      number of its requests and none of them is ever cut off. */
  lemma {:induction false} NoRequestCutOff(cfg: Config, ws: seq<World>, ls: seq<Label>, i: nat, v: AgentRef)
    requires Run(cfg, ws, ls) && i < |ls| && GetInt(ws[i].dropped, v) == 0
    ensures |Holders(ws[i], v)| == Inflight(ws[i], v)
    ensures Enabled(cfg, ws[i], ls[i]) && Takes(cfg, ws[i], ls[i], v) ==> Holders(ws[i], v) == {}
  {
    LeaseConservation(cfg, ws, ls, i);
    assert ConservedFor(ws[i], v);
    if Enabled(cfg, ws[i], ls[i]) && Takes(cfg, ws[i], ls[i], v) {
      CutOff(cfg, ws, ls, i, v);
    }
  }
}
