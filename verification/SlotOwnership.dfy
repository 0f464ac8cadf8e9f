/**
 One operation per agent, and the slot bound. An agent is `busy` exactly while
 one goroutine owns a backend Start or Stop of it; every step keeps the number
 of slots in use within max(what it was, K).
 */
module SlotOwnership {
  import opened Wrappers
  import opened SlotTable
  import opened SlotProtocol

  /** The agents whose Start or Stop a call is running or has still to run. */
  function Owned(call: Call): set<AgentRef> {
    match call
    case Starting(ref, _, _, _) => {ref}
    case Started(ref, _, _, _) => {ref}
    case Cleaning(ref, _) => {ref}
    case Cleaned(ref, _, _) => {ref}
    case Stopping(_, _, target) => {target}
    case Stopped(_, _, target, _) => {target}
    case Reaping(targets) => set r | r in targets
    case Reaped(targets, _) => set r | r in targets
    case _ => {}
  }

  function OwnedBy(w: World, c: nat): set<AgentRef> {
    if c in w.calls then Owned(w.calls[c]) else {}
  }

  function Busy(t: Table): set<AgentRef> {
    set r | r in t.users && t.users[r].busy
  }

  ghost predicate Distinct(s: seq<AgentRef>) {
    forall i, j | 0 <= i < j < |s| :: s[i] != s[j]
  }

  ghost predicate DistinctTargets(call: Call) {
    (call.Reaping? || call.Reaped?) ==> Distinct(call.targets)
  }

  /** The owned agents are exactly the busy ones, and each has one owner. */
  ghost predicate Ownership(w: World) {
    && (forall c, r :: r in OwnedBy(w, c) ==> r in Busy(w.table))
    && (forall r :: r in Busy(w.table) ==> exists c :: r in OwnedBy(w, c))
    && (forall c, d, r :: r in OwnedBy(w, c) && r in OwnedBy(w, d) ==> c == d)
    && (forall c | c in w.calls :: DistinctTargets(w.calls[c]))
  }

  /** Only `c` changed, trading the agents it owned for ones nobody owned. */
  lemma {:induction false} Trade(w: World, w': World, c: nat)
    requires Ownership(w)
    requires forall d | d != c :: OwnedBy(w', d) == OwnedBy(w, d)
    requires forall d | d in w'.calls && d != c :: d in w.calls && w'.calls[d] == w.calls[d]
    requires c in w'.calls ==> DistinctTargets(w'.calls[c])
    requires Busy(w'.table) == Busy(w.table) - OwnedBy(w, c) + OwnedBy(w', c)
    requires (OwnedBy(w', c) - OwnedBy(w, c)) !! Busy(w.table)
    ensures Ownership(w')
  {
    forall r | r in Busy(w'.table)
      ensures exists d :: r in OwnedBy(w', d)
    {
      if r !in OwnedBy(w', c) {
        var d :| r in OwnedBy(w, d);
        assert r in OwnedBy(w', d);
      }
    }
  }

  lemma {:induction false} BusyPut(t: Table, r: AgentRef, e: Entry)
    ensures Busy(Put(t, r, e)) == if e.busy then Busy(t) + {r} else Busy(t) - {r}
  {}

  /** What a pass through the loop of Acquire does to the busy set. */
  lemma {:induction false} BusyTry(cfg: Config, t: Table, ref: AgentRef, ticket: Option<nat>, now: int,
                                   victim: Option<AgentRef>)
    requires IsVictim(cfg, t, now, victim)
    ensures var (t', d) := TryAcquire(cfg, t, ref, ticket, now, victim);
            match d
            case StartAgent(_) => ref !in Busy(t) && Busy(t') == Busy(t) + {ref}
            case StopAgent(v) => v !in Busy(t) && Busy(t') == Busy(t) + {v}
            case _ => Busy(t') == Busy(t)
  {
    var e := Lookup(t, ref);
    BusyPut(t, ref, e);
    match TryAcquire(cfg, t, ref, ticket, now, victim).1
    case Serve(_, _) => BusyPut(t, ref, e.(inflight := e.inflight + 1, last := now, notice := []));
    case StartAgent(_) => BusyPut(t, ref, e.(busy := true));
    case StopAgent(v) =>
      BusyPut(t, ref, e.(busy := true));
      if v != ref {
        var t0 := Put(t, ref, e);
        BusyPut(t0, v, t0.users[v].(busy := true));
      }
    case Wait(_) =>
  }

  lemma {:induction false} OwnershipTry(cfg: Config, w: World, c: nat, now: int, victim: Option<AgentRef>)
    requires Ownership(w) && Enabled(cfg, w, Try(c, now, victim))
    ensures Ownership(Apply(cfg, w, Try(c, now, victim)))
  {
    BusyTry(cfg, w.table, w.calls[c].ref, w.calls[c].ticket, now, victim);
    Trade(w, Apply(cfg, w, Try(c, now, victim)), c);
  }

  /** The agent whose Start or Stop a finishing call was for. */
  function Ending(call: Call): AgentRef
    requires call.Started? || call.Cleaned? || call.Stopped? || (call.Reaped? && |call.targets| > 0)
  {
    match call
    case Started(ref, _, _, _) => ref
    case Cleaned(ref, _, _) => ref
    case Stopped(_, _, target, _) => target
    case Reaped(targets, _) => targets[0]
  }

  ghost predicate Ends(cfg: Config, w: World, l: Label) {
    (l.StartEnds? || l.StopEnds?) && Enabled(cfg, w, l)
  }

  /** Ending a Start or Stop settles the entry of that one agent. */
  lemma {:induction false} EndsPut(cfg: Config, w: World, l: Label)
    requires Ends(cfg, w, l)
    ensures var r, t' := Ending(w.calls[l.c]), Apply(cfg, w, l).table;
            && t' == Put(w.table, r, Lookup(t', r)) && !Lookup(t', r).busy
            && r in OwnedBy(w, l.c)
  {
    var call := w.calls[l.c];
    match l
    case StartEnds(_, _) =>
      assert Put(w.table, call.ref, Lookup(Apply(cfg, w, l).table, call.ref)) == Apply(cfg, w, l).table;
    case StopEnds(_) =>
      assert Put(w.table, Ending(call), Lookup(Apply(cfg, w, l).table, Ending(call))) == Apply(cfg, w, l).table;
  }

  lemma {:induction false} DistinctTail(s: seq<AgentRef>)
    requires |s| > 0 && Distinct(s)
    ensures (set r | r in s[1..]) == (set r | r in s) - {s[0]}
    ensures Distinct(s[1..])
  {
    forall r | r in s && r != s[0]
      ensures r in s[1..]
    {
      var i :| 0 <= i < |s| && s[i] == r;
      assert s[1..][i - 1] == r;
    }
  }

  lemma {:induction false} EndsOwned(cfg: Config, w: World, l: Label)
    requires Ownership(w) && Ends(cfg, w, l)
    ensures OwnedBy(Apply(cfg, w, l), l.c) == OwnedBy(w, l.c) - {Ending(w.calls[l.c])}
    ensures DistinctTargets(Apply(cfg, w, l).calls[l.c])
  {
    match l
    case StartEnds(_, _) => StartEndsOwned(cfg, w, l);
    case StopEnds(_) => StopEndsOwned(cfg, w, l);
  }

  lemma {:induction false} StartEndsOwned(cfg: Config, w: World, l: Label)
    requires l.StartEnds? && Enabled(cfg, w, l)
    ensures OwnedBy(Apply(cfg, w, l), l.c) == OwnedBy(w, l.c) - {Ending(w.calls[l.c])}
    ensures DistinctTargets(Apply(cfg, w, l).calls[l.c])
  {}

  lemma {:induction false} StopEndsOwned(cfg: Config, w: World, l: Label)
    requires l.StopEnds? && Enabled(cfg, w, l) && DistinctTargets(w.calls[l.c])
    ensures OwnedBy(Apply(cfg, w, l), l.c) == OwnedBy(w, l.c) - {Ending(w.calls[l.c])}
    ensures DistinctTargets(Apply(cfg, w, l).calls[l.c])
  {
    if w.calls[l.c].Reaped? {
      DistinctTail(w.calls[l.c].targets);
    }
  }

  lemma {:induction false} EndsFrame(cfg: Config, w: World, l: Label)
    requires Ends(cfg, w, l)
    ensures var w' := Apply(cfg, w, l);
            && (forall d | d in w'.calls && d != l.c :: d in w.calls && w'.calls[d] == w.calls[d])
            && (forall d | d != l.c :: OwnedBy(w', d) == OwnedBy(w, d))
  {}

  lemma {:induction false} OwnershipEnds(cfg: Config, w: World, l: Label)
    requires Ownership(w) && Ends(cfg, w, l)
    ensures Ownership(Apply(cfg, w, l))
  {
    var w', r := Apply(cfg, w, l), Ending(w.calls[l.c]);
    EndsPut(cfg, w, l);
    EndsOwned(cfg, w, l);
    EndsFrame(cfg, w, l);
    BusyPut(w.table, r, Lookup(w'.table, r));
    Trade(w, w', l.c);
  }

  lemma {:induction false} BusyReaped(cfg: Config, t: Table, now: int, current: string, order: seq<AgentRef>)
    requires ListsReaped(cfg, t, now, current, order)
    ensures Busy(MarkReaped(cfg, t, now, current)) == Busy(t) + set r | r in order
    ensures (set r | r in order) !! Busy(t)
  {}

  lemma {:induction false} BusyKept(cfg: Config, w: World, l: Label)
    requires Enabled(cfg, w, l)
    requires l.Finish? || l.Select? || l.Forget? || l.Leave?
    ensures Busy(Apply(cfg, w, l).table) == Busy(w.table)
  {
    match l
    case Finish(c, now) =>
    case Select(ref, sel) =>
    case Forget(c) =>
    case Leave(c) =>
  }

  lemma {:induction false} KeptOwned(cfg: Config, w: World, l: Label)
    requires Enabled(cfg, w, l) && (l.Finish? || l.Forget? || l.Leave?)
    ensures var w' := Apply(cfg, w, l);
            && OwnedBy(w, l.c) == {} == OwnedBy(w', l.c)
            && (l.c in w'.calls ==> DistinctTargets(w'.calls[l.c]))
            && (forall d | d in w'.calls && d != l.c :: d in w.calls && w'.calls[d] == w.calls[d])
            && (forall d | d != l.c :: OwnedBy(w', d) == OwnedBy(w, d))
  {}

  lemma {:induction false} OwnershipKept(cfg: Config, w: World, l: Label)
    requires Ownership(w) && Enabled(cfg, w, l)
    requires l.Finish? || l.Forget? || l.Leave?
    ensures Ownership(Apply(cfg, w, l))
  {
    BusyKept(cfg, w, l);
    KeptOwned(cfg, w, l);
    Trade(w, Apply(cfg, w, l), l.c);
  }

  lemma {:induction false} OwnershipSame(cfg: Config, w: World, l: Label)
    requires Ownership(w) && Enabled(cfg, w, l)
    requires l.Select? || l.Vanish?
    ensures Ownership(Apply(cfg, w, l))
  {
    if l.Select? {
      BusyKept(cfg, w, l);
    }
    Trade(w, Apply(cfg, w, l), 0);
  }

  /** A step that only moves a goroutine on. */
  predicate Moves(l: Label) {
    l.Begin? || l.GiveUp? || l.PodCreated? || l.StartReturns? || l.CleanupReturns? || l.StopReturns? || l.Snapshot?
  }

  lemma {:induction false} MovesOwned(cfg: Config, w: World, l: Label)
    requires Enabled(cfg, w, l) && Moves(l)
    ensures var w' := Apply(cfg, w, l);
            && w'.table == w.table && OwnedBy(w', l.c) == OwnedBy(w, l.c)
            && l.c in w'.calls && (l.c in w.calls && DistinctTargets(w.calls[l.c]) ==> DistinctTargets(w'.calls[l.c]))
            && (l.c !in w.calls ==> DistinctTargets(w'.calls[l.c]))
            && (forall d | d in w'.calls && d != l.c :: d in w.calls && w'.calls[d] == w.calls[d])
            && (forall d | d != l.c :: OwnedBy(w', d) == OwnedBy(w, d))
  {}

  /** Steps that only move a goroutine on keep what it owns. */
  lemma {:induction false} OwnershipMoves(cfg: Config, w: World, l: Label)
    requires Ownership(w) && Enabled(cfg, w, l) && Moves(l)
    ensures Ownership(Apply(cfg, w, l))
  {
    MovesOwned(cfg, w, l);
    Trade(w, Apply(cfg, w, l), l.c);
  }

  /** Every step keeps one owner per busy agent. */
  lemma {:induction false} OwnershipStep(cfg: Config, w: World, l: Label)
    requires Ownership(w) && Enabled(cfg, w, l)
    ensures Ownership(Apply(cfg, w, l))
  {
    match l
    case Try(c, now, victim) => OwnershipTry(cfg, w, c, now, victim);
    case StartEnds(_, _) => OwnershipEnds(cfg, w, l);
    case StopEnds(_) => OwnershipEnds(cfg, w, l);
    case Reap(c, now, current, order) =>
      BusyReaped(cfg, w.table, now, current, order);
      Trade(w, Apply(cfg, w, l), c);
    case Finish(_, _) => OwnershipKept(cfg, w, l);
    case Select(_, _) => OwnershipSame(cfg, w, l);
    case Forget(_) => OwnershipKept(cfg, w, l);
    case Leave(_) => OwnershipKept(cfg, w, l);
    case Vanish(_) => OwnershipSame(cfg, w, l);
    case _ => OwnershipMoves(cfg, w, l);
  }

  lemma {:induction false} OwnershipInit(w: World)
    requires Init(w)
    ensures Ownership(w)
  {}

  // ---- the slot bound ----

  lemma {:induction false} UsedPut(t: Table, r: AgentRef, e: Entry)
    ensures UsedSet(Put(t, r, e)) == if Counted(e) then UsedSet(t) + {r} else UsedSet(t) - {r}
  {}

  /** The entries after a pass through the loop, by what it decided. */
  ghost predicate TryEffect(cfg: Config, t: Table, ref: AgentRef, now: int, t': Table, d: Decision) {
    var e := Lookup(t, ref);
    match d
    case Serve(_, _) =>
      e.agent.Some? && t' == Put(t, ref, e.(inflight := e.inflight + 1, last := now, notice := []))
    case StartAgent(_) =>
      (e.agent.Some? || |UsedSet(t)| < cfg.k) && t' == Put(t, ref, e.(busy := true))
    case StopAgent(v) =>
      Lookup(t, v).agent.Some? && t' == Put(Put(t, ref, e), v, Lookup(t, v).(busy := true))
    case Wait(_) => t'.users == Put(t, ref, e).users
  }

  lemma {:induction false} TryUsers(cfg: Config, t: Table, ref: AgentRef, ticket: Option<nat>, now: int,
                                    victim: Option<AgentRef>)
    requires IsVictim(cfg, t, now, victim)
    ensures var (t', d) := TryAcquire(cfg, t, ref, ticket, now, victim); TryEffect(cfg, t, ref, now, t', d)
  {
    var e := Lookup(t, ref);
    assert Put(Put(t, ref, e), ref, e.(busy := true)) == Put(t, ref, e.(busy := true));
  }

  lemma {:induction false} UsedByEffect(cfg: Config, t: Table, ref: AgentRef, now: int, t': Table, d: Decision)
    requires TryEffect(cfg, t, ref, now, t', d)
    ensures || UsedSet(t') == UsedSet(t)
            || (d.StartAgent? && |UsedSet(t)| < cfg.k && UsedSet(t') == UsedSet(t) + {ref})
  {
    var e, t0 := Lookup(t, ref), Put(t, ref, Lookup(t, ref));
    UsedPut(t, ref, e);
    assert UsedSet(t0) == UsedSet(t);
    match d
    case Serve(_, _) => UsedPut(t, ref, e.(inflight := e.inflight + 1, last := now, notice := []));
    case StartAgent(_) => UsedPut(t, ref, e.(busy := true));
    case StopAgent(v) => UsedPut(t0, v, Lookup(t, v).(busy := true));
    case Wait(_) => assert UsedSet(t') == UsedSet(t0);
  }

  /** A pass through the loop claims at most one slot, and only a free one. */
  lemma {:induction false} UsedTry(cfg: Config, t: Table, ref: AgentRef, ticket: Option<nat>, now: int,
                                   victim: Option<AgentRef>)
    requires IsVictim(cfg, t, now, victim)
    ensures var (t', d) := TryAcquire(cfg, t, ref, ticket, now, victim);
            || UsedSet(t') == UsedSet(t)
            || (d.StartAgent? && |UsedSet(t)| < cfg.k && UsedSet(t') == UsedSet(t) + {ref})
  {
    var (t', d) := TryAcquire(cfg, t, ref, ticket, now, victim);
    TryUsers(cfg, t, ref, ticket, now, victim);
    UsedByEffect(cfg, t, ref, now, t', d);
  }

  /** Which slots a step may free or claim. */
  lemma {:induction false} UsedStep(cfg: Config, w: World, l: Label)
    requires Ownership(w) && Enabled(cfg, w, l)
    ensures var before, after := UsedSet(w.table), UsedSet(Apply(cfg, w, l).table);
            || after <= before
            || (l.Try? && |before| < cfg.k && after == before + {w.calls[l.c].ref})
  {
    var w' := Apply(cfg, w, l);
    match l
    case Try(c, now, victim) =>
      UsedTry(cfg, w.table, w.calls[c].ref, w.calls[c].ticket, now, victim);
    case StartEnds(_, _) =>
      EndsPut(cfg, w, l);
      assert Ending(w.calls[l.c]) in Busy(w.table);
      UsedPut(w.table, Ending(w.calls[l.c]), Lookup(w'.table, Ending(w.calls[l.c])));
    case StopEnds(_) =>
      EndsPut(cfg, w, l);
      assert Ending(w.calls[l.c]) in Busy(w.table);
      UsedPut(w.table, Ending(w.calls[l.c]), Lookup(w'.table, Ending(w.calls[l.c])));
    case _ =>
  }

  /** No step raises the number of slots in use above max(before, K). */
  lemma {:induction false} SlotBoundStep(cfg: Config, w: World, l: Label, w': World)
    requires Ownership(w) && Next(cfg, w, l, w')
    ensures |UsedSet(w'.table)| <= Max(|UsedSet(w.table)|, cfg.k)
  {
    UsedStep(cfg, w, l);
    var before, after := UsedSet(w.table), UsedSet(w'.table);
    if after <= before {
      SubsetSize(after, before);
    }
  }

  lemma {:induction false} OwnershipRun(cfg: Config, ws: seq<World>, ls: seq<Label>, i: nat)
    requires Run(cfg, ws, ls) && i <= |ls|
    ensures Ownership(ws[i])
  {
    if i == 0 {
      OwnershipInit(ws[0]);
    } else {
      OwnershipRun(cfg, ws, ls, i - 1);
      assert Next(cfg, ws[i - 1], ls[i - 1], ws[i]);
      OwnershipStep(cfg, ws[i - 1], ls[i - 1]);
    }
  }

  lemma {:induction false} SlotBoundNext(cfg: Config, ws: seq<World>, ls: seq<Label>, i: nat)
    requires Run(cfg, ws, ls) && i < |ls|
    ensures |UsedSet(ws[i + 1].table)| <= Max(|UsedSet(ws[i].table)|, cfg.k)
  {
    OwnershipRun(cfg, ws, ls, i);
    SlotBoundStep(cfg, ws[i], ls[i], ws[i + 1]);
  }

  /** Over any run: at most K slots, or as many as were recovered. */
  lemma {:induction false} SlotBound(cfg: Config, ws: seq<World>, ls: seq<Label>, i: nat)
    requires Run(cfg, ws, ls) && i <= |ls|
    ensures |UsedSet(ws[i].table)| <= Max(|UsedSet(ws[0].table)|, cfg.k)
  {
    if i > 0 {
      SlotBound(cfg, ws, ls, i - 1);
      SlotBoundNext(cfg, ws, ls, i - 1);
    }
  }
}
