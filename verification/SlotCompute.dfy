/**
 What the table says against what really runs. The agents holding compute are
 among the counted ones, step by step, exactly as long as two things hold: a
 failed start was cleaned up, and reconcile forgets no agent that still runs.
 */
module SlotCompute {
  import opened Wrappers
  import opened SlotTable
  import opened SlotProtocol
  import opened SlotOwnership

  /** The agents a call has stopped or still has to stop. */
  function Targets(call: Call): set<AgentRef> {
    match call
    case Stopping(_, _, target) => {target}
    case Stopped(_, _, target, _) => {target}
    case Reaping(targets) => set r | r in targets
    case Reaped(targets, _) => set r | r in targets
    case _ => {}
  }

  /** The agent whose backend Stop has succeeded under this call. */
  function StoppedBy(call: Call): Option<AgentRef> {
    match call
    case Stopped(_, _, target, ok) => if ok then Some(target) else None
    case Reaped(targets, ok) => if ok && |targets| > 0 then Some(targets[0]) else None
    case Cleaned(ref, _, stopped) => if stopped then Some(ref) else None
    case _ => None
  }

  /** A stop is only run on a recorded agent, and a stopped agent stays down
      until its owner lets go of it. */
  ghost predicate StopsHold(w: World) {
    && (forall c, r :: c in w.calls && r in Targets(w.calls[c]) ==> Lookup(w.table, r).agent.Some?)
    && (forall c, r :: c in w.calls && StoppedBy(w.calls[c]) == Some(r) ==> r !in w.compute)
  }

  lemma {:induction false} TargetsOwned(w: World, c: nat, r: AgentRef)
    requires c in w.calls && (r in Targets(w.calls[c]) || StoppedBy(w.calls[c]) == Some(r))
    ensures r in OwnedBy(w, c)
  {}

  /** Agents appear and disappear in the table only under their owner, or when
      reconcile forgets a settled one. */
  lemma {:induction false} AgentKept(cfg: Config, w: World, l: Label, r: AgentRef)
    requires Ownership(w) && Enabled(cfg, w, l)
    requires r in Busy(w.table)
    requires (l.StartEnds? || l.StopEnds?) ==> Ending(w.calls[l.c]) != r
    ensures Lookup(Apply(cfg, w, l).table, r).agent == Lookup(w.table, r).agent
  {
    match l
    case StartEnds(_, _) => EndsPut(cfg, w, l);
    case StopEnds(_) => EndsPut(cfg, w, l);
    case Try(c, now, victim) => TryKeepsAgents(cfg, w.table, w.calls[c].ref, w.calls[c].ticket, now, victim, r);
    case _ =>
      if Moves(l) {
        MovesOwned(cfg, w, l);
      }
  }

  lemma {:induction false} TryKeepsAgents(cfg: Config, t: Table, ref: AgentRef, ticket: Option<nat>, now: int,
                                          victim: Option<AgentRef>, r: AgentRef)
    requires IsVictim(cfg, t, now, victim)
    ensures Lookup(TryAcquire(cfg, t, ref, ticket, now, victim).0, r).agent == Lookup(t, r).agent
  {}

  lemma {:induction false} StopsHoldOld(cfg: Config, w: World, l: Label, c: nat, r: AgentRef)
    requires Ownership(w) && StopsHold(w) && Enabled(cfg, w, l)
    requires c in w.calls && r in OwnedBy(w, c)
    requires (l.Select? || l.Vanish? || l.c != c)
    ensures r in Targets(w.calls[c]) ==> Lookup(Apply(cfg, w, l).table, r).agent.Some?
    ensures StoppedBy(w.calls[c]) == Some(r) ==> r !in Apply(cfg, w, l).compute
  {
    if l.StartEnds? || l.StopEnds? {
      EndsPut(cfg, w, l);
    }
    AgentKept(cfg, w, l, r);
    if l.PodCreated? {
      assert w.calls[l.c].ref in OwnedBy(w, l.c);
    }
  }

  lemma {:induction false} StopsHoldOwn(cfg: Config, w: World, l: Label, r: AgentRef)
    requires Ownership(w) && StopsHold(w) && Enabled(cfg, w, l) && !l.Select? && !l.Vanish?
    requires l.c in Apply(cfg, w, l).calls
    ensures r in Targets(Apply(cfg, w, l).calls[l.c]) ==> Lookup(Apply(cfg, w, l).table, r).agent.Some?
  {
    if r in Targets(Apply(cfg, w, l).calls[l.c]) {
      match l
      case Try(_, _, _) => TryTarget(cfg, w, l, r);
      case Reap(_, _, _, _) => ReapTarget(cfg, w, l, r);
      case StopReturns(_, _) => StopTargets(cfg, w, l, r);
      case StopEnds(_) =>
        if w.calls[l.c].Reaped? {
          ReapGoesOn(cfg, w, l, r);
        }
      case _ =>
    }
  }

  lemma {:induction false} TryTarget(cfg: Config, w: World, l: Label, r: AgentRef)
    requires Enabled(cfg, w, l) && l.Try? && r in Targets(Apply(cfg, w, l).calls[l.c])
    ensures Lookup(Apply(cfg, w, l).table, r).agent.Some?
  {}

  lemma {:induction false} StopTargets(cfg: Config, w: World, l: Label, r: AgentRef)
    requires StopsHold(w) && Enabled(cfg, w, l) && l.StopReturns? && r in Targets(Apply(cfg, w, l).calls[l.c])
    ensures Lookup(Apply(cfg, w, l).table, r).agent.Some?
  {
    assert r in Targets(w.calls[l.c]);
  }

  lemma {:induction false} ReapTarget(cfg: Config, w: World, l: Label, r: AgentRef)
    requires Enabled(cfg, w, l) && l.Reap? && r in Targets(Apply(cfg, w, l).calls[l.c])
    ensures Lookup(Apply(cfg, w, l).table, r).agent.Some?
  {}

  lemma {:induction false} StoppedOwn(cfg: Config, w: World, l: Label, r: AgentRef)
    requires Enabled(cfg, w, l) && !l.Select? && !l.Vanish?
    requires l.c in Apply(cfg, w, l).calls && StoppedBy(Apply(cfg, w, l).calls[l.c]) == Some(r)
    ensures r !in Apply(cfg, w, l).compute
  {}

  /** The agents the reaper has still to stop are recorded. */
  lemma {:induction false} ReapGoesOn(cfg: Config, w: World, l: Label, r: AgentRef)
    requires Ownership(w) && StopsHold(w) && Enabled(cfg, w, l) && l.StopEnds? && w.calls[l.c].Reaped?
    requires r in w.calls[l.c].targets[1..]
    ensures Lookup(Apply(cfg, w, l).table, r).agent.Some?
  {
    EndsPut(cfg, w, l);
    assert DistinctTargets(w.calls[l.c]);
    DistinctTail(w.calls[l.c].targets);
    assert r in (set x | x in w.calls[l.c].targets[1..]);
    assert r in Targets(w.calls[l.c]) && r != Ending(w.calls[l.c]);
    assert Lookup(w.table, r).agent.Some?;
  }

  lemma {:induction false} StopsHoldStep(cfg: Config, w: World, l: Label)
    requires Ownership(w) && StopsHold(w) && Enabled(cfg, w, l)
    ensures StopsHold(Apply(cfg, w, l))
  {
    var w' := Apply(cfg, w, l);
    forall c, r | c in w'.calls && (r in Targets(w'.calls[c]) || StoppedBy(w'.calls[c]) == Some(r))
      ensures r in Targets(w'.calls[c]) ==> Lookup(w'.table, r).agent.Some?
      ensures StoppedBy(w'.calls[c]) == Some(r) ==> r !in w'.compute
    {
      if l.Select? || l.Vanish? || l.c != c {
        TargetsOwned(w, c, r);
        StopsHoldOld(cfg, w, l, c, r);
      } else {
        StopsHoldOwn(cfg, w, l, r);
        if StoppedBy(w'.calls[c]) == Some(r) {
          StoppedOwn(cfg, w, l, r);
        }
      }
    }
  }

  lemma {:induction false} StopsHoldRun(cfg: Config, ws: seq<World>, ls: seq<Label>, i: nat)
    requires Run(cfg, ws, ls) && i <= |ls|
    ensures StopsHold(ws[i])
  {
    if i > 0 {
      StopsHoldRun(cfg, ws, ls, i - 1);
      OwnershipRun(cfg, ws, ls, i - 1);
      assert Next(cfg, ws[i - 1], ls[i - 1], ws[i]);
      StopsHoldStep(cfg, ws[i - 1], ls[i - 1]);
    }
  }

  /** Every agent holding compute is counted against K. */
  ghost predicate Accounted(w: World) {
    w.compute <= UsedSet(w.table)
  }

  /** The two steps that can lose sight of a running agent, when they do not:
      a failed start whose cleanup left nothing running, and a reconcile whose
      listing is fresh about every agent it forgets. */
  ghost predicate Clean(cfg: Config, w: World, l: Label)
    requires Enabled(cfg, w, l)
  {
    && (l.StartEnds? && w.calls[l.c].Cleaned? ==> w.calls[l.c].ref !in w.compute)
    && (l.Forget? ==> forall r | r in w.table.users :: Gone(w.table.users[r], r, w.calls[l.c].snapshot) ==>
       r !in w.compute)
  }

  lemma {:induction false} AccountedEnds(cfg: Config, w: World, l: Label)
    requires Ownership(w) && StopsHold(w) && Accounted(w) && Ends(cfg, w, l)
    ensures Accounted(Apply(cfg, w, l)) <==> Clean(cfg, w, l)
  {
    var w', r := Apply(cfg, w, l), Ending(w.calls[l.c]);
    EndsPut(cfg, w, l);
    UsedPut(w.table, r, Lookup(w'.table, r));
  }

  /** Exactly the clean steps keep every running agent counted. */
  lemma {:induction false} AccountedStep(cfg: Config, w: World, l: Label)
    requires Ownership(w) && StopsHold(w) && Accounted(w) && Enabled(cfg, w, l)
    ensures Accounted(Apply(cfg, w, l)) <==> Clean(cfg, w, l)
  {
    var w' := Apply(cfg, w, l);
    match l
    case Try(c, now, victim) => UsedTry(cfg, w.table, w.calls[c].ref, w.calls[c].ticket, now, victim);
    case StartEnds(_, _) => AccountedEnds(cfg, w, l);
    case StopEnds(_) => AccountedEnds(cfg, w, l);
    case PodCreated(c) =>
      assert w.calls[c].ref in OwnedBy(w, c);
      assert w.calls[c].ref in Busy(w.table);
    case Forget(c) =>
      if !Clean(cfg, w, l) {
        var r :| r in w.table.users && Gone(w.table.users[r], r, w.calls[c].snapshot) && r in w.compute;
        assert r !in UsedSet(w'.table);
      }
    case _ =>
  }

  ghost predicate CleanUntil(cfg: Config, ws: seq<World>, ls: seq<Label>, n: nat)
    requires Run(cfg, ws, ls) && n <= |ls|
  {
    forall i | 0 <= i < n :: Next(cfg, ws[i], ls[i], ws[i + 1]) && Clean(cfg, ws[i], ls[i])
  }

  /** Every running agent is counted all along a run iff all its steps are clean. */
  lemma {:induction false} AccountedRun(cfg: Config, ws: seq<World>, ls: seq<Label>, i: nat)
    requires Run(cfg, ws, ls) && i <= |ls|
    ensures (forall j | 0 <= j <= i :: Accounted(ws[j])) <==> CleanUntil(cfg, ws, ls, i)
  {
    if i > 0 {
      var k := i - 1;
      AccountedRun(cfg, ws, ls, k);
      assert Next(cfg, ws[k], ls[k], ws[i]);
      if Accounted(ws[k]) {
        OwnershipRun(cfg, ws, ls, k);
        StopsHoldRun(cfg, ws, ls, k);
        AccountedStep(cfg, ws[k], ls[k]);
      }
    }
  }

  /** On a run of clean steps at most K agents really run at any moment, or as
      many as were running when the broker started. */
  lemma {:induction false} RunningBound(cfg: Config, ws: seq<World>, ls: seq<Label>, i: nat)
    requires Run(cfg, ws, ls) && i <= |ls| && CleanUntil(cfg, ws, ls, i)
    ensures |ws[i].compute| <= Max(|ws[0].compute|, cfg.k)
  {
    AccountedRun(cfg, ws, ls, i);
    assert Accounted(ws[i]);
    SlotBound(cfg, ws, ls, i);
    assert UsedSet(ws[0].table) == ws[0].compute;
    SubsetSize(ws[i].compute, UsedSet(ws[i].table));
  }

  // ---- what the broker sees of it ----

  /** A start between its first and its last critical section. */
  predicate Begun(call: Call, r: AgentRef) {
    (call.Starting? || call.Started? || call.Cleaning? || call.Cleaned?) && call.ref == r
  }

  ghost predicate BegunAt(w: World, c: nat, r: AgentRef) {
    c in w.calls && Begun(w.calls[c], r)
  }

  /** A failed start is over, and the Stop that cleaned up after it failed too. */
  predicate LeavesBehind(w: World, l: Label) {
    l.StartEnds? && l.c in w.calls && w.calls[l.c].Cleaned? && !w.calls[l.c].stopped
  }

  /** The step ends a start of this agent. */
  predicate EndsStart(w: World, l: Label, r: AgentRef) {
    l.StartEnds? && l.c in w.calls && Begun(w.calls[l.c], r)
  }

  /** Between the listing taken by step s and its use in step k, no start of
      the agent ended. */
  ghost predicate Unstarted(ws: seq<World>, ls: seq<Label>, s: nat, k: nat, r: AgentRef)
    requires k <= |ls| && |ws| == |ls| + 1
  {
    forall m | s < m < k :: !EndsStart(ws[m], ls[m], r)
  }

  /** Step s takes the listing that step k uses. */
  predicate Listed(ls: seq<Label>, s: nat, k: nat) {
    s < k < |ls| && ls[k].Forget? && ls[s] == Snapshot(ls[k].c) && forall j | s < j < k :: ls[j] != ls[s]
  }

  /** Up to step n every cleanup succeeds, and reconcile forgets no agent of
      which a start ended after the listing. */
  ghost predicate Careful(ws: seq<World>, ls: seq<Label>, n: nat)
    requires n <= |ls| && |ws| == |ls| + 1
  {
    && (forall k | 0 <= k < n :: !LeavesBehind(ws[k], ls[k]))
    && (forall s: nat, k: nat, r | k < n && Listed(ls, s, k) && Forgets(ws[k], ls[k], r) :: Unstarted(ws, ls, s, k, r))
  }

  predicate Forgets(w: World, l: Label, r: AgentRef) {
    l.Forget? && l.c in w.calls && w.calls[l.c].Reconciling? && r in w.table.users
      && Gone(w.table.users[r], r, w.calls[l.c].snapshot)
  }

  /** A cleanup whose Stop succeeded left nothing running. */
  lemma {:induction false} CleanedUp(cfg: Config, w: World, l: Label)
    requires StopsHold(w) && Enabled(cfg, w, l) && l.StartEnds? && !LeavesBehind(w, l)
    ensures Clean(cfg, w, l)
  {
    if w.calls[l.c].Cleaned? {
      assert StoppedBy(w.calls[l.c]) == Some(w.calls[l.c].ref);
    }
  }

  lemma {:induction false} SnapshotKept(cfg: Config, w: World, l: Label, c: nat)
    requires Enabled(cfg, w, l) && c in Apply(cfg, w, l).calls && Apply(cfg, w, l).calls[c].Reconciling?
    requires l != Snapshot(c)
    ensures c in w.calls && w.calls[c] == Apply(cfg, w, l).calls[c]
  {}

  /** A listing in use was taken by an earlier step, and is what ran then. */
  lemma {:induction false} ListingTaken(cfg: Config, ws: seq<World>, ls: seq<Label>, k: nat, c: nat) returns (s: nat)
    requires Run(cfg, ws, ls) && k <= |ls| && c in ws[k].calls && ws[k].calls[c].Reconciling?
    ensures s < k && ls[s] == Snapshot(c) && ws[k].calls[c].snapshot == ws[s].compute
    ensures forall j | s < j < k :: ls[j] != ls[s]
  {
    assert Next(cfg, ws[k - 1], ls[k - 1], ws[k]);
    if ls[k - 1] == Snapshot(c) {
      s := k - 1;
    } else {
      SnapshotKept(cfg, ws[k - 1], ls[k - 1], c);
      s := ListingTaken(cfg, ws, ls, k - 1, c);
    }
  }

  /** Compute appears only where a start creates it. */
  lemma {:induction false} ComputeCreated(cfg: Config, ws: seq<World>, ls: seq<Label>, s: nat, k: nat, r: AgentRef)
    returns (j: nat)
    requires Run(cfg, ws, ls) && s <= k <= |ls| && r !in ws[s].compute && r in ws[k].compute
    ensures s <= j < k && ls[j].PodCreated? && BegunAt(ws[j], ls[j].c, r)
  {
    j := k - 1;
    assert Next(cfg, ws[j], ls[j], ws[k]);
    if r in ws[j].compute {
      j := ComputeCreated(cfg, ws, ls, s, j, r);
    }
  }

  lemma {:induction false} BegunStep(cfg: Config, w: World, l: Label, w': World, c: nat, r: AgentRef)
    requires Next(cfg, w, l, w') && BegunAt(w, c, r)
    ensures BegunAt(w', c, r) || EndsStart(w, l, r)
  {}

  lemma {:induction false} BegunNext(cfg: Config, ws: seq<World>, ls: seq<Label>, k: nat, c: nat, r: AgentRef)
    requires Run(cfg, ws, ls) && k < |ls| && BegunAt(ws[k], c, r)
    ensures BegunAt(ws[k + 1], c, r) || EndsStart(ws[k], ls[k], r)
  {
    BegunStep(cfg, ws[k], ls[k], ws[k + 1], c, r);
  }

  /** A start that is under way at step j is still under way at step k, or
      ended in between. */
  lemma {:induction false} BegunUntil(cfg: Config, ws: seq<World>, ls: seq<Label>, j: nat, k: nat, c: nat, r: AgentRef)
    requires Run(cfg, ws, ls) && j <= k <= |ls| && BegunAt(ws[j], c, r)
    requires forall m | j <= m < k :: !EndsStart(ws[m], ls[m], r)
    ensures BegunAt(ws[k], c, r)
  {
    if j < k {
      BegunUntil(cfg, ws, ls, j, k - 1, c, r);
      BegunNext(cfg, ws, ls, k - 1, c, r);
    }
  }

  /** An agent that runs when it is forgotten was started after the listing:
      a start of it ended in between. */
  lemma {:induction false} ForgottenWasStarted(cfg: Config, ws: seq<World>, ls: seq<Label>, k: nat, r: AgentRef)
    requires Run(cfg, ws, ls) && k < |ls| && Forgets(ws[k], ls[k], r) && r in ws[k].compute
    ensures exists s: nat :: Listed(ls, s, k) && !Unstarted(ws, ls, s, k, r)
  {
    var s := ListingTaken(cfg, ws, ls, k, ls[k].c);
    var j := ComputeCreated(cfg, ws, ls, s, k, r);
    assert Listed(ls, s, k);
    OwnershipRun(cfg, ws, ls, k);
    assert r !in Busy(ws[k].table);
    assert !BegunAt(ws[k], ls[j].c, r) by {
      assert r !in OwnedBy(ws[k], ls[j].c);
    }
    if Unstarted(ws, ls, s, k, r) {
      BegunUntil(cfg, ws, ls, j, k, ls[j].c, r);
    }
  }

  /** What the broker can see to is enough for every step to be clean. */
  lemma {:induction false} CarefulIsClean(cfg: Config, ws: seq<World>, ls: seq<Label>, n: nat)
    requires Run(cfg, ws, ls) && n <= |ls| && Careful(ws, ls, n)
    ensures CleanUntil(cfg, ws, ls, n)
  {
    forall k | 0 <= k < n
      ensures Next(cfg, ws[k], ls[k], ws[k + 1]) && Clean(cfg, ws[k], ls[k])
    {
      assert Next(cfg, ws[k], ls[k], ws[k + 1]);
      CarefulStep(cfg, ws, ls, k, n);
    }
  }

  lemma {:induction false} CarefulStep(cfg: Config, ws: seq<World>, ls: seq<Label>, k: nat, n: nat)
    requires Run(cfg, ws, ls) && k < n <= |ls| && Careful(ws, ls, n) && Enabled(cfg, ws[k], ls[k])
    ensures Clean(cfg, ws[k], ls[k])
  {
    if ls[k].StartEnds? {
      StopsHoldRun(cfg, ws, ls, k);
      CleanedUp(cfg, ws[k], ls[k]);
    } else if ls[k].Forget? {
      forall r | r in ws[k].table.users && Gone(ws[k].table.users[r], r, ws[k].calls[ls[k].c].snapshot)
        ensures r !in ws[k].compute
      {
        assert Forgets(ws[k], ls[k], r);
        if r in ws[k].compute {
          ForgottenWasStarted(cfg, ws, ls, k, r);
        }
      }
    }
  }

  /** The bound in terms of what the broker sees: if every cleanup succeeds and
      no agent is forgotten that was started since the listing, at most K agents
      run at any moment, or as many as were running at the start. */
  lemma {:induction false} CarefulRunningBound(cfg: Config, ws: seq<World>, ls: seq<Label>, i: nat)
    requires Run(cfg, ws, ls) && i <= |ls| && Careful(ws, ls, i)
    ensures |ws[i].compute| <= Max(|ws[0].compute|, cfg.k)
  {
    CarefulIsClean(cfg, ws, ls, i);
    RunningBound(cfg, ws, ls, i);
  }
}
