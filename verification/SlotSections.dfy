/**
 What the critical sections do, in the fields of the entries: which situation
 gets which decision, and what every section leaves behind.
 */
module SlotSections {
  import opened Wrappers
  import opened SlotTable

  /** The entry of an agent; an agent never seen has none of anything. */
  function At(t: Table, ref: AgentRef): Entry {
    if ref in t.users then t.users[ref] else Entry(None, 0, 0, false, None, [])
  }

  /** Idle for the timeout: running, nothing under way, nothing counted. */
  predicate IdleAgent(cfg: Config, t: Table, r: AgentRef, now: int) {
    && r in t.users && t.users[r].agent.Some? && !t.users[r].busy && t.users[r].inflight == 0
    && now - t.users[r].last >= cfg.idleTimeout
  }

  function Used(t: Table): nat {
    |set r | r in t.users && (t.users[r].agent.Some? || t.users[r].busy)|
  }

  predicate First(t: Table, ticket: Option<nat>) {
    t.queue == [] || ticket == Some(t.queue[0])
  }

  /** Nobody is asked to wait who need not: a request waits iff its agent is
      being started or stopped, or is to be restarted but still serves, or it
      has no agent and it is not its turn or every slot is taken by agents that
      are not idle. */
  ghost predicate WaitsOnlyIf(cfg: Config, t: Table, ref: AgentRef, ticket: Option<nat>, now: int, d: Decision) {
    var e := At(t, ref);
    d.Wait? <==>
      || e.busy
      || (e.agent.Some? && e.pending.Some? && e.inflight != 0)
      || (e.agent.None? && !First(t, ticket))
      || (e.agent.None? && Used(t) >= cfg.k && forall r :: !IdleAgent(cfg, t, r, now))
  }

  /** What a settled agent is told: it serves if it has its key and nothing is
      pending, with the notice kept for it; without its key it is attached to;
      with a selection pending and nothing under way it is stopped. */
  ghost predicate SettledGets(t: Table, ref: AgentRef, d: Decision) {
    var e := At(t, ref);
    && (d.Serve? <==> e.agent.Some? && !e.busy && e.pending.None? && e.agent.value.keyed)
    && (d.Serve? ==> d == Serve(e.agent.value, e.notice))
    && (e.agent.Some? && !e.busy && e.pending.None? && !e.agent.value.keyed ==> d == StartAgent(None))
    && (e.agent.Some? && !e.busy && e.pending.Some? && e.inflight == 0 ==> d == StopAgent(ref))
  }

  /** What a request without an agent gets when it is its turn: a start with
      the pending selection if a slot is free, else the place of a least
      recently used idle agent. */
  ghost predicate AbsentGets(cfg: Config, t: Table, ref: AgentRef, ticket: Option<nat>, now: int, d: Decision) {
    var e := At(t, ref);
    e.agent.None? && !e.busy && First(t, ticket) ==>
      && (Used(t) < cfg.k ==> d == StartAgent(e.pending))
      && (Used(t) >= cfg.k && d.StopAgent? ==>
            && IdleAgent(cfg, t, d.target, now)
            && forall r :: IdleAgent(cfg, t, r, now) ==> t.users[d.target].last <= t.users[r].last)
  }

  /** What the pass changes: a served agent counts the request and gives its
      notice away; an agent to start or stop is busy; a request that waits
      without an agent is queued, once, behind all others. */
  ghost predicate Leaves(t: Table, ref: AgentRef, ticket: Option<nat>, now: int, t': Table, d: Decision) {
    var e := At(t, ref);
    var queued := ticket.None? && e.agent.None? && !e.busy && d.Wait?;
    && t'.selections == t.selections
    && t'.queue == (if queued then t.queue + [t.tickets] else t.queue)
    && t'.tickets == (if queued then t.tickets + 1 else t.tickets)
    && match d
       case Serve(_, _) => t'.users == t.users[ref := Entry(e.agent, e.inflight + 1, now, false, None, [])]
       case StartAgent(_) => t'.users == t.users[ref := Entry(e.agent, e.inflight, e.last, true, e.pending, e.notice)]
       case StopAgent(v) =>
         var a := At(t, v);
         t'.users == t.users[ref := e][v := Entry(a.agent, a.inflight, a.last, true, a.pending, a.notice)]
       case Wait(given) => t'.users == t.users[ref := e] && given == if queued then Some(t.tickets) else ticket
  }

  lemma {:induction false} UsedIs(t: Table)
    ensures Used(t) == |UsedSet(t)|
  {
    assert UsedSet(t) == set r | r in t.users && (t.users[r].agent.Some? || t.users[r].busy);
  }

  lemma {:induction false} VictimIs(cfg: Config, t: Table, now: int, victim: Option<AgentRef>)
    requires IsVictim(cfg, t, now, victim)
    ensures victim.None? <==> forall r :: !IdleAgent(cfg, t, r, now)
    ensures victim.Some? ==>
              && IdleAgent(cfg, t, victim.value, now)
              && forall r :: IdleAgent(cfg, t, r, now) ==> t.users[victim.value].last <= t.users[r].last
  {
    assert forall r :: IdleAgent(cfg, t, r, now) <==> r in t.users && Idle(t.users[r], now, cfg.idleTimeout);
  }

  /** Every situation of a request gets the decision it should. */
  lemma {:induction false} TryDecides(cfg: Config, t: Table, ref: AgentRef, ticket: Option<nat>, now: int,
                                      victim: Option<AgentRef>)
    requires IsVictim(cfg, t, now, victim)
    ensures var (_, d) := TryAcquire(cfg, t, ref, ticket, now, victim);
            && WaitsOnlyIf(cfg, t, ref, ticket, now, d)
            && SettledGets(t, ref, d)
            && AbsentGets(cfg, t, ref, ticket, now, d)
  {
    UsedIs(t);
    VictimIs(cfg, t, now, victim);
  }

  lemma {:induction false} TryLeaves(cfg: Config, t: Table, ref: AgentRef, ticket: Option<nat>, now: int,
                                     victim: Option<AgentRef>)
    requires IsVictim(cfg, t, now, victim)
    ensures var (t', d) := TryAcquire(cfg, t, ref, ticket, now, victim);
            Leaves(t, ref, ticket, now, t', d)
  {
    var e := At(t, ref);
    var (_, d) := TryAcquire(cfg, t, ref, ticket, now, victim);
    if d == StopAgent(ref) {
      assert t.users[ref := e][ref := e.(busy := true)] == t.users[ref := e.(busy := true)];
    }
  }

  // ---- the reaper ----

  /** Why an agent should not go on: unused for long, on an old image, or old. */
  predicate Overdue(cfg: Config, a: Agent, last: int, now: int, current: string) {
    || now - last >= cfg.idleShutdown
    || a.catalog != current
    || (a.startedAt.Some? && now - a.startedAt.value >= cfg.maxLifetime)
  }

  /** The reaper takes exactly the agents that should not go on among those with
      no operation and no request, and changes nothing else. */
  ghost predicate Reaps(cfg: Config, t: Table, now: int, current: string, t': Table, victims: seq<AgentRef>) {
    && t'.users.Keys == t.users.Keys
    && t'.queue == t.queue && t'.tickets == t.tickets && t'.selections == t.selections
    && (forall r :: r in victims <==>
          && r in t.users && t.users[r].agent.Some? && !t.users[r].busy && t.users[r].inflight <= 0
          && Overdue(cfg, t.users[r].agent.value, t.users[r].last, now, current))
    && (forall i, j | 0 <= i < j < |victims| :: victims[i] != victims[j])
    && (forall r | r in t.users ::
          var e := t.users[r];
          t'.users[r] == Entry(e.agent, e.inflight, e.last, e.busy || r in victims, e.pending, e.notice))
  }

  lemma {:induction false} ReapTakes(cfg: Config, t: Table, now: int, current: string, order: seq<AgentRef>)
    requires ListsReaped(cfg, t, now, current, order)
    ensures Reaps(cfg, t, now, current, MarkReaped(cfg, t, now, current), order)
  {}

  // ---- reconcile ----

  /** Reconcile forgets exactly the running, settled agents that the listing
      does not have, with their counted requests, and nothing else. */
  lemma {:induction false} ReconcileForgets(t: Table, alive: set<AgentRef>, r: AgentRef)
    ensures var t' := Reconcile(t, alive);
            && t'.users.Keys == t.users.Keys
            && t'.queue == t.queue && t'.tickets == t.tickets && t'.selections == t.selections
            && (r in t.users ==>
                  var e := t.users[r];
                  t'.users[r] ==
                  if e.agent.Some? && !e.busy && r !in alive then Entry(None, 0, e.last, false, e.pending, e.notice)
                  else e)
  {}

  // ---- use counts from now ----

  /** An agent that was just recovered, started, served or released counts as
      in use for the idle timeout. */
  ghost predicate InUseFrom(cfg: Config, t: Table, r: AgentRef, now: int) {
    forall later | IdleAgent(cfg, t, r, later) :: later - now >= cfg.idleTimeout
  }

  lemma {:induction false} RecoveredInUse(cfg: Config, t: Table, agents: map<AgentRef, Agent>, now: int, r: AgentRef)
    requires r in agents
    ensures var t' := Recover(t, agents, now);
            && InUseFrom(cfg, t', r, now)
            && r in t'.users && t'.users[r] == Entry(Some(agents[r]), 0, now, false, None, [])
  {}

  lemma {:induction false} ReleasedInUse(cfg: Config, t: Table, r: AgentRef, now: int)
    requires r in t.users
    ensures var e, t' := t.users[r], Release(t, r, now);
            && InUseFrom(cfg, t', r, now)
            && t'.users == t.users[r := Entry(e.agent, e.inflight - 1, now, e.busy, e.pending, e.notice)]
  {}

  lemma {:induction false} StartedInUse(cfg: Config, t: Table, r: AgentRef, sel: Option<Pending>, a: Agent, now: int)
    ensures InUseFrom(cfg, FinishStart(t, r, sel, Some(a), now), r, now)
  {}

  lemma {:induction false} ServedInUse(cfg: Config, t: Table, r: AgentRef, ticket: Option<nat>, now: int,
                                       victim: Option<AgentRef>)
    requires IsVictim(cfg, t, now, victim) && TryAcquire(cfg, t, r, ticket, now, victim).1.Serve?
    ensures InUseFrom(cfg, TryAcquire(cfg, t, r, ticket, now, victim).0, r, now)
  {
    TryLeaves(cfg, t, r, ticket, now, victim);
  }

  // ---- from a start to the next answer ----

  /** After a successful start that carried what is pending, the next request is
      served by the new agent, with its notice of new skills, or the older one
      if it has none; the request after that gets no notice. */
  lemma {:induction false} StartThenServe(cfg: Config, t: Table, r: AgentRef, sel: Option<Pending>, a: Agent, now: int,
                                          victim: Option<AgentRef>, again: Option<AgentRef>, ticket: Option<nat>)
    requires a.keyed && (At(t, r).pending.None? || At(t, r).pending == sel)
    requires IsVictim(cfg, FinishStart(t, r, sel, Some(a), now), now, victim)
    requires IsVictim(cfg, TryAcquire(cfg, FinishStart(t, r, sel, Some(a), now), r, ticket, now, victim).0, now, again)
    ensures var first := TryAcquire(cfg, FinishStart(t, r, sel, Some(a), now), r, ticket, now, victim);
            && first.1 == Serve(a, if |a.news| > 0 then a.news else At(t, r).notice)
            && TryAcquire(cfg, first.0, r, ticket, now, again).1 == Serve(a, [])
  {}

  /** A selection chosen while the start was running is not lost: the next idle
      request stops the agent again. */
  lemma {:induction false} StartThenRestart(cfg: Config, t: Table, r: AgentRef, sel: Option<Pending>, a: Agent,
                                            now: int,
                                            victim: Option<AgentRef>, ticket: Option<nat>)
    requires At(t, r).pending.Some? && At(t, r).inflight == 0
    requires sel.None? || sel.value.id != At(t, r).pending.value.id
    requires IsVictim(cfg, FinishStart(t, r, sel, Some(a), now), now, victim)
    ensures TryAcquire(cfg, FinishStart(t, r, sel, Some(a), now), r, ticket, now, victim).1 == StopAgent(r)
  {}

  /** After a failed start or a stop the entry has no agent, after a failed stop
      the one it had; the rest stays. */
  lemma {:induction false} EndsLeave(t: Table, r: AgentRef, sel: Option<Pending>, ok: bool, now: int)
    ensures var e := At(t, r);
            && FinishStart(t, r, sel, None, now).users ==
               t.users[r := Entry(None, e.inflight, e.last, false, e.pending, e.notice)]
            && FinishStop(t, r, ok).users ==
               t.users[r := Entry(if ok then None else e.agent, e.inflight, e.last, false, e.pending, e.notice)]
  {}

  /** A selection saved for an agent is the one its next start carries. */
  lemma {:induction false} SelectThenStart(cfg: Config, t: Table, r: AgentRef, sel: Selection, now: int,
                                           victim: Option<AgentRef>, ticket: Option<nat>)
    requires At(t, r).agent.None? && !At(t, r).busy && First(t, ticket) && Used(SetPending(t, r, sel)) < cfg.k
    requires IsVictim(cfg, SetPending(t, r, sel), now, victim)
    ensures var d := TryAcquire(cfg, SetPending(t, r, sel), r, ticket, now, victim).1;
            d.StartAgent? && d.sel.Some? && d.sel.value.sel == sel && d.sel.value.id > t.selections
  {
    UsedIs(SetPending(t, r, sel));
  }
}
