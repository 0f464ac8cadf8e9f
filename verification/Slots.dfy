/**
 The allocator object. `users`, `queue` and the entry fields are changed in
 place; each method is one critical section and its contract is the function
 of SlotTable that the transition system of SlotProtocol.dfy steps with.
 */
module SlotAllocator {
  import opened Wrappers
  import opened SlotTable
  import opened SlotSections

  class Slots {
    const cfg: Config
    var users: map<AgentRef, Entry>
    var queue: seq<nat>
    var tickets: nat
    var selections: nat

    ghost function View(): Table
      reads this
    {
      Table(users, queue, tickets, selections)
    }

    constructor (cfg: Config)
      ensures this.cfg == cfg && View() == EMPTY_TABLE
    {
      this.cfg := cfg;
      users, queue, tickets, selections := map[], [], 0, 0;
    }

    /** Each listed agent gets a new entry, active as of now. */
    method Recover(agents: map<AgentRef, Agent>, now: int)
      modifies this
      ensures View() == SlotTable.Recover(old(View()), agents, now)
    {
      var rest := agents.Keys;
      while rest != {}
        invariant rest <= agents.Keys
        invariant users.Keys == old(users).Keys + (agents.Keys - rest)
        invariant forall r | r in users :: users[r] ==
                    if r in rest then Lookup(old(View()), r) else Recovered(old(View()), agents, now, r)
        invariant queue == old(queue) && tickets == old(tickets) && selections == old(selections)
        decreases rest
      {
        var r :| r in rest;
        users := users[r := EMPTY_ENTRY.(agent := Some(agents[r]), last := now)];
        rest := rest - {r};
      }
      assert users == SlotTable.Recover(old(View()), agents, now).users;
    }

    /** The number of slots in use. */
    method UsedLocked() returns (n: nat)
      ensures n == |UsedSet(View())|
    {
      n := 0;
      var rest := users.Keys;
      ghost var seen: set<AgentRef> := {};
      while rest != {}
        invariant seen !! rest && seen + rest == users.Keys
        invariant n == |set r | r in seen && Counted(users[r])|
        decreases rest
      {
        var r :| r in rest;
        ghost var before := set x | x in seen && Counted(users[x]);
        if Counted(users[r]) {
          n := n + 1;
        }
        seen, rest := seen + {r}, rest - {r};
        assert (set x | x in seen && Counted(users[x])) == if Counted(users[r]) then before + {r} else before;
      }
      assert (set r | r in seen && Counted(users[r])) == UsedSet(View());
    }

    /** The least recently used agent idle for the idle timeout, if any. */
    method LruIdleLocked(now: int) returns (best: Option<AgentRef>)
      ensures IsVictim(cfg, View(), now, best)
    {
      best := None;
      var rest := users.Keys;
      while rest != {}
        invariant rest <= users.Keys
        invariant match best
                  case None => forall r | r in users && r !in rest :: !Idle(users[r], now, cfg.idleTimeout)
                  case Some(b) =>
                    && b in users && Idle(users[b], now, cfg.idleTimeout)
                    && forall r | r in users && r !in rest && Idle(users[r], now, cfg.idleTimeout) ::
                         users[b].last <= users[r].last
        decreases rest
      {
        var r :| r in rest;
        if Idle(users[r], now, cfg.idleTimeout) && (best.None? || users[r].last < users[best.value].last) {
          best := Some(r);
        }
        rest := rest - {r};
      }
    }

    /** One pass through the loop of Acquire, up to the unlock. */
    method TryAcquire(ref: AgentRef, ticket: Option<nat>, now: int)
      returns (d: Decision, ghost victim: Option<AgentRef>)
      modifies this
      ensures IsVictim(cfg, old(View()), now, victim)
      ensures (View(), d) == SlotTable.TryAcquire(cfg, old(View()), ref, ticket, now, victim)
      ensures WaitsOnlyIf(cfg, old(View()), ref, ticket, now, d) && SettledGets(old(View()), ref, d)
      ensures AbsentGets(cfg, old(View()), ref, ticket, now, d) && Leaves(old(View()), ref, ticket, now, View(), d)
    {
      d, victim := Pass(ref, ticket, now);
      TryDecides(cfg, old(View()), ref, ticket, now, victim);
      TryLeaves(cfg, old(View()), ref, ticket, now, victim);
    }

    /** The pass itself, as the transition system steps with it. */
    method Pass(ref: AgentRef, ticket: Option<nat>, now: int)
      returns (d: Decision, ghost victim: Option<AgentRef>)
      modifies this
      ensures IsVictim(cfg, old(View()), now, victim)
      ensures (View(), d) == SlotTable.TryAcquire(cfg, old(View()), ref, ticket, now, victim)
    {
      var lru := LruIdleLocked(now);
      victim := lru;
      var e := if ref in users then users[ref] else EMPTY_ENTRY;
      var used := UsedLocked();
      assert used == |UsedSet(old(View()))|;
      users := users[ref := e];
      if Servable(e) {
        users := users[ref := e.(inflight := e.inflight + 1, last := now, notice := [])];
        assert users == old(users)[ref := e.(inflight := e.inflight + 1, last := now, notice := [])];
        return Serve(e.agent.value, e.notice), victim;
      }
      var headOfQueue := |queue| == 0 || (ticket.Some? && queue[0] == ticket.value);
      if e.busy {
        // Whoever marked it busy will settle the entry.
      } else if e.agent.Some? && !e.agent.value.keyed && e.pending.None? {
        users := users[ref := e.(busy := true)];
        assert users == old(users)[ref := e.(busy := true)];
        return StartAgent(None), victim;
      } else if e.agent.Some? && e.pending.Some? && e.inflight == 0 {
        users := users[ref := e.(busy := true)];
        assert users == old(users)[ref := e.(busy := true)];
        return StopAgent(ref), victim;
      } else if e.agent.Some? && e.pending.Some? {
        // The restart has to wait until nothing is in flight.
      } else if headOfQueue && used < cfg.k {
        users := users[ref := e.(busy := true)];
        assert users == old(users)[ref := e.(busy := true)];
        return StartAgent(e.pending), victim;
      } else if headOfQueue && lru.Some? {
        users := users[lru.value := users[lru.value].(busy := true)];
        return StopAgent(lru.value), victim;
      }
      if ticket.None? && e.agent.None? && !e.busy {
        d := Wait(Some(tickets));
        queue, tickets := queue + [tickets], tickets + 1;
      } else {
        d := Wait(ticket);
      }
    }

    method DequeueLocked(ticket: nat)
      modifies this`queue
      ensures View() == Dequeue(old(View()), Some(ticket))
    {
      var i := 0;
      while i < |queue|
        invariant 0 <= i <= |queue|
        invariant queue == old(queue)
        invariant Without(queue, ticket) == queue[..i] + Without(queue[i..], ticket)
      {
        if queue[i] == ticket {
          assert Without(queue[i..], ticket) == queue[i..][1..] == queue[i + 1..];
          queue := queue[..i] + queue[i + 1..];
          return;
        }
        assert queue[i..][1..] == queue[i + 1..];
        assert queue[..i] + [queue[i]] == queue[..i + 1];
        i := i + 1;
      }
    }

    /** After the backend's Start returned; `result` is None if it failed. */
    method FinishStart(ref: AgentRef, sel: Option<Pending>, result: Option<Agent>, now: int)
      modifies this`users
      ensures View() == SlotTable.FinishStart(old(View()), ref, sel, result, now)
    {
      var e := (if ref in users then users[ref] else EMPTY_ENTRY).(busy := false);
      if result.None? {
        users := users[ref := e.(agent := None)];
        return;
      }
      e := e.(agent := result, last := now);
      if sel.Some? && e.pending.Some? && e.pending.value.id == sel.value.id {
        e := e.(pending := None);
      }
      if |result.value.news| > 0 {
        e := e.(notice := result.value.news);
      }
      users := users[ref := e];
    }

    /** After the backend's Stop returned. */
    method FinishStop(ref: AgentRef, ok: bool)
      modifies this`users
      ensures View() == SlotTable.FinishStop(old(View()), ref, ok)
    {
      var e := (if ref in users then users[ref] else EMPTY_ENTRY).(busy := false);
      if ok {
        e := e.(agent := None);
      }
      users := users[ref := e];
    }

    method Release(ref: AgentRef, now: int)
      modifies this`users
      ensures View() == SlotTable.Release(old(View()), ref, now)
    {
      if ref in users {
        var e := users[ref];
        users := users[ref := e.(inflight := e.inflight - 1, last := now)];
      }
    }

    method SetPending(ref: AgentRef, sel: Selection)
      modifies this`users, this`selections
      ensures View() == SlotTable.SetPending(old(View()), ref, sel)
    {
      selections := selections + 1;
      var e := if ref in users then users[ref] else EMPTY_ENTRY;
      users := users[ref := e.(pending := Some(Pending(selections, sel)))];
    }

    /** The locked part of reconcile; `alive` is the earlier listing. */
    method Reconcile(alive: set<AgentRef>) returns (changed: bool)
      modifies this`users
      ensures View() == SlotTable.Reconcile(old(View()), alive)
      ensures changed <==> exists r :: r in old(users) && Gone(old(users)[r], r, alive)
    {
      changed := false;
      var rest := users.Keys;
      while rest != {}
        invariant users.Keys == old(users).Keys && rest <= users.Keys
        invariant forall r | r in users && r in rest :: users[r] == old(users)[r]
        invariant forall r | r in users && r !in rest ::
                    users[r] == Forgotten(Lookup(old(View()), r), r, alive)
        invariant changed <==> exists r :: r in old(users) && r !in rest && Gone(old(users)[r], r, alive)
        decreases rest
      {
        var r :| r in rest;
        if Gone(users[r], r, alive) {
          users := users[r := users[r].(agent := None, inflight := 0)];
          changed := true;
        }
        rest := rest - {r};
      }
    }

    /** The locked part of Reap: marks the agents to stop and lists them. */
    method MarkReaped(now: int, current: string) returns (victims: seq<AgentRef>)
      modifies this`users
      ensures View() == SlotTable.MarkReaped(cfg, old(View()), now, current)
      ensures ListsReaped(cfg, old(View()), now, current, victims)
      ensures Reaps(cfg, old(View()), now, current, View(), victims)
    {
      victims := [];
      var rest := users.Keys;
      while rest != {}
        invariant users.Keys == old(users).Keys && rest <= users.Keys
        invariant forall r | r in users && r in rest :: users[r] == old(users)[r]
        invariant forall r | r in users && r !in rest ::
                    users[r] == Marked(cfg, Lookup(old(View()), r), now, current)
        invariant forall r :: r in victims <==> r in users && r !in rest && Reapable(cfg, old(users)[r], now, current)
        invariant forall i, j | 0 <= i < j < |victims| :: victims[i] != victims[j]
        decreases rest
      {
        var r :| r in rest;
        var e := users[r];
        if e.agent.None? || e.busy || e.inflight > 0 {
          // Not running, in transition, or serving.
        } else if now - e.last >= cfg.idleShutdown
                  || e.agent.value.catalog != current
                  || (e.agent.value.startedAt.Some? && now - e.agent.value.startedAt.value >= cfg.maxLifetime) {
          assert r !in victims;
          victims := victims + [r];
          users := users[r := e.(busy := true)];
        }
        rest := rest - {r};
      }
      assert users == SlotTable.MarkReaped(cfg, old(View()), now, current).users;
      ReapTakes(cfg, old(View()), now, current, victims);
    }
  }
}
