/**
 The slot table of the agent broker: one `Entry` per agent, a FIFO queue of
 tickets, and the critical sections that change them. Every function below is
 the effect of one critical section (the code between `mu.Lock` and
 `mu.Unlock`); the class `Slots` in Slots.dfy runs them in place.
 */
module SlotTable {
  import opened Wrappers
  import Skills

  datatype AgentRef = AgentRef(runtime: string, id: string)

  type Selection = Skills.Selection

  /** A running agent as the backend reports it. `keyed` is false for an agent
      recovered after a restart, whose API key is not known yet; `news` lists
      the new skills of its start report. */
  datatype Agent = Agent(keyed: bool, catalog: string, startedAt: Option<int>, news: seq<string>)

  /** A selection still to be applied. The program compares pointers, so two
      requests for the same selection differ: `id` is that identity. */
  datatype Pending = Pending(id: nat, sel: Selection)

  datatype Entry = Entry(
    agent: Option<Agent>,
    inflight: int,
    last: int,
    busy: bool,
    pending: Option<Pending>,
    notice: seq<string>)

  const EMPTY_ENTRY := Entry(None, 0, 0, false, None, [])

  datatype Config = Config(k: int, idleTimeout: int, idleShutdown: int, maxLifetime: int)

  /** `tickets` and `selections` are the identities handed out so far. */
  datatype Table = Table(users: map<AgentRef, Entry>, queue: seq<nat>, tickets: nat, selections: nat)

  const EMPTY_TABLE := Table(map[], [], 0, 0)

  function Lookup(t: Table, ref: AgentRef): Entry {
    if ref in t.users then t.users[ref] else EMPTY_ENTRY
  }

  function Put(t: Table, ref: AgentRef, e: Entry): Table {
    t.(users := t.users[ref := e])
  }

  /** An entry holds a slot while its agent runs or is being started or stopped. */
  predicate Counted(e: Entry) {
    e.agent.Some? || e.busy
  }

  function UsedSet(t: Table): set<AgentRef> {
    set r | r in t.users && Counted(t.users[r])
  }

  predicate Idle(e: Entry, now: int, after: int) {
    e.agent.Some? && !e.busy && e.inflight == 0 && now - e.last >= after
  }

  /** What the search for an agent to evict returns: any least recently used
      one among the agents idle for the idle timeout, or nothing. */
  ghost predicate IsVictim(cfg: Config, t: Table, now: int, victim: Option<AgentRef>) {
    match victim
    case None => forall r | r in t.users :: !Idle(t.users[r], now, cfg.idleTimeout)
    case Some(v) =>
      && v in t.users
      && Idle(t.users[v], now, cfg.idleTimeout)
      && forall r | r in t.users && Idle(t.users[r], now, cfg.idleTimeout) :: t.users[v].last <= t.users[r].last
  }

  /** What one pass through the loop of Acquire decides to do. */
  datatype Decision =
    | Serve(agent: Agent, notice: seq<string>)
    | StartAgent(sel: Option<Pending>)
    | StopAgent(target: AgentRef)
    | Wait(ticket: Option<nat>)

  predicate Servable(e: Entry) {
    e.agent.Some? && !e.busy && e.pending.None? && e.agent.value.keyed
  }

  predicate AtHead(t: Table, ticket: Option<nat>) {
    |t.queue| == 0 || (ticket.Some? && t.queue[0] == ticket.value)
  }

  /** The waiting tail of the loop: a request without an agent takes a ticket. */
  function Park(t: Table, e: Entry, ticket: Option<nat>): (Table, Decision) {
    if ticket.None? && e.agent.None? && !e.busy
    then (t.(queue := t.queue + [t.tickets], tickets := t.tickets + 1), Wait(Some(t.tickets)))
    else (t, Wait(ticket))
  }

  /** One pass through the loop of Acquire for `ref`, up to the unlock. */
  function TryAcquire(cfg: Config, t: Table, ref: AgentRef, ticket: Option<nat>, now: int,
                      victim: Option<AgentRef>): (Table, Decision)
    requires victim.Some? ==> victim.value in t.users
  {
    var e := Lookup(t, ref);
    var t0 := Put(t, ref, e);
    if Servable(e) then
      (Put(t, ref, e.(inflight := e.inflight + 1, last := now, notice := [])), Serve(e.agent.value, e.notice))
    else if e.busy then
      Park(t0, e, ticket)
    else if e.agent.Some? && !e.agent.value.keyed && e.pending.None? then
      (Put(t, ref, e.(busy := true)), StartAgent(None))
    else if e.agent.Some? && e.pending.Some? && e.inflight == 0 then
      (Put(t, ref, e.(busy := true)), StopAgent(ref))
    else if e.agent.Some? && e.pending.Some? then
      Park(t0, e, ticket)
    else if AtHead(t, ticket) && |UsedSet(t)| < cfg.k then
      (Put(t, ref, e.(busy := true)), StartAgent(e.pending))
    else if AtHead(t, ticket) && victim.Some? then
      (Put(t0, victim.value, t0.users[victim.value].(busy := true)), StopAgent(victim.value))
    else
      Park(t0, e, ticket)
  }

  function Without(q: seq<nat>, ticket: nat): seq<nat> {
    if |q| == 0 then [] else if q[0] == ticket then q[1..] else [q[0]] + Without(q[1..], ticket)
  }

  function Dequeue(t: Table, ticket: Option<nat>): Table {
    if ticket.Some? then t.(queue := Without(t.queue, ticket.value)) else t
  }

  /** The locked part after the backend's Start: `result` is None on failure. */
  function FinishStart(t: Table, ref: AgentRef, sel: Option<Pending>, result: Option<Agent>, now: int): Table {
    var e := Lookup(t, ref);
    match result
    case None => Put(t, ref, e.(busy := false, agent := None))
    case Some(a) =>
      Put(t, ref, e.(
          busy := false,
          agent := result,
          last := now,
          pending := if sel.Some? && e.pending.Some? && e.pending.value.id == sel.value.id then None else e.pending,
          notice := if |a.news| > 0 then a.news else e.notice))
  }

  /** The locked part after the backend's Stop. */
  function FinishStop(t: Table, ref: AgentRef, ok: bool): Table {
    var e := Lookup(t, ref);
    Put(t, ref, e.(busy := false, agent := if ok then None else e.agent))
  }

  function Release(t: Table, ref: AgentRef, now: int): Table {
    if ref in t.users
    then Put(t, ref, t.users[ref].(inflight := t.users[ref].inflight - 1, last := now))
    else t
  }

  function SetPending(t: Table, ref: AgentRef, sel: Selection): Table {
    Put(t, ref, Lookup(t, ref).(pending := Some(Pending(t.selections + 1, sel))))
      .(selections := t.selections + 1)
  }

  /** Entries reconcile forgets: a settled agent missing from the listing. */
  predicate Gone(e: Entry, ref: AgentRef, alive: set<AgentRef>) {
    e.agent.Some? && !e.busy && ref !in alive
  }

  function Forgotten(e: Entry, ref: AgentRef, alive: set<AgentRef>): Entry {
    if Gone(e, ref, alive) then e.(agent := None, inflight := 0) else e
  }

  ghost function Reconcile(t: Table, alive: set<AgentRef>): Table {
    t.(users := Tabulate(t.users.Keys, r => Forgotten(Lookup(t, r), r, alive)))
  }

  /** Why the reaper stops an agent: idle too long, stale catalog, too old. */
  predicate Reapable(cfg: Config, e: Entry, now: int, current: string) {
    && e.agent.Some? && !e.busy && e.inflight <= 0
    && (|| now - e.last >= cfg.idleShutdown
        || e.agent.value.catalog != current
        || (e.agent.value.startedAt.Some? && now - e.agent.value.startedAt.value >= cfg.maxLifetime))
  }

  function Marked(cfg: Config, e: Entry, now: int, current: string): Entry {
    if Reapable(cfg, e, now, current) then e.(busy := true) else e
  }

  ghost function MarkReaped(cfg: Config, t: Table, now: int, current: string): Table {
    t.(users := Tabulate(t.users.Keys, r => Marked(cfg, Lookup(t, r), now, current)))
  }

  /** `order` lists exactly the agents the reaper takes, each once. */
  ghost predicate ListsReaped(cfg: Config, t: Table, now: int, current: string, order: seq<AgentRef>) {
    && (forall r :: r in order <==> r in t.users && Reapable(cfg, t.users[r], now, current))
    && (forall i, j | 0 <= i < j < |order| :: order[i] != order[j])
  }

  /** Loading the listed agents after a broker restart: each gets a new entry. */
  ghost function Recover(t: Table, agents: map<AgentRef, Agent>, now: int): Table {
    t.(users := Tabulate(t.users.Keys + agents.Keys, r => Recovered(t, agents, now, r)))
  }

  function Recovered(t: Table, agents: map<AgentRef, Agent>, now: int, r: AgentRef): Entry {
    if r in agents then EMPTY_ENTRY.(agent := Some(agents[r]), last := now) else Lookup(t, r)
  }
}
