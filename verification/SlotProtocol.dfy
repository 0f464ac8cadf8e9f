/**
 Every interleaving of the broker's goroutines as a transition system. A step
 is one critical section of the slot table, or one move of the environment: a
 backend Start or Stop returning, a pod being created, a pod vanishing.

 The world records what no single critical section sees: where each goroutine
 stands, which agents really hold compute, which selection each profile was
 last started with, and the requests `reconcile` stopped counting.
 */
module SlotProtocol {
  import opened Wrappers
  import opened SlotTable

  /** Where one goroutine stands. Starting to Stopped happen inside Acquire. */
  datatype Call =
    | Trying(ref: AgentRef, ticket: Option<nat>, waited: bool)
    | Starting(ref: AgentRef, ticket: Option<nat>, sel: Option<Pending>, created: bool)
    | Started(ref: AgentRef, ticket: Option<nat>, sel: Option<Pending>, agent: Agent)
    | Cleaning(ref: AgentRef, ticket: Option<nat>)
    | Cleaned(ref: AgentRef, ticket: Option<nat>, stopped: bool)
    | Stopping(ref: AgentRef, ticket: Option<nat>, target: AgentRef)
    | Stopped(ref: AgentRef, ticket: Option<nat>, target: AgentRef, ok: bool)
    | Failing(ticket: Option<nat>)
    | Returning(ref: AgentRef, ticket: Option<nat>)
    | Serving(ref: AgentRef)
    | Reaping(targets: seq<AgentRef>)
    | Reaped(targets: seq<AgentRef>, ok: bool)
    | Reconciling(snapshot: set<AgentRef>)

  datatype World = World(
    table: Table,
    calls: map<nat, Call>,
    compute: set<AgentRef>,
    profile: map<AgentRef, nat>,
    latest: map<AgentRef, nat>,
    applied: map<AgentRef, nat>,
    dropped: map<AgentRef, int>)

  datatype Label =
    | Begin(c: nat, ref: AgentRef)
    | Try(c: nat, now: int, victim: Option<AgentRef>)
    | GiveUp(c: nat)
    | Leave(c: nat)
    | PodCreated(c: nat)
    | StartReturns(c: nat, result: Option<Agent>)
    | CleanupReturns(c: nat, ok: bool)
    | StartEnds(c: nat, now: int)
    | StopReturns(c: nat, ok: bool)
    | StopEnds(c: nat)
    | Finish(c: nat, now: int)
    | Select(ref: AgentRef, sel: Selection)
    | Snapshot(c: nat)
    | Forget(c: nat)
    | Reap(c: nat, now: int, current: string, order: seq<AgentRef>)
    | Vanish(ref: AgentRef)

  function Get(m: map<AgentRef, nat>, r: AgentRef): nat {
    if r in m then m[r] else 0
  }

  function GetInt(m: map<AgentRef, int>, r: AgentRef): int {
    if r in m then m[r] else 0
  }

  /** A freshly started broker: the backend's listing has been recovered. */
  ghost predicate Init(w: World) {
    exists agents: map<AgentRef, Agent>, now: int :: w == Fresh(agents, now) && forall r | r in agents ::
      !agents[r].keyed
  }

  ghost function Fresh(agents: map<AgentRef, Agent>, now: int): World {
    World(Recover(EMPTY_TABLE, agents, now), map[], agents.Keys, map[], map[], map[], map[])
  }

  /** The agent whose backend Stop a call is running. */
  function StopTarget(call: Call): Option<AgentRef> {
    match call
    case Stopping(_, _, target) => Some(target)
    case Reaping(targets) => if |targets| > 0 then Some(targets[0]) else None
    case _ => None
  }

  ghost predicate Enabled(cfg: Config, w: World, l: Label) {
    match l
    case Begin(c, _) => c !in w.calls
    case Try(c, now, victim) => c in w.calls && w.calls[c].Trying? && IsVictim(cfg, w.table, now, victim)
    case GiveUp(c) => c in w.calls && w.calls[c].Trying? && w.calls[c].waited
    case Leave(c) => c in w.calls && (w.calls[c].Failing? || w.calls[c].Returning?)
    case PodCreated(c) =>
      c in w.calls && w.calls[c].Starting? && !w.calls[c].created && w.calls[c].ref !in w.compute
    case StartReturns(c, result) =>
      c in w.calls && w.calls[c].Starting? && (result.Some? ==> w.calls[c].ref in w.compute)
    case CleanupReturns(c, _) => c in w.calls && w.calls[c].Cleaning?
    case StartEnds(c, _) => c in w.calls && (w.calls[c].Started? || w.calls[c].Cleaned?)
    case StopReturns(c, _) => c in w.calls && StopTarget(w.calls[c]).Some?
    case StopEnds(c) => c in w.calls && (w.calls[c].Stopped? || (w.calls[c].Reaped? && |w.calls[c].targets| > 0))
    case Finish(c, _) => c in w.calls && w.calls[c].Serving?
    case Select(_, _) => true
    case Snapshot(c) => c !in w.calls
    case Forget(c) => c in w.calls && w.calls[c].Reconciling?
    case Reap(c, now, current, order) => c !in w.calls && ListsReaped(cfg, w.table, now, current, order)
    case Vanish(_) => true
  }

  /** The call after one pass through the loop of Acquire. */
  function AfterTry(call: Call, d: Decision): Call
    requires call.Trying?
  {
    match d
    case Serve(_, _) => Returning(call.ref, call.ticket)
    case StartAgent(sel) => Starting(call.ref, call.ticket, sel, false)
    case StopAgent(target) => Stopping(call.ref, call.ticket, target)
    case Wait(ticket) => Trying(call.ref, ticket, true)
  }

  function End(calls: map<nat, Call>, c: nat): map<nat, Call> {
    calls - {c}
  }

  function ApplySelection(m: map<AgentRef, nat>, ref: AgentRef, sel: Option<Pending>): map<AgentRef, nat> {
    if sel.Some? then m[ref := sel.value.id] else m
  }

  ghost function Apply(cfg: Config, w: World, l: Label): World
    requires Enabled(cfg, w, l)
  {
    match l
    case Begin(c, ref) => w.(calls := w.calls[c := Trying(ref, None, false)])
    case Try(c, now, victim) =>
      var (t, d) := TryAcquire(cfg, w.table, w.calls[c].ref, w.calls[c].ticket, now, victim);
      w.(table := t, calls := w.calls[c := AfterTry(w.calls[c], d)])
    case GiveUp(c) => w.(calls := w.calls[c := Failing(w.calls[c].ticket)])
    case Leave(c) =>
      w.(table := Dequeue(w.table, w.calls[c].ticket),
         calls := if w.calls[c].Returning? then w.calls[c := Serving(w.calls[c].ref)] else End(w.calls, c))
    case PodCreated(c) =>
      w.(calls := w.calls[c := w.calls[c].(created := true)],
         compute := w.compute + {w.calls[c].ref},
         profile := ApplySelection(w.profile, w.calls[c].ref, w.calls[c].sel))
    case StartReturns(c, result) =>
      var call := w.calls[c];
      w.(calls := w.calls[c := match result
                               case Some(a) => Started(call.ref, call.ticket, call.sel, a)
                               case None => Cleaning(call.ref, call.ticket)])
    case CleanupReturns(c, ok) =>
      w.(calls := w.calls[c := Cleaned(w.calls[c].ref, w.calls[c].ticket, ok)],
         compute := if ok then w.compute - {w.calls[c].ref} else w.compute)
    case StartEnds(c, now) => (
      match w.calls[c]
      case Started(ref, ticket, sel, a) =>
        w.(table := FinishStart(w.table, ref, sel, Some(a), now),
           calls := w.calls[c := Trying(ref, ticket, false)],
           applied := ApplySelection(w.applied, ref, sel))
      case Cleaned(ref, ticket, _) =>
        w.(table := FinishStart(w.table, ref, None, None, now), calls := w.calls[c := Failing(ticket)]))
    case StopReturns(c, ok) =>
      var target := StopTarget(w.calls[c]).value;
      w.(calls := w.calls[c := match w.calls[c]
                               case Stopping(ref, ticket, v) => Stopped(ref, ticket, v, ok)
                               case Reaping(targets) => Reaped(targets, ok)],
         compute := if ok then w.compute - {target} else w.compute)
    case StopEnds(c) => (
      match w.calls[c]
      case Stopped(ref, ticket, target, ok) =>
        w.(table := FinishStop(w.table, target, ok),
           calls := w.calls[c := if ok then Trying(ref, ticket, false) else Failing(ticket)])
      case Reaped(targets, ok) =>
        w.(table := FinishStop(w.table, targets[0], ok),
           calls := w.calls[c := Reaping(targets[1..])]))
    case Finish(c, now) => w.(table := Release(w.table, w.calls[c].ref, now), calls := End(w.calls, c))
    case Select(ref, sel) =>
      w.(table := SetPending(w.table, ref, sel), latest := w.latest[ref := w.table.selections + 1])
    case Snapshot(c) => w.(calls := w.calls[c := Reconciling(w.compute)])
    case Forget(c) =>
      var alive := w.calls[c].snapshot;
      w.(table := Reconcile(w.table, alive),
         calls := End(w.calls, c),
         dropped := Tabulate(w.dropped.Keys + w.table.users.Keys, r => GetInt(w.dropped, r) + Drops(w.table, r, alive)))
    case Reap(c, now, current, order) =>
      w.(table := MarkReaped(cfg, w.table, now, current), calls := w.calls[c := Reaping(order)])
    case Vanish(ref) => w.(compute := w.compute - {ref})
  }

  /** The requests of `r` that reconcile stops counting. */
  function Drops(t: Table, r: AgentRef, alive: set<AgentRef>): int {
    if Gone(Lookup(t, r), r, alive) then Lookup(t, r).inflight else 0
  }

  ghost predicate Next(cfg: Config, w: World, l: Label, w': World) {
    Enabled(cfg, w, l) && w' == Apply(cfg, w, l)
  }

  /** A run: the worlds passed through and the labels between them. */
  ghost predicate Run(cfg: Config, ws: seq<World>, ls: seq<Label>) {
    && |ws| == |ls| + 1
    && Init(ws[0])
    && forall i | 0 <= i < |ls| :: Next(cfg, ws[i], ls[i], ws[i + 1])
  }
}
