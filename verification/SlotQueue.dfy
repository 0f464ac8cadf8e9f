/**
 First come, first served. The queue holds the tickets of the waiting
 requests in issue order; a slot is claimed, or an agent evicted, only for the
 oldest of them, and the evicted agent is the least recently used idle one.
 */
module SlotQueue {
  import opened Wrappers
  import opened SlotTable
  import opened SlotProtocol

  /** The ticket a call still has to give back. */
  function TicketOf(call: Call): Option<nat> {
    match call
    case Trying(_, ticket, _) => ticket
    case Starting(_, ticket, _, _) => ticket
    case Started(_, ticket, _, _) => ticket
    case Cleaning(_, ticket) => ticket
    case Cleaned(_, ticket, _) => ticket
    case Stopping(_, ticket, _) => ticket
    case Stopped(_, ticket, _, _) => ticket
    case Failing(ticket) => ticket
    case Returning(_, ticket) => ticket
    case _ => None
  }

  function Ticket(w: World, c: nat): Option<nat> {
    if c in w.calls then TicketOf(w.calls[c]) else None
  }

  ghost predicate Increasing(q: seq<nat>) {
    forall i, j | 0 <= i < j < |q| :: q[i] < q[j]
  }

  /** The queue is in issue order, and its tickets are exactly those of the
      unreturned Acquire calls, one call each. */
  ghost predicate Queued(w: World) {
    && Increasing(w.table.queue)
    && (forall t | t in w.table.queue :: t < w.table.tickets)
    && (forall t :: t in w.table.queue <==> exists c :: Ticket(w, c) == Some(t))
    && (forall c, d :: Ticket(w, c).Some? && Ticket(w, c) == Ticket(w, d) ==> c == d)
  }

  lemma {:induction false} WithoutDrops(q: seq<nat>, t: nat)
    requires Increasing(q)
    ensures Increasing(Without(q, t))
    ensures forall x :: x in Without(q, t) <==> x in q && x != t
  {
    if |q| > 0 && q[0] != t {
      WithoutDrops(q[1..], t);
      assert q == [q[0]] + q[1..];
      forall i, j | 0 <= i < j < |Without(q, t)|
        ensures Without(q, t)[i] < Without(q, t)[j]
      {
        assert Without(q, t)[j] in Without(q[1..], t);
      }
    } else if |q| > 0 {
      assert q == [q[0]] + q[1..];
    }
  }

  lemma {:induction false} IncreasingSnoc(q: seq<nat>, t: nat)
    requires Increasing(q) && forall x | x in q :: x < t
    ensures Increasing(q + [t])
  {
    forall i, j | 0 <= i < j < |q + [t]|
      ensures (q + [t])[i] < (q + [t])[j]
    {
      assert q[i] in q;
    }
  }

  /** Steps that touch neither the queue nor any ticket. */
  lemma {:induction false} QueuedSame(w: World, w': World)
    requires Queued(w)
    requires w'.table.queue == w.table.queue && w'.table.tickets == w.table.tickets
    requires forall c :: Ticket(w', c) == Ticket(w, c)
    ensures Queued(w')
  {
    forall t | t in w'.table.queue
      ensures exists c :: Ticket(w', c) == Some(t)
    {
      var c :| Ticket(w, c) == Some(t);
      assert Ticket(w', c) == Some(t);
    }
  }

  lemma {:induction false} QueuedTry(cfg: Config, w: World, l: Label)
    requires Queued(w) && Enabled(cfg, w, l) && l.Try?
    ensures Queued(Apply(cfg, w, l))
  {
    var w' := Apply(cfg, w, l);
    if w'.table.queue == w.table.queue {
      assert forall c :: Ticket(w', c) == Ticket(w, c);
      QueuedSame(w, w');
    } else {
      var t := w.table.tickets;
      assert w'.table.queue == w.table.queue + [t];
      IncreasingSnoc(w.table.queue, t);
      assert Ticket(w, l.c) == None && Ticket(w', l.c) == Some(t);
      assert forall c | c != l.c :: Ticket(w', c) == Ticket(w, c);
      forall x | x in w'.table.queue
        ensures exists c :: Ticket(w', c) == Some(x)
      {
        if x != t {
          var c :| Ticket(w, c) == Some(x);
          assert Ticket(w', c) == Some(x);
        }
      }
    }
  }

  lemma {:induction false} QueuedLeave(cfg: Config, w: World, l: Label)
    requires Queued(w) && Enabled(cfg, w, l) && l.Leave?
    ensures Queued(Apply(cfg, w, l))
  {
    var w' := Apply(cfg, w, l);
    var ticket := Ticket(w, l.c);
    assert Ticket(w', l.c) == None;
    assert forall c | c != l.c :: Ticket(w', c) == Ticket(w, c);
    if ticket.None? {
      QueuedSame(w, w');
    } else {
      WithoutDrops(w.table.queue, ticket.value);
      forall x | x in w'.table.queue
        ensures exists c :: Ticket(w', c) == Some(x)
      {
        var c :| Ticket(w, c) == Some(x);
        assert Ticket(w', c) == Some(x);
      }
    }
  }

  lemma {:induction false} QueuedStep(cfg: Config, w: World, l: Label)
    requires Queued(w) && Enabled(cfg, w, l)
    ensures Queued(Apply(cfg, w, l))
  {
    var w' := Apply(cfg, w, l);
    if l.Try? {
      QueuedTry(cfg, w, l);
    } else if l.Leave? {
      QueuedLeave(cfg, w, l);
    } else {
      forall c
        ensures Ticket(w', c) == Ticket(w, c)
      {
        TicketKept(cfg, w, l, c);
      }
      QueuedSame(w, w');
    }
  }

  ghost predicate SameTicket(w: World, w': World, c: nat) {
    Ticket(w', c) == Ticket(w, c) && w'.table.queue == w.table.queue && w'.table.tickets == w.table.tickets
  }

  lemma {:induction false} TicketKept(cfg: Config, w: World, l: Label, c: nat)
    requires Enabled(cfg, w, l) && !l.Try? && !l.Leave?
    ensures SameTicket(w, Apply(cfg, w, l), c)
  {
    if l.StartEnds? || l.StopEnds? {
      TicketKeptEnds(cfg, w, l, c);
    } else if l.PodCreated? || l.StartReturns? || l.CleanupReturns? || l.StopReturns? {
      TicketKeptBackend(cfg, w, l, c);
    } else if l.Finish? || l.Forget? || l.Reap? {
      TicketKeptSections(cfg, w, l, c);
    } else {
      TicketKeptOther(cfg, w, l, c);
    }
  }

  lemma {:induction false} TicketKeptEnds(cfg: Config, w: World, l: Label, c: nat)
    requires Enabled(cfg, w, l) && (l.StartEnds? || l.StopEnds?)
    ensures SameTicket(w, Apply(cfg, w, l), c)
  {}

  lemma {:induction false} TicketKeptBackend(cfg: Config, w: World, l: Label, c: nat)
    requires Enabled(cfg, w, l) && (l.PodCreated? || l.StartReturns? || l.CleanupReturns? || l.StopReturns?)
    ensures SameTicket(w, Apply(cfg, w, l), c)
  {}

  lemma {:induction false} TicketKeptOther(cfg: Config, w: World, l: Label, c: nat)
    requires Enabled(cfg, w, l) && (l.Begin? || l.GiveUp? || l.Select? || l.Snapshot? || l.Vanish?)
    ensures SameTicket(w, Apply(cfg, w, l), c)
  {}

  lemma {:induction false} TicketKeptSections(cfg: Config, w: World, l: Label, c: nat)
    requires Enabled(cfg, w, l) && (l.Finish? || l.Forget? || l.Reap?)
    ensures SameTicket(w, Apply(cfg, w, l), c)
  {}

  lemma {:induction false} QueuedRun(cfg: Config, ws: seq<World>, ls: seq<Label>, i: nat)
    requires Run(cfg, ws, ls) && i <= |ls|
    ensures Queued(ws[i])
  {
    if i == 0 {
      assert forall c :: Ticket(ws[0], c) == None;
    } else {
      QueuedRun(cfg, ws, ls, i - 1);
      assert Next(cfg, ws[i - 1], ls[i - 1], ws[i]);
      QueuedStep(cfg, ws[i - 1], ls[i - 1]);
    }
  }

  /** The step takes a slot for the calling request: it claims a free one, or
      evicts another user's agent to free one. */
  ghost predicate Claims(cfg: Config, w: World, l: Label)
    requires Enabled(cfg, w, l)
  {
    && l.Try?
    && Lookup(w.table, w.calls[l.c].ref).agent.None?
    && !Apply(cfg, w, l).calls[l.c].Trying?
  }

  /** First come, first served, over any run: a request that takes a slot is
      older than every other waiting one. A slot is claimed only below K, and
      eviction happens only at K or above, of a least recently used agent among
      those idle for the timeout. */
  lemma {:induction false} FirstComeFirstServed(cfg: Config, ws: seq<World>, ls: seq<Label>, i: nat)
    requires Run(cfg, ws, ls) && i < |ls|
    requires Enabled(cfg, ws[i], ls[i]) && Claims(cfg, ws[i], ls[i])
    ensures var w, w', c := ws[i], Apply(cfg, ws[i], ls[i]), ls[i].c;
            && (forall d, t | d != c && Ticket(w, d) == Some(t) ::
                  Ticket(w, c).Some? && Ticket(w, c).value < t)
            && (match w'.calls[c]
                case Starting(_, _, _, _) => |UsedSet(w.table)| < cfg.k
                case Stopping(_, _, v) =>
                  && |UsedSet(w.table)| >= cfg.k
                  && v in w.table.users && Idle(w.table.users[v], ls[i].now, cfg.idleTimeout)
                  && (forall r | r in w.table.users && Idle(w.table.users[r], ls[i].now, cfg.idleTimeout) ::
                        w.table.users[v].last <= w.table.users[r].last)
                case _ => false)
  {
    QueuedRun(cfg, ws, ls, i);
    var w, c := ws[i], ls[i].c;
    forall d, t | d != c && Ticket(w, d) == Some(t)
      ensures Ticket(w, c).Some? && Ticket(w, c).value < t
    {
      assert t in w.table.queue;
    }
  }
}
