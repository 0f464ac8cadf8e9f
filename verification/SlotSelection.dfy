/**
 No lost selection: an agent has a selection pending exactly while the latest
 one chosen for it is not the latest one a successful start carried.
 */
module SlotSelection {
  import opened Wrappers
  import opened SlotTable
  import opened SlotProtocol
  import opened SlotOwnership

  function PendingOf(w: World, r: AgentRef): Option<Pending> {
    Lookup(w.table, r).pending
  }

  /** The selection a running start of `r` by call `c` carries, if any. */
  predicate Carries(w: World, c: nat, r: AgentRef, p: Pending) {
    && c in w.calls
    && (w.calls[c].Starting? || w.calls[c].Started?)
    && w.calls[c].ref == r
    && w.calls[c].sel == Some(p)
  }

  ghost predicate SelectedFor(w: World, r: AgentRef) {
    && (PendingOf(w, r).None? <==> Get(w.applied, r) == Get(w.latest, r))
    && (PendingOf(w, r).Some? ==> PendingOf(w, r).value.id == Get(w.latest, r))
    && Get(w.applied, r) <= Get(w.latest, r) <= w.table.selections
  }

  ghost predicate Selected(w: World) {
    && (forall r :: SelectedFor(w, r))
    && (forall c, r, p :: Carries(w, c, r, p) ==> PendingOf(w, r).Some? && p.id <= Get(w.latest, r))
  }

  lemma {:induction false} TryKeepsPending(cfg: Config, t: Table, ref: AgentRef, ticket: Option<nat>, now: int,
                                           victim: Option<AgentRef>, r: AgentRef)
    requires IsVictim(cfg, t, now, victim)
    ensures Lookup(TryAcquire(cfg, t, ref, ticket, now, victim).0, r).pending == Lookup(t, r).pending
  {}

  /** A start carries the selection pending for its own agent. */
  lemma {:induction false} TryCarries(cfg: Config, w: World, l: Label, c: nat, r: AgentRef, p: Pending)
    requires Enabled(cfg, w, l) && l.Try? && Carries(Apply(cfg, w, l), c, r, p)
    ensures if c == l.c then
              PendingOf(w, r) == Some(p) && Lookup(w.table, r).agent.None? && !Lookup(w.table, r).busy
              && Apply(cfg, w, l).calls[c].Starting? && !Apply(cfg, w, l).calls[c].created
            else Carries(w, c, r, p) && Apply(cfg, w, l).calls[c] == w.calls[c]
  {}

  lemma {:induction false} SelectedTry(cfg: Config, w: World, l: Label)
    requires Ownership(w) && Selected(w) && Enabled(cfg, w, l) && l.Try?
    ensures Selected(Apply(cfg, w, l))
  {
    var w' := Apply(cfg, w, l);
    forall r
      ensures PendingOf(w', r) == PendingOf(w, r) && SelectedFor(w', r)
    {
      assert SelectedFor(w, r);
      TryKeepsPending(cfg, w.table, w.calls[l.c].ref, w.calls[l.c].ticket, l.now, l.victim, r);
    }
    forall c, r, p | Carries(w', c, r, p)
      ensures PendingOf(w', r).Some? && p.id <= Get(w'.latest, r)
    {
      assert SelectedFor(w, r);
      TryCarries(cfg, w, l, c, r, p);
    }
  }

  lemma {:induction false} SelectedEnds(cfg: Config, w: World, l: Label)
    requires Ownership(w) && Selected(w) && Enabled(cfg, w, l) && l.StartEnds?
    ensures Selected(Apply(cfg, w, l))
  {
    var w' := Apply(cfg, w, l);
    forall r
      ensures SelectedFor(w', r)
    {
      SelectedForEnds(cfg, w, l, r);
    }
    forall c, r, p | Carries(w', c, r, p)
      ensures PendingOf(w', r).Some? && p.id <= Get(w'.latest, r)
    {
      CarriesEnds(cfg, w, l, c, r, p);
      SelectedForEnds(cfg, w, l, r);
    }
  }

  lemma {:induction false} SelectedForEnds(cfg: Config, w: World, l: Label, r: AgentRef)
    requires Selected(w) && Enabled(cfg, w, l) && l.StartEnds?
    ensures SelectedFor(Apply(cfg, w, l), r)
    ensures r != w.calls[l.c].ref ==> PendingOf(Apply(cfg, w, l), r) == PendingOf(w, r)
  {
    assert SelectedFor(w, r);
    if w.calls[l.c].Started? && w.calls[l.c].sel.Some? {
      assert Carries(w, l.c, w.calls[l.c].ref, w.calls[l.c].sel.value);
    }
  }

  /** Another start that carries a selection is of another agent. */
  lemma {:induction false} CarriesEnds(cfg: Config, w: World, l: Label, c: nat, r: AgentRef, p: Pending)
    requires Ownership(w) && Enabled(cfg, w, l) && l.StartEnds? && Carries(Apply(cfg, w, l), c, r, p)
    ensures Carries(w, c, r, p) && r != w.calls[l.c].ref
    ensures Apply(cfg, w, l).latest == w.latest
  {
    assert Carries(w, c, r, p);
    assert r in OwnedBy(w, c);
    assert w.calls[l.c].ref in OwnedBy(w, l.c);
  }

  lemma {:induction false} SelectedSelect(cfg: Config, w: World, l: Label)
    requires Selected(w) && Enabled(cfg, w, l) && l.Select?
    ensures Selected(Apply(cfg, w, l))
  {
    var w' := Apply(cfg, w, l);
    forall r
      ensures SelectedFor(w', r)
    {
      assert SelectedFor(w, r);
    }
    forall c, r, p | Carries(w', c, r, p)
      ensures PendingOf(w', r).Some? && p.id <= Get(w'.latest, r)
    {
      assert Carries(w, c, r, p) && SelectedFor(w, r);
    }
  }

  lemma {:induction false} OtherKeepsPending(cfg: Config, w: World, l: Label, r: AgentRef)
    requires Enabled(cfg, w, l) && !l.Try? && !l.StartEnds? && !l.Select?
    ensures var w' := Apply(cfg, w, l);
            PendingOf(w', r) == PendingOf(w, r) && w'.applied == w.applied && w'.latest == w.latest
            && w'.table.selections == w.table.selections
  {}

  lemma {:induction false} OtherCarries(cfg: Config, w: World, l: Label, c: nat, r: AgentRef, p: Pending)
    requires Enabled(cfg, w, l) && !l.Try? && !l.StartEnds? && !l.Select? && Carries(Apply(cfg, w, l), c, r, p)
    ensures Carries(w, c, r, p)
  {}

  lemma {:induction false} SelectedOther(cfg: Config, w: World, l: Label)
    requires Selected(w) && Enabled(cfg, w, l) && !l.Try? && !l.StartEnds? && !l.Select?
    ensures Selected(Apply(cfg, w, l))
  {
    var w' := Apply(cfg, w, l);
    forall r
      ensures SelectedFor(w', r)
    {
      assert SelectedFor(w, r);
      OtherKeepsPending(cfg, w, l, r);
    }
    forall c, r, p | Carries(w', c, r, p)
      ensures PendingOf(w', r).Some? && p.id <= Get(w'.latest, r)
    {
      OtherCarries(cfg, w, l, c, r, p);
      OtherKeepsPending(cfg, w, l, r);
    }
  }

  lemma {:induction false} SelectedStep(cfg: Config, w: World, l: Label)
    requires Ownership(w) && Selected(w) && Enabled(cfg, w, l)
    ensures Selected(Apply(cfg, w, l))
  {
    match l
    case Try(_, _, _) => SelectedTry(cfg, w, l);
    case StartEnds(_, _) => SelectedEnds(cfg, w, l);
    case Select(_, _) => SelectedSelect(cfg, w, l);
    case _ => SelectedOther(cfg, w, l);
  }

  /** In every world of every run, whatever SetPending races with. */
  lemma {:induction false} NoLostSelection(cfg: Config, ws: seq<World>, ls: seq<Label>, i: nat)
    requires Run(cfg, ws, ls) && i <= |ls|
    ensures Selected(ws[i])
  {
    if i == 0 {
      assert forall r :: SelectedFor(ws[0], r);
    } else {
      NoLostSelection(cfg, ws, ls, i - 1);
      OwnershipRun(cfg, ws, ls, i - 1);
      assert Next(cfg, ws[i - 1], ls[i - 1], ws[i]);
      SelectedStep(cfg, ws[i - 1], ls[i - 1]);
    }
  }
}
