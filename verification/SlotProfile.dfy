/**
 The selection an agent's profile was really set up with. A selection takes
 effect when a start creates the pod; a start that finds a pod already running
 applies nothing, and that is the one way a selection is lost.
 */
module SlotProfile {
  import opened Wrappers
  import opened SlotTable
  import opened SlotProtocol
  import opened SlotOwnership
  import opened SlotSelection

  /** A start of `r` that carries a selection reports success. */
  predicate Reports(w: World, l: Label, r: AgentRef) {
    && l.StartReturns? && l.result.Some?
    && l.c in w.calls && w.calls[l.c].Starting? && w.calls[l.c].ref == r && w.calls[l.c].sel.Some?
  }

  /** It reports a ready pod that was not set up with this selection. */
  predicate Lost(w: World, l: Label, r: AgentRef) {
    Reports(w, l, r) && Get(w.profile, r) != w.calls[l.c].sel.value.id
  }

  /** Whether the last reported selection of an agent took effect. */
  predicate KeptAfter(w: World, l: Label, r: AgentRef, kept: bool) {
    if Reports(w, l, r) then !Lost(w, l, r) else kept
  }

  predicate Kept(ws: seq<World>, ls: seq<Label>, n: nat, r: AgentRef)
    requires n <= |ls| <= |ws|
  {
    n == 0 || KeptAfter(ws[n - 1], ls[n - 1], r, Kept(ws, ls, n - 1, r))
  }

  /** The selection of a start by call `c` is what the profile was set up with:
      once the start has created the pod, and once it has reported if the
      selection was kept. */
  ghost predicate CarriedFor(w: World, r: AgentRef, kept: bool, c: nat, p: Pending) {
    Carries(w, c, r, p) ==>
      && (w.calls[c].Starting? && w.calls[c].created ==> Get(w.profile, r) == p.id)
      && (w.calls[c].Started? ==> (Get(w.profile, r) == p.id <==> kept))
  }

  /** With nothing pending, the profile has the newest selection iff the last
      one reported was kept. */
  ghost predicate FaithfulFor(w: World, r: AgentRef, kept: bool) {
    && (PendingOf(w, r).None? ==> (Get(w.profile, r) == Get(w.latest, r) <==> kept))
    && (forall c, p :: CarriedFor(w, r, kept, c, p))
  }

  lemma {:induction false} FaithfulTry(cfg: Config, w: World, l: Label, r: AgentRef, kept: bool)
    requires FaithfulFor(w, r, kept) && Enabled(cfg, w, l) && l.Try?
    ensures FaithfulFor(Apply(cfg, w, l), r, kept)
  {
    var w' := Apply(cfg, w, l);
    TryKeepsPending(cfg, w.table, w.calls[l.c].ref, w.calls[l.c].ticket, l.now, l.victim, r);
    forall c, p
      ensures CarriedFor(w', r, kept, c, p)
    {
      assert CarriedFor(w, r, kept, c, p);
      if Carries(w', c, r, p) {
        TryCarries(cfg, w, l, c, r, p);
      }
    }
  }

  lemma {:induction false} FaithfulEnds(cfg: Config, w: World, l: Label, r: AgentRef, kept: bool)
    requires Selected(w) && FaithfulFor(w, r, kept) && Enabled(cfg, w, l) && l.StartEnds?
    ensures FaithfulFor(Apply(cfg, w, l), r, kept)
  {
    var w', call := Apply(cfg, w, l), w.calls[l.c];
    if PendingOf(w', r).None? && PendingOf(w, r).Some? {
      var p := call.sel.value;
      assert SelectedFor(w, r);
      assert Carries(w, l.c, r, p) && CarriedFor(w, r, kept, l.c, p);
    }
    forall c, p
      ensures CarriedFor(w', r, kept, c, p)
    {
      assert CarriedFor(w, r, kept, c, p);
    }
  }

  lemma {:induction false} FaithfulCreated(cfg: Config, w: World, l: Label, r: AgentRef, kept: bool)
    requires Ownership(w) && Selected(w) && FaithfulFor(w, r, kept) && Enabled(cfg, w, l) && l.PodCreated?
    ensures FaithfulFor(Apply(cfg, w, l), r, kept)
  {
    var w', call := Apply(cfg, w, l), w.calls[l.c];
    assert call.ref in OwnedBy(w, l.c);
    if call.ref == r && call.sel.Some? {
      assert Carries(w, l.c, r, call.sel.value);
    }
    forall c, p
      ensures CarriedFor(w', r, kept, c, p)
    {
      assert CarriedFor(w, r, kept, c, p);
      if Carries(w, c, r, p) {
        assert r in OwnedBy(w, c);
      }
    }
  }

  lemma {:induction false} FaithfulReturns(cfg: Config, w: World, l: Label, r: AgentRef, kept: bool)
    requires Ownership(w) && Selected(w) && FaithfulFor(w, r, kept) && Enabled(cfg, w, l) && l.StartReturns?
    ensures FaithfulFor(Apply(cfg, w, l), r, KeptAfter(w, l, r, kept))
  {
    var w', after := Apply(cfg, w, l), KeptAfter(w, l, r, kept);
    if Reports(w, l, r) {
      assert Carries(w, l.c, r, w.calls[l.c].sel.value);
      assert r in OwnedBy(w, l.c);
    }
    forall c, p
      ensures CarriedFor(w', r, after, c, p)
    {
      assert CarriedFor(w, r, kept, c, p);
      if Carries(w', c, r, p) {
        assert r in OwnedBy(w, c);
      }
    }
  }

  lemma {:induction false} FaithfulOther(cfg: Config, w: World, l: Label, r: AgentRef, kept: bool)
    requires FaithfulFor(w, r, kept) && Enabled(cfg, w, l)
    requires !l.Try? && !l.StartEnds? && !l.PodCreated? && !l.StartReturns? && !l.Select?
    ensures FaithfulFor(Apply(cfg, w, l), r, kept)
  {
    var w' := Apply(cfg, w, l);
    OtherKeepsPending(cfg, w, l, r);
    forall c, p
      ensures CarriedFor(w', r, kept, c, p)
    {
      assert CarriedFor(w, r, kept, c, p);
      OtherKeepsStarts(cfg, w, l, c);
    }
  }

  /** The starts under way, and what profiles were set up with, stay. */
  lemma {:induction false} OtherKeepsStarts(cfg: Config, w: World, l: Label, c: nat)
    requires Enabled(cfg, w, l)
    requires !l.Try? && !l.StartEnds? && !l.PodCreated? && !l.StartReturns? && !l.Select?
    ensures var w' := Apply(cfg, w, l);
            && w'.profile == w.profile
            && (c in w'.calls && (w'.calls[c].Starting? || w'.calls[c].Started?) ==>
                  c in w.calls && w.calls[c] == w'.calls[c])
  {}

  lemma {:induction false} FaithfulSelect(cfg: Config, w: World, l: Label, r: AgentRef, kept: bool)
    requires FaithfulFor(w, r, kept) && Enabled(cfg, w, l) && l.Select?
    ensures FaithfulFor(Apply(cfg, w, l), r, kept)
  {
    forall c, p
      ensures CarriedFor(Apply(cfg, w, l), r, kept, c, p)
    {
      assert CarriedFor(w, r, kept, c, p);
    }
  }

  /** Every step keeps this, for each agent by itself. */
  lemma {:induction false} FaithfulStep(cfg: Config, w: World, l: Label, r: AgentRef, kept: bool)
    requires Ownership(w) && Selected(w) && FaithfulFor(w, r, kept) && Enabled(cfg, w, l)
    ensures FaithfulFor(Apply(cfg, w, l), r, KeptAfter(w, l, r, kept))
  {
    match l
    case Try(_, _, _) => FaithfulTry(cfg, w, l, r, kept);
    case StartEnds(_, _) => FaithfulEnds(cfg, w, l, r, kept);
    case PodCreated(_) => FaithfulCreated(cfg, w, l, r, kept);
    case StartReturns(_, _) => FaithfulReturns(cfg, w, l, r, kept);
    case Select(_, _) => FaithfulSelect(cfg, w, l, r, kept);
    case _ => FaithfulOther(cfg, w, l, r, kept);
  }

  /** Exactly the lost reports break an agent's faithful profile. */
  lemma {:induction false} LostBreaks(cfg: Config, w: World, l: Label, r: AgentRef)
    requires Ownership(w) && Selected(w) && FaithfulFor(w, r, true) && Enabled(cfg, w, l)
    ensures FaithfulFor(Apply(cfg, w, l), r, true) <==> !Lost(w, l, r)
  {
    FaithfulStep(cfg, w, l, r, true);
    if Lost(w, l, r) {
      var p := w.calls[l.c].sel.value;
      assert Carries(Apply(cfg, w, l), l.c, r, p);
      assert !CarriedFor(Apply(cfg, w, l), r, true, l.c, p);
    }
  }

  lemma {:induction false} FaithfulRun(cfg: Config, ws: seq<World>, ls: seq<Label>, i: nat, r: AgentRef)
    requires Run(cfg, ws, ls) && i <= |ls|
    ensures FaithfulFor(ws[i], r, Kept(ws, ls, i, r))
  {
    if i > 0 {
      FaithfulRun(cfg, ws, ls, i - 1, r);
      OwnershipRun(cfg, ws, ls, i - 1);
      NoLostSelection(cfg, ws, ls, i - 1);
      assert Next(cfg, ws[i - 1], ls[i - 1], ws[i]);
      FaithfulStep(cfg, ws[i - 1], ls[i - 1], r, Kept(ws, ls, i - 1, r));
    }
  }

  /** The step is Acquire returning this agent. */
  ghost predicate Returns(cfg: Config, w: World, l: Label, r: AgentRef) {
    Enabled(cfg, w, l) && l.Try? && w.calls[l.c].ref == r && Apply(cfg, w, l).calls[l.c].Returning?
  }

  /** Over any run, the agent Acquire returns was set up with the newest
      selection made for it iff the last selection a start of it reported was
      not lost. The broker takes it to be applied either way. */
  lemma {:induction false} ServedWithNewestSelection(cfg: Config, ws: seq<World>, ls: seq<Label>, i: nat, r: AgentRef)
    requires Run(cfg, ws, ls) && i < |ls| && Returns(cfg, ws[i], ls[i], r)
    ensures Get(ws[i].profile, r) == Get(ws[i].latest, r) <==> Kept(ws, ls, i, r)
    ensures Get(ws[i].applied, r) == Get(ws[i].latest, r)
  {
    FaithfulRun(cfg, ws, ls, i, r);
    NoLostSelection(cfg, ws, ls, i);
    assert SelectedFor(ws[i], r) && PendingOf(ws[i], r).None?;
  }

  // ---- what the backend sees of it ----

  /** A start that created the pod loses nothing. */
  lemma {:induction false} CreatedIsKept(cfg: Config, ws: seq<World>, ls: seq<Label>, i: nat, r: AgentRef)
    requires Run(cfg, ws, ls) && i < |ls| && Reports(ws[i], ls[i], r) && ws[i].calls[ls[i].c].created
    ensures !Lost(ws[i], ls[i], r)
  {
    FaithfulRun(cfg, ws, ls, i, r);
    var p := ws[i].calls[ls[i].c].sel.value;
    assert Carries(ws[i], ls[i].c, r, p) && CarriedFor(ws[i], r, Kept(ws, ls, i, r), ls[i].c, p);
  }

  lemma {:induction false} KeptIfCreated(cfg: Config, ws: seq<World>, ls: seq<Label>, i: nat, r: AgentRef)
    requires Run(cfg, ws, ls) && i <= |ls|
    requires forall j | 0 <= j < i && Reports(ws[j], ls[j], r) :: ws[j].calls[ls[j].c].created
    ensures Kept(ws, ls, i, r)
  {
    if i > 0 {
      KeptIfCreated(cfg, ws, ls, i - 1, r);
      if Reports(ws[i - 1], ls[i - 1], r) {
        CreatedIsKept(cfg, ws, ls, i - 1, r);
      }
    }
  }

  /** So if every start of the agent that carried a selection and succeeded
      had created its pod, Acquire returns it with the newest selection. */
  lemma {:induction false} ServedIfCreated(cfg: Config, ws: seq<World>, ls: seq<Label>, i: nat, r: AgentRef)
    requires Run(cfg, ws, ls) && i < |ls| && Returns(cfg, ws[i], ls[i], r)
    requires forall j | 0 <= j < i && Reports(ws[j], ls[j], r) :: ws[j].calls[ls[j].c].created
    ensures Get(ws[i].profile, r) == Get(ws[i].latest, r)
  {
    KeptIfCreated(cfg, ws, ls, i, r);
    ServedWithNewestSelection(cfg, ws, ls, i, r);
  }
}
