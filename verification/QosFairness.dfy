/**
 Spend fairness: a user is ahead when some other active user has spent more
 than the threshold less.
 */
module QosFairness {
  import opened Wrappers
  import opened QosSessions

  type Spends = map<string, Timed<real>>

  /** Recent spend: nothing once the window has passed without a charge. */
  function SpendOf(spends: Spends, sub: string, now: int): real {
    match Live(spends, sub, now)
    case Some(v) => v
    case None => 0.0
  }

  function AddSpend(spends: Spends, sub: string, cost: real, now: int, window: int): Spends {
    spends[sub := Timed(SpendOf(spends, sub, now) + cost, now + window)]
  }

  /** The cost of a completed request; cached tokens are free. */
  function Cost(alpha: real, beta: real, prompt: int, cached: int, completion: int): real {
    var uncached := if prompt - cached < 0 then 0 else prompt - cached;
    alpha * (uncached as real) + beta * (completion as real)
  }

  /** Each completion token costs beta, each prompt token that was not cached
      alpha, cached ones nothing, however many are reported. */
  lemma {:induction false} CostPerToken(alpha: real, beta: real, prompt: int, cached: int, completion: int, more: int)
    ensures Cost(alpha, beta, 0, 0, 0) == 0.0
    ensures Cost(alpha, beta, prompt, cached, completion + more) ==
            Cost(alpha, beta, prompt, cached, completion) + beta * (more as real)
    ensures prompt >= cached && more >= 0 ==>
              Cost(alpha, beta, prompt + more, cached, completion) ==
              Cost(alpha, beta, prompt, cached, completion) + alpha * (more as real)
    ensures prompt <= cached ==> Cost(alpha, beta, prompt, cached, completion) == Cost(alpha, beta, 0, 0, completion)
  {}

  /** `least` is the lowest spend among the active users other than `sub`. */
  ghost predicate IsLeastOther(active: set<string>, spends: Spends, sub: string, now: int, least: Option<real>) {
    match least
    case None => active <= {sub}
    case Some(m) =>
      && (exists u :: u in active && u != sub && SpendOf(spends, u, now) == m)
      && (forall u | u in active && u != sub :: m <= SpendOf(spends, u, now))
  }

  /** The loop over the active users. */
  method MinActiveSpend(active: set<string>, spends: Spends, exclude: string, now: int)
    returns (least: real, found: bool)
    ensures IsLeastOther(active, spends, exclude, now, if found then Some(least) else None)
  {
    least, found := 0.0, false;
    var rest := active;
    while rest != {}
      invariant rest <= active
      invariant IsLeastOther(active - rest, spends, exclude, now, if found then Some(least) else None)
      decreases rest
    {
      var u :| u in rest;
      ghost var seen := active - rest;
      rest := rest - {u};
      assert active - rest == seen + {u};
      if u == exclude {
        continue;
      }
      var v := SpendOf(spends, u, now);
      if !found || v < least {
        least, found := v, true;
      }
    }
    assert active - rest == active;
  }

  ghost predicate Ahead(active: set<string>, spends: Spends, sub: string, now: int, threshold: real) {
    exists u :: u in active && u != sub && SpendOf(spends, sub, now) - SpendOf(spends, u, now) > threshold
  }

  method AheadOnSpend(active: set<string>, spends: Spends, sub: string, now: int, threshold: real) returns (ahead: bool)
    ensures ahead <==> Ahead(active, spends, sub, now, threshold)
  {
    var mine := SpendOf(spends, sub, now);
    var least, found := MinActiveSpend(active, spends, sub, now);
    ahead := found && mine - least > threshold;
  }

  /** The user with the least spend is never ahead. */
  lemma {:induction false} LeastSpenderNotAhead(active: set<string>, spends: Spends, sub: string, now: int,
                                                threshold: real)
    requires threshold >= 0.0
    requires forall u | u in active :: SpendOf(spends, sub, now) <= SpendOf(spends, u, now)
    ensures !Ahead(active, spends, sub, now, threshold)
  {}

  /** Some active user has spent no more than any other. */
  lemma {:induction false} LeastSpender(active: set<string>, spends: Spends, now: int) returns (sub: string)
    requires active != {}
    ensures sub in active && forall u | u in active :: SpendOf(spends, sub, now) <= SpendOf(spends, u, now)
  {
    sub :| sub in active;
    if active != {sub} {
      var s := LeastSpender(active - {sub}, spends, now);
      if SpendOf(spends, s, now) <= SpendOf(spends, sub, now) {
        sub := s;
      }
      assert forall u | u in active :: u in active - {sub} || u == sub || u in active - {s};
    }
  }

  ghost predicate SomeoneNotAhead(active: set<string>, spends: Spends, now: int, threshold: real) {
    exists u :: u in active && !Ahead(active, spends, u, now, threshold)
  }

  /** The active users are never all ahead, whatever they have spent, exactly
      when the threshold is not negative or there is just one of them. */
  lemma {:induction false} NeverAllAhead(active: set<string>, now: int, threshold: real)
    requires active != {}
    ensures (forall spends: Spends :: SomeoneNotAhead(active, spends, now, threshold))
            <==> threshold >= 0.0 || |active| == 1
  {
    if threshold >= 0.0 || |active| == 1 {
      forall spends: Spends
        ensures SomeoneNotAhead(active, spends, now, threshold)
      {
        var u := LeastSpender(active, spends, now);
        assert active == (active - {u}) + {u};
        if threshold >= 0.0 {
          LeastSpenderNotAhead(active, spends, u, now, threshold);
        }
        assert !Ahead(active, spends, u, now, threshold);
      }
    } else {
      var none: Spends := map[];
      forall u | u in active
        ensures Ahead(active, none, u, now, threshold)
      {
        assert active == (active - {u}) + {u};
        var v :| v in active - {u};
        assert SpendOf(none, u, now) - SpendOf(none, v, now) == 0.0;
      }
      assert !SomeoneNotAhead(active, none, now, threshold);
    }
  }

  /** Whoever has spent at least as much as a user who is ahead is ahead. */
  lemma {:induction false} AheadUpwardClosed(active: set<string>, spends: Spends, sub: string, more: string, now: int,
                                             threshold: real)
    requires sub in active && more in active
    requires Ahead(active, spends, sub, now, threshold)
    requires SpendOf(spends, more, now) >= SpendOf(spends, sub, now)
    ensures Ahead(active, spends, more, now, threshold)
  {
    var u :| u in active && u != sub && SpendOf(spends, sub, now) - SpendOf(spends, u, now) > threshold;
    if u == more && sub != more {
      assert SpendOf(spends, more, now) - SpendOf(spends, sub, now) > threshold;
    }
  }

  // ---- spend over a history ----

  datatype Charge = Charge(sub: string, cost: real, now: int)

  function SpendsAt(h: seq<Charge>, n: nat, window: int): Spends
    requires n <= |h|
  {
    if n == 0 then map[] else AddSpend(SpendsAt(h, n - 1, window), h[n - 1].sub, h[n - 1].cost, h[n - 1].now, window)
  }

  /** The user's last charge among the first n. */
  function LastCharge(h: seq<Charge>, n: nat, sub: string): (p: Option<nat>)
    requires n <= |h|
    ensures p.Some? ==> p.value < n && h[p.value].sub == sub
  {
    if n == 0 then None else if h[n - 1].sub == sub then Some(n - 1) else LastCharge(h, n - 1, sub)
  }

  /** The charges of the busy spell that charge k belongs to: back to the last
      gap of at least a window. */
  function SpellTotal(h: seq<Charge>, k: nat, window: int): real
    requires k < |h|
    decreases k
  {
    h[k].cost +
    match LastCharge(h, k, h[k].sub)
    case Some(p) => if h[k].now - h[p].now < window then SpellTotal(h, p, window) else 0.0
    case None => 0.0
  }

  /** Spend is the total of the user's current busy spell, and zero after an
      idle window. */
  lemma {:induction false} SpendIsSpellTotal(h: seq<Charge>, n: nat, sub: string, now: int, window: int)
    requires n <= |h|
    ensures SpendOf(SpendsAt(h, n, window), sub, now) ==
            match LastCharge(h, n, sub)
            case Some(p) => if now - h[p].now < window then SpellTotal(h, p, window) else 0.0
            case None => 0.0
  {
    if n > 0 {
      SpendIsSpellTotal(h, n - 1, sub, now, window);
      SpendIsSpellTotal(h, n - 1, h[n - 1].sub, h[n - 1].now, window);
    }
  }
}
