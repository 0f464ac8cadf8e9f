/**
 The tracker object: one Observe call matches a request against the session
 index, refreshes it, advances the counters and picks the priority band.
 Store operations succeed, and one call happens at one moment.
 */
module QosTracker {
  import opened Wrappers
  import opened QosChain
  import opened QosSessions
  import opened QosStreaks
  import opened QosFairness

  datatype Band = Warm | Normal | Demoted

  datatype Config = Config(ttl: int, warmTtl: int, demoteAfterSteps: int, alpha: real, beta: real,
                           window: int, threshold: real)

  /** Timestamps are nanoseconds; dispatch times are stored in whole seconds. */
  const SECOND := 1_000_000_000

  type Dispatches = map<(string, string), Timed<int>>

  datatype State<!L(==)> = State(
    index: Index<L>,
    steps: map<(string, string), Timed<int>>,
    active: set<string>,
    streaks: Streaks,
    dispatches: Dispatches,
    spends: Spends,
    rotations: map<string, nat>)

  function IncrStep(steps: map<(string, string), Timed<int>>, key: (string, string), now: int): int {
    match Live(steps, key, now) case Some(n) => n + 1 case None => 1
  }

  /** How long since the session's previous dispatch, if one is on record. */
  function SinceDispatch(ds: Dispatches, key: (string, string), now: int): Option<int> {
    match Live(ds, key, now)
    case Some(sec) => Some(now - sec * SECOND)
    case None => None
  }

  ghost function BandOf(cfg: Config, streak: int, ahead: bool, since: Option<int>): Band {
    if streak > cfg.demoteAfterSteps || ahead then Demoted
    else if since.Some? && since.value <= cfg.warmTtl then Warm
    else Normal
  }

  /** One Observe call: the new state, the match, the step and the band. A
      request that cannot be fingerprinted changes nothing and gets no band. */
  ghost function ObserveStep<L>(cfg: Config, s: State<L>, e: Event<L>): (State<L>, MatchResult, int, Option<Band>) {
    var m := Match(s.index, e);
    if m.Degraded? then (s, m, 0, None) else
    var key := (e.sub, m.session);
    var step := IncrStep(s.steps, key, e.now);
    var (streaks, streak) := BumpStreak(s.streaks, Visit(e.sub, m.session, e.now), cfg.ttl);
    var active := s.active + {e.sub};
    var ahead := Ahead(active, s.spends, e.sub, e.now, cfg.threshold);
    (State(
         Observe(s.index, e, cfg.ttl),
         s.steps[key := Timed(step, e.now + cfg.ttl)],
         active,
         streaks,
         s.dispatches[key := Timed(e.now / SECOND, e.now + cfg.ttl)],
         s.spends,
         if streak == cfg.demoteAfterSteps + 1 then s.rotations[e.sub := Rotated(s.rotations, e.sub) + 1]
           else s.rotations),
     m, step, Some(BandOf(cfg, streak, ahead, SinceDispatch(s.dispatches, key, e.now))))
  }

  function Rotated(rotations: map<string, nat>, sub: string): nat {
    if sub in rotations then rotations[sub] else 0
  }

  class Tracker<L(==)> {
    const cfg: Config
    var index: Index<L>
    var steps: map<(string, string), Timed<int>>
    var active: set<string>
    var streaks: Streaks
    var dispatches: Dispatches
    var spends: Spends
    var rotations: map<string, nat>

    ghost function View(): State<L>
      reads this
    {
      State(index, steps, active, streaks, dispatches, spends, rotations)
    }

    constructor (cfg: Config)
      ensures this.cfg == cfg
      ensures View() == State(map[], map[], {}, Streaks(map[], map[]), map[], map[], map[])
    {
      this.cfg := cfg;
      index, steps, active, streaks := map[], map[], {}, Streaks(map[], map[]);
      dispatches, spends, rotations := map[], map[], map[];
    }

    /** Matches and records one request. `newId` is the id minted if no link
        matches. */
    method Observe(e: Event<L>) returns (m: MatchResult, step: int, band: Option<Band>)
      modifies this
      ensures (View(), m, step, band) == ObserveStep(cfg, old(View()), e)
    {
      if |e.links| == 0 {
        return Degraded, 0, None;
      }
      var session := FindSession(e);
      m := if session.Some? then Matched(session.value) else New(e.newId);
      RefreshLinks(e, m.session);
      var key := (e.sub, m.session);
      step := IncrStep(steps, key, e.now);
      steps := steps[key := Timed(step, e.now + cfg.ttl)];
      active := active + {e.sub};
      var b := AssignBand(e.sub, m.session, e.now);
      band := Some(b);
    }

    /** The backward walk: the session of the longest live prefix. */
    method FindSession(e: Event<L>) returns (session: Option<string>)
      ensures session == Search(index, e, |e.links|)
    {
      var i := |e.links| - 1;
      while i >= 0
        invariant -1 <= i < |e.links|
        invariant Search(index, e, |e.links|) == Search(index, e, i + 1)
      {
        session := Live(index, (e.sub, e.links[i]), e.now);
        if session.Some? {
          return;
        }
        i := i - 1;
      }
      return None;
    }

    /** Every link of the request now leads to the session. */
    method RefreshLinks(e: Event<L>, session: string)
      modifies this`index
      ensures index == Refresh(old(index), e, |e.links|, session, cfg.ttl)
    {
      var n := 0;
      while n < |e.links|
        invariant 0 <= n <= |e.links|
        invariant index == Refresh(old(index), e, n, session, cfg.ttl)
      {
        index := index[(e.sub, e.links[n]) := Timed(session, e.now + cfg.ttl)];
        n := n + 1;
      }
    }

    /** Advances the streak, records the dispatch and picks the band. Demotion
        is decided before warmth. */
    method AssignBand(sub: string, session: string, now: int) returns (band: Band)
      modifies this`streaks, this`dispatches, this`rotations
      ensures var (s, streak) := BumpStreak(old(streaks), Visit(sub, session, now), cfg.ttl);
              && streaks == s
              && dispatches == old(dispatches)[(sub, session) := Timed(now / SECOND, now + cfg.ttl)]
              && rotations == (if streak == cfg.demoteAfterSteps + 1
                               then old(rotations)[sub := Rotated(old(rotations), sub) + 1] else old(rotations))
              && band == BandOf(cfg, streak, Ahead(active, spends, sub, now, cfg.threshold),
                                SinceDispatch(old(dispatches), (sub, session), now))
    {
      var streak: int;
      var s := BumpStreak(streaks, Visit(sub, session, now), cfg.ttl);
      streaks, streak := s.0, s.1;
      var since := SinceDispatch(dispatches, (sub, session), now);
      dispatches := dispatches[(sub, session) := Timed(now / SECOND, now + cfg.ttl)];
      var byStreak := streak > cfg.demoteAfterSteps;
      var bySpend := AheadOnSpend(active, spends, sub, now, cfg.threshold);
      if byStreak || bySpend {
        if byStreak && streak == cfg.demoteAfterSteps + 1 {
          rotations := rotations[sub := Rotated(rotations, sub) + 1];
        }
        return Demoted;
      }
      if since.Some? && since.value <= cfg.warmTtl {
        return Warm;
      }
      return Normal;
    }

    /** Charges a completed request to its user. */
    method RecordCost(sub: string, prompt: int, cached: int, completion: int, now: int)
      modifies this`spends
      ensures var cost := Cost(cfg.alpha, cfg.beta, prompt, cached, completion);
              spends == if cost <= 0.0 then old(spends) else AddSpend(old(spends), sub, cost, now, cfg.window)
    {
      var uncached := prompt - cached;
      if uncached < 0 {
        uncached := 0;
      }
      var cost := cfg.alpha * (uncached as real) + cfg.beta * (completion as real);
      assert cost == Cost(cfg.alpha, cfg.beta, prompt, cached, completion);
      if cost <= 0.0 {
        return;
      }
      spends := spends[sub := Timed(SpendOf(spends, sub, now) + cost, now + cfg.window)];
    }
  }
}
