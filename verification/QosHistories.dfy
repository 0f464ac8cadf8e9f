/**
 What the tracker answers over whole histories of requests, whatever happens to
 the store in between: the sessions of the reference, the bands and the rotation
 counters.
 */
module QosHistories {
  import opened Wrappers
  import opened QosChain
  import opened QosSessions
  import opened QosStreaks
  import opened QosFairness
  import opened QosTracker

  /** What others do to the store between requests: they spend, and the sweep
      takes users off the active set. */
  datatype Around = Around(spends: Spends, active: set<string>)

  function With<L>(s: State<L>, a: Around): State<L> {
    s.(spends := a.spends, active := a.active)
  }

  ghost predicate StepsTo<L(!new)>(cfg: Config, h: seq<Event<L>>, around: seq<Around>, ss: seq<State<L>>, k: nat)
    requires k < |h| == |around| && |ss| == |h| + 1
  {
    ss[k + 1] == ObserveStep(cfg, With(ss[k], around[k]), h[k]).0
  }

  /** The user of a visit is ahead on spend. */
  ghost predicate AheadIn(cfg: Config, v: Visit, a: Around) {
    Ahead(a.active + {v.sub}, a.spends, v.sub, v.now, cfg.threshold)
  }

  /** The states a tracker goes through on a history: the k-th request finds
      state k, with the spends and active users of that moment. */
  ghost predicate Trace<L(!new)>(cfg: Config, h: seq<Event<L>>, around: seq<Around>, ss: seq<State<L>>) {
    && |around| == |h| && |ss| == |h| + 1
    && ss[0] == State(map[], map[], {}, Streaks(map[], map[]), map[], map[], map[])
    && forall k: nat | k < |h| :: StepsTo(cfg, h, around, ss, k)
  }

  ghost function Answer<L>(cfg: Config, h: seq<Event<L>>, around: seq<Around>, ss: seq<State<L>>, k: nat): (State<L>,
                           MatchResult, int, Option<Band>)
    requires k < |h| == |around| && |ss| == |h| + 1
  {
    ObserveStep(cfg, With(ss[k], around[k]), h[k])
  }

  /** The visits a chat history amounts to: its requests, each in the session
      the reference gives it. */
  ghost function Visits<L>(h: seq<Event<L>>, ttl: int): seq<Visit>
  {
    seq(|h|, k requires 0 <= k < |h| => Visit(h[k].sub, Session(h, k, ttl), h[k].now))
  }

  /** Every request was a chat request with at least one message. */
  predicate AllChat<L>(h: seq<Event<L>>) {
    forall k | 0 <= k < |h| :: |h[k].links| > 0
  }

  /** The chat requests among the first n, with what they found. */
  ghost function Chats<L(!new)>(h: seq<Event<L>>, around: seq<Around>, n: nat): (r: (seq<Event<L>>, seq<Around>))
    requires n <= |h| == |around|
    ensures |r.0| == |r.1| && AllChat(r.0)
  {
    if n == 0 then ([], [])
    else if |h[n - 1].links| == 0 then Chats(h, around, n - 1)
    else (Chats(h, around, n - 1).0 + [h[n - 1]], Chats(h, around, n - 1).1 + [around[n - 1]])
  }

  lemma {:induction false} ChatsPrefix<L(!new)>(h: seq<Event<L>>, around: seq<Around>, m: nat, n: nat)
    requires m <= n <= |h| == |around|
    ensures Chats(h, around, m).0 <= Chats(h, around, n).0 && Chats(h, around, m).1 <= Chats(h, around, n).1
  {
    if m < n {
      ChatsPrefix(h, around, m, n - 1);
    }
  }

  /** The same state but for the spends and the active users. */
  ghost predicate AlikeInside<L(!new)>(s: State<L>, t: State<L>) {
    With(s, Around(t.spends, t.active)) == t
  }

  lemma {:induction false} AlikeStep<L(!new)>(cfg: Config, s: State<L>, t: State<L>, e: Event<L>, c: Around)
    requires AlikeInside(s, t)
    ensures ObserveStep(cfg, With(s, c), e) == ObserveStep(cfg, With(t, c), e)
    ensures |e.links| == 0 ==> AlikeInside(ObserveStep(cfg, With(s, c), e).0, t)
  {
    assert With(s, c) == With(t, c);
  }

  /** Requests that cannot be fingerprinted leave no trace: a history goes
      through the states its chat requests alone go through. */
  lemma {:induction false} OnlyChatsCount<L(!new)>(cfg: Config, h: seq<Event<L>>, around: seq<Around>,
                                                   ss: seq<State<L>>, tt: seq<State<L>>, n: nat)
    requires Trace(cfg, h, around, ss) && n <= |h|
    requires Trace(cfg, Chats(h, around, |h|).0, Chats(h, around, |h|).1, tt)
    ensures |Chats(h, around, n).0| < |tt| && AlikeInside(ss[n], tt[|Chats(h, around, n).0|])
  {
    ChatsPrefix(h, around, n, |h|);
    if n > 0 {
      OnlyChatsCount(cfg, h, around, ss, tt, n - 1);
      var m := |Chats(h, around, n - 1).0|;
      assert StepsTo(cfg, h, around, ss, n - 1);
      AlikeStep(cfg, ss[n - 1], tt[m], h[n - 1], around[n - 1]);
      if |h[n - 1].links| > 0 {
        assert StepsTo(cfg, Chats(h, around, |h|).0, Chats(h, around, |h|).1, tt, m);
      }
    }
  }

  /** And each chat request is answered as it would be among those alone. */
  lemma {:induction false} ChatsAnswered<L(!new)>(cfg: Config, h: seq<Event<L>>, around: seq<Around>,
                                                  ss: seq<State<L>>, tt: seq<State<L>>, n: nat)
    requires Trace(cfg, h, around, ss) && n < |h| && |h[n].links| > 0
    requires Trace(cfg, Chats(h, around, |h|).0, Chats(h, around, |h|).1, tt)
    ensures var (chats, found) := Chats(h, around, |h|);
            var m := |Chats(h, around, n).0|;
            m < |chats| && Answer(cfg, h, around, ss, n) == Answer(cfg, chats, found, tt, m)
  {
    OnlyChatsCount(cfg, h, around, ss, tt, n);
    ChatsPrefix(h, around, n + 1, |h|);
    AlikeStep(cfg, ss[n], tt[|Chats(h, around, n).0|], h[n], around[n]);
  }

  lemma {:induction false} IndexEvolves<L(!new)>(cfg: Config, h: seq<Event<L>>, around: seq<Around>,
                                          ss: seq<State<L>>, n: nat)
    requires Trace(cfg, h, around, ss) && n <= |h|
    ensures ss[n].index == IndexAt(h, n, cfg.ttl)
  {
    if n > 0 {
      IndexEvolves(cfg, h, around, ss, n - 1);
      assert StepsTo(cfg, h, around, ss, n - 1);
    }
  }

  /** At every request of a chat history, the index gives the reference's session. */
  lemma {:induction false} SessionAt<L(!new)>(cfg: Config, h: seq<Event<L>>, around: seq<Around>, ss: seq<State<L>>,
                                       k: nat)
    requires Trace(cfg, h, around, ss) && k < |h| && History(h, cfg.ttl) && AllChat(h)
    ensures Match(ss[k].index, h[k]) ==
            if Joins(h, k, cfg.ttl) then Matched(Session(h, k, cfg.ttl)) else New(Session(h, k, cfg.ttl))
  {
    IndexEvolves(cfg, h, around, ss, k);
    TrackerIsReference(h, k, cfg.ttl);
  }

  lemma {:induction false} StreakStep<L(!new)>(cfg: Config, h: seq<Event<L>>, around: seq<Around>, ss: seq<State<L>>,
                                        k: nat)
    requires Trace(cfg, h, around, ss) && k < |h| && History(h, cfg.ttl) && AllChat(h)
    ensures ss[k + 1].streaks == BumpStreak(ss[k].streaks, Visits(h, cfg.ttl)[k], cfg.ttl).0
  {
    SessionAt(cfg, h, around, ss, k);
    assert StepsTo(cfg, h, around, ss, k);
  }

  lemma {:induction false} StreaksEvolve<L(!new)>(cfg: Config, h: seq<Event<L>>, around: seq<Around>,
                                           ss: seq<State<L>>, n: nat)
    requires Trace(cfg, h, around, ss) && n <= |h| && History(h, cfg.ttl) && AllChat(h)
    ensures ss[n].streaks == StreaksAt(Visits(h, cfg.ttl), n, cfg.ttl)
  {
    var all := seq(|ss|, k requires 0 <= k < |ss| => ss[k].streaks);
    forall k: nat | k < |h|
      ensures StreaksGo(Visits(h, cfg.ttl), all, k, cfg.ttl)
    {
      StreakStep(cfg, h, around, ss, k);
    }
    StreaksFollow(Visits(h, cfg.ttl), all, n, cfg.ttl);
  }

  ghost predicate StreaksGo(v: seq<Visit>, all: seq<Streaks>, k: nat, ttl: int)
    requires k < |v| && |all| == |v| + 1
  {
    all[k + 1] == BumpStreak(all[k], v[k], ttl).0
  }

  lemma {:induction false} StreaksFollow(v: seq<Visit>, all: seq<Streaks>, n: nat, ttl: int)
    requires n <= |v| && |all| == |v| + 1 && all[0] == Streaks(map[], map[])
    requires forall k: nat | k < |v| :: StreaksGo(v, all, k, ttl)
    ensures all[n] == StreaksAt(v, n, ttl)
  {
    if n > 0 {
      StreaksFollow(v, all, n - 1, ttl);
      assert StreaksGo(v, all, n - 1, ttl);
    }
  }

  lemma {:induction false} RotationStep<L(!new)>(cfg: Config, s: State<L>, e: Event<L>, sub: string, v: Visit)
    requires !Match(s.index, e).Degraded? && v == Visit(e.sub, Match(s.index, e).session, e.now)
    ensures Rotated(ObserveStep(cfg, s, e).0.rotations, sub) ==
            Rotated(s.rotations, sub) + if sub == v.sub
              && BumpStreak(s.streaks, v, cfg.ttl).1 == cfg.demoteAfterSteps + 1 then 1 else 0
  {}

  lemma {:induction false} RotationsEvolve<L(!new)>(cfg: Config, h: seq<Event<L>>, around: seq<Around>,
                                             ss: seq<State<L>>, n: nat, sub: string)
    requires Trace(cfg, h, around, ss) && n <= |h| && History(h, cfg.ttl) && AllChat(h)
    ensures Rotated(ss[n].rotations, sub) == Rotations(Visits(h, cfg.ttl), n, sub, cfg.demoteAfterSteps, cfg.ttl)
  {
    if n > 0 {
      var k: nat := n - 1;
      RotationsEvolve(cfg, h, around, ss, k, sub);
      SessionAt(cfg, h, around, ss, k);
      StreaksEvolve(cfg, h, around, ss, k);
      assert StepsTo(cfg, h, around, ss, k);
      RotationStep(cfg, With(ss[k], around[k]), h[k], sub, Visits(h, cfg.ttl)[k]);
    }
  }

  // ---- the band ----

  /** The last of the first n visits of a user to a session. */
  function LastVisit(v: seq<Visit>, n: nat, sub: string, session: string): (p: Option<nat>)
    requires n <= |v|
    ensures p.Some? ==> p.value < n && v[p.value].sub == sub && v[p.value].session == session
    ensures p.Some? ==> forall i | p.value < i < n :: !(v[i].sub == sub && v[i].session == session)
    ensures p.None? ==> forall i | 0 <= i < n :: !(v[i].sub == sub && v[i].session == session)
  {
    if n == 0 then None
    else if v[n - 1].sub == sub && v[n - 1].session == session then Some(n - 1)
    else LastVisit(v, n - 1, sub, session)
  }

  /** The store holds the second of the last dispatch, until ttl after it. */
  ghost predicate Dispatched(cfg: Config, ds: Dispatches, v: seq<Visit>, n: nat, sub: string, session: string)
    requires n <= |v|
  {
    match LastVisit(v, n, sub, session)
    case Some(p) => (sub, session) in ds && ds[(sub, session)] == Timed(v[p].now / SECOND, v[p].now + cfg.ttl)
    case None => (sub, session) !in ds
  }

  lemma {:induction false} DispatchStep<L(!new)>(cfg: Config, s: State<L>, e: Event<L>, session: string)
    requires !Match(s.index, e).Degraded? && Match(s.index, e).session == session
    ensures ObserveStep(cfg, s, e).0.dispatches ==
            s.dispatches[(e.sub, session) := Timed(e.now / SECOND, e.now + cfg.ttl)]
  {}

  lemma {:induction false} DispatchedStep(cfg: Config, ds: Dispatches, v: seq<Visit>, k: nat, sub: string,
                                          session: string)
    requires k < |v| && Dispatched(cfg, ds, v, k, sub, session)
    ensures Dispatched(cfg, ds[(v[k].sub, v[k].session) := Timed(v[k].now / SECOND, v[k].now + cfg.ttl)],
                       v, k + 1, sub, session)
  {}

  lemma {:induction false} DispatchAt<L(!new)>(cfg: Config, h: seq<Event<L>>, around: seq<Around>, ss: seq<State<L>>,
                                        k: nat)
    requires Trace(cfg, h, around, ss) && k < |h| && History(h, cfg.ttl) && AllChat(h)
    ensures var v := Visits(h, cfg.ttl)[k];
            ss[k + 1].dispatches == ss[k].dispatches[(v.sub, v.session) := Timed(v.now / SECOND, v.now + cfg.ttl)]
  {
    SessionAt(cfg, h, around, ss, k);
    assert StepsTo(cfg, h, around, ss, k);
    DispatchStep(cfg, With(ss[k], around[k]), h[k], Session(h, k, cfg.ttl));
  }

  lemma {:induction false} DispatchesEvolve<L(!new)>(cfg: Config, h: seq<Event<L>>, around: seq<Around>,
                                                     ss: seq<State<L>>, n: nat, sub: string, session: string)
    requires Trace(cfg, h, around, ss) && n <= |h| && History(h, cfg.ttl) && AllChat(h)
    ensures Dispatched(cfg, ss[n].dispatches, Visits(h, cfg.ttl), n, sub, session)
  {
    var all := seq(|ss|, k requires 0 <= k < |ss| => ss[k].dispatches);
    forall k: nat | k < |h|
      ensures DispatchesGo(cfg, Visits(h, cfg.ttl), all, k)
    {
      DispatchAt(cfg, h, around, ss, k);
    }
    DispatchesFollow(cfg, Visits(h, cfg.ttl), all, n, sub, session);
  }

  ghost predicate DispatchesGo(cfg: Config, v: seq<Visit>, all: seq<Dispatches>, k: nat)
    requires k < |v| && |all| == |v| + 1
  {
    all[k + 1] == all[k][(v[k].sub, v[k].session) := Timed(v[k].now / SECOND, v[k].now + cfg.ttl)]
  }

  lemma {:induction false} DispatchesFollow(cfg: Config, v: seq<Visit>, all: seq<Dispatches>, n: nat,
                                            sub: string, session: string)
    requires n <= |v| && |all| == |v| + 1 && all[0] == map[]
    requires forall k: nat | k < |v| :: DispatchesGo(cfg, v, all, k)
    ensures Dispatched(cfg, all[n], v, n, sub, session)
  {
    if n > 0 {
      DispatchesFollow(cfg, v, all, n - 1, sub, session);
      assert DispatchesGo(cfg, v, all, n - 1);
      DispatchedStep(cfg, all[n - 1], v, n - 1, sub, session);
    }
  }

  // ---- the step ----

  /** How many visits the user has paid the session since the last gap of ttl or
      more between them, visit k included. */
  function StepOf(v: seq<Visit>, k: nat, ttl: int): (n: nat)
    requires k < |v|
    decreases k
  {
    match LastVisit(v, k, v[k].sub, v[k].session)
    case Some(p) => if v[k].now - v[p].now < ttl then StepOf(v, p, ttl) + 1 else 1
    case None => 1
  }

  /** Where that count began. */
  function StepsFrom(v: seq<Visit>, k: nat, ttl: int): (i: nat)
    requires k < |v|
    ensures i <= k && v[i].sub == v[k].sub && v[i].session == v[k].session
    decreases k
  {
    match LastVisit(v, k, v[k].sub, v[k].session)
    case Some(p) => if v[k].now - v[p].now < ttl then StepsFrom(v, p, ttl) else k
    case None => k
  }

  function VisitsTo(v: seq<Visit>, i: nat, k: nat, sub: string, session: string): set<nat>
    requires k < |v|
  {
    set j: nat | i <= j <= k && v[j].sub == sub && v[j].session == session
  }

  /** The step counts visits: those to the session from where the count began,
      which was after a gap or is the first, and no gap came in between. */
  lemma {:induction false} StepCounts(v: seq<Visit>, k: nat, ttl: int)
    requires k < |v|
    ensures StepOf(v, k, ttl) == |VisitsTo(v, StepsFrom(v, k, ttl), k, v[k].sub, v[k].session)|
  {
    var i, sub, session := StepsFrom(v, k, ttl), v[k].sub, v[k].session;
    if i == k {
      assert VisitsTo(v, k, k, sub, session) == {k};
    } else {
      var p := LastVisit(v, k, sub, session).value;
      StepCounts(v, p, ttl);
      assert VisitsTo(v, i, k, sub, session) == VisitsTo(v, i, p, sub, session) + {k};
    }
  }

  lemma {:induction false} StepsUnbroken(v: seq<Visit>, k: nat, ttl: int, j: nat)
    requires k < |v| && j in VisitsTo(v, StepsFrom(v, k, ttl), k, v[k].sub, v[k].session)
    ensures var p := LastVisit(v, j, v[k].sub, v[k].session);
            j == StepsFrom(v, k, ttl) <==> p.None? || v[j].now - v[p.value].now >= ttl
  {
    if j < k {
      StepsUnbroken(v, LastVisit(v, k, v[k].sub, v[k].session).value, ttl, j);
    }
  }

  type Steps = map<(string, string), Timed<int>>

  /** The stored counter is the step of the last visit, until ttl after it. */
  ghost predicate Stepped(cfg: Config, steps: Steps, v: seq<Visit>, n: nat, sub: string, session: string)
    requires n <= |v|
  {
    match LastVisit(v, n, sub, session)
    case Some(p) =>
      && (sub, session) in steps
      && steps[(sub, session)] == Timed(StepOf(v, p, cfg.ttl) as int, v[p].now + cfg.ttl)
    case None => (sub, session) !in steps
  }

  ghost predicate StepsGo(cfg: Config, v: seq<Visit>, all: seq<Steps>, k: nat)
    requires k < |v| && |all| == |v| + 1
  {
    var key := (v[k].sub, v[k].session);
    all[k + 1] == all[k][key := Timed(IncrStep(all[k], key, v[k].now), v[k].now + cfg.ttl)]
  }

  lemma {:induction false} StepAdvances(cfg: Config, steps: Steps, v: seq<Visit>, k: nat)
    requires k < |v| && Stepped(cfg, steps, v, k, v[k].sub, v[k].session)
    ensures IncrStep(steps, (v[k].sub, v[k].session), v[k].now) == StepOf(v, k, cfg.ttl)
  {}

  lemma {:induction false} SteppedStep(cfg: Config, steps: Steps, v: seq<Visit>, k: nat, sub: string, session: string)
    requires k < |v| && Stepped(cfg, steps, v, k, sub, session)
    ensures Stepped(cfg, steps[(v[k].sub, v[k].session) := Timed(StepOf(v, k, cfg.ttl) as int, v[k].now + cfg.ttl)],
                    v, k + 1, sub, session)
  {}

  lemma {:induction false} StepsFollow(cfg: Config, v: seq<Visit>, all: seq<Steps>, n: nat, sub: string,
                                       session: string)
    requires n <= |v| && |all| == |v| + 1 && all[0] == map[]
    requires forall k: nat | k < |v| :: StepsGo(cfg, v, all, k)
    ensures Stepped(cfg, all[n], v, n, sub, session)
  {
    if n > 0 {
      var k: nat := n - 1;
      StepsFollow(cfg, v, all, k, sub, session);
      StepsFollow(cfg, v, all, k, v[k].sub, v[k].session);
      StepAdvances(cfg, all[k], v, k);
      assert StepsGo(cfg, v, all, k);
      SteppedStep(cfg, all[k], v, k, sub, session);
    }
  }

  lemma {:induction false} StepStep<L(!new)>(cfg: Config, s: State<L>, e: Event<L>, session: string)
    requires !Match(s.index, e).Degraded? && Match(s.index, e).session == session
    ensures ObserveStep(cfg, s, e).2 == IncrStep(s.steps, (e.sub, session), e.now)
    ensures ObserveStep(cfg, s, e).0.steps ==
            s.steps[(e.sub, session) := Timed(IncrStep(s.steps, (e.sub, session), e.now), e.now + cfg.ttl)]
  {}

  lemma {:induction false} StepAt<L(!new)>(cfg: Config, h: seq<Event<L>>, around: seq<Around>, ss: seq<State<L>>,
                                    k: nat)
    requires Trace(cfg, h, around, ss) && k < |h| && History(h, cfg.ttl) && AllChat(h)
    ensures var v := Visits(h, cfg.ttl)[k];
            var step := IncrStep(ss[k].steps, (v.sub, v.session), v.now);
            && Answer(cfg, h, around, ss, k).2 == step
            && ss[k + 1].steps == ss[k].steps[(v.sub, v.session) := Timed(step, v.now + cfg.ttl)]
  {
    SessionAt(cfg, h, around, ss, k);
    assert StepsTo(cfg, h, around, ss, k);
    StepStep(cfg, With(ss[k], around[k]), h[k], Session(h, k, cfg.ttl));
  }

  /** Over any chat history the store holds the count of each session's visits. */
  lemma {:induction false} StepsEvolve<L(!new)>(cfg: Config, h: seq<Event<L>>, around: seq<Around>,
                                                ss: seq<State<L>>, n: nat, sub: string, session: string)
    requires Trace(cfg, h, around, ss) && n <= |h| && History(h, cfg.ttl) && AllChat(h)
    ensures Stepped(cfg, ss[n].steps, Visits(h, cfg.ttl), n, sub, session)
  {
    var all := seq(|ss|, k requires 0 <= k < |ss| => ss[k].steps);
    forall k: nat | k < |h|
      ensures StepsGo(cfg, Visits(h, cfg.ttl), all, k)
    {
      StepAt(cfg, h, around, ss, k);
    }
    StepsFollow(cfg, Visits(h, cfg.ttl), all, n, sub, session);
  }

  /** And each request is answered with its count. */
  lemma {:induction false} ObservedStep<L(!new)>(cfg: Config, h: seq<Event<L>>, around: seq<Around>,
                                                 ss: seq<State<L>>, k: nat)
    requires Trace(cfg, h, around, ss) && k < |h| && History(h, cfg.ttl) && AllChat(h)
    ensures Answer(cfg, h, around, ss, k).2 == StepOf(Visits(h, cfg.ttl), k, cfg.ttl)
  {
    var v := Visits(h, cfg.ttl);
    StepsEvolve(cfg, h, around, ss, k, v[k].sub, v[k].session);
    StepAt(cfg, h, around, ss, k);
    StepAdvances(cfg, ss[k].steps, v, k);
  }

  // ---- warmth ----

  /** The user's previous visit to the session is still on record, and its
      second within the warm time. */
  predicate WarmAt(cfg: Config, v: seq<Visit>, k: nat)
    requires k < |v|
  {
    match LastVisit(v, k, v[k].sub, v[k].session)
    case Some(p) => v[k].now - v[p].now < cfg.ttl && v[k].now - v[p].now / SECOND * SECOND <= cfg.warmTtl
    case None => false
  }

  /** What the lost fraction of a second means: warm only within the warm time
      after the previous visit, and surely up to a second less. */
  lemma {:induction false} WarmWindow(cfg: Config, v: seq<Visit>, k: nat)
    requires k < |v|
    ensures var p := LastVisit(v, k, v[k].sub, v[k].session);
            && (WarmAt(cfg, v, k) ==> p.Some? && v[k].now - v[p.value].now <= cfg.warmTtl)
            && (p.Some? && v[k].now - v[p.value].now < Min(cfg.ttl, cfg.warmTtl - (SECOND - 2)) ==> WarmAt(cfg, v, k))
  {}

  ghost predicate DemotedAt(cfg: Config, v: seq<Visit>, k: nat, a: Around)
    requires k < |v|
  {
    || RunLength(v, k, cfg.ttl) > cfg.demoteAfterSteps
    || AheadIn(cfg, v[k], a)
  }

  /** The session of the reference, the step, and the band: demoted exactly when the run
      in that session is longer than the limit or the user is ahead on spend,
      whether warm or not; otherwise warm exactly when the previous visit to the
      session was just before. */
  ghost predicate WellAnswered<L(!new)>(cfg: Config, h: seq<Event<L>>, around: seq<Around>, k: nat,
                                        m: MatchResult, step: int, band: Option<Band>)
    requires k < |h| == |around|
  {
    var v := Visits(h, cfg.ttl);
    && step == StepOf(v, k, cfg.ttl)
    && m == (if Joins(h, k, cfg.ttl) then Matched(Session(h, k, cfg.ttl)) else New(Session(h, k, cfg.ttl)))
    && band == Some(if DemotedAt(cfg, v, k, around[k]) then Demoted else if WarmAt(cfg, v, k) then Warm else Normal)
  }

  lemma {:induction false} ObservedBand<L(!new)>(cfg: Config, h: seq<Event<L>>, around: seq<Around>,
                                                 ss: seq<State<L>>, k: nat)
    requires Trace(cfg, h, around, ss) && k < |h| && History(h, cfg.ttl) && AllChat(h)
    ensures var (_, m, step, band) := Answer(cfg, h, around, ss, k); WellAnswered(cfg, h, around, k, m, step, band)
  {
    var session := Session(h, k, cfg.ttl);
    SessionAt(cfg, h, around, ss, k);
    StreaksEvolve(cfg, h, around, ss, k);
    StreakIsRunLength(Visits(h, cfg.ttl), k, cfg.ttl);
    DispatchesEvolve(cfg, h, around, ss, k, h[k].sub, session);
    ObservedStep(cfg, h, around, ss, k);
    BandStep(cfg, With(ss[k], around[k]), h[k], Visits(h, cfg.ttl)[k]);
  }

  /** The band of one step, by its streak and the stored dispatch. */
  lemma {:induction false} BandStep<L(!new)>(cfg: Config, s: State<L>, e: Event<L>, v: Visit)
    requires !Match(s.index, e).Degraded? && v == Visit(e.sub, Match(s.index, e).session, e.now)
    ensures ObserveStep(cfg, s, e).1 == Match(s.index, e)
    ensures ObserveStep(cfg, s, e).3 ==
            Some(BandOf(cfg, BumpStreak(s.streaks, v, cfg.ttl).1, AheadIn(cfg, v, Around(s.spends, s.active)),
                        SinceDispatch(s.dispatches, (v.sub, v.session), v.now)))
  {}

  /** The rotation counter of a user is the number of the maximal runs that
      went past the limit, each once. */
  ghost predicate WellCounted<L(!new)>(cfg: Config, h: seq<Event<L>>, s: State<L>, sub: string) {
    Rotated(s.rotations, sub) ==
    if cfg.demoteAfterSteps >= 0 then |LongRuns(Visits(h, cfg.ttl), |h|, sub, cfg.demoteAfterSteps, cfg.ttl)| else 0
  }

  lemma {:induction false} ObservedRotations<L(!new)>(cfg: Config, h: seq<Event<L>>, around: seq<Around>,
                                                      ss: seq<State<L>>, sub: string)
    requires Trace(cfg, h, around, ss) && History(h, cfg.ttl) && AllChat(h)
    ensures WellCounted(cfg, h, ss[|h|], sub)
  {
    RotationsEvolve(cfg, h, around, ss, |h|, sub);
    RotationsCountLongRuns(Visits(h, cfg.ttl), |h|, sub, cfg.demoteAfterSteps, cfg.ttl);
  }

  /** A chat request makes its user one that others are compared with: after it
      whoever has spent more than the threshold more is ahead. Nobody drops out. */
  lemma {:induction false} RequestMakesActive<L(!new)>(cfg: Config, s: State<L>, e: Event<L>, other: string,
                                                       spends: Spends, now: int)
    requires |e.links| > 0 && other != e.sub
    requires SpendOf(spends, other, now) - SpendOf(spends, e.sub, now) > cfg.threshold
    ensures var s' := ObserveStep(cfg, s, e).0;
            && Ahead(s'.active, spends, other, now, cfg.threshold)
            && s.active <= s'.active
  {
    assert e.sub in ObserveStep(cfg, s, e).0.active;
  }

  // ---- any history, by its chat requests ----

  /** The states a tracker goes through, built up. */
  ghost function States<L(!new)>(cfg: Config, h: seq<Event<L>>, around: seq<Around>, n: nat): (ss: seq<State<L>>)
    requires n <= |h| == |around|
    ensures |ss| == n + 1
  {
    if n == 0 then [State(map[], map[], {}, Streaks(map[], map[]), map[], map[], map[])] else
    var before := States(cfg, h, around, n - 1);
    before + [ObserveStep(cfg, With(before[n - 1], around[n - 1]), h[n - 1]).0]
  }

  lemma {:induction false} StatesStep<L(!new)>(cfg: Config, h: seq<Event<L>>, around: seq<Around>, n: nat, k: nat)
    requires k < n <= |h| == |around|
    ensures var ss := States(cfg, h, around, n);
            ss[0] == State(map[], map[], {}, Streaks(map[], map[]), map[], map[], map[]) &&
            ss[k + 1] == ObserveStep(cfg, With(ss[k], around[k]), h[k]).0
  {
    if k < n - 1 {
      StatesStep(cfg, h, around, n - 1, k);
    } else if n > 1 {
      StatesStep(cfg, h, around, n - 1, 0);
    }
  }

  lemma {:induction false} StatesTrace<L(!new)>(cfg: Config, h: seq<Event<L>>, around: seq<Around>)
    requires |h| == |around|
    ensures Trace(cfg, h, around, States(cfg, h, around, |h|))
  {
    var ss := States(cfg, h, around, |h|);
    forall k: nat | k < |h|
      ensures StepsTo(cfg, h, around, ss, k)
    {
      StatesStep(cfg, h, around, |h|, k);
    }
    if |h| > 0 {
      StatesStep(cfg, h, around, |h|, 0);
    }
  }

  lemma {:induction false} ChatsAreEvents<L(!new)>(h: seq<Event<L>>, around: seq<Around>, n: nat)
    requires n <= |h| == |around|
    ensures forall e | e in Chats(h, around, n).0 :: exists i :: 0 <= i < n && h[i] == e
  {
    if n > 0 {
      ChatsAreEvents(h, around, n - 1);
    }
  }

  /** The chat requests of a history are a history. */
  lemma {:induction false} ChatsHistory<L(!new)>(h: seq<Event<L>>, around: seq<Around>, n: nat, ttl: int)
    requires n <= |h| == |around| && History(h, ttl)
    ensures History(Chats(h, around, n).0, ttl)
  {
    if n > 0 {
      ChatsHistory(h, around, n - 1, ttl);
      ChatsAreEvents(h, around, n - 1);
      var chats := Chats(h, around, n - 1).0;
      forall i | 0 <= i < |chats|
        ensures chats[i].now <= h[n - 1].now
        ensures chats[i].sub == h[n - 1].sub ==>
                  Branches(chats[i].links, h[n - 1].links) && Branches(h[n - 1].links, chats[i].links)
      {
        assert chats[i] in chats;
        var j :| 0 <= j < n - 1 && h[j] == chats[i];
      }
      assert Branches(h[n - 1].links, h[n - 1].links);
    }
  }

  /** What any request of any history is answered: nothing if it has no links,
      else what it should be among the chat requests alone. */
  lemma {:induction false} AnyAnswered<L(!new)>(cfg: Config, h: seq<Event<L>>, around: seq<Around>, ss: seq<State<L>>,
                                         k: nat)
    requires Trace(cfg, h, around, ss) && k < |h| && History(h, cfg.ttl)
    ensures var (chats, found) := Chats(h, around, |h|);
            var n := |Chats(h, around, k).0|;
            var (_, m, step, band) := Answer(cfg, h, around, ss, k);
            if |h[k].links| == 0 then m == Degraded && step == 0 && band == None
            else n < |chats| && chats[n] == h[k] && WellAnswered(cfg, chats, found, n, m, step, band)
  {
    if |h[k].links| > 0 {
      var (chats, found) := Chats(h, around, |h|);
      var tt := States(cfg, chats, found, |chats|);
      StatesTrace(cfg, chats, found);
      ChatsAnswered(cfg, h, around, ss, tt, k);
      ChatsPrefix(h, around, k + 1, |h|);
      ChatsHistory(h, around, |h|, cfg.ttl);
      ObservedBand(cfg, chats, found, tt, |Chats(h, around, k).0|);
    }
  }

  lemma {:induction false} AnyCounted<L(!new)>(cfg: Config, h: seq<Event<L>>, around: seq<Around>, ss: seq<State<L>>,
                                        sub: string)
    requires Trace(cfg, h, around, ss) && History(h, cfg.ttl)
    ensures WellCounted(cfg, Chats(h, around, |h|).0, ss[|h|], sub)
  {
    var (chats, found) := Chats(h, around, |h|);
    var tt := States(cfg, chats, found, |chats|);
    StatesTrace(cfg, chats, found);
    OnlyChatsCount(cfg, h, around, ss, tt, |h|);
    ChatsHistory(h, around, |h|, cfg.ttl);
    ObservedRotations(cfg, chats, found, tt, sub);
  }

  // ---- from requests to links ----

  /** A request as it arrives. */
  datatype Arrival = Arrival(sub: string, request: Request, now: int, newId: string)

  function EventOf(hash: Hash, a: Arrival): Event<Digest> {
    Event(a.sub, Links(hash, a.request), a.now, a.newId)
  }

  function EventsOf(hash: Hash, arrivals: seq<Arrival>): seq<Event<Digest>> {
    seq(|arrivals|, i requires 0 <= i < |arrivals| => EventOf(hash, arrivals[i]))
  }

  /** The hash played a trick on these two requests. */
  ghost predicate Tricked(hash: Hash, a: Request, b: Request) {
    Spells(hash, a, b) || Spells(hash, b, a) || exists k: nat, l: nat :: Clash(hash, a, k, b, l)
  }

  ghost predicate AnyTricked(hash: Hash, arrivals: seq<Arrival>) {
    exists i, j :: 0 <= i < |arrivals| && 0 <= j < |arrivals| && Tricked(hash, arrivals[i].request, arrivals[j].request)
  }

  predicate InOrder(arrivals: seq<Arrival>) {
    && (forall i | 0 <= i < |arrivals| :: Canonical(arrivals[i].request))
    && (forall i, j | 0 <= i <= j < |arrivals| :: arrivals[i].now <= arrivals[j].now)
  }

  /** The links of requests in order of time make a history, or two of the
      requests exhibit a collision or spell out a digest. */
  lemma {:induction false} HistoryOrTrick(hash: Hash, arrivals: seq<Arrival>, ttl: int)
    requires InOrder(arrivals) && ttl > 0
    ensures History(EventsOf(hash, arrivals), ttl) || AnyTricked(hash, arrivals)
  {
    if i, j :| 0 <= i < |arrivals| && 0 <= j < |arrivals| &&
               !Branches(Links(hash, arrivals[i].request), Links(hash, arrivals[j].request)) {
      LinksBranch(hash, arrivals[i].request, arrivals[j].request);
      assert Tricked(hash, arrivals[i].request, arrivals[j].request);
    }
  }

  /** For any hash whatever and any requests in order of time, the tracker
      working on digests answers what the reference answers, short of a trick. */
  lemma {:induction false} RequestsTracked(hash: Hash, arrivals: seq<Arrival>, k: nat, ttl: int)
    requires k < |arrivals| && InOrder(arrivals) && ttl > 0
    ensures var h := EventsOf(hash, arrivals);
            || Match(IndexAt(h, k, ttl), h[k]) ==
               (if |arrivals[k].request.msgs| == 0 then Degraded
                else if Joins(h, k, ttl) then Matched(Session(h, k, ttl)) else New(Session(h, k, ttl)))
            || AnyTricked(hash, arrivals)
  {
    HistoryOrTrick(hash, arrivals, ttl);
    if !AnyTricked(hash, arrivals) {
      TrackerIsReference(EventsOf(hash, arrivals), k, ttl);
    }
  }

  /** So are every band and the rotation counters, whatever else arrives. */
  lemma {:induction false} RequestsBanded(cfg: Config, hash: Hash, arrivals: seq<Arrival>, around: seq<Around>,
                                          ss: seq<State<Digest>>, k: nat, sub: string)
    requires k < |arrivals| && InOrder(arrivals) && cfg.ttl > 0
    requires Trace(cfg, EventsOf(hash, arrivals), around, ss)
    ensures var h := EventsOf(hash, arrivals);
            var (chats, found) := Chats(h, around, |h|);
            var n := |Chats(h, around, k).0|;
            var (_, m, step, band) := Answer(cfg, h, around, ss, k);
            || AnyTricked(hash, arrivals)
            || (WellCounted(cfg, chats, ss[|h|], sub) &&
                if |arrivals[k].request.msgs| == 0 then m == Degraded && step == 0 && band == None
                else n < |chats| && chats[n] == h[k] && WellAnswered(cfg, chats, found, n, m, step, band))
  {
    HistoryOrTrick(hash, arrivals, cfg.ttl);
    if !AnyTricked(hash, arrivals) {
      AnyAnswered(cfg, EventsOf(hash, arrivals), around, ss, k);
      AnyCounted(cfg, EventsOf(hash, arrivals), around, ss, sub);
    }
  }

  /** Without a trick, two requests of a user have the same root exactly when
      they agree on the model, the tools and the first message. */
  lemma {:induction false} SameRootIsSameOpening(hash: Hash, a: Arrival, b: Arrival)
    requires Canonical(a.request) && Canonical(b.request) && a.sub == b.sub
    requires |a.request.msgs| > 0 && |b.request.msgs| > 0
    ensures SameHistory(a.request, b.request, 1) ==> SameRoot(EventOf(hash, a), EventOf(hash, b))
    ensures SameRoot(EventOf(hash, a), EventOf(hash, b)) ==>
              SameHistory(a.request, b.request, 1) || Clash(hash, a.request, 0, b.request, 0)
  {
    ChainSound(hash, a.request, b.request, 0);
  }
}
