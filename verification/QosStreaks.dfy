/**
 Counting over whole histories: the length of the current run of one session,
 kept in two values with a sliding time to live, and how many runs were long
 enough to be demoted.
 */
module QosStreaks {
  import opened Wrappers
  import opened QosSessions

  /** One request a user sent in a session. */
  datatype Visit = Visit(sub: string, session: string, now: int)

  datatype Streaks = Streaks(sessions: map<string, Timed<string>>, counts: map<string, Timed<int>>)

  /** Advancing the streak of a user: the new state and the streak. */
  function BumpStreak(s: Streaks, v: Visit, ttl: int): (Streaks, int) {
    var count :=
      if Live(s.sessions, v.sub, v.now) == Some(v.session)
      then (match Live(s.counts, v.sub, v.now) case Some(c) => c + 1 case None => 1)
      else 1;
    (Streaks(s.sessions[v.sub := Timed(v.session, v.now + ttl)], s.counts[v.sub := Timed(count, v.now + ttl)]), count)
  }

  function StreaksAt(h: seq<Visit>, n: nat, ttl: int): Streaks
    requires n <= |h|
  {
    if n == 0 then Streaks(map[], map[]) else BumpStreak(StreaksAt(h, n - 1, ttl), h[n - 1], ttl).0
  }

  /** The streak the k-th request is given. */
  function StreakOf(h: seq<Visit>, k: nat, ttl: int): int
    requires k < |h|
  {
    BumpStreak(StreaksAt(h, k, ttl), h[k], ttl).1
  }

  /** The user's previous request, if it was in the same session and less than
      ttl ago. */
  function Continues(h: seq<Visit>, k: nat, ttl: int): (p: Option<nat>)
    requires k < |h|
    ensures p.Some? ==> p.value < k && h[p.value].sub == h[k].sub
  {
    match Previous(h, k, h[k].sub)
    case Some(p) => if h[p].session == h[k].session && h[k].now - h[p].now < ttl then Some(p) else None
    case None => None
  }

  /** The user's last request before position n. */
  function Previous(h: seq<Visit>, n: nat, sub: string): (p: Option<nat>)
    requires n <= |h|
    ensures p.Some? ==> p.value < n && h[p.value].sub == sub && forall i | p.value < i < n :: h[i].sub != sub
    ensures p.None? ==> forall i | 0 <= i < n :: h[i].sub != sub
  {
    if n == 0 then None else if h[n - 1].sub == sub then Some(n - 1) else Previous(h, n - 1, sub)
  }

  /** How many requests the run of the k-th request has, up to it. */
  function RunLength(h: seq<Visit>, k: nat, ttl: int): (n: nat)
    requires k < |h|
    ensures n >= 1
    decreases k
  {
    match Continues(h, k, ttl)
    case Some(p) => RunLength(h, p, ttl) + 1
    case None => 1
  }

  /** Where the run of the k-th request began. */
  function RunStart(h: seq<Visit>, k: nat, ttl: int): (i: nat)
    requires k < |h|
    ensures i <= k && h[i].sub == h[k].sub
    decreases k
  {
    match Continues(h, k, ttl)
    case Some(p) => RunStart(h, p, ttl)
    case None => k
  }

  lemma {:induction false} StreaksRemember(h: seq<Visit>, n: nat, sub: string, ttl: int)
    requires n <= |h| && ttl > 0
    ensures var s := StreaksAt(h, n, ttl);
            match Previous(h, n, sub)
            case Some(p) =>
              && sub in s.sessions && s.sessions[sub] == Timed(h[p].session, h[p].now + ttl)
              && sub in s.counts && s.counts[sub] == Timed(RunLength(h, p, ttl) as int, h[p].now + ttl)
            case None => sub !in s.sessions && sub !in s.counts
  {
    if n > 0 {
      StreaksRemember(h, n - 1, sub, ttl);
      if sub == h[n - 1].sub {
        assert Previous(h, n, sub) == Some(n - 1);
      } else {
        assert Previous(h, n, sub) == Previous(h, n - 1, sub);
      }
    }
  }

  /** BumpStreak returns the length of the run so far. */
  lemma {:induction false} StreakIsRunLength(h: seq<Visit>, k: nat, ttl: int)
    requires k < |h| && ttl > 0
    ensures StreakOf(h, k, ttl) == RunLength(h, k, ttl)
  {
    StreaksRemember(h, k, h[k].sub, ttl);
  }

  /** What a run is: from its start to here the user stayed in one session,
      each request less than ttl after the one before, and it could not have
      started earlier. */
  lemma {:induction false} RunIsMaximal(h: seq<Visit>, k: nat, ttl: int, j: nat)
    requires k < |h| && RunStart(h, k, ttl) <= j <= k && h[j].sub == h[k].sub
    ensures h[j].session == h[k].session
    ensures Continues(h, j, ttl).None? <==> j == RunStart(h, k, ttl)
  {
    if j < k {
      RunIsMaximal(h, Continues(h, k, ttl).value, ttl, j);
    }
  }

  /** The requests of a user at positions i to k. */
  function Requests(h: seq<Visit>, i: nat, k: nat, sub: string): set<nat>
    requires k < |h|
  {
    set j: nat | i <= j <= k && h[j].sub == sub
  }

  /** The length of a run is the number of its requests. */
  lemma {:induction false} RunLengthCounts(h: seq<Visit>, k: nat, ttl: int)
    requires k < |h|
    ensures RunLength(h, k, ttl) == |Requests(h, RunStart(h, k, ttl), k, h[k].sub)|
  {
    var i, sub := RunStart(h, k, ttl), h[k].sub;
    match Continues(h, k, ttl)
    case None =>
      assert Requests(h, k, k, sub) == {k};
    case Some(p) =>
      RunLengthCounts(h, p, ttl);
      assert Requests(h, i, k, sub) == Requests(h, i, p, sub) + {k};
  }

  // ---- rotations ----

  /** The rotation counter of a user after n requests: one more at each request
      whose streak is exactly limit + 1. */
  function Rotations(h: seq<Visit>, n: nat, sub: string, limit: int, ttl: int): nat
    requires n <= |h|
  {
    if n == 0 then 0 else
    Rotations(h, n - 1, sub, limit, ttl) +
    if h[n - 1].sub == sub && StreakOf(h, n - 1, ttl) > limit && StreakOf(h, n - 1, ttl) == limit + 1 then 1 else 0
  }

  predicate LongAt(h: seq<Visit>, n: nat, sub: string, limit: int, ttl: int, i: nat, k: nat) {
    k < n <= |h| && h[k].sub == sub && RunStart(h, k, ttl) == i && RunLength(h, k, ttl) > limit
  }

  /** The maximal runs of a user that got longer than the limit, each by the
      position where it began. */
  ghost function LongRuns(h: seq<Visit>, n: nat, sub: string, limit: int, ttl: int): set<nat>
    requires n <= |h|
  {
    set i: nat | i < n && GotLong(h, n, sub, limit, ttl, i)
  }

  ghost predicate GotLong(h: seq<Visit>, n: nat, sub: string, limit: int, ttl: int, i: nat) {
    exists k: nat :: LongAt(h, n, sub, limit, ttl, i, k)
  }

  /** Within one run, later requests are further along. */
  lemma {:induction false} RunGrows(h: seq<Visit>, j: nat, k: nat, ttl: int)
    requires j < k < |h| && RunStart(h, j, ttl) == RunStart(h, k, ttl)
    ensures RunLength(h, j, ttl) < RunLength(h, k, ttl)
  {
    var p := Continues(h, k, ttl).value;
    assert h[j].sub == h[RunStart(h, j, ttl)].sub == h[k].sub;
    if j < p {
      RunGrows(h, j, p, ttl);
    }
  }

  lemma {:induction false} LongRunsStep(h: seq<Visit>, n: nat, sub: string, limit: int, ttl: int)
    requires n < |h| && limit >= 0
    ensures var i, before, after := RunStart(h, n, ttl), LongRuns(h, n, sub, limit, ttl),
            LongRuns(h, n + 1, sub, limit, ttl);
            if h[n].sub == sub && RunLength(h, n, ttl) == limit + 1
            then i !in before && after == before + {i}
            else after == before
  {
    var i, before, after := RunStart(h, n, ttl), LongRuns(h, n, sub, limit, ttl), LongRuns(h, n + 1, sub, limit, ttl);
    forall j: nat
      ensures j in after <==> j in before || (j == i && h[n].sub == sub && RunLength(h, n, ttl) > limit)
    {
      if j in before {
        var k: nat :| LongAt(h, n, sub, limit, ttl, j, k);
        assert LongAt(h, n + 1, sub, limit, ttl, j, k);
      }
      if j == i && h[n].sub == sub && RunLength(h, n, ttl) > limit {
        assert LongAt(h, n + 1, sub, limit, ttl, j, n);
      }
      if j in after && j !in before {
        var k: nat :| LongAt(h, n + 1, sub, limit, ttl, j, k);
        assert k == n || LongAt(h, n, sub, limit, ttl, j, k);
      }
    }
    if h[n].sub == sub && RunLength(h, n, ttl) > limit + 1 {
      var p := Continues(h, n, ttl).value;
      assert LongAt(h, n, sub, limit, ttl, i, p);
    }
    if h[n].sub == sub && RunLength(h, n, ttl) == limit + 1 && i in before {
      var k: nat :| LongAt(h, n, sub, limit, ttl, i, k);
      RunGrows(h, k, n, ttl);
    }
  }

  /** The rotation counter counts the maximal runs longer than the limit, each
      once. (With a negative limit the crossing streak does not exist and it
      stays at zero.) */
  lemma {:induction false} RotationsCountLongRuns(h: seq<Visit>, n: nat, sub: string, limit: int, ttl: int)
    requires n <= |h| && ttl > 0
    ensures Rotations(h, n, sub, limit, ttl) == if limit >= 0 then |LongRuns(h, n, sub, limit, ttl)| else 0
  {
    if n == 0 {
      assert LongRuns(h, n, sub, limit, ttl) == {};
    } else {
      RotationsCountLongRuns(h, n - 1, sub, limit, ttl);
      StreakIsRunLength(h, n - 1, ttl);
      var before, after := LongRuns(h, n - 1, sub, limit, ttl), LongRuns(h, n, sub, limit, ttl);
      if limit >= 0 {
        LongRunsStep(h, n - 1, sub, limit, ttl);
        assert |after| == |before| + if h[n - 1].sub == sub && RunLength(h, n - 1, ttl) == limit + 1 then 1 else 0;
      }
    }
  }
}
