/**
 The session index: every link of a request is kept with a sliding time to
 live, and a request joins the session of its longest live prefix. The main
 theorem says what that search amounts to: the session of a request is decided
 by the earlier requests that start with the same first link, and by nothing
 else.
 */
module QosSessions {
  import opened Wrappers
  import opened QosChain

  /** A stored value and the moment it expires. */
  datatype Timed<+T> = Timed(value: T, expires: int)

  function Live<K, T>(m: map<K, Timed<T>>, k: K, now: int): Option<T> {
    if k in m && now < m[k].expires then Some(m[k].value) else None
  }

  type Index<!L(==)> = map<(string, L), Timed<string>>

  /** One Observe call: the user, the links of the request (oldest first; none
      if it could not be fingerprinted), the time, and the id a new session
      would get. */
  datatype Event<L> = Event(sub: string, links: seq<L>, now: int, newId: string)

  datatype MatchResult = Degraded | Matched(session: string) | New(session: string)

  /** The backward walk over the first n links. */
  function Search<L(==)>(ix: Index<L>, e: Event<L>, n: nat): Option<string>
    requires n <= |e.links|
  {
    if n == 0 then None else
    match Live(ix, (e.sub, e.links[n - 1]), e.now)
    case Some(s) => Some(s)
    case None => Search(ix, e, n - 1)
  }

  /** Storing the session under the first n links. */
  function Refresh<L(==)>(ix: Index<L>, e: Event<L>, n: nat, session: string, ttl: int): Index<L>
    requires n <= |e.links|
  {
    if n == 0 then ix else
    Refresh(ix, e, n - 1, session, ttl)[(e.sub, e.links[n - 1]) := Timed(session, e.now + ttl)]
  }

  function Match<L(==)>(ix: Index<L>, e: Event<L>): MatchResult {
    if |e.links| == 0 then Degraded else
    match Search(ix, e, |e.links|)
    case Some(s) => Matched(s)
    case None => New(e.newId)
  }

  function Observe<L(==)>(ix: Index<L>, e: Event<L>, ttl: int): Index<L> {
    var m := Match(ix, e);
    if m.Degraded? then ix else Refresh(ix, e, |e.links|, m.session, ttl)
  }

  /** The index after the first n events of a history. */
  function IndexAt<L(==)>(h: seq<Event<L>>, n: nat, ttl: int): Index<L>
    requires n <= |h|
  {
    if n == 0 then map[] else Observe(IndexAt(h, n - 1, ttl), h[n - 1], ttl)
  }

  // ---- the reference: sessions without an index ----

  predicate SameRoot<L(==)>(a: Event<L>, b: Event<L>) {
    a.sub == b.sub && |a.links| > 0 && |b.links| > 0 && a.links[0] == b.links[0]
  }

  /** The last of the first n events with the same user and first link as e. */
  function Last<L(==)>(h: seq<Event<L>>, n: nat, e: Event<L>): (p: Option<nat>)
    requires n <= |h|
    ensures p.Some? ==> p.value < n && SameRoot(h[p.value], e)
  {
    if n == 0 then None
    else if SameRoot(h[n - 1], e) then Some(n - 1)
    else Last(h, n - 1, e)
  }

  /** A request belongs to the session of the previous request with its root,
      if that came less than ttl before; otherwise it starts a new one. */
  function Session<L(==)>(h: seq<Event<L>>, k: nat, ttl: int): string
    requires k < |h|
    decreases k
  {
    match Last(h, k, h[k])
    case Some(p) => if h[k].now - h[p].now < ttl then Session(h, p, ttl) else h[k].newId
    case None => h[k].newId
  }

  predicate Joins<L(==)>(h: seq<Event<L>>, k: nat, ttl: int)
    requires k < |h|
  {
    Last(h, k, h[k]).Some? && h[k].now - h[Last(h, k, h[k]).value].now < ttl
  }

  /** Time does not go backwards, and the links of any two requests of a user
      branch like their conversations (QosChain.LinksBranch). */
  ghost predicate History<L(!new)>(h: seq<Event<L>>, ttl: int) {
    && ttl > 0
    && (forall i, j | 0 <= i <= j < |h| :: h[i].now <= h[j].now)
    && (forall i, j | 0 <= i < |h| && 0 <= j < |h| && h[i].sub == h[j].sub :: Branches(h[i].links, h[j].links))
  }

  // ---- what the index keeps ----

  /** The link's root is stored too, no shorter, and under the same session for
      as long as the link itself is live. */
  ghost predicate Follows<L(!new)>(ix: Index<L>, sub: string, link: L, root: L, now: int) {
    && (sub, link) in ix && (sub, root) in ix
    && ix[(sub, link)].expires <= ix[(sub, root)].expires
    && (now < ix[(sub, link)].expires ==> ix[(sub, link)].value == ix[(sub, root)].value)
  }

  predicate StoredBy<L(==)>(h: seq<Event<L>>, key: (string, L), i: nat, j: nat) {
    i < |h| && j < |h[i].links| && key == (h[i].sub, h[i].links[j])
  }

  ghost predicate Traced<L(!new)>(h: seq<Event<L>>, n: nat, ix: Index<L>) {
    forall key | key in ix :: exists i: nat, j: nat :: StoredBy(h, key, i, j) && i < n
  }

  ghost predicate FollowsAt<L(!new)>(h: seq<Event<L>>, ix: Index<L>, i: nat, j: nat, now: int) {
    i < |h| && j < |h[i].links| ==> Follows(ix, h[i].sub, h[i].links[j], h[i].links[0], now)
  }

  ghost predicate Led<L(!new)>(h: seq<Event<L>>, n: nat, ix: Index<L>, now: int) {
    forall i: nat, j: nat | i < n :: FollowsAt(h, ix, i, j, now)
  }

  ghost predicate Recent<L(!new)>(ix: Index<L>, limit: int) {
    forall key | key in ix :: ix[key].expires <= limit
  }

  ghost predicate RootStored<L(!new)>(h: seq<Event<L>>, n: nat, ix: Index<L>, i: nat, ttl: int)
    requires n <= |h|
  {
    i < n && |h[i].links| > 0 ==>
      && Last(h, n, h[i]).Some?
      && (h[i].sub, h[i].links[0]) in ix
      && ix[(h[i].sub, h[i].links[0])] ==
         Timed(Session(h, Last(h, n, h[i]).value, ttl), h[Last(h, n, h[i]).value].now + ttl)
  }

  ghost predicate Rooted<L(!new)>(h: seq<Event<L>>, n: nat, ix: Index<L>, ttl: int)
    requires n <= |h|
  {
    forall i: nat :: RootStored(h, n, ix, i, ttl)
  }

  ghost predicate Indexed<L(!new)>(h: seq<Event<L>>, n: nat, now: int, ttl: int)
    requires n <= |h|
  {
    var ix := IndexAt(h, n, ttl);
    && Traced(h, n, ix)
    && Led(h, n, ix, now)
    && Recent(ix, now + ttl)
    && Rooted(h, n, ix, ttl)
  }

  lemma {:induction false} LastIs<L(!new)>(h: seq<Event<L>>, n: nat, e: Event<L>)
    requires n <= |h|
    ensures forall i | 0 <= i < n && SameRoot(h[i], e) :: Last(h, n, e).Some? && i <= Last(h, n, e).value
  {
    if n > 0 {
      LastIs(h, n - 1, e);
    }
  }

  lemma {:induction false} LastSame<L(!new)>(h: seq<Event<L>>, n: nat, d: Event<L>, e: Event<L>)
    requires n <= |h| && SameRoot(d, e)
    ensures Last(h, n, d) == Last(h, n, e)
  {
    if n > 0 {
      LastSame(h, n - 1, d, e);
    }
  }

  /** A link of the next request that is stored was stored at the same depth by
      a request with the same root. */
  lemma {:induction false} Origin<L(!new)>(h: seq<Event<L>>, n: nat, ix: Index<L>, j: nat, ttl: int) returns (i: nat)
    requires History(h, ttl) && n < |h| && Traced(h, n, ix)
    requires j < |h[n].links| && (h[n].sub, h[n].links[j]) in ix
    ensures i < n && j < |h[i].links| && h[i].sub == h[n].sub && h[i].links[j] == h[n].links[j]
    ensures SameRoot(h[i], h[n])
  {
    var k: nat;
    i, k :| StoredBy(h, (h[n].sub, h[n].links[j]), i, k) && i < n;
    SameDepth(h[i].links, k, h[n].links, j);
  }

  lemma {:induction false} SameDepth<L(!new)>(a: seq<L>, i: nat, b: seq<L>, j: nat)
    requires Branches(a, b) && i < |a| && j < |b| && a[i] == b[j]
    ensures i == j && a[0] == b[0]
  {
    assert Meet(a, i, b, j);
    assert a[..i + 1][0] == b[..j + 1][0];
  }

  /** The longest-prefix search finds exactly what one lookup of the root
      finds. */
  lemma {:induction false} SearchIsRootLookup<L(!new)>(h: seq<Event<L>>, n: nat, ix: Index<L>, m: nat, ttl: int)
    requires History(h, ttl) && n < |h| && Traced(h, n, ix) && Led(h, n, ix, h[n].now)
    requires 0 < m <= |h[n].links|
    ensures Search(ix, h[n], m) == Live(ix, (h[n].sub, h[n].links[0]), h[n].now)
  {
    var e := h[n];
    if Live(ix, (e.sub, e.links[m - 1]), e.now).Some? {
      var i := Origin(h, n, ix, m - 1, ttl);
      assert FollowsAt(h, ix, i, m - 1, e.now);
    } else if m > 1 {
      SearchIsRootLookup(h, n, ix, m - 1, ttl);
    }
  }

  /** The root of the next request is live iff the reference joins a session,
      and then it carries that session. */
  lemma {:induction false} RootLookupIsReference<L(!new)>(h: seq<Event<L>>, n: nat, ix: Index<L>, ttl: int)
    requires History(h, ttl) && n < |h| && Traced(h, n, ix) && Rooted(h, n, ix, ttl) && |h[n].links| > 0
    ensures Live(ix, (h[n].sub, h[n].links[0]), h[n].now)
            == if Joins(h, n, ttl) then Some(Session(h, n, ttl)) else None
  {
    var e := h[n];
    LastIs(h, n, e);
    match Last(h, n, e)
    case Some(p) =>
      assert RootStored(h, n, ix, p, ttl);
      LastSame(h, n, h[p], e);
    case None =>
      if (e.sub, e.links[0]) in ix {
        var i := Origin(h, n, ix, 0, ttl);
      }
  }

  /** What Match answers, in the terms of the reference. */
  lemma {:induction false} MatchIsReference<L(!new)>(h: seq<Event<L>>, n: nat, ttl: int)
    requires History(h, ttl) && n < |h| && Indexed(h, n, h[n].now, ttl)
    ensures Match(IndexAt(h, n, ttl), h[n]) ==
            if |h[n].links| == 0 then Degraded
            else if Joins(h, n, ttl) then Matched(Session(h, n, ttl)) else New(Session(h, n, ttl))
  {
    if |h[n].links| > 0 {
      SearchIsRootLookup(h, n, IndexAt(h, n, ttl), |h[n].links|, ttl);
      RootLookupIsReference(h, n, IndexAt(h, n, ttl), ttl);
    }
  }

  // ---- preservation ----

  ghost predicate Touches<L(!new)>(e: Event<L>, n: nat, key: (string, L)) {
    exists j :: 0 <= j < n && j < |e.links| && key == (e.sub, e.links[j])
  }

  lemma {:induction false} RefreshSets<L(!new)>(ix: Index<L>, e: Event<L>, n: nat, s: string, ttl: int, key: (string,
                                         L))
    requires n <= |e.links|
    ensures var ix' := Refresh(ix, e, n, s, ttl);
            && (key in ix' <==> key in ix || Touches(e, n, key))
            && (Touches(e, n, key) ==> ix'[key] == Timed(s, e.now + ttl))
            && (key in ix && !Touches(e, n, key) ==> ix'[key] == ix[key])
  {
    if n > 0 {
      RefreshSets(ix, e, n - 1, s, ttl, key);
      assert Touches(e, n, key) <==> Touches(e, n - 1, key) || key == (e.sub, e.links[n - 1]);
    }
  }

  /** Later on, fewer links are live, so the invariant only weakens. */
  lemma {:induction false} LaterIndexed<L(!new)>(h: seq<Event<L>>, n: nat, now: int, later: int, ttl: int)
    requires n <= |h| && Indexed(h, n, now, ttl) && now <= later
    ensures Indexed(h, n, later, ttl)
  {
    var ix := IndexAt(h, n, ttl);
    forall i: nat, j: nat | i < n
      ensures FollowsAt(h, ix, i, j, later)
    {
      assert FollowsAt(h, ix, i, j, now);
    }
  }

  /** The index after one more request, given what the search found. */
  lemma {:induction false} LedFor<L(!new)>(h: seq<Event<L>>, n: nat, ix: Index<L>, s: string, ttl: int, i: nat, j: nat)
    requires History(h, ttl) && n < |h| && |h[n].links| > 0
    requires Led(h, n, ix, h[n].now) && Recent(ix, h[n].now + ttl)
    requires Live(ix, (h[n].sub, h[n].links[0]), h[n].now) in {None, Some(s)}
    requires i <= n && j < |h[i].links|
    ensures FollowsAt(h, Refresh(ix, h[n], |h[n].links|, s, ttl), i, j, h[n].now)
  {
    var e := h[n];
    var link, root := (h[i].sub, h[i].links[j]), (h[i].sub, h[i].links[0]);
    RefreshSets(ix, e, |e.links|, s, ttl, link);
    RefreshSets(ix, e, |e.links|, s, ttl, root);
    if i == n {
      assert e.links[j] == h[i].links[j] && e.links[0] == h[i].links[0];
    } else {
      assert FollowsAt(h, ix, i, j, e.now);
      if Touches(e, |e.links|, link) {
        var k: nat :| k < |e.links| && link == (e.sub, e.links[k]);
        SameDepth(h[i].links, j, e.links, k);
        assert root == (e.sub, e.links[0]);
      } else if Touches(e, |e.links|, root) {
        var k: nat :| k < |e.links| && root == (e.sub, e.links[k]);
        SameDepth(h[i].links, 0, e.links, k);
      }
    }
  }

  lemma {:induction false} RootStoredStep<L(!new)>(h: seq<Event<L>>, n: nat, ix: Index<L>, ttl: int, i: nat)
    requires History(h, ttl) && n < |h| && |h[n].links| > 0
    requires Rooted(h, n, ix, ttl)
    ensures RootStored(h, n + 1, Refresh(ix, h[n], |h[n].links|, Session(h, n, ttl), ttl), i, ttl)
  {
    var e := h[n];
    if i <= n && |h[i].links| > 0 {
      var root := (h[i].sub, h[i].links[0]);
      RefreshSets(ix, e, |e.links|, Session(h, n, ttl), ttl, root);
      if SameRoot(h[i], e) {
        LastSame(h, n + 1, h[i], e);
        assert root == (e.sub, e.links[0]);
      } else {
        assert RootStored(h, n, ix, i, ttl);
        if Touches(e, |e.links|, root) {
          var k: nat :| k < |e.links| && root == (e.sub, e.links[k]);
          SameDepth(h[i].links, 0, e.links, k);
        }
      }
    }
  }

  lemma {:induction false} TracedStep<L(!new)>(h: seq<Event<L>>, n: nat, ix: Index<L>, s: string, ttl: int)
    requires n < |h| && Traced(h, n, ix)
    ensures Traced(h, n + 1, Refresh(ix, h[n], |h[n].links|, s, ttl))
  {
    var e := h[n];
    forall key | key in Refresh(ix, e, |e.links|, s, ttl)
      ensures exists i: nat, j: nat :: StoredBy(h, key, i, j) && i < n + 1
    {
      RefreshSets(ix, e, |e.links|, s, ttl, key);
      if key !in ix {
        var j: nat :| j < |e.links| && key == (e.sub, e.links[j]);
        assert StoredBy(h, key, n, j);
      }
    }
  }

  lemma {:induction false} RecentStep<L(!new)>(ix: Index<L>, e: Event<L>, s: string, ttl: int)
    requires Recent(ix, e.now + ttl)
    ensures Recent(Refresh(ix, e, |e.links|, s, ttl), e.now + ttl)
  {
    forall key | key in Refresh(ix, e, |e.links|, s, ttl)
      ensures Refresh(ix, e, |e.links|, s, ttl)[key].expires <= e.now + ttl
    {
      RefreshSets(ix, e, |e.links|, s, ttl, key);
    }
  }

  lemma {:induction false} LedStep<L(!new)>(h: seq<Event<L>>, n: nat, ttl: int)
    requires History(h, ttl) && n < |h| && Indexed(h, n, h[n].now, ttl) && |h[n].links| > 0
    ensures Led(h, n + 1, Refresh(IndexAt(h, n, ttl), h[n], |h[n].links|, Session(h, n, ttl), ttl), h[n].now)
  {
    var ix := IndexAt(h, n, ttl);
    RootLookupIsReference(h, n, ix, ttl);
    forall i: nat, j: nat | i < n + 1
      ensures FollowsAt(h, Refresh(ix, h[n], |h[n].links|, Session(h, n, ttl), ttl), i, j, h[n].now)
    {
      if j < |h[i].links| {
        LedFor(h, n, ix, Session(h, n, ttl), ttl, i, j);
      }
    }
  }

  lemma {:induction false} IndexedStep<L(!new)>(h: seq<Event<L>>, n: nat, ttl: int)
    requires History(h, ttl) && n < |h| && Indexed(h, n, h[n].now, ttl) && |h[n].links| > 0
    ensures Indexed(h, n + 1, h[n].now, ttl)
  {
    var ix, s := IndexAt(h, n, ttl), Session(h, n, ttl);
    MatchIsReference(h, n, ttl);
    assert IndexAt(h, n + 1, ttl) == Refresh(ix, h[n], |h[n].links|, s, ttl);
    TracedStep(h, n, ix, s, ttl);
    LedStep(h, n, ttl);
    RecentStep(ix, h[n], s, ttl);
    var m: nat, ix' := n + 1, IndexAt(h, n + 1, ttl);
    forall i: nat
      ensures RootStored(h, m, ix', i, ttl)
    {
      RootStoredStep(h, n, ix, ttl, i);
    }
  }

  lemma {:induction false} DegradedStep<L(!new)>(h: seq<Event<L>>, n: nat, ttl: int)
    requires n < |h| && Indexed(h, n, h[n].now, ttl) && |h[n].links| == 0
    ensures Indexed(h, n + 1, h[n].now, ttl)
  {
    var ix := IndexAt(h, n, ttl);
    assert IndexAt(h, n + 1, ttl) == ix;
    var m: nat := n + 1;
    forall i: nat
      ensures RootStored(h, m, ix, i, ttl)
    {
      assert RootStored(h, n, ix, i, ttl);
    }
    forall i: nat, j: nat | i < n + 1
      ensures FollowsAt(h, ix, i, j, h[n].now)
    {}
  }

  lemma {:induction false} IndexedAt<L(!new)>(h: seq<Event<L>>, n: nat, now: int, ttl: int)
    requires History(h, ttl) && n <= |h| && (n > 0 ==> h[n - 1].now <= now)
    ensures Indexed(h, n, now, ttl)
  {
    if n > 0 {
      IndexedAt(h, n - 1, h[n - 1].now, ttl);
      if |h[n - 1].links| > 0 {
        IndexedStep(h, n - 1, ttl);
      } else {
        DegradedStep(h, n - 1, ttl);
      }
      LaterIndexed(h, n, h[n - 1].now, now, ttl);
    }
  }

  /** Over any history with monotone time and expiry, the tracker answers what
      the reference answers, request by request. */
  lemma {:induction false} TrackerIsReference<L(!new)>(h: seq<Event<L>>, k: nat, ttl: int)
    requires History(h, ttl) && k < |h|
    ensures Match(IndexAt(h, k, ttl), h[k]) ==
            if |h[k].links| == 0 then Degraded
            else if Joins(h, k, ttl) then Matched(Session(h, k, ttl)) else New(Session(h, k, ttl))
  {
    IndexedAt(h, k, h[k].now, ttl);
    MatchIsReference(h, k, ttl);
  }

  /** In particular: each live link has a live root with the same session that
      expires no earlier, at any moment after any history. */
  lemma {:induction false} LiveLinksFollowRoots<L(!new)>(h: seq<Event<L>>, now: int, ttl: int, i: nat, j: nat)
    requires History(h, ttl) && i < |h| && j < |h[i].links| && h[|h| - 1].now <= now
    ensures Follows(IndexAt(h, |h|, ttl), h[i].sub, h[i].links[j], h[i].links[0], now)
  {
    IndexedAt(h, |h|, now, ttl);
    assert FollowsAt(h, IndexAt(h, |h|, ttl), i, j, now);
  }
}
