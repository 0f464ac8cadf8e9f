/**
 The chain fingerprint of a chat request: link i commits to the model, the
 tools and the first i+1 messages. The hash is any function from byte strings
 to 32-byte digests; nothing assumes it is injective. Canonical JSON never
 contains a raw NUL, which is what the separators rely on.
 */
module QosChain {
  import opened Wrappers

  type Digest = d: Bytes | |d| == 32 witness seq(32, _ => 0)

  type Hash = Bytes -> Digest

  /** Model name, canonical tools and canonical messages. */
  datatype Request = Request(model: Bytes, tools: Bytes, msgs: seq<Bytes>)

  predicate NulFree(s: Bytes) {
    0 !in s
  }

  /** What the JSON encoder guarantees; the model name is unrestricted. */
  predicate Canonical(r: Request) {
    NulFree(r.tools) && forall m | m in r.msgs :: NulFree(m)
  }

  function Head(r: Request): Bytes {
    r.model + [0] + r.tools
  }

  /** The string hashed for link i. */
  function Hashed(h: Hash, r: Request, i: nat): Bytes
    requires i < |r.msgs|
    decreases i, 0
  {
    (if i == 0 then Head(r) else Link(h, r, i - 1)) + [0] + r.msgs[i]
  }

  function Link(h: Hash, r: Request, i: nat): Digest
    requires i < |r.msgs|
    decreases i, 1
  {
    h(Hashed(h, r, i))
  }

  /** The links of a request, oldest first. */
  method Chain(h: Hash, r: Request) returns (links: seq<Digest>)
    ensures |links| == |r.msgs|
    ensures forall i | 0 <= i < |links| :: links[i] == Link(h, r, i)
  {
    links := [];
    var prev: Bytes := [];
    var i := 0;
    while i < |r.msgs|
      invariant 0 <= i == |links| <= |r.msgs|
      invariant forall j | 0 <= j < i :: links[j] == Link(h, r, j)
      invariant i > 0 ==> prev == links[i - 1]
    {
      var input := if i == 0 then r.model + [0] + r.tools + [0] + r.msgs[i] else prev + [0] + r.msgs[i];
      var sum := h(input);
      links := links + [sum];
      prev := sum;
      i := i + 1;
    }
  }

  /** If two splits at a NUL differ, the longer tail contains one. */
  lemma {:induction false} LongerTail(a: Bytes, x: Bytes, b: Bytes, y: Bytes)
    requires a + [0] + x == b + [0] + y
    ensures |x| < |y| ==> 0 in y
  {
    if |x| < |y| {
      assert (a + [0] + x)[|a|] == 0;
      assert (b + [0] + y)[|a|] == y[|a| - |b| - 1];
    }
  }

  /** Splitting at the last NUL is unambiguous, whatever precedes it. */
  lemma {:induction false} LastNul(a: Bytes, x: Bytes, b: Bytes, y: Bytes)
    requires NulFree(x) && NulFree(y)
    requires a + [0] + x == b + [0] + y
    ensures a == b && x == y
  {
    LongerTail(a, x, b, y);
    LongerTail(b, y, a, x);
    assert a == (a + [0] + x)[..|a|] && b == (b + [0] + y)[..|b|];
    assert x == (a + [0] + x)[|a| + 1..] && y == (b + [0] + y)[|b| + 1..];
  }

  /** Both requests have the same model, tools and first n messages. */
  predicate SameHistory(a: Request, b: Request, n: nat)
    requires n <= |a.msgs| && n <= |b.msgs|
  {
    a.model == b.model && a.tools == b.tools && a.msgs[..n] == b.msgs[..n]
  }

  ghost predicate Collision(h: Hash, x: Bytes, y: Bytes) {
    x != y && h(x) == h(y)
  }

  /** The strings hashed for link k of `a` and link l of `b` collide. */
  ghost predicate Clash(h: Hash, a: Request, k: nat, b: Request, l: nat) {
    k < |a.msgs| && l < |b.msgs| && Collision(h, Hashed(h, a, k), Hashed(h, b, l))
  }

  lemma {:induction false} ShorterHistory(a: Request, b: Request, n: nat)
    requires n < |a.msgs| && n < |b.msgs| && SameHistory(a, b, n + 1)
    ensures SameHistory(a, b, n) && a.msgs[n] == b.msgs[n]
  {
    assert a.msgs[n] == a.msgs[..n + 1][n] == b.msgs[..n + 1][n] == b.msgs[n];
    assert a.msgs[..n] == a.msgs[..n + 1][..n] == b.msgs[..n + 1][..n] == b.msgs[..n];
  }

  /** Equal hashed strings have equal parts. */
  lemma {:induction false} SameHashed(h: Hash, a: Request, b: Request, i: nat)
    requires Canonical(a) && Canonical(b) && i < |a.msgs| && i < |b.msgs| && Hashed(h, a, i) == Hashed(h, b, i)
    ensures i == 0 ==> SameHistory(a, b, 1)
    ensures i > 0 ==> Link(h, a, i - 1) == Link(h, b, i - 1) && (SameHistory(a, b, i) ==> SameHistory(a, b, i + 1))
  {
    if i == 0 {
      LastNul(Head(a), a.msgs[0], Head(b), b.msgs[0]);
      LastNul(a.model, a.tools, b.model, b.tools);
      assert a.msgs[..1] == [a.msgs[0]] == b.msgs[..1];
    } else {
      LastNul(Link(h, a, i - 1), a.msgs[i], Link(h, b, i - 1), b.msgs[i]);
      assert a.msgs[..i + 1] == a.msgs[..i] + [a.msgs[i]];
      assert b.msgs[..i + 1] == b.msgs[..i] + [b.msgs[i]];
    }
  }

  /** Links at the same position agree exactly for the same history, or the
      two hashed strings at some earlier position are a collision. */
  lemma {:induction false} ChainSound(h: Hash, a: Request, b: Request, i: nat)
    requires Canonical(a) && Canonical(b) && i < |a.msgs| && i < |b.msgs|
    ensures SameHistory(a, b, i + 1) ==> Link(h, a, i) == Link(h, b, i)
    ensures Link(h, a, i) == Link(h, b, i) ==>
              SameHistory(a, b, i + 1) || exists k: nat :: k <= i && Clash(h, a, k, b, k)
  {
    if i > 0 {
      ChainSound(h, a, b, i - 1);
    }
    if SameHistory(a, b, i + 1) {
      ShorterHistory(a, b, i);
    }
    if Hashed(h, a, i) == Hashed(h, b, i) {
      SameHashed(h, a, b, i);
    } else if Link(h, a, i) == Link(h, b, i) {
      assert Clash(h, a, i, b, i);
    }
  }

  /** The model and tools of `a` spell out a link of `b`. */
  ghost predicate Spells(h: Hash, a: Request, b: Request) {
    exists k :: 0 <= k < |b.msgs| && Head(a) == Link(h, b, k)
  }

  /** A collision between the strings hashed for link k of one request and
      link k + d of another. */
  ghost predicate CollidesAt(h: Hash, a: Request, k: nat, b: Request, d: nat) {
    Clash(h, a, k, b, k + d)
  }

  /** The messages of `a` after position k are those of `b`, d positions on. */
  predicate SameMessages(a: Request, b: Request, d: nat, from: nat, i: nat)
    requires from <= i + 1 <= |a.msgs| && i + d < |b.msgs|
  {
    a.msgs[from..i + 1] == b.msgs[from + d..i + 1 + d]
  }

  lemma {:induction false} MessagesStep(a: Request, b: Request, d: nat, from: nat, i: nat)
    requires 0 < i < |a.msgs| && from <= i && i + d < |b.msgs|
    ensures SameMessages(a, b, d, from, i) <==> SameMessages(a, b, d, from, i - 1) && a.msgs[i] == b.msgs[i + d]
  {
    assert a.msgs[from..i + 1] == a.msgs[from..i] + [a.msgs[i]];
    assert b.msgs[from + d..i + 1 + d] == b.msgs[from + d..i + d] + [b.msgs[i + d]];
    var x, y := a.msgs[from..i + 1], b.msgs[from + d..i + 1 + d];
    assert a.msgs[from..i] == x[..i - from] && b.msgs[from + d..i + d] == y[..i - from];
    assert a.msgs[i] == x[i - from] && b.msgs[i + d] == y[i - from];
  }

  /** The model and tools of `a` are a link of `b`, and the messages that
      follow that link in `b` those of `a`. */
  predicate Continues(h: Hash, a: Request, i: nat, b: Request, d: nat)
    requires d > 0 && i < |a.msgs| && i + d < |b.msgs|
  {
    Head(a) == Link(h, b, d - 1) && SameMessages(a, b, d, 0, i)
  }

  /** The strings hashed for some link up to i collide, and the messages agree
      from there on. */
  ghost predicate CollidesBefore(h: Hash, a: Request, i: nat, b: Request, d: nat, k: nat)
    requires i < |a.msgs| && i + d < |b.msgs|
  {
    k <= i && CollidesAt(h, a, k, b, d) && SameMessages(a, b, d, k + 1, i)
  }

  /** When the strings hashed for two links are equal. */
  lemma {:induction false} HashedIff(h: Hash, a: Request, i: nat, b: Request, d: nat)
    requires Canonical(a) && Canonical(b) && d > 0 && i < |a.msgs| && i + d < |b.msgs|
    ensures Hashed(h, a, i) == Hashed(h, b, i + d) <==>
            a.msgs[i] == b.msgs[i + d] &&
            (if i == 0 then Head(a) == Link(h, b, d - 1) else Link(h, a, i - 1) == Link(h, b, i + d - 1))
  {
    if Hashed(h, a, i) == Hashed(h, b, i + d) {
      LastNul(if i == 0 then Head(a) else Link(h, a, i - 1), a.msgs[i], Link(h, b, i + d - 1), b.msgs[i + d]);
    }
  }

  /** Links at different positions agree exactly if the model and tools of one
      request spell out a link of the other and the same messages follow, or
      after a collision followed by the same messages. */
  lemma {:induction false} LevelsIff(h: Hash, a: Request, i: nat, b: Request, d: nat)
    requires Canonical(a) && Canonical(b) && d > 0 && i < |a.msgs| && i + d < |b.msgs|
    ensures Link(h, a, i) == Link(h, b, i + d) <==>
            Continues(h, a, i, b, d) || exists k: nat :: CollidesBefore(h, a, i, b, d, k)
  {
    HashedIff(h, a, i, b, d);
    if i > 0 {
      LevelsIff(h, a, i - 1, b, d);
      MessagesStep(a, b, d, 0, i);
      LevelsStep(h, a, i - 1, i, b, d);
    } else {
      assert a.msgs[0..1] == [a.msgs[0]] && b.msgs[d..1 + d] == [b.msgs[d]];
      if k: nat :| CollidesBefore(h, a, i, b, d, k) {
        assert k == 0;
      }
      assert Clash(h, a, 0, b, d) ==> CollidesBefore(h, a, i, b, d, 0);
    }
  }

  /** A collision up to i is one at i, or one before with the same message at i. */
  lemma {:induction false} LevelsStep(h: Hash, a: Request, n: nat, i: nat, b: Request, d: nat)
    requires n + 1 == i < |a.msgs| && i + d < |b.msgs|
    ensures (exists k: nat :: CollidesBefore(h, a, i, b, d, k)) <==>
            || CollidesAt(h, a, i, b, d)
            || (a.msgs[i] == b.msgs[i + d] && exists k: nat :: CollidesBefore(h, a, n, b, d, k))
  {
    if CollidesAt(h, a, i, b, d) {
      assert CollidesBefore(h, a, i, b, d, i);
    }
    if k: nat :| CollidesBefore(h, a, i, b, d, k) {
      if k < i {
        MessagesStep(a, b, d, k + 1, i);
        assert CollidesBefore(h, a, n, b, d, k);
      }
    }
    if a.msgs[i] == b.msgs[i + d] {
      if k: nat :| CollidesBefore(h, a, n, b, d, k) {
        MessagesStep(a, b, d, k + 1, i);
        assert CollidesBefore(h, a, i, b, d, k);
      }
    }
  }

  /** So links at different positions never agree, short of a collision or of a
      request whose model and tools are themselves a digest of the other. */
  lemma {:induction false} ChainLevels(h: Hash, a: Request, i: nat, b: Request, d: nat)
    requires Canonical(a) && Canonical(b) && d > 0 && i < |a.msgs| && i + d < |b.msgs|
    requires Link(h, a, i) == Link(h, b, i + d)
    ensures Spells(h, a, b) || exists k :: CollidesAt(h, a, k, b, d)
  {
    LevelsIff(h, a, i, b, d);
  }

  /** A digest is 32 bytes, so a caller can rule the second case out by the
      lengths of the model name and the tools alone. */
  lemma {:induction false} SpellsLength(h: Hash, a: Request, b: Request)
    requires Spells(h, a, b)
    ensures |a.model| + |a.tools| == 31
  {}

  /** Wherever a link of a request reads as a model name, a NUL and tools, the
      request with those and the remaining messages shares every later link,
      without any collision: the longer one is read as its continuation. */
  lemma {:induction false} SpelledLinkShared(h: Hash, b: Request, d: nat, model: Bytes, tools: Bytes, i: nat)
    requires Canonical(b) && NulFree(tools) && 0 < d && i + d < |b.msgs|
    requires Link(h, b, d - 1) == model + [0] + tools
    ensures var a := Request(model, tools, b.msgs[d..]);
            Canonical(a) && Spells(h, a, b) && Link(h, a, i) == Link(h, b, i + d)
  {
    var a := Request(model, tools, b.msgs[d..]);
    assert forall m | m in a.msgs :: m in b.msgs;
    assert Head(a) == Link(h, b, d - 1);
    assert a.msgs[0..i + 1] == b.msgs[0 + d..i + 1 + d];
    LevelsIff(h, a, i, b, d);
  }

  // ---- what the session index relies on ----

  function Links(h: Hash, r: Request): seq<Digest> {
    seq(|r.msgs|, i requires 0 <= i < |r.msgs| => Link(h, r, i))
  }

  lemma {:induction false} LinkExtends(h: Hash, r: Request, more: seq<Bytes>, i: nat)
    requires i < |r.msgs|
    ensures Link(h, r.(msgs := r.msgs + more), i) == Link(h, r, i)
  {
    if i > 0 {
      LinkExtends(h, r, more, i - 1);
    }
  }

  /** Extending a conversation keeps its links as a prefix. */
  lemma {:induction false} LinksExtend(h: Hash, r: Request, more: seq<Bytes>, n: nat)
    requires n <= |r.msgs|
    ensures Links(h, r)[..n] <= Links(h, r.(msgs := r.msgs + more))
  {
    var s := r.(msgs := r.msgs + more);
    if n > 0 {
      LinksExtend(h, r, more, n - 1);
      assert Links(h, r)[..n] == Links(h, r)[..n - 1] + [Link(h, r, n - 1)];
      assert s.msgs[n - 1] == r.msgs[n - 1];
      LinkExtends(h, r, more, n - 1);
    }
  }

  predicate Meet<L(==)>(a: seq<L>, i: nat, b: seq<L>, j: nat) {
    i < |a| && j < |b| && a[i] == b[j]
  }

  /** A common link means a common position and a common prefix of links. */
  ghost predicate Branches<L(!new)>(a: seq<L>, b: seq<L>) {
    forall i: nat, j: nat | Meet(a, i, b, j) :: i == j && a[..i + 1] == b[..j + 1]
  }

  lemma {:induction false} LinksFollowHistory(h: Hash, a: Request, b: Request, n: nat)
    requires Canonical(a) && Canonical(b)
    requires n <= |a.msgs| && n <= |b.msgs| && (n > 0 ==> SameHistory(a, b, n))
    ensures Links(h, a)[..n] == Links(h, b)[..n]
  {
    if n > 0 {
      ShorterHistory(a, b, n - 1);
      LinksFollowHistory(h, a, b, n - 1);
      ChainSound(h, a, b, n - 1);
      assert Links(h, a)[..n] == Links(h, a)[..n - 1] + [Link(h, a, n - 1)];
      assert Links(h, b)[..n] == Links(h, b)[..n - 1] + [Link(h, b, n - 1)];
    }
  }

  /** The links of any two requests branch like the conversations do; else the
      proof exhibits a collision, or a request that spells out a digest. */
  lemma {:induction false} LinksBranch(h: Hash, a: Request, b: Request)
    requires Canonical(a) && Canonical(b)
    ensures || Branches(Links(h, a), Links(h, b))
            || Spells(h, a, b) || Spells(h, b, a)
            || exists k, l :: Clash(h, a, k, b, l)
  {
    var la, lb := Links(h, a), Links(h, b);
    if !Branches(la, lb) {
      var i: nat, j: nat :| Meet(la, i, lb, j) && !(i == j && la[..i + 1] == lb[..j + 1]);
      assert Link(h, a, i) == Link(h, b, j);
      if i < j {
        ChainLevels(h, a, i, b, j - i);
        if !Spells(h, a, b) {
          var k: nat :| CollidesAt(h, a, k, b, j - i);
          assert Clash(h, a, k, b, k + (j - i));
        }
      } else if j < i {
        ChainLevels(h, b, j, a, i - j);
        if !Spells(h, b, a) {
          var k: nat :| CollidesAt(h, b, k, a, i - j);
          assert Clash(h, b, k, a, k + (i - j));
          assert Clash(h, a, k + (i - j), b, k);
        }
      } else {
        ChainSound(h, a, b, i);
        if SameHistory(a, b, i + 1) {
          LinksFollowHistory(h, a, b, i + 1);
        }
      }
    }
  }
}
