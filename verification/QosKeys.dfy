/**
 The key builders of the key-value store: one user's keys never coincide with
 another's, nor with those of another family, whatever the user names contain.
 */
module QosKeys {
  /** The families of keys with their arguments. */
  datatype Key =
    | ActiveUsers
    | Chain(sub: string, link: string)
    | Steps(sub: string, session: string)
    | Active(sub: string)
    | StreakSession(sub: string)
    | StreakCount(sub: string)
    | Dispatch(sub: string, session: string)
    | Spend(sub: string)

  function Text(k: Key): string {
    match k
    case ActiveUsers => "qos:active-users"
    case Chain(sub, link) => "qos:chain:" + sub + ":" + link
    case Steps(sub, session) => "qos:steps:" + sub + ":" + session
    case Active(sub) => "qos:active:" + sub
    case StreakSession(sub) => "qos:streak:session:" + sub
    case StreakCount(sub) => "qos:streak:count:" + sub
    case Dispatch(sub, session) => "qos:dispatch:" + sub + ":" + session
    case Spend(sub) => "qos:spend:" + sub
  }

  const HEX := "0123456789abcdef"

  const FALLBACK := "sess-fallback"

  predicate IsHex(s: string) {
    forall c | c in s :: c in HEX
  }

  /** A link is a hex digest; a session id is random hex or the fallback. */
  predicate WellFormed(k: Key) {
    match k
    case Chain(_, link) => |link| == 64 && IsHex(link)
    case Steps(_, session) => IsSession(session)
    case Dispatch(_, session) => IsSession(session)
    case _ => true
  }

  predicate IsSession(s: string) {
    s == FALLBACK || (|s| == 29 && s[..5] == "sess-" && IsHex(s[5..]))
  }

  /** What tells the families apart: the start of their keys. */
  function Mark(k: Key): string {
    match k
    case ActiveUsers => "qos:active-"
    case Chain(_, _) => "qos:chain:"
    case Steps(_, _) => "qos:steps:"
    case Active(_) => "qos:active:"
    case StreakSession(_) => "qos:streak:session:"
    case StreakCount(_) => "qos:streak:count:"
    case Dispatch(_, _) => "qos:dispatch:"
    case Spend(_) => "qos:spend:"
  }

  function Rest(k: Key): string {
    match k
    case ActiveUsers => "users"
    case Chain(sub, link) => sub + ":" + link
    case Steps(sub, session) => sub + ":" + session
    case Dispatch(sub, session) => sub + ":" + session
    case _ => k.sub
  }

  lemma {:induction false} TextSplits(k: Key)
    ensures Text(k) == Mark(k) + Rest(k)
  {}

  /** No mark is a prefix of the mark of another family. */
  lemma {:induction false} MarksDiffer(j: Key, k: Key)
    requires Mark(j) <= Mark(k)
    ensures Mark(j) == Mark(k)
  {
    var m := Mark(j);
    assert m[4] == Mark(k)[4] && m[5] == Mark(k)[5] && m[6] == Mark(k)[6];
    if |m| > 10 {
      assert m[10] == Mark(k)[10];
    }
    if |m| > 11 {
      assert m[11] == Mark(k)[11];
    }
  }

  /** Keys of different families never coincide. */
  lemma {:induction false} FamiliesDisjoint(j: Key, k: Key)
    requires Text(j) == Text(k)
    ensures Mark(j) == Mark(k) && Rest(j) == Rest(k)
  {
    TextSplits(j);
    TextSplits(k);
    var m, n := Mark(j), Mark(k);
    assert m == Text(j)[..|m|] && n == Text(k)[..|n|];
    if |m| <= |n| {
      assert m == n[..|m|];
      MarksDiffer(j, k);
    } else {
      assert n == m[..|n|];
      MarksDiffer(k, j);
    }
    assert Rest(j) == Text(j)[|m|..] && Rest(k) == Text(k)[|n|..];
  }

  lemma {:induction false} MarkNamesFamily(j: Key, k: Key)
    requires Mark(j) == Mark(k)
    ensures j.ActiveUsers? == k.ActiveUsers? && j.Chain? == k.Chain? && j.Steps? == k.Steps?
    ensures j.Active? == k.Active? && j.StreakSession? == k.StreakSession? && j.StreakCount? == k.StreakCount?
    ensures j.Dispatch? == k.Dispatch? && j.Spend? == k.Spend?
  {
    assert Mark(j)[4] == Mark(k)[4] && Mark(j)[5] == Mark(k)[5] && Mark(j)[6] == Mark(k)[6];
    if |Mark(j)| > 10 {
      assert Mark(j)[10] == Mark(k)[10];
    }
    if |Mark(j)| > 11 {
      assert Mark(j)[11] == Mark(k)[11];
    }
  }

  lemma {:induction false} SplitSameLength(a: string, x: string, b: string, y: string)
    requires a + ":" + x == b + ":" + y && |x| == |y|
    ensures a == b && x == y
  {
    assert |a| == |b|;
    assert a == (a + ":" + x)[..|a|] && b == (b + ":" + y)[..|b|];
    assert x == (a + ":" + x)[|a| + 1..] && y == (b + ":" + y)[|b| + 1..];
  }

  /** A session id can be split off the end, whatever precedes the colon. */
  lemma {:induction false} SplitSession(a: string, x: string, b: string, y: string)
    requires IsSession(x) && IsSession(y) && a + ":" + x == b + ":" + y
    ensures a == b && x == y
  {
    if |x| == |y| {
      SplitSameLength(a, x, b, y);
    } else if |x| < |y| {
      FallbackIsNotHex(a, b, y);
    } else {
      FallbackIsNotHex(b, a, x);
    }
  }

  lemma {:induction false} FallbackIsNotHex(a: string, b: string, y: string)
    requires |y| == 29 && IsHex(y[5..])
    ensures a + ":" + FALLBACK != b + ":" + y
  {
    var s, t := a + ":" + FALLBACK, b + ":" + y;
    if |s| == |t| {
      assert s[|s| - 1] == 'k' && t[|t| - 1] == y[28];
      assert y[28] == y[5..][23] && y[28] in HEX;
    }
  }

  /** Equal texts come from equal keys: each user's values are their own. */
  lemma {:induction false} KeysInjective(j: Key, k: Key)
    requires WellFormed(j) && WellFormed(k) && Text(j) == Text(k)
    ensures j == k
  {
    FamiliesDisjoint(j, k);
    MarkNamesFamily(j, k);
    match j
    case Chain(sub, link) => SplitSameLength(sub, link, k.sub, k.link);
    case Steps(sub, session) => SplitSession(sub, session, k.sub, k.session);
    case Dispatch(sub, session) => SplitSession(sub, session, k.sub, k.session);
    case _ =>
  }
}
