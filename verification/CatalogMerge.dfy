/**
 The agent's config: the catalog's tree, overlaid with the user's, with the
 locked keys put back to what the catalog says. Trees are values: dictionaries
 from keys to trees, scalars and lists being leaves.
 */
module CatalogMerge {
  import opened Wrappers

  datatype Tree = Leaf(text: string) | Dict(items: Items)

  type Items = map<string, Tree>

  /** A dotted key split at its dots: never empty. */
  type Path = p: seq<string> | |p| > 0 witness [""]

  /** Overlays `over` on `base`: dictionaries merge, anything else replaces. */
  function DeepMerge(base: Items, over: Items): (out: Items)
    ensures out.Keys == base.Keys + over.Keys
    decreases Dict(over)
  {
    map k | k in base.Keys + over.Keys ::
      if k !in over then base[k]
      else if k in base && base[k].Dict? && over[k].Dict? then Dict(DeepMerge(base[k].items, over[k].items))
      else over[k]
  }

  /** The loop that overlays key by key. */
  method Overlay(base: Items, over: Items) returns (out: Items)
    ensures out == DeepMerge(base, over)
    decreases Dict(over)
  {
    out := base;
    var rest := over.Keys;
    while rest != {}
      invariant rest <= over.Keys
      invariant out.Keys == base.Keys + (over.Keys - rest)
      invariant forall k | k in out :: out[k] == if k in over && k !in rest then DeepMerge(base, over)[k] else base[k]
      decreases rest
    {
      var key :| key in rest;
      var value := over[key];
      if value.Dict? && key in out && out[key].Dict? {
        var merged := Overlay(out[key].items, value.items);
        out := out[key := Dict(merged)];
      } else {
        out := out[key := value];
      }
      rest := rest - {key};
    }
  }

  /** What a path leads to, if anything. */
  function GetPath(t: Tree, p: seq<string>): Option<Tree> {
    if |p| == 0 then Some(t)
    else if t.Dict? && p[0] in t.items then GetPath(t.items[p[0]], p[1..])
    else None
  }

  /** Puts `v` at a path, making the dictionaries on the way; for None, removes
      what is there, if the path leads that far. */
  function SetPath(d: Items, p: Path, v: Option<Tree>): Items
    decreases |p|
  {
    if |p| == 1 then
      match v
      case Some(t) => d[p[0] := t]
      case None => d - {p[0]}
    else if p[0] in d && d[p[0]].Dict? then
      d[p[0] := Dict(SetPath(d[p[0]].items, p[1..], v))]
    else if v.Some? then
      d[p[0] := Dict(SetPath(map[], p[1..], v))]
    else
      d
  }

  /** The locked keys put back, in order. */
  function Relock(merged: Items, catalog: Items, locked: seq<Path>): Items
  {
    if |locked| == 0 then merged
    else
      var k := locked[|locked| - 1];
      SetPath(Relock(merged, catalog, locked[..|locked| - 1]), k, GetPath(Dict(catalog), k))
  }

  /** The config an agent gets: locked keys read as in the catalog, and paths
      apart from all of them as in the overlaid tree. */
  method MergedConfig(catalog: Items, user: Tree, locked: seq<Path>) returns (merged: Items)
    ensures var overlaid := DeepMerge(catalog, if user.Dict? then user.items else map[]);
            && (forall k | k in locked :: GetPath(Dict(merged), k) == GetPath(Dict(catalog), k))
            && (forall q: Path | forall k | k in locked :: !Comparable(k, q) ::
               GetPath(Dict(merged), q) == GetPath(Dict(overlaid), q))
            && merged == Relock(overlaid, catalog, locked)
  {
    merged := Overlay(catalog, if user.Dict? then user.items else map[]);
    ghost var start := merged;
    for i := 0 to |locked|
      invariant merged == Relock(start, catalog, locked[..i])
    {
      assert locked[..i + 1][..i] == locked[..i];
      merged := SetPath(merged, locked[i], GetPath(Dict(catalog), locked[i]));
    }
    assert locked[..|locked|] == locked;
    forall k | k in locked
      ensures GetPath(Dict(merged), k) == GetPath(Dict(catalog), k)
    {
      var i :| 0 <= i < |locked| && locked[i] == k;
      LockedKeysWin(start, catalog, locked, i);
    }
    forall q: Path | forall k | k in locked :: !Comparable(k, q)
      ensures GetPath(Dict(merged), q) == GetPath(Dict(start), q)
    {
      UnlockedPathsKept(start, catalog, locked, q);
    }
  }

  // ---- reading after writing ----

  predicate Prefix(p: seq<string>, q: seq<string>) {
    p <= q
  }

  predicate Comparable(p: seq<string>, q: seq<string>) {
    Prefix(p, q) || Prefix(q, p)
  }

  /** A path goes on from where its prefix leads. */
  lemma {:induction false} GetConcat(t: Tree, p: seq<string>, q: seq<string>)
    ensures GetPath(t, p + q) == match GetPath(t, p) case Some(s) => GetPath(s, q) case None => None
  {
    if |p| == 0 {
      assert p + q == q;
    } else if t.Dict? && p[0] in t.items {
      assert (p + q)[1..] == p[1..] + q;
      GetConcat(t.items[p[0]], p[1..], q);
    }
  }

  /** At and below the path written, the value written is read. */
  lemma {:induction false} GetSetBelow(d: Items, p: Path, v: Option<Tree>, q: seq<string>)
    ensures GetPath(Dict(SetPath(d, p, v)), p + q) == match v case Some(t) => GetPath(t, q) case None => None
    decreases |p|
  {
    assert (p + q)[0] == p[0] && (p + q)[1..] == p[1..] + q;
    if |p| > 1 {
      if p[0] in d && d[p[0]].Dict? {
        GetSetBelow(d[p[0]].items, p[1..], v, q);
      } else if v.Some? {
        GetSetBelow(map[], p[1..], v, q);
      }
    } else {
      assert p[1..] + q == q;
    }
  }

  /** Off the path written, nothing changes. */
  lemma {:induction false} GetSetApart(d: Items, p: Path, v: Option<Tree>, q: Path)
    requires !Comparable(p, q)
    ensures GetPath(Dict(SetPath(d, p, v)), q) == GetPath(Dict(d), q)
    decreases |p|
  {
    if p[0] == q[0] {
      assert |p| > 1 && |q| > 1 by {
        assert |p| == 1 ==> p <= q;
        assert |q| == 1 ==> q <= p;
      }
      assert !Comparable(p[1..], q[1..]) by {
        assert p == [p[0]] + p[1..] && q == [q[0]] + q[1..];
      }
      if p[0] in d && d[p[0]].Dict? {
        GetSetApart(d[p[0]].items, p[1..], v, q[1..]);
      } else if v.Some? {
        GetSetApart(map[], p[1..], v, q[1..]);
        EmptyHasNothing(q[1..]);
      }
    }
  }

  lemma {:induction false} EmptyHasNothing(q: Path)
    ensures GetPath(Dict(map[]), q) == None
  {}

  /** Writing back what is there changes nothing. */
  lemma {:induction false} SetSame(d: Items, p: Path)
    ensures SetPath(d, p, GetPath(Dict(d), p)) == d
    decreases |p|
  {
    if |p| > 1 && p[0] in d && d[p[0]].Dict? {
      SetSame(d[p[0]].items, p[1..]);
    }
  }

  /** Above the path written, only the part the path leads into changes. */
  lemma {:induction false} GetSetAbove(d: Items, p: Path, v: Option<Tree>, q: Path)
    requires GetPath(Dict(d), p).Some? && GetPath(Dict(d), p).value.Dict?
    ensures GetPath(Dict(SetPath(d, p + q, v)), p) == Some(Dict(SetPath(GetPath(Dict(d), p).value.items, q, v)))
    decreases |p|
  {
    assert (p + q)[0] == p[0] && (p + q)[1..] == p[1..] + q;
    if |p| > 1 {
      GetSetAbove(d[p[0]].items, p[1..], v, q);
    } else {
      assert p[1..] + q == q;
    }
  }

  /** Removing below a path that is absent or a leaf changes nothing there. */
  lemma {:induction false} RemoveBelowLeaf(d: Items, p: Path, q: Path)
    requires !(GetPath(Dict(d), p).Some? && GetPath(Dict(d), p).value.Dict?)
    ensures SetPath(d, p + q, None) == d
    decreases |p|
  {
    assert (p + q)[0] == p[0] && (p + q)[1..] == p[1..] + q;
    if |p| > 1 && p[0] in d && d[p[0]].Dict? {
      RemoveBelowLeaf(d[p[0]].items, p[1..], q);
    }
  }

  /** A key that already agrees with the catalog still does after another key
      has been put back, however the two overlap. */
  lemma {:induction false} RelockKeeps(d: Items, catalog: Items, k: Path, kept: Path)
    requires GetPath(Dict(d), kept) == GetPath(Dict(catalog), kept)
    ensures GetPath(Dict(SetPath(d, k, GetPath(Dict(catalog), k))), kept) == GetPath(Dict(catalog), kept)
  {
    var v := GetPath(Dict(catalog), k);
    if Prefix(k, kept) {
      var rest := kept[|k|..];
      assert kept == k + rest;
      GetSetBelow(d, k, v, rest);
      GetConcat(Dict(catalog), k, rest);
    } else if Prefix(kept, k) {
      var rest: Path := k[|kept|..];
      assert k == kept + rest;
      GetConcat(Dict(catalog), kept, rest);
      var here := GetPath(Dict(catalog), kept);
      if here.Some? && here.value.Dict? {
        GetSetAbove(d, kept, v, rest);
        SetSame(here.value.items, rest);
      } else {
        RemoveBelowLeaf(d, kept, rest);
      }
    } else {
      GetSetApart(d, k, v, kept);
    }
  }

  /** Locked keys win all at once, in any order and however they overlap: each
      reads exactly as in the catalog, absence included. */
  lemma {:induction false} LockedKeysWin(merged: Items, catalog: Items, locked: seq<Path>, i: nat)
    requires i < |locked|
    ensures GetPath(Dict(Relock(merged, catalog, locked)), locked[i]) == GetPath(Dict(catalog), locked[i])
  {
    var n := |locked| - 1;
    var k, before := locked[n], Relock(merged, catalog, locked[..n]);
    if i == n {
      GetSetBelow(before, k, GetPath(Dict(catalog), k), []);
      assert k + [] == k;
    } else {
      LockedKeysWin(merged, catalog, locked[..n], i);
      RelockKeeps(before, catalog, k, locked[i]);
    }
  }

  /** A path incomparable with every locked key keeps its merged value. */
  lemma {:induction false} UnlockedPathsKept(merged: Items, catalog: Items, locked: seq<Path>, q: Path)
    requires forall i | 0 <= i < |locked| :: !Comparable(locked[i], q)
    ensures GetPath(Dict(Relock(merged, catalog, locked)), q) == GetPath(Dict(merged), q)
  {
    if |locked| > 0 {
      var n := |locked| - 1;
      UnlockedPathsKept(merged, catalog, locked[..n], q);
      GetSetApart(Relock(merged, catalog, locked[..n]), locked[n], GetPath(Dict(catalog), locked[n]), q);
    }
  }

  // ---- what the overlay means, path by path ----

  /** Some leaf of the tree lies strictly above the path. */
  predicate Cut(t: Tree, p: seq<string>) {
    |p| > 0 && (t.Leaf? || (p[0] in t.items && Cut(t.items[p[0]], p[1..])))
  }

  function Merge(base: Tree, over: Tree): Tree {
    if base.Dict? && over.Dict? then Dict(DeepMerge(base.items, over.items)) else over
  }

  /** A path reads from the overlay if it is there or if a leaf of the overlay
      hides what is below; from the base if the overlay stops short of it; and
      where both have dictionaries, as their merge. */
  lemma {:induction false} MergeReads(base: Items, over: Items, p: Path)
    ensures GetPath(Dict(DeepMerge(base, over)), p) ==
            match (GetPath(Dict(base), p), GetPath(Dict(over), p))
            case (Some(b), Some(o)) => Some(Merge(b, o))
            case (None, Some(o)) => Some(o)
            case (b, None) => if Cut(Dict(over), p) then None else b
    decreases |p|
  {
    var k, rest := p[0], p[1..];
    if k in over && k in base && base[k].Dict? && over[k].Dict? {
      if |rest| > 0 {
        MergeReads(base[k].items, over[k].items, rest);
      }
    } else if Cut(Dict(over), p) {
      CutHasNothing(Dict(over), p);
    }
  }

  lemma {:induction false} CutHasNothing(t: Tree, p: seq<string>)
    requires Cut(t, p)
    ensures GetPath(t, p) == None
    decreases |p|
  {
    if t.Dict? {
      CutHasNothing(t.items[p[0]], p[1..]);
    }
  }
}
