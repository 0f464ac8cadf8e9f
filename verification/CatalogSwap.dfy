/**
 How agent-sync puts the catalog, and the enabled part of it, in place: a copy
 is prepared next to the final directory and swapped in by renames. A sync may
 be killed after any file operation and half way through a copy or a removal;
 the next one begins by recovering.
 */
module CatalogSwap {
  import opened Wrappers

  datatype Name = Catalog | Enabled

  /** The final directory and its `.new` and `.old` neighbours. */
  datatype Kind = Final | Staged | Old

  datatype Path = Path(name: Name, kind: Kind)

  datatype Dir<T> = Partial | Whole(tree: T)

  /** The directories there are. */
  type Dirs<T> = map<Path, Dir<T>>

  // ---- the states each operation goes through ----

  function RmStates<T>(d: Dirs<T>, p: Path): seq<Dirs<T>> {
    if p in d then [d[p := Partial], d - {p}] else []
  }

  function CopyStates<T>(d: Dirs<T>, p: Path, tree: T): seq<Dirs<T>> {
    [d[p := Partial], d[p := Whole(tree)]]
  }

  function Renamed<T>(d: Dirs<T>, from: Path, to: Path): Dirs<T>
    requires from in d
  {
    d[to := d[from]] - {from}
  }

  function RecoverStates<T>(d: Dirs<T>, n: Name): seq<Dirs<T>> {
    if Path(n, Final) !in d && Path(n, Old) in d then [Renamed(d, Path(n, Old), Path(n, Final))] else []
  }

  /** The old tree gone, the final one set aside. */
  function SetAside<T>(d: Dirs<T>, n: Name): Dirs<T> {
    var clear := d - {Path(n, Old)};
    if Path(n, Final) in clear then Renamed(clear, Path(n, Final), Path(n, Old)) else clear
  }

  /** A whole copy staged and the way cleared for it. */
  function Prepared<T>(d: Dirs<T>, n: Name, tree: T): (r: Dirs<T>)
    ensures Path(n, Staged) in r
  {
    SetAside(d[Path(n, Staged) := Whole(tree)], n)
  }

  function SetAsideStates<T>(d: Dirs<T>, n: Name): seq<Dirs<T>> {
    var clear := d - {Path(n, Old)};
    RmStates(d, Path(n, Old)) +
    if Path(n, Final) in clear then [Renamed(clear, Path(n, Final), Path(n, Old))] else []
  }

  /** Up to the rename that puts the new tree in place. */
  function PrepareStates<T>(d: Dirs<T>, n: Name, tree: T): seq<Dirs<T>> {
    RmStates(d, Path(n, Staged)) +
    CopyStates(d - {Path(n, Staged)}, Path(n, Staged), tree) +
    SetAsideStates(d[Path(n, Staged) := Whole(tree)], n)
  }

  /** That rename, and the removal of the old tree. */
  function CommitStates<T>(d: Dirs<T>, n: Name): seq<Dirs<T>>
    requires Path(n, Staged) in d
  {
    var placed := Renamed(d, Path(n, Staged), Path(n, Final));
    [placed] + RmStates(placed, Path(n, Old))
  }

  function InstallStates<T>(d: Dirs<T>, n: Name, tree: T): seq<Dirs<T>> {
    PrepareStates(d, n, tree) + CommitStates(Prepared(d, n, tree), n)
  }

  function Last<T>(d: Dirs<T>, states: seq<Dirs<T>>): Dirs<T> {
    if |states| == 0 then d else states[|states| - 1]
  }

  /** Both directories after recovery. */
  function Recovered<T>(d: Dirs<T>): Dirs<T> {
    var d := Last(d, RecoverStates(d, Catalog));
    Last(d, RecoverStates(d, Enabled))
  }

  function RecoveryStates<T>(d: Dirs<T>): seq<Dirs<T>> {
    RecoverStates(d, Catalog) + RecoverStates(Last(d, RecoverStates(d, Catalog)), Enabled)
  }

  function Installed<T>(d: Dirs<T>, n: Name, tree: T): Dirs<T> {
    Renamed(Prepared(d, n, tree), Path(n, Staged), Path(n, Final)) - {Path(n, Old)}
  }

  /** Every state a sync goes through after the one it finds: `source` is
      the catalog it ships, `chosen` picks the enabled part of a catalog. */
  function SyncStates<T>(d: Dirs<T>, source: T, chosen: T -> T): seq<Dirs<T>> {
    var r := Recovered(d);
    RecoveryStates(d) + InstallStates(r, Catalog, source) +
    InstallStates(Installed(r, Catalog, source), Enabled, chosen(source))
  }

  // ---- the program ----

  class AgentHome<T> {
    var dirs: Dirs<T>
    /** Every state the directories have been in, in order. */
    ghost var trace: seq<Dirs<T>>

    constructor ()
      ensures dirs == map[] && trace == []
    {
      dirs, trace := map[], [];
    }

    method RmTree(p: Path)
      requires p in dirs
      modifies this
      ensures dirs == old(dirs) - {p}
      ensures trace == old(trace) + RmStates(old(dirs), p)
    {
      trace := trace + [dirs[p := Partial], dirs - {p}];
      dirs := dirs - {p};
    }

    method CopyTree(p: Path, tree: T)
      requires p !in dirs
      modifies this
      ensures dirs == old(dirs)[p := Whole(tree)]
      ensures trace == old(trace) + CopyStates(old(dirs), p, tree)
    {
      trace := trace + [dirs[p := Partial], dirs[p := Whole(tree)]];
      dirs := dirs[p := Whole(tree)];
    }

    method Rename(from: Path, to: Path)
      requires from in dirs && to !in dirs
      modifies this
      ensures dirs == Renamed(old(dirs), from, to)
      ensures trace == old(trace) + [dirs]
    {
      dirs := dirs[to := dirs[from]] - {from};
      trace := trace + [dirs];
    }

    method Recover(n: Name)
      modifies this
      ensures dirs == Last(old(dirs), RecoverStates(old(dirs), n))
      ensures trace == old(trace) + RecoverStates(old(dirs), n)
    {
      if Path(n, Final) !in dirs && Path(n, Old) in dirs {
        Rename(Path(n, Old), Path(n, Final));
      }
    }

    /** Swaps the staged directory in. */
    method SwapDir(n: Name)
      requires Path(n, Staged) in dirs
      modifies this
      ensures dirs == Renamed(SetAside(old(dirs), n), Path(n, Staged), Path(n, Final)) - {Path(n, Old)}
      ensures trace == old(trace) + SetAsideStates(old(dirs), n) + CommitStates(SetAside(old(dirs), n), n)
    {
      if Path(n, Old) in dirs {
        RmTree(Path(n, Old));
      }
      assert dirs == old(dirs) - {Path(n, Old)};
      if Path(n, Final) in dirs {
        Rename(Path(n, Final), Path(n, Old));
      }
      assert trace == old(trace) + SetAsideStates(old(dirs), n);
      Rename(Path(n, Staged), Path(n, Final));
      if Path(n, Old) in dirs {
        RmTree(Path(n, Old));
      }
    }

    method Install(n: Name, tree: T)
      modifies this
      ensures dirs == Installed(old(dirs), n, tree)
      ensures trace == old(trace) + InstallStates(old(dirs), n, tree)
    {
      if Path(n, Staged) in dirs {
        RmTree(Path(n, Staged));
      }
      assert trace == old(trace) + RmStates(old(dirs), Path(n, Staged));
      assert dirs == old(dirs) - {Path(n, Staged)};
      CopyTree(Path(n, Staged), tree);
      assert dirs == old(dirs)[Path(n, Staged) := Whole(tree)];
      ghost var copied := dirs;
      SwapDir(n);
      Grouped(old(trace), RmStates(old(dirs), Path(n, Staged)),
        CopyStates(old(dirs) - {Path(n, Staged)}, Path(n, Staged), tree),
              SetAsideStates(copied, n), CommitStates(Prepared(old(dirs), n, tree), n));
    }

    /** Puts back what an interrupted swap had set aside. */
    method RecoverAll()
      modifies this
      ensures dirs == Recovered(old(dirs))
      ensures trace == old(trace) + RecoveryStates(old(dirs))
    {
      Recover(Catalog);
      Recover(Enabled);
    }

    /** One uninterrupted sync. */
    method Sync(source: T, chosen: T -> T)
      modifies this
      ensures trace == old(trace) + SyncStates(old(dirs), source, chosen)
      ensures dirs == map[Path(Catalog, Final) := Whole(source), Path(Enabled, Final) := Whole(chosen(source))]
    {
      RecoverAll();
      ghost var r := dirs;
      Install(Catalog, source);
      var catalog := dirs[Path(Catalog, Final)];
      assert catalog == Whole(source) by {
        InstalledIs(r, Catalog, source);
      }
      Install(Enabled, chosen(catalog.tree));
      assert trace == old(trace) + SyncStates(old(dirs), source, chosen) by {
        Regroup(old(trace), RecoveryStates(old(dirs)), InstallStates(r, Catalog, source),
                InstallStates(Installed(r, Catalog, source), Enabled, chosen(source)));
      }
      BothInstalled(r, source, chosen(source));
    }
  }

  lemma {:induction false} Grouped<S>(a: seq<S>, b: seq<S>, c: seq<S>, d: seq<S>, e: seq<S>)
    ensures a + b + c + d + e == a + (b + c + d + e)
  {}

  lemma {:induction false} Regroup<S>(a: seq<S>, b: seq<S>, c: seq<S>, d: seq<S>)
    ensures a + b + c + d == a + (b + c + d)
  {}

  /** An installed directory is the tree alone, and nothing else has changed. */
  lemma {:induction false} InstalledIs<T>(d: Dirs<T>, n: Name, tree: T)
    ensures Installed(d, n, tree) == d[Path(n, Final) := Whole(tree)] - {Path(n, Staged), Path(n, Old)}
  {}

  lemma {:induction false} BothInstalled<T>(d: Dirs<T>, source: T, part: T)
    ensures Installed(Installed(d, Catalog, source), Enabled, part) ==
            map[Path(Catalog, Final) := Whole(source), Path(Enabled, Final) := Whole(part)]
  {
    InstalledIs(d, Catalog, source);
    InstalledIs(Installed(d, Catalog, source), Enabled, part);
    var e := Installed(Installed(d, Catalog, source), Enabled, part);
    forall p: Path
      ensures p in e <==> p == Path(Catalog, Final) || p == Path(Enabled, Final)
    {
      match p
      case Path(Catalog, k) => match k { case Final => case Staged => case Old => }
      case Path(Enabled, k) => match k { case Final => case Staged => case Old => }
    }
  }

  /** From any state whatever, a sync that is not interrupted leaves exactly the
      two final directories. */
  lemma {:induction false} SyncEnds<T>(d: Dirs<T>, source: T, chosen: T -> T)
    ensures Last(d, SyncStates(d, source, chosen)) ==
            map[Path(Catalog, Final) := Whole(source), Path(Enabled, Final) := Whole(chosen(source))]
  {
    var c := Installed(Recovered(d), Catalog, source);
    InstallEnds(c, Enabled, chosen(source));
    BothInstalled(Recovered(d), source, chosen(source));
  }

  lemma {:induction false} InstallEnds<T>(d: Dirs<T>, n: Name, tree: T)
    ensures |InstallStates(d, n, tree)| > 0 && Last(d, InstallStates(d, n, tree)) == Installed(d, n, tree)
  {
    var p := Prepared(d, n, tree);
    assert Last(p, CommitStates(p, n)) == Installed(d, n, tree);
  }

  // ---- what a crash can leave ----

  /** What recovery would have in the final place. */
  function Served<T>(d: Dirs<T>, n: Name): Option<Dir<T>> {
    if Path(n, Final) in d then Some(d[Path(n, Final)])
    else if Path(n, Old) in d then Some(d[Path(n, Old)])
    else None
  }

  predicate InPlace<T>(d: Dirs<T>, n: Name) {
    Served(d, n).Some? ==> Path(n, Final) in d
  }

  /** All the states serve `v`; `here` says whether from the final place. */
  ghost predicate Serving<T>(xs: seq<Dirs<T>>, n: Name, v: Option<Dir<T>>, here: bool) {
    forall i | 0 <= i < |xs| :: Served(xs[i], n) == v && (v.Some? && here ==> Path(n, Final) in xs[i])
  }

  lemma {:induction false} RecoveryServes<T>(d: Dirs<T>, n: Name)
    ensures Serving(RecoveryStates(d), n, Served(d, n), false)
    ensures Served(Recovered(d), n) == Served(d, n) && InPlace(Recovered(d), n)
  {}

  lemma {:induction false} RmServes<T>(d: Dirs<T>, p: Path, n: Name)
    requires p.name != n || p.kind == Staged || (p.kind == Old && Path(n, Final) in d)
    ensures Serving(RmStates(d, p), n, Served(d, n), InPlace(d, n))
    ensures Served(d - {p}, n) == Served(d, n) && (InPlace(d, n) ==> InPlace(d - {p}, n))
  {}

  /** Up to the rename that places the new tree, the old one is served; it is
      out of the final place in the last state only. */
  lemma {:induction false} PrepareServes<T>(d: Dirs<T>, m: Name, tree: T, n: Name)
    requires InPlace(d, m) && InPlace(d, n)
    ensures var xs := PrepareStates(d, m, tree);
            && |xs| > 0
            && Serving(xs, n, Served(d, n), m != n)
            && Serving(xs[..|xs| - 1], n, Served(d, n), true)
            && Last(d, xs) == Prepared(d, m, tree)
            && (m == n ==> Path(n, Final) !in Last(d, xs))
  {
    var clear := d - {Path(m, Staged)};
    var copied := d[Path(m, Staged) := Whole(tree)];
    RmServes(d, Path(m, Staged), n);
    assert clear[Path(m, Staged) := Whole(tree)] == copied;
    assert Serving(CopyStates(clear, Path(m, Staged), tree), n, Served(d, n), true);
    SetAsideServes(copied, m, n);
    var before := RmStates(d, Path(m, Staged)) + CopyStates(clear, Path(m, Staged), tree);
    var aside := SetAsideStates(copied, m);
    assert PrepareStates(d, m, tree) == before + aside;
    assert Serving(before, n, Served(d, n), true);
    ServingJoined(before, aside, n, Served(d, n), m != n);
  }

  lemma {:induction false} ServingJoined<T>(xs: seq<Dirs<T>>, ys: seq<Dirs<T>>, n: Name, v: Option<Dir<T>>, here: bool)
    requires |xs| > 0 && Serving(xs, n, v, true) && Serving(ys, n, v, here)
    requires |ys| > 0 ==> Serving(ys[..|ys| - 1], n, v, true)
    ensures Serving(xs + ys, n, v, here) && Serving((xs + ys)[..|xs + ys| - 1], n, v, true)
  {
    if |ys| > 0 {
      assert (xs + ys)[..|xs| + |ys| - 1] == xs + ys[..|ys| - 1];
    } else {
      assert xs + ys == xs;
    }
  }

  lemma {:induction false} SetAsideServes<T>(d: Dirs<T>, m: Name, n: Name)
    requires InPlace(d, m) && InPlace(d, n)
    ensures var xs := SetAsideStates(d, m);
            && Serving(xs, n, Served(d, n), m != n)
            && (|xs| > 0 ==> Serving(xs[..|xs| - 1], n, Served(d, n), true))
            && Last(d, xs) == SetAside(d, m)
            && (m == n ==> Path(n, Final) !in Last(d, xs))
  {
    if Path(m, Old) in d {
      RmServes(d, Path(m, Old), n);
    }
  }

  lemma {:induction false} CommitServes<T>(d: Dirs<T>, m: Name, n: Name)
    requires Path(m, Staged) in d && (n != m ==> InPlace(d, n))
    ensures var v := if n == m then Some(d[Path(m, Staged)]) else Served(d, n);
            && Serving(CommitStates(d, m), n, v, true)
            && Served(Last(d, CommitStates(d, m)), n) == v
            && InPlace(Last(d, CommitStates(d, m)), n)
  {
    var placed := Renamed(d, Path(m, Staged), Path(m, Final));
    RmServes(placed, Path(m, Old), n);
  }

  /** Installing one directory: the other is served as before throughout; this
      one switches at the second rename, and is out of its final place in the
      one state before it. */
  lemma {:induction false} InstallServes<T>(d: Dirs<T>, m: Name, tree: T, n: Name)
    requires InPlace(d, m) && InPlace(d, n)
    ensures var at := |PrepareStates(d, m, tree)|;
            var xs := InstallStates(d, m, tree);
            && 0 < at < |xs|
            && Last(d, xs) == Installed(d, m, tree) && InPlace(Installed(d, m, tree), n)
            && Served(Installed(d, m, tree), n) == (if m == n then Some(Whole(tree)) else Served(d, n))
            && (forall i | 0 <= i < |xs| :: Served(xs[i], n) == if m != n || i < at then Served(d, n)
               else Some(Whole(tree)))
            && (forall i | 0 <= i < |xs| :: Served(xs[i], n).Some? ==>
               (Path(n, Final) !in xs[i] <==> m == n && i == at - 1))
  {
    var xs, prep := InstallStates(d, m, tree), PrepareStates(d, m, tree);
    var p := Prepared(d, m, tree);
    PrepareServes(d, m, tree, n);
    InstallEnds(d, m, tree);
    assert p[Path(m, Staged)] == Whole(tree);
    assert m != n ==> InPlace(p, n) by {
      assert p == prep[|prep| - 1];
    }
    CommitServes(p, m, n);
    assert xs == prep + CommitStates(p, m);
    assert xs[|xs| - 1] == Last(p, CommitStates(p, m));
    forall i | 0 <= i < |xs|
      ensures Served(xs[i], n).Some? ==> (Path(n, Final) !in xs[i] <==> m == n && i == |prep| - 1)
    {
      if i < |prep| - 1 {
        assert xs[i] == prep[..|prep| - 1][i];
      }
    }
  }

  /** Where in a sync the rename comes that puts a directory's new tree in place. */
  function CommitAt<T>(d: Dirs<T>, source: T, chosen: T -> T, n: Name): nat {
    var r := Recovered(d);
    match n
    case Catalog => |RecoveryStates(d)| + |PrepareStates(r, Catalog, source)|
    case Enabled => |RecoveryStates(d)| + |InstallStates(r, Catalog, source)| +
                    |PrepareStates(Installed(r, Catalog, source), Enabled, chosen(source))|
  }

  function NewTree<T>(source: T, chosen: T -> T, n: Name): T {
    match n case Catalog => source case Enabled => chosen(source)
  }

  /** Whatever state a sync is killed in, each directory still has one whole
      tree to serve: the one it had before its commit, the new one from there
      on, the catalog switching before its enabled part. Once recovered, it is
      out of its final place only between the two renames. */
  lemma {:induction false} SyncAtomic<T>(d: Dirs<T>, source: T, chosen: T -> T, n: Name, i: nat)
    requires i < |SyncStates(d, source, chosen)|
    ensures |RecoveryStates(d)| < CommitAt(d, source, chosen, Catalog)
    ensures CommitAt(d, source, chosen, Catalog) < CommitAt(d, source, chosen, Enabled)
    ensures CommitAt(d, source, chosen, Enabled) < |SyncStates(d, source, chosen)|
    ensures Served(SyncStates(d, source, chosen)[i], n) ==
            if i < CommitAt(d, source, chosen, n) then Served(d, n) else Some(Whole(NewTree(source, chosen, n)))
    ensures i >= |RecoveryStates(d)| && Served(SyncStates(d, source, chosen)[i], n).Some? ==>
              (Path(n, Final) !in SyncStates(d, source, chosen)[i] <==> i == CommitAt(d, source, chosen, n) - 1)
  {
    RecoveryServes(d, Catalog);
    RecoveryServes(d, Enabled);
    var r := Recovered(d);
    var c := Installed(r, Catalog, source);
    InstallServes(r, Catalog, source, n);
    InstallServes(r, Catalog, source, Enabled);
    InstallServes(c, Enabled, chosen(source), n);
    ThreeParts(RecoveryStates(d), InstallStates(r, Catalog, source), InstallStates(c, Enabled, chosen(source)), i);
  }

  lemma {:induction false} ThreeParts<S>(a: seq<S>, b: seq<S>, c: seq<S>, i: nat)
    requires i < |a| + |b| + |c|
    ensures (a + b + c)[i] == if i < |a| then a[i] else if i < |a| + |b| then b[i - |a|] else c[i - |a| - |b|]
  {}

  // ---- any number of syncs, each killed anywhere ----

  datatype Upgrade<!T> = Upgrade(source: T, chosen: T -> T)

  /** The directories are as found, or in some state of the sync. */
  ghost predicate Stopped<T>(d: Dirs<T>, u: Upgrade<T>, after: Dirs<T>) {
    after == d || exists i: nat | i < |SyncStates(d, u.source, u.chosen)| ::
      after == SyncStates(d, u.source, u.chosen)[i]
  }

  ghost predicate Upgrades<T>(ds: seq<Dirs<T>>, us: seq<Upgrade<T>>) {
    && |ds| == |us| + 1 && ds[0] == map[]
    && forall k: nat | k < |us| :: Stopped(ds[k], us[k], ds[k + 1])
  }

  /** The catalog of the j-th sync is served, and for its enabled part what an
      i-th sync, no later one, chose. */
  ghost predicate ServesFrom<T>(d: Dirs<T>, us: seq<Upgrade<T>>, j: nat, i: Option<nat>) {
    && j < |us| && Served(d, Catalog) == Some(Whole(us[j].source))
    && match i
       case None => Served(d, Enabled) == None
       case Some(i) => i <= j && Served(d, Enabled) == Some(Whole(us[i].chosen(us[i].source)))
  }

  /** However many syncs are killed wherever they are, each directory serves
      one whole tree of one sync, or nothing if none got as far as its commit;
      and the enabled part never comes from a later sync than the catalog. */
  lemma {:induction false} UpgradesServe<T>(ds: seq<Dirs<T>>, us: seq<Upgrade<T>>, k: nat)
    requires Upgrades(ds, us) && k <= |us|
    ensures || (Served(ds[k], Catalog) == None && Served(ds[k], Enabled) == None)
            || exists j: nat, i :: j < k && ServesFrom(ds[k], us, j, i)
  {
    if k > 0 {
      var d, u := ds[k - 1], us[k - 1];
      UpgradesServe(ds, us, k - 1);
      assert Stopped(d, u, ds[k]);
      if ds[k] != d {
        var n: nat :| n < |SyncStates(d, u.source, u.chosen)| && ds[k] == SyncStates(d, u.source, u.chosen)[n];
        SyncAtomic(d, u.source, u.chosen, Catalog, n);
        SyncAtomic(d, u.source, u.chosen, Enabled, n);
        if n >= CommitAt(d, u.source, u.chosen, Enabled) {
          assert ServesFrom(ds[k], us, k - 1, Some(k - 1));
        } else if n >= CommitAt(d, u.source, u.chosen, Catalog) {
          if Served(d, Enabled) == None {
            assert ServesFrom(ds[k], us, k - 1, None);
          } else {
            var j: nat, i :| j < k - 1 && ServesFrom(d, us, j, i);
            assert ServesFrom(ds[k], us, k - 1, i);
          }
        } else if Served(d, Catalog) != None || Served(d, Enabled) != None {
          var j: nat, i :| j < k - 1 && ServesFrom(d, us, j, i);
          assert ServesFrom(ds[k], us, j, i);
        }
      }
    }
  }

  /** Once something is served, no kill ever takes it away: recovery has a whole
      tree to put in the final place. */
  lemma {:induction false} NeverLost<T>(ds: seq<Dirs<T>>, us: seq<Upgrade<T>>, n: Name, k: nat)
    requires Upgrades(ds, us) && k < |us| && Served(ds[k], n).Some?
    ensures Path(n, Final) in Recovered(ds[k + 1]) && Recovered(ds[k + 1])[Path(n, Final)].Whole?
  {
    UpgradesServe(ds, us, k + 1);
    RecoveryServes(ds[k + 1], n);
    assert Stopped(ds[k], us[k], ds[k + 1]);
    if ds[k + 1] != ds[k] {
      var i: nat :| i < |SyncStates(ds[k], us[k].source, us[k].chosen)|
                    && ds[k + 1] == SyncStates(ds[k], us[k].source, us[k].chosen)[i];
      SyncAtomic(ds[k], us[k].source, us[k].chosen, n, i);
    }
  }
}
