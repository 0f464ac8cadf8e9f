/**
 Which nodes are the same machine, and which node lists a GPU that several of
 them report. Boot times are only compared up to a tolerance, which is what
 the conditions below are about.
 */
module Hardware {
  import opened Wrappers
  import opened StringOrder

  datatype Kernel = Kernel(build: string, boot: real)

  type Kernels = map<string, Kernel>

  const TOLERANCE := 120.0

  predicate Close(a: Kernel, b: Kernel) {
    a.build == b.build && -TOLERANCE <= b.boot - a.boot <= TOLERANCE
  }

  /** The first of the names whose kernel is close to the node's. */
  function FirstClose(kernels: Kernels, names: seq<string>, node: string): Option<string>
    requires node in kernels && forall n | n in names :: n in kernels
  {
    if |names| == 0 then None
    else if Close(kernels[node], kernels[names[0]]) then Some(names[0])
    else FirstClose(kernels, names[1..], node)
  }

  /** The other names close to the node's, in order. */
  function OthersClose(kernels: Kernels, names: seq<string>, node: string): seq<string>
    requires node in kernels && forall n | n in names :: n in kernels
  {
    if |names| == 0 then []
    else if names[0] != node && Close(kernels[node], kernels[names[0]]) then [names[0]] +
      OthersClose(kernels, names[1..], node)
    else OthersClose(kernels, names[1..], node)
  }

  lemma {:induction false} FirstCloseIs(kernels: Kernels, names: seq<string>, node: string)
    requires node in kernels && forall n | n in names :: n in kernels
    ensures var r := FirstClose(kernels, names, node);
            && (r.None? <==> forall n | n in names :: !Close(kernels[node], kernels[n]))
            && (r.Some? ==> r.value in names && Close(kernels[node], kernels[r.value]))
  {
    if |names| > 0 {
      FirstCloseIs(kernels, names[1..], node);
      assert names == [names[0]] + names[1..];
    }
  }

  /** In ascending names, the first close one is the smallest. */
  lemma {:induction false} FirstIsSmallest(kernels: Kernels, names: seq<string>, node: string)
    requires node in kernels && Ascending(names) && forall n | n in names :: n in kernels
    ensures var r := FirstClose(kernels, names, node);
            forall n | n in names && Close(kernels[node], kernels[n]) :: r.Some? && Le(r.value, n)
  {
    if |names| > 0 {
      assert names == [names[0]] + names[1..];
      if Close(kernels[node], kernels[names[0]]) {
        LeTotal(names[0], names[0]);
        forall n | n in names
          ensures Le(names[0], n)
        {
          var i :| 0 <= i < |names| && names[i] == n;
        }
      } else {
        FirstIsSmallest(kernels, names[1..], node);
      }
    }
  }

  lemma {:induction false} OthersCloseAre(kernels: Kernels, names: seq<string>, node: string)
    requires node in kernels && forall n | n in names :: n in kernels
    ensures forall n :: n in OthersClose(kernels, names, node) <==>
                        n in names && n != node && Close(kernels[node], kernels[n])
  {
    if |names| > 0 {
      OthersCloseAre(kernels, names[1..], node);
      assert names == [names[0]] + names[1..];
    }
  }

  lemma {:induction false} CloseSnoc(kernels: Kernels, names: seq<string>, other: string, node: string)
    requires node in kernels && other in kernels && forall n | n in names :: n in kernels
    ensures var first := FirstClose(kernels, names, node);
            FirstClose(kernels, names + [other], node) ==
            if first.Some? then first else if Close(kernels[node], kernels[other]) then Some(other) else None
    ensures OthersClose(kernels, names + [other], node) ==
            OthersClose(kernels, names, node) + if other != node && Close(kernels[node], kernels[other])
              then [other] else []
  {
    if |names| > 0 {
      assert (names + [other])[1..] == names[1..] + [other];
      CloseSnoc(kernels, names[1..], other, node);
    }
  }

  /** The names of the nodes whose kernel is known, sorted. */
  method SortedNames(kernels: Kernels) returns (names: seq<string>)
    ensures Ascending(names) && multiset(names) == multiset(kernels.Keys)
    ensures forall n :: n in names <==> n in kernels
  {
    names := [];
    var rest := kernels.Keys;
    while rest != {}
      invariant rest <= kernels.Keys && multiset(names) == multiset(kernels.Keys - rest)
      decreases rest
    {
      var node :| node in rest;
      names, rest := names + [node], rest - {node};
    }
    SortSorts(names);
    names := Sort(names);
    assert forall n :: n in names <==> n in multiset(names);
    assert forall n :: n in kernels <==> n in multiset(kernels.Keys);
  }

  /** The host of each node is named after the first of these names that is
      close to it. */
  ghost predicate Keyed(kernels: Kernels, names: seq<string>, hostKey: map<string, string>) {
    && (forall n :: n in names <==> n in kernels)
    && hostKey.Keys == kernels.Keys
    && forall n | n in kernels :: FirstClose(kernels, names, n) == Some(hostKey[n])
  }

  /** Names the host of every node, after the smallest node close to it, and
      lists the other nodes close to it in order. */
  method GroupHosts(kernels: Kernels)
    returns (hostKey: map<string, string>, shares: map<string, seq<string>>, names: seq<string>)
    ensures Ascending(names) && multiset(names) == multiset(kernels.Keys)
    ensures Keyed(kernels, names, hostKey) && NamesSmallest(kernels, hostKey)
    ensures ToldByKernel(kernels, hostKey, shares)
    ensures shares.Keys == kernels.Keys && forall n | n in kernels :: shares[n] == OthersClose(kernels, names, n)
  {
    names := SortedNames(kernels);
    hostKey, shares := KeyHosts(kernels, names);
    HostsAreSmallest(kernels, names, hostKey);
    KernelsTell(kernels, names, hostKey, shares);
  }

  /** Nodes of different builds never have one host nor list each other. Others
      list each other iff they have one build and booted at most 120 seconds
      apart, and a host is named after a node of the same build that booted at
      most 120 seconds apart. */
  ghost predicate ToldByKernel(kernels: Kernels, hostKey: map<string, string>, shares: map<string, seq<string>>) {
    forall a, b | a in kernels && b in kernels :: TwoNodes(kernels[a], kernels[b], a, b, hostKey, shares)
  }

  ghost predicate TwoNodes(k: Kernel, l: Kernel, a: string, b: string, hostKey: map<string, string>,
                           shares: map<string, seq<string>>)
  {
    && a in hostKey && b in hostKey && a in shares
    && (k.build != l.build ==> hostKey[a] != hostKey[b])
    && (hostKey[a] == b ==> k.build == l.build && k.boot - l.boot <= 120.0 && l.boot - k.boot <= 120.0)
    && (b in shares[a] <==> a != b && k.build == l.build && k.boot - l.boot <= 120.0 && l.boot - k.boot <= 120.0)
  }

  lemma {:induction false} KernelsTell(kernels: Kernels, names: seq<string>, hostKey: map<string, string>,
                                       shares: map<string, seq<string>>)
    requires Keyed(kernels, names, hostKey) && shares.Keys == kernels.Keys
    requires forall n | n in kernels :: shares[n] == OthersClose(kernels, names, n)
    ensures ToldByKernel(kernels, hostKey, shares)
  {
    forall a, b | a in kernels && b in kernels
      ensures TwoNodes(kernels[a], kernels[b], a, b, hostKey, shares)
    {
      FirstCloseIs(kernels, names, a);
      FirstCloseIs(kernels, names, b);
      OthersCloseAre(kernels, names, a);
    }
  }

  /** The loop over the nodes. */
  method KeyHosts(kernels: Kernels, names: seq<string>)
    returns (hostKey: map<string, string>, shares: map<string, seq<string>>)
    requires forall n :: n in names <==> n in kernels
    ensures Keyed(kernels, names, hostKey)
    ensures shares.Keys == kernels.Keys && forall n | n in kernels :: shares[n] == OthersClose(kernels, names, n)
  {
    hostKey, shares := map[], map[];
    for i := 0 to |names|
      invariant forall n :: n in hostKey <==> n in names[..i]
      invariant forall n :: n in shares <==> n in names[..i]
      invariant forall n | n in hostKey :: FirstClose(kernels, names, n) == Some(hostKey[n])
      invariant forall n | n in shares :: shares[n] == OthersClose(kernels, names, n)
    {
      assert names[..i + 1] == names[..i] + [names[i]];
      var key, others := CloseTo(kernels, names, names[i]);
      hostKey, shares := hostKey[names[i] := key], shares[names[i] := others];
    }
    assert names[..|names|] == names;
  }

  /** The smallest of the nodes close to a node. */
  ghost predicate IsSmallest(kernels: Kernels, node: string, host: string)
    requires node in kernels
  {
    && host in kernels && Close(kernels[node], kernels[host])
    && forall o | o in kernels && Close(kernels[node], kernels[o]) :: Le(host, o)
  }

  ghost predicate NamesSmallest(kernels: Kernels, hostKey: map<string, string>) {
    forall n | n in kernels :: n in hostKey && IsSmallest(kernels, n, hostKey[n])
  }

  lemma {:induction false} HostsAreSmallest(kernels: Kernels, names: seq<string>, hostKey: map<string, string>)
    requires Keyed(kernels, names, hostKey) && Ascending(names)
    ensures NamesSmallest(kernels, hostKey)
  {
    forall n | n in kernels
      ensures IsSmallest(kernels, n, hostKey[n])
    {
      FirstCloseIs(kernels, names, n);
      FirstIsSmallest(kernels, names, n);
    }
  }

  /** The inner loop: the host of one node and the others on it. */
  method CloseTo(kernels: Kernels, names: seq<string>, node: string) returns (key: string, others: seq<string>)
    requires node in names && forall n | n in names :: n in kernels
    ensures FirstClose(kernels, names, node) == Some(key) && others == OthersClose(kernels, names, node)
  {
    var first: Option<string> := None;
    others := [];
    for j := 0 to |names|
      invariant first == FirstClose(kernels, names[..j], node)
      invariant others == OthersClose(kernels, names[..j], node)
    {
      var other := names[j];
      assert names[..j + 1] == names[..j] + [other];
      CloseSnoc(kernels, names[..j], other, node);
      if !Close(kernels[node], kernels[other]) {
        continue;
      }
      if first.None? {
        first := Some(other);
      }
      if other != node {
        others := others + [other];
      }
    }
    assert names[..|names|] == names;
    FirstCloseIs(kernels, names, node);
    key := first.value;
  }

  /** Sharing a host goes both ways. */
  lemma {:induction false} SharesBothWays(kernels: Kernels, names: seq<string>, a: string, b: string)
    requires (forall n :: n in names <==> n in kernels) && a in kernels && b in kernels
    ensures a in OthersClose(kernels, names, b) <==> b in OthersClose(kernels, names, a)
  {
    OthersCloseAre(kernels, names, a);
    OthersCloseAre(kernels, names, b);
  }

  ghost predicate Transitive(kernels: Kernels) {
    forall a, b, c | a in kernels && b in kernels && c in kernels
                     && Close(kernels[a], kernels[b]) && Close(kernels[b], kernels[c]) ::
      Close(kernels[a], kernels[c])
  }

  ghost predicate SameHost(kernels: Kernels, names: seq<string>, a: string, b: string)
    requires (forall n :: n in names <==> n in kernels) && a in kernels && b in kernels
  {
    FirstClose(kernels, names, a) == FirstClose(kernels, names, b)
  }

  lemma {:induction false} CloseFirst(kernels: Kernels, names: seq<string>, a: string)
    requires (forall n :: n in names <==> n in kernels) && a in kernels
    ensures FirstClose(kernels, names, a).Some? && FirstClose(kernels, names, a).value in kernels
    ensures Close(kernels[a], kernels[FirstClose(kernels, names, a).value])
  {
    FirstCloseIs(kernels, names, a);
  }

  /** Host names tell machines apart exactly when closeness is transitive:
      then, and only then, nodes have the same host just when they are close. */
  lemma {:induction false} HostsAreMachines(kernels: Kernels, names: seq<string>)
    requires forall n :: n in names <==> n in kernels
    ensures Transitive(kernels) <==>
            forall a, b | a in kernels && b in kernels :: SameHost(kernels, names, a, b) <==>
              Close(kernels[a], kernels[b])
  {
    if Transitive(kernels) {
      forall a, b | a in kernels && b in kernels
        ensures SameHost(kernels, names, a, b) <==> Close(kernels[a], kernels[b])
      {
        CloseFirst(kernels, names, a);
        CloseFirst(kernels, names, b);
        if Close(kernels[a], kernels[b]) {
          assert forall n | n in names :: Close(kernels[a], kernels[n]) <==> Close(kernels[b], kernels[n]) by {
            assert Close(kernels[b], kernels[a]);
          }
          SameFirst(kernels, names, a, b);
        } else if SameHost(kernels, names, a, b) {
          var o := FirstClose(kernels, names, b).value;
          assert Close(kernels[o], kernels[b]);
          assert false;
        }
      }
    }
  }

  lemma {:induction false} SameFirst(kernels: Kernels, names: seq<string>, a: string, b: string)
    requires a in kernels && b in kernels && forall n | n in names :: n in kernels
    requires forall n | n in names :: Close(kernels[a], kernels[n]) <==> Close(kernels[b], kernels[n])
    ensures FirstClose(kernels, names, a) == FirstClose(kernels, names, b)
  {
    if |names| > 0 {
      SameFirst(kernels, names[1..], a, b);
    }
  }

  // ---- GPUs ----

  datatype Reading = Reading(node: string, index: string, name: string)

  /** A reading as listed, and the node that lists the same GPU if it is not this one. */
  datatype Listed = Listed(reading: Reading, sharedWith: Option<string>)

  function Physical(hostKey: map<string, string>, g: Reading): Option<string> {
    if g.node in hostKey then Some("host-of-" + hostKey[g.node] + "/" + g.index + "/" + g.name) else None
  }

  /** The readings of known nodes, the first of each physical GPU as its own. */
  method ListGpus(readings: seq<Reading>, nodes: set<string>, hostKey: map<string, string>) returns (out: seq<Listed>)
    ensures |out| == |Known(readings, nodes)|
    ensures forall i | 0 <= i < |out| :: out[i].reading == Known(readings, nodes)[i]
    ensures forall i | 0 <= i < |out| :: out[i].sharedWith == FirstOf(Known(readings, nodes), hostKey, i)
  {
    out := [];
    var seen: map<string, string> := map[];
    for k := 0 to |readings|
      invariant |out| == |Known(readings[..k], nodes)|
      invariant forall i | 0 <= i < |out| :: out[i].reading == Known(readings[..k], nodes)[i]
      invariant forall i | 0 <= i < |out| :: out[i].sharedWith == FirstOf(Known(readings[..k], nodes), hostKey, i)
      invariant forall p :: (if p in seen then Some(seen[p]) else None) ==
                            FirstNode(Known(readings[..k], nodes), hostKey, p)
    {
      var g := readings[k];
      ghost var known := Known(readings[..k], nodes);
      assert readings[..k + 1][..k] == readings[..k];
      if g.node !in nodes {
        assert Known(readings[..k + 1], nodes) == known;
        continue;
      }
      assert Known(readings[..k + 1], nodes) == known + [g];
      forall i: nat | i <= |known|
        ensures FirstOf(known + [g], hostKey, i) ==
                if i < |known| then FirstOf(known, hostKey, i) else FirstBefore(known, hostKey, g)
      {
        FirstOfSnoc(known, g, hostKey, i);
      }
      forall p
        ensures FirstNode(known + [g], hostKey, p) ==
                if FirstNode(known, hostKey, p).Some? then FirstNode(known, hostKey, p)
                else if Physical(hostKey, g) == Some(p) then Some(g.node) else None
      {
        FirstNodeSnoc(known, g, hostKey, p);
      }
      var shared := None;
      var physical := Physical(hostKey, g);
      if physical.Some? {
        if physical.value in seen {
          shared := Some(seen[physical.value]);
        } else {
          seen := seen[physical.value := g.node];
        }
      }
      out := out + [Listed(g, shared)];
    }
    assert readings[..|readings|] == readings;
  }

  function Known(readings: seq<Reading>, nodes: set<string>): seq<Reading> {
    if |readings| == 0 then [] else
    var n := |readings| - 1;
    Known(readings[..n], nodes) + if readings[n].node in nodes then [readings[n]] else []
  }

  /** The readings of nodes that are known stay, in order; the others go. */
  lemma {:induction false} KnownKeeps(before: seq<Reading>, g: Reading, after: seq<Reading>, nodes: set<string>)
    ensures Known(before + [g] + after, nodes) ==
            Known(before, nodes) + (if g.node in nodes then [g] else []) + Known(after, nodes)
    decreases |after|
  {
    var all := before + [g] + after;
    if |after| == 0 {
      assert all == before + [g] && all[..|before|] == before;
    } else {
      var n := |after| - 1;
      assert all[..|all| - 1] == before + [g] + after[..n];
      KnownKeeps(before, g, after[..n], nodes);
    }
  }

  /** The node of the first reading of a physical GPU. */
  function FirstNode(readings: seq<Reading>, hostKey: map<string, string>, physical: string): Option<string> {
    if |readings| == 0 then None else
    var n := |readings| - 1;
    var before := FirstNode(readings[..n], hostKey, physical);
    if before.Some? then before
    else if Physical(hostKey, readings[n]) == Some(physical) then Some(readings[n].node)
    else None
  }

  /** The node that listed this GPU among the readings before. */
  function FirstBefore(before: seq<Reading>, hostKey: map<string, string>, g: Reading): Option<string> {
    var p := Physical(hostKey, g);
    if p.Some? then FirstNode(before, hostKey, p.value) else None
  }

  /** The node that listed the GPU of reading i before. */
  function FirstOf(readings: seq<Reading>, hostKey: map<string, string>, i: nat): Option<string>
    requires i < |readings|
  {
    FirstBefore(readings[..i], hostKey, readings[i])
  }

  lemma {:induction false} FirstNodeSnoc(readings: seq<Reading>, g: Reading, hostKey: map<string, string>, p: string)
    ensures FirstNode(readings + [g], hostKey, p) ==
            if FirstNode(readings, hostKey, p).Some? then FirstNode(readings, hostKey, p)
            else if Physical(hostKey, g) == Some(p) then Some(g.node) else None
  {
    assert (readings + [g])[..|readings|] == readings;
  }

  lemma {:induction false} FirstOfSnoc(readings: seq<Reading>, g: Reading, hostKey: map<string, string>, i: nat)
    requires i <= |readings|
    ensures FirstOf(readings + [g], hostKey, i) ==
            if i < |readings| then FirstOf(readings, hostKey, i) else FirstBefore(readings, hostKey, g)
  {
    assert (readings + [g])[..i] == readings[..i];
    assert readings[..|readings|] == readings;
  }

  lemma {:induction false} FirstNodeIs(readings: seq<Reading>, hostKey: map<string, string>, physical: string)
    ensures var r := FirstNode(readings, hostKey, physical);
            && (r.None? <==> forall i | 0 <= i < |readings| :: Physical(hostKey, readings[i]) != Some(physical))
            && (r.Some? ==>
                  exists i :: 0 <= i < |readings| && Physical(hostKey, readings[i]) == Some(physical)
                              && readings[i].node == r.value
                              && forall j | 0 <= j < i :: Physical(hostKey, readings[j]) != Some(physical))
  {
    if |readings| > 0 {
      FirstNodeIs(readings[..|readings| - 1], hostKey, physical);
      var n := |readings| - 1;
      assert forall i | 0 <= i < n :: readings[..n][i] == readings[i];
      var before := FirstNode(readings[..n], hostKey, physical);
      if before.Some? {
        var i :| 0 <= i < n && Physical(hostKey, readings[..n][i]) == Some(physical)
                 && readings[..n][i].node == before.value
                 && forall j | 0 <= j < i :: Physical(hostKey, readings[..n][j]) != Some(physical);
        assert Physical(hostKey, readings[i]) == Some(physical);
      }
    }
  }

  // ---- each GPU counted once ----

  /** Two readings of one index and name on nodes with a host. */
  predicate Alike(hostKey: map<string, string>, a: Reading, b: Reading) {
    a.node in hostKey && b.node in hostKey && a.index == b.index && a.name == b.name
  }

  /** The same GPU by what identifies it: host, index and name. */
  predicate SameGpu(hostKey: map<string, string>, a: Reading, b: Reading) {
    Alike(hostKey, a, b) && hostKey[a.node] == hostKey[b.node]
  }

  /** The reading is on a keyed host and its GPU is listed once, by reading
      `first`: every other reading of the GPU points to the node of that one. */
  ghost predicate ListedBy(readings: seq<Reading>, hostKey: map<string, string>, k: nat, first: nat)
    requires k < |readings|
  {
    && first < |readings| && SameGpu(hostKey, readings[first], readings[k])
    && FirstOf(readings, hostKey, first) == None
    && forall i: nat | i < |readings| && i != first && SameGpu(hostKey, readings[i], readings[k]) ::
         FirstOf(readings, hostKey, i) == Some(readings[first].node)
  }

  /** A reading of another GPU with the same key comes before every reading of
      this one. */
  ghost predicate Aliased(readings: seq<Reading>, hostKey: map<string, string>, k: nat)
    requires k < |readings|
  {
    exists j: nat :: AliasAt(readings, hostKey, k, j)
  }

  ghost predicate AliasAt(readings: seq<Reading>, hostKey: map<string, string>, k: nat, j: nat)
    requires k < |readings|
  {
    && j < |readings| && !SameGpu(hostKey, readings[j], readings[k])
    && Physical(hostKey, readings[j]) == Physical(hostKey, readings[k])
    && forall i: nat | i < j :: !SameGpu(hostKey, readings[i], readings[k])
  }

  /** Of the readings with one key exactly the first is unshared, and every
      other points to the node that lists it. */
  lemma {:induction false} KeyCountedOnce(readings: seq<Reading>, hostKey: map<string, string>, k: nat)
    returns (first: nat)
    requires k < |readings| && readings[k].node in hostKey
    ensures first < |readings| && Physical(hostKey, readings[first]) == Physical(hostKey, readings[k])
    ensures forall i: nat | i < first :: Physical(hostKey, readings[i]) != Physical(hostKey, readings[k])
    ensures FirstOf(readings, hostKey, first) == None
    ensures forall i: nat | i < |readings| && i != first
            && Physical(hostKey, readings[i]) == Physical(hostKey, readings[k]) ::
              FirstOf(readings, hostKey, i) == Some(readings[first].node)
  {
    var p := Physical(hostKey, readings[k]).value;
    FirstNodeIs(readings, hostKey, p);
    var f: nat :| f < |readings| && Physical(hostKey, readings[f]) == Some(p)
                  && forall j | 0 <= j < f :: Physical(hostKey, readings[j]) != Some(p);
    first := f;
    FirstNodeIs(readings[..f], hostKey, p);
    forall i: nat | i < |readings| && i != f && Physical(hostKey, readings[i]) == Some(p)
      ensures FirstOf(readings, hostKey, i) == Some(readings[f].node)
    {
      FirstNodeIs(readings[..i], hostKey, p);
      assert readings[..i][f] == readings[f];
    }
  }

  /** For every host, index and name: the GPU is counted once, exactly one
      reading of it unshared and every other pointing to the node listing it,
      iff no reading of another GPU with the same key precedes it. */
  lemma {:induction false} GpuCountedOnce(readings: seq<Reading>, hostKey: map<string, string>, k: nat)
    requires k < |readings| && readings[k].node in hostKey
    ensures (exists first: nat :: ListedBy(readings, hostKey, k, first)) <==> !Aliased(readings, hostKey, k)
  {
    var f := KeyCountedOnce(readings, hostKey, k);
    if SameGpu(hostKey, readings[f], readings[k]) {
      assert ListedBy(readings, hostKey, k, f);
    } else {
      assert AliasAt(readings, hostKey, k, f);
    }
  }

  predicate Plain(s: string) {
    '/' !in s
  }

  /** No host name or GPU index holds a slash; the GPU names may. */
  predicate PlainKeys(readings: seq<Reading>, hostKey: map<string, string>) {
    forall g | g in readings && g.node in hostKey :: Plain(hostKey[g.node]) && Plain(g.index)
  }

  /** If two splits at a slash differ, the longer head contains one. */
  lemma {:induction false} LongerHead(a: string, x: string, b: string, y: string)
    requires a + "/" + x == b + "/" + y
    ensures |a| < |b| ==> '/' in b
  {
    if |a| < |b| {
      assert (a + "/" + x)[|a|] == '/';
      assert (b + "/" + y)[|a|] == b[|a|];
    }
  }

  lemma {:induction false} SplitAtSlash(a: string, x: string, b: string, y: string)
    requires Plain(a) && Plain(b) && a + "/" + x == b + "/" + y
    ensures a == b && x == y
  {
    LongerHead(a, x, b, y);
    LongerHead(b, y, a, x);
    assert a == (a + "/" + x)[..|a|] && b == (b + "/" + y)[..|b|];
    assert x == (a + "/" + x)[|a| + 1..] && y == (b + "/" + y)[|b| + 1..];
  }

  /** Without slashes, equal keys are equal GPUs. */
  lemma {:induction false} PhysicalInjective(hostKey: map<string, string>, a: Reading, b: Reading)
    requires a.node in hostKey && Plain(hostKey[a.node]) && Plain(a.index)
    requires b.node in hostKey && Plain(hostKey[b.node]) && Plain(b.index)
    requires Physical(hostKey, a) == Physical(hostKey, b)
    ensures SameGpu(hostKey, a, b)
  {
    var h, k := "host-of-" + hostKey[a.node], "host-of-" + hostKey[b.node];
    var x, y := a.index + "/" + a.name, b.index + "/" + b.name;
    assert Physical(hostKey, a).value == h + "/" + x && Physical(hostKey, b).value == k + "/" + y;
    SplitAtSlash(h, x, k, y);
    assert hostKey[a.node] == h[8..] && hostKey[b.node] == k[8..];
    SplitAtSlash(a.index, a.name, b.index, b.name);
  }

  /** So without slashes every GPU on a keyed host is counted once. */
  lemma {:induction false} PlainCountedOnce(readings: seq<Reading>, hostKey: map<string, string>, k: nat)
    returns (first: nat)
    requires k < |readings| && readings[k].node in hostKey && PlainKeys(readings, hostKey)
    ensures ListedBy(readings, hostKey, k, first)
  {
    if Aliased(readings, hostKey, k) {
      var j: nat :| AliasAt(readings, hostKey, k, j);
      assert readings[j] in readings && readings[k] in readings;
      PhysicalInjective(hostKey, readings[j], readings[k]);
    }
    GpuCountedOnce(readings, hostKey, k);
    first :| ListedBy(readings, hostKey, k, first);
  }

  /** With one: a GPU that is listed nowhere, because its key is that of
      another GPU of the node. */
  lemma {:induction false} SlashHidesGpu(node: string)
    ensures var gpus, hostKey := [Reading(node, "0", "x/y"), Reading(node, "0/x", "y")], map[node := node];
            && !SameGpu(hostKey, gpus[0], gpus[1])
            && FirstOf(gpus, hostKey, 1) == Some(node)
            && !exists first: nat :: ListedBy(gpus, hostKey, 1, first)
  {
    var a, b, hostKey := Reading(node, "0", "x/y"), Reading(node, "0/x", "y"), map[node := node];
    var h := "host-of-" + node + "/";
    assert Physical(hostKey, a).value == h + "0/x/y" == Physical(hostKey, b).value by {
      assert h + "0" + "/" + "x/y" == h + "0/x/y" == h + "0/x" + "/" + "y";
    }
    assert [a, b][..1] == [a];
    FirstNodeIs([a], hostKey, Physical(hostKey, b).value);
    assert AliasAt([a, b], hostKey, 1, 0);
    GpuCountedOnce([a, b], hostKey, 1);
  }

  // ---- GPUs and the machines they are in ----

  /** Reading `first` lists the GPU of reading k for all the nodes of a machine. */
  ghost predicate ListedFor(readings: seq<Reading>, hostKey: map<string, string>, nodes: set<string>, k: nat,
                            first: nat)
    requires k < |readings|
  {
    && first < |readings| && Alike(hostKey, readings[first], readings[k]) && readings[first].node in nodes
    && FirstOf(readings, hostKey, first) == None
    && forall i: nat | i < |readings| && i != first && Alike(hostKey, readings[i], readings[k])
       && readings[i].node in nodes ::
         FirstOf(readings, hostKey, i) == Some(readings[first].node)
  }

  /** The keyed nodes that really are one machine with this one. */
  function Mates<M(==)>(hostKey: map<string, string>, machine: string -> M, node: string): set<string> {
    set n | n in hostKey && machine(n) == machine(node)
  }

  /** Of each GPU of each machine exactly one reading is unshared, and every
      other points to its node. */
  ghost predicate MachinesCounted<M>(readings: seq<Reading>, hostKey: map<string, string>, machine: string -> M) {
    forall k: nat :: CountedAt(readings, hostKey, machine, k)
  }

  ghost predicate CountedAt<M>(readings: seq<Reading>, hostKey: map<string, string>, machine: string -> M, k: nat) {
    k < |readings| && readings[k].node in hostKey ==>
      exists first: nat :: ListedFor(readings, hostKey, Mates(hostKey, machine, readings[k].node), k, first)
  }

  predicate Told<M(==)>(hostKey: map<string, string>, machine: string -> M, a: string, b: string) {
    a in hostKey && b in hostKey && (hostKey[a] == hostKey[b] <==> machine(a) == machine(b))
  }

  /** The host names tell apart the machines of alike readings. */
  ghost predicate HostsTell<M>(readings: seq<Reading>, hostKey: map<string, string>, machine: string -> M) {
    forall i: nat, j: nat | i < |readings| && j < |readings| && Alike(hostKey, readings[i], readings[j]) ::
      Told(hostKey, machine, readings[i].node, readings[j].node)
  }

  /** A shared reading has the host of the node it points to. */
  lemma {:induction false} SharedHost(readings: seq<Reading>, hostKey: map<string, string>, i: nat)
    requires i < |readings| && PlainKeys(readings, hostKey) && FirstOf(readings, hostKey, i).Some?
    ensures var node := FirstOf(readings, hostKey, i).value;
            node in hostKey && readings[i].node in hostKey && hostKey[node] == hostKey[readings[i].node]
  {
    var p := Physical(hostKey, readings[i]).value;
    FirstNodeIs(readings[..i], hostKey, p);
    var j: nat :| j < i && Physical(hostKey, readings[..i][j]) == Some(p)
                  && readings[..i][j].node == FirstOf(readings, hostKey, i).value;
    assert readings[j] in readings && readings[i] in readings;
    PhysicalInjective(hostKey, readings[j], readings[i]);
  }

  lemma {:induction false} ToldIsCounted<M>(readings: seq<Reading>, hostKey: map<string, string>,
                                            machine: string -> M, k: nat)
    returns (first: nat)
    requires PlainKeys(readings, hostKey) && HostsTell(readings, hostKey, machine)
    requires k < |readings| && readings[k].node in hostKey
    ensures ListedFor(readings, hostKey, Mates(hostKey, machine, readings[k].node), k, first)
  {
    first := PlainCountedOnce(readings, hostKey, k);
    forall i: nat | i < |readings| && Alike(hostKey, readings[i], readings[k])
      ensures SameGpu(hostKey, readings[i], readings[k]) <==>
              readings[i].node in Mates(hostKey, machine, readings[k].node)
    {
      assert Told(hostKey, machine, readings[i].node, readings[k].node);
    }
  }

  /** Readings of one machine have the host of the one that lists them. */
  lemma {:induction false} MachineHost<M>(readings: seq<Reading>, hostKey: map<string, string>, machine: string -> M,
                                          i: nat, j: nat)
    requires PlainKeys(readings, hostKey) && MachinesCounted(readings, hostKey, machine)
    requires i < |readings| && j < |readings| && Alike(hostKey, readings[i], readings[j])
    requires machine(readings[i].node) == machine(readings[j].node)
    ensures hostKey[readings[i].node] == hostKey[readings[j].node]
  {
    assert CountedAt(readings, hostKey, machine, i);
    var first: nat :| ListedFor(readings, hostKey, Mates(hostKey, machine, readings[i].node), i, first);
    if i != first {
      SharedHost(readings, hostKey, i);
    }
    if j != first {
      SharedHost(readings, hostKey, j);
    }
  }

  /** A reading is in the machine of the one that lists its key. */
  lemma {:induction false} HostMachine<M>(readings: seq<Reading>, hostKey: map<string, string>, machine: string -> M,
                                          i: nat, first: nat)
    requires MachinesCounted(readings, hostKey, machine)
    requires i < |readings| && ListedBy(readings, hostKey, i, first)
    ensures machine(readings[i].node) == machine(readings[first].node)
  {
    assert CountedAt(readings, hostKey, machine, i);
    var own: nat :| ListedFor(readings, hostKey, Mates(hostKey, machine, readings[i].node), i, own);
  }

  /** Whatever nodes really are one machine, each GPU is counted once, and only
      for its own machine, iff among the nodes that report alike GPUs those of
      one machine and no others have the same host name. */
  lemma {:induction false} MachinesCountedIff<M>(readings: seq<Reading>, hostKey: map<string, string>,
                                                 machine: string -> M)
    requires PlainKeys(readings, hostKey)
    ensures MachinesCounted(readings, hostKey, machine) <==> HostsTell(readings, hostKey, machine)
  {
    if HostsTell(readings, hostKey, machine) {
      forall k: nat
        ensures CountedAt(readings, hostKey, machine, k)
      {
        if k < |readings| && readings[k].node in hostKey {
          var first := ToldIsCounted(readings, hostKey, machine, k);
        }
      }
    } else if MachinesCounted(readings, hostKey, machine) {
      forall i: nat, j: nat | i < |readings| && j < |readings| && Alike(hostKey, readings[i], readings[j])
        ensures Told(hostKey, machine, readings[i].node, readings[j].node)
      {
        CountedIsTold(readings, hostKey, machine, i, j);
      }
    }
  }

  lemma {:induction false} CountedIsTold<M>(readings: seq<Reading>, hostKey: map<string, string>,
                                            machine: string -> M, i: nat, j: nat)
    requires PlainKeys(readings, hostKey) && MachinesCounted(readings, hostKey, machine)
    requires i < |readings| && j < |readings| && Alike(hostKey, readings[i], readings[j])
    ensures Told(hostKey, machine, readings[i].node, readings[j].node)
  {
    if machine(readings[i].node) == machine(readings[j].node) {
      MachineHost(readings, hostKey, machine, i, j);
    } else if hostKey[readings[i].node] == hostKey[readings[j].node] {
      var first := PlainCountedOnce(readings, hostKey, i);
      HostMachine(readings, hostKey, machine, i, first);
      HostMachine(readings, hostKey, machine, j, first);
    }
  }

  /** Of the readings of one index and name exactly one is unshared iff all
      their nodes have the same first close node. */
  lemma {:induction false} OneUnsharedIff(kernels: Kernels, names: seq<string>, readings: seq<Reading>,
                                          hostKey: map<string, string>, k: nat)
    requires Keyed(kernels, names, hostKey) && PlainKeys(readings, hostKey)
    requires k < |readings| && readings[k].node in hostKey
    ensures (exists one: nat :: OnlyUnshared(readings, hostKey, k, one)) <==>
            forall i: nat | i < |readings| && Alike(hostKey, readings[i], readings[k]) ::
              FirstClose(kernels, names, readings[i].node) == FirstClose(kernels, names, readings[k].node)
  {
    if one: nat :| OnlyUnshared(readings, hostKey, k, one) {
      forall i: nat | i < |readings| && Alike(hostKey, readings[i], readings[k])
        ensures hostKey[readings[i].node] == hostKey[readings[one].node]
      {
        var first := PlainCountedOnce(readings, hostKey, i);
        assert first == one;
      }
      assert Alike(hostKey, readings[k], readings[k]);
    } else if forall i: nat | i < |readings| && Alike(hostKey, readings[i], readings[k]) ::
                hostKey[readings[i].node] == hostKey[readings[k].node] {
      var first := PlainCountedOnce(readings, hostKey, k);
      assert OnlyUnshared(readings, hostKey, k, first);
    }
  }

  ghost predicate OnlyUnshared(readings: seq<Reading>, hostKey: map<string, string>, k: nat, one: nat)
    requires k < |readings|
  {
    && one < |readings| && Alike(hostKey, readings[one], readings[k])
    && forall i: nat | i < |readings| && Alike(hostKey, readings[i], readings[k]) ::
         FirstOf(readings, hostKey, i) == None <==> i == one
  }

  /** Closeness carries over wherever it begins at a node that reports a GPU. */
  ghost predicate ReportersTransitive(kernels: Kernels, readings: seq<Reading>) {
    forall g, b, c | g in readings && g.node in kernels && b in kernels && c in kernels
                     && Close(kernels[g.node], kernels[b]) && Close(kernels[b], kernels[c]) ::
      Close(kernels[g.node], kernels[c])
  }

  function CloseNodes(kernels: Kernels, node: string): set<string>
    requires node in kernels
  {
    set n | n in kernels && Close(kernels[n], kernels[node])
  }

  /** Where that holds, machines being close nodes, each GPU is counted once. */
  lemma {:induction false} TransitiveCountedOnce(kernels: Kernels, names: seq<string>, readings: seq<Reading>,
                                                 hostKey: map<string, string>, k: nat)
    returns (first: nat)
    requires Keyed(kernels, names, hostKey) && PlainKeys(readings, hostKey) && ReportersTransitive(kernels, readings)
    requires k < |readings| && readings[k].node in kernels
    ensures ListedFor(readings, hostKey, CloseNodes(kernels, readings[k].node), k, first)
  {
    first := PlainCountedOnce(readings, hostKey, k);
    forall i: nat | i < |readings| && readings[i].node in kernels
      ensures hostKey[readings[i].node] == hostKey[readings[k].node] <==>
              readings[i].node in CloseNodes(kernels, readings[k].node)
    {
      assert readings[i] in readings && readings[k] in readings;
      ReportersHost(kernels, names, readings, hostKey, readings[i], readings[k]);
    }
  }

  lemma {:induction false} ReportersHost(kernels: Kernels, names: seq<string>, readings: seq<Reading>,
                                         hostKey: map<string, string>, g: Reading, h: Reading)
    requires Keyed(kernels, names, hostKey) && ReportersTransitive(kernels, readings)
    requires g in readings && h in readings && g.node in kernels && h.node in kernels
    ensures hostKey[g.node] == hostKey[h.node] <==> Close(kernels[g.node], kernels[h.node])
  {
    FirstCloseIs(kernels, names, g.node);
    FirstCloseIs(kernels, names, h.node);
    if Close(kernels[g.node], kernels[h.node]) {
      SameFirst(kernels, names, g.node, h.node);
    }
  }

  // ---- where closeness is not transitive ----

  const A := "a"
  const B := "b"
  const C := "c"

  function Drifted(build: string): Kernels {
    map[A := Kernel(build, 0.0), B := Kernel(build, 100.0), C := Kernel(build, 200.0)]
  }

  lemma {:induction false} FirstOfThree(kernels: Kernels, x: string, y: string, z: string, node: string)
    requires node in kernels && x in kernels && y in kernels && z in kernels
    ensures FirstClose(kernels, [x, y, z], node) ==
            if Close(kernels[node], kernels[x]) then Some(x)
            else if Close(kernels[node], kernels[y]) then Some(y)
            else if Close(kernels[node], kernels[z]) then Some(z) else None
  {
    assert [x, y, z][1..] == [y, z] && [y, z][1..] == [z] && [z][1..] == [];
    assert FirstClose(kernels, [z], node) == if Close(kernels[node], kernels[z]) then Some(z) else None;
  }

  /** Three nodes of one machine whose clocks drifted apart: the outer two are
      not close, so the last is given another host than the others. */
  lemma {:induction false} DriftSplitsHost(build: string)
    ensures var kernels := Drifted(build);
            && FirstClose(kernels, [A, B, C], A) == Some(A)
            && FirstClose(kernels, [A, B, C], B) == Some(A)
            && FirstClose(kernels, [A, B, C], C) == Some(B)
            && Close(kernels[B], kernels[C]) && !Transitive(kernels)
  {
    var kernels := Drifted(build);
    FirstOfThree(kernels, A, B, C, A);
    FirstOfThree(kernels, A, B, C, B);
    FirstOfThree(kernels, A, B, C, C);
    assert Close(kernels[A], kernels[B]) && Close(kernels[B], kernels[C]) && !Close(kernels[A], kernels[C]);
  }

  /** With those hosts the one GPU all three report is listed as two. */
  lemma {:induction false} DriftCountsTwice(index: string, name: string)
    ensures var hostKey := map[A := A, B := A, C := B];
            var gpus := [Reading(A, index, name), Reading(B, index, name), Reading(C, index, name)];
            FirstOf(gpus, hostKey, 0) == None && FirstOf(gpus, hostKey, 1) == Some(A)
              && FirstOf(gpus, hostKey, 2) == None
  {
    var hostKey := map[A := A, B := A, C := B];
    var a, b, c := Reading(A, index, name), Reading(B, index, name), Reading(C, index, name);
    var gpus := [a, b, c];
    var own, other := Physical(hostKey, a).value, Physical(hostKey, c).value;
    assert own[8] == 'a' && other[8] == 'b';
    assert gpus[..0] == [] && gpus[..1] == [a] && gpus[..2] == [a, b];
    FirstNodeIs([], hostKey, own);
    FirstNodeIs([a], hostKey, own);
    FirstNodeIs([a, b], hostKey, other);
  }
}
