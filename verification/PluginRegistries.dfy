/** Dependency-checked, allow-listed plugin assembly before a run starts. */
module PluginRegistries {
  import opened Contracts
  import opened Plugins
  import opened Sorting

  type PluginMap = map<string, Plugin>

  datatype RegistryError =
    | AlreadyResolved | NotAllowed | AlreadyRegistered
    | NotATool | CapabilityConflict | MissingCapability | DuplicateToolName | DependencyCycle | NotResolved

  datatype Resolution = Resolved(plugins: seq<Plugin>) | Refused(error: RegistryError)

  // Python's order on strings.

  predicate StringLe(a: string, b: string) {
    if |a| == 0 then true
    else if |b| == 0 then false
    else a[0] < b[0] || (a[0] == b[0] && StringLe(a[1..], b[1..]))
  }

  lemma {:induction false} StringLeTotal(a: string, b: string)
    ensures StringLe(a, b) || StringLe(b, a)
  {
    if |a| > 0 && |b| > 0 && a[0] == b[0] {
      StringLeTotal(a[1..], b[1..]);
    }
  }

  lemma {:induction false} StringLeTransitive(a: string, b: string, c: string)
    requires StringLe(a, b) && StringLe(b, c)
    ensures StringLe(a, c)
  {
    if |a| > 0 && a[0] == b[0] == c[0] {
      StringLeTransitive(a[1..], b[1..], c[1..]);
    }
  }

  lemma {:induction false} StringLeAntisymmetric(a: string, b: string)
    requires StringLe(a, b) && StringLe(b, a)
    ensures a == b
  {
    if |a| > 0 {
      StringLeAntisymmetric(a[1..], b[1..]);
      assert a == [a[0]] + a[1..] && b == [b[0]] + b[1..];
    }
  }

  lemma StringOrder()
    ensures TotalPreorder(StringLe)
    ensures forall x, y :: StringLe(x, y) && StringLe(y, x) ==> x == y
  {
    forall x, y ensures StringLe(x, y) || StringLe(y, x) {
      StringLeTotal(x, y);
    }
    forall x, y, z | StringLe(x, y) && StringLe(y, z) ensures StringLe(x, z) {
      StringLeTransitive(x, y, z);
    }
    forall x, y | StringLe(x, y) && StringLe(y, x) ensures x == y {
      StringLeAntisymmetric(x, y);
    }
  }

  ghost predicate Distinct(ids: seq<string>) {
    forall i, j :: 0 <= i < j < |ids| ==> ids[i] != ids[j]
  }

  /** `ids` lists exactly the members of `s`, once each, in string order. */
  ghost predicate SortedSet(ids: seq<string>, s: set<string>) {
    SortedBy(ids, StringLe) && Distinct(ids) && forall id :: id in ids <==> id in s
  }

  method SortedIds(s: set<string>) returns (ids: seq<string>)
    ensures SortedSet(ids, s)
  {
    var rest, listed := s, [];
    while rest != {}
      invariant rest <= s && Distinct(listed) && forall id :: id in listed <==> id in s - rest
      decreases rest
    {
      var id :| id in rest;
      assert id !in listed;
      rest := rest - {id};
      listed := listed + [id];
    }
    ids := Sort(listed, StringLe);
    SortedListing(listed, ids);
  }

  lemma SortedListing(listed: seq<string>, ids: seq<string>)
    requires Distinct(listed) && ids == Sort(listed, StringLe)
    ensures SortedBy(ids, StringLe) && Distinct(ids) && forall id :: id in ids <==> id in listed
  {
    StringOrder();
    SortSorted(listed, StringLe);
    forall id ensures id in ids <==> id in listed {
      SortMembers(listed, StringLe, id);
    }
    DistinctCounts(listed);
    assert multiset(ids) == multiset(listed);
    forall i, j | 0 <= i < j < |ids| ensures ids[i] != ids[j] {
      if ids[i] == ids[j] {
        TwiceCounts(ids, i, j);
      }
    }
  }

  lemma {:induction false} DistinctCounts(ids: seq<string>)
    requires Distinct(ids)
    ensures forall id :: multiset(ids)[id] <= 1
  {
    if |ids| > 0 {
      var front, last := ids[..|ids| - 1], ids[|ids| - 1];
      DistinctCounts(front);
      assert ids == front + [last];
      assert last !in front;
    }
  }

  lemma TwiceCounts(ids: seq<string>, i: nat, j: nat)
    requires i < j < |ids| && ids[i] == ids[j]
    ensures multiset(ids)[ids[i]] >= 2
  {
    assert ids == ids[..j] + [ids[j]] + ids[j + 1..];
    assert ids[..j][i] == ids[i];
    assert ids[i] in multiset(ids[..j]);
  }

  // What a resolvable set of plugins is.

  predicate Offers(plugins: PluginMap, id: string, capability: string) {
    id in plugins && capability in plugins[id].manifest.offers
  }

  predicate Needs(plugins: PluginMap, id: string, capability: string) {
    id in plugins && capability in plugins[id].manifest.needs
  }

  /** One plugin offers something another needs. */
  ghost predicate Feeds(plugins: PluginMap, from: string, to: string) {
    exists capability :: Offers(plugins, from, capability) && Needs(plugins, to, capability)
  }

  predicate Conforms(plugins: PluginMap) {
    forall id :: id in plugins && plugins[id].manifest.kind.ToolKind? ==> plugins[id].facet.Some?
  }

  /** No capability is offered twice, not even by one plugin. */
  ghost predicate ConflictFree(plugins: PluginMap) {
    && (forall id, other, capability ::
          Offers(plugins, id, capability) && Offers(plugins, other, capability) ==> id == other)
    && (forall id :: id in plugins ==> Distinct(plugins[id].manifest.offers))
  }

  ghost predicate NothingMissing(plugins: PluginMap) {
    forall id, capability :: Needs(plugins, id, capability) ==> Offered(plugins, capability)
  }

  ghost predicate Offered(plugins: PluginMap, capability: string) {
    exists from :: Offers(plugins, from, capability)
  }

  ghost predicate OfferedBy(plugins: PluginMap, ids: seq<string>, capability: string) {
    exists from :: from in ids && Offers(plugins, from, capability)
  }

  ghost predicate ToolNamesDistinct(plugins: PluginMap) {
    forall id, other :: ShowsTool(plugins, id) && ShowsTool(plugins, other) && id != other ==>
      plugins[id].facet.value.name != plugins[other].facet.value.name
  }

  predicate ShowsTool(plugins: PluginMap, id: string) {
    id in plugins && IsVisibleTool(plugins[id])
  }

  /** All plugins, once each, with every need offered strictly earlier. */
  ghost predicate DependencyOrder(plugins: PluginMap, order: seq<string>) {
    && Distinct(order)
    && (forall id :: id in order <==> id in plugins)
    && forall k, capability :: 0 <= k < |order| && Needs(plugins, order[k], capability) ==>
         exists j :: 0 <= j < k && Offers(plugins, order[j], capability)
  }

  /** The length of the longest dependency chain that ends at each plugin. */
  ghost predicate IsDepth(plugins: PluginMap, depth: map<string, nat>) {
    && depth.Keys == plugins.Keys
    && (forall from, to :: Feeds(plugins, from, to) ==> from in depth && to in depth && depth[from] < depth[to])
    && (forall to :: to in depth && depth[to] > 0 ==>
          exists from :: Feeds(plugins, from, to) && from in depth && depth[from] + 1 == depth[to])
  }

  predicate Precedes(depth: map<string, nat>, a: string, b: string) {
    a in depth && b in depth && (depth[a] < depth[b] || (depth[a] == depth[b] && StringLe(a, b)))
  }

  /** Ordered by (depth, id), each plugin once. */
  ghost predicate ByDepth(plugins: PluginMap, order: seq<string>, depth: map<string, nat>) {
    && IsDepth(plugins, depth) && Distinct(order)
    && (forall id :: id in order <==> id in plugins)
    && forall i, j :: 0 <= i < j < |order| ==> Precedes(depth, order[i], order[j])
  }

  /** The one order a resolvable set is put in. */
  ghost predicate IsResolution(plugins: PluginMap, order: seq<string>) {
    DependencyOrder(plugins, order) && exists depth :: ByDepth(plugins, order, depth)
  }

  function Pick(plugins: PluginMap, order: seq<string>): (picked: seq<Plugin>)
    requires forall id :: id in order ==> id in plugins
    ensures |picked| == |order| && forall k :: 0 <= k < |order| ==> picked[k] == plugins[order[k]]
  {
    seq(|order|, k requires 0 <= k < |order| => plugins[order[k]])
  }

  // Depth.

  lemma {:induction false} DepthAtMost(plugins: PluginMap, a: map<string, nat>, b: map<string, nat>, id: string)
    requires IsDepth(plugins, a) && IsDepth(plugins, b) && id in plugins
    ensures a[id] <= b[id]
    decreases a[id]
  {
    if a[id] > 0 {
      var from :| Feeds(plugins, from, id) && from in a && a[from] + 1 == a[id];
      DepthAtMost(plugins, a, b, from);
    }
  }

  lemma DepthUnique(plugins: PluginMap, a: map<string, nat>, b: map<string, nat>)
    requires IsDepth(plugins, a) && IsDepth(plugins, b)
    ensures a == b
  {
    forall id | id in plugins ensures a[id] == b[id] {
      DepthAtMost(plugins, a, b, id);
      DepthAtMost(plugins, b, a, id);
    }
  }

  /** Each plugin of the chain feeds the next. */
  ghost predicate IsChain(plugins: PluginMap, chain: seq<string>) {
    forall k :: 0 <= k < |chain| - 1 ==> Feeds(plugins, chain[k], chain[k + 1])
  }

  /** No chain to a plugin is longer than its depth. */
  lemma {:induction false} ChainWithinDepth(plugins: PluginMap, depth: map<string, nat>, chain: seq<string>)
    requires IsDepth(plugins, depth) && IsChain(plugins, chain) && |chain| > 0 && chain[|chain| - 1] in plugins
    ensures |chain| - 1 <= depth[chain[|chain| - 1]]
    decreases |chain|
  {
    var n := |chain|;
    if n > 1 {
      assert Feeds(plugins, chain[n - 2], chain[n - 1]);
      var front := chain[..n - 1];
      assert front[n - 2] == chain[n - 2];
      forall k | 0 <= k < n - 2 ensures Feeds(plugins, front[k], front[k + 1]) {
        assert front[k] == chain[k] && front[k + 1] == chain[k + 1];
      }
      ChainWithinDepth(plugins, depth, front);
    }
  }

  /** Some chain to a plugin is as long as its depth. */
  lemma {:induction false} ChainReachesDepth(plugins: PluginMap, depth: map<string, nat>, id: string)
    returns (chain: seq<string>)
    requires IsDepth(plugins, depth) && id in plugins
    ensures IsChain(plugins, chain) && |chain| == depth[id] + 1 && chain[|chain| - 1] == id
    decreases depth[id]
  {
    if depth[id] == 0 {
      chain := [id];
    } else {
      var from :| Feeds(plugins, from, id) && from in depth && depth[from] + 1 == depth[id];
      var shorter := ChainReachesDepth(plugins, depth, from);
      chain := shorter + [id];
    }
  }

  /** At most one order is a resolution, so the order of registration cannot matter. */
  lemma ResolutionUnique(plugins: PluginMap, a: seq<string>, b: seq<string>)
    requires IsResolution(plugins, a) && IsResolution(plugins, b)
    ensures a == b
  {
    var depth :| ByDepth(plugins, a, depth);
    var other :| ByDepth(plugins, b, other);
    DepthUnique(plugins, depth, other);
    SameByDepth(plugins, a, b, depth);
  }

  lemma SameByDepth(plugins: PluginMap, a: seq<string>, b: seq<string>, depth: map<string, nat>)
    requires ByDepth(plugins, a, depth) && ByDepth(plugins, b, depth)
    ensures a == b
  {
    var le := (x: string, y: string) => DepthLe(depth, x, y);
    DepthOrder(depth);
    assert SortedBy(a, le) && SortedBy(b, le);
    SameMultiset(a, b);
    SortedUnique(a, b, le);
  }

  predicate DepthLe(depth: map<string, nat>, x: string, y: string) {
    var m, n := if x in depth then depth[x] else 0, if y in depth then depth[y] else 0;
    m < n || (m == n && StringLe(x, y))
  }

  lemma DepthOrder(depth: map<string, nat>)
    ensures TotalPreorder((x: string, y: string) => DepthLe(depth, x, y))
    ensures forall x, y :: DepthLe(depth, x, y) && DepthLe(depth, y, x) ==> x == y
  {
    StringOrder();
  }

  lemma SameMultiset(a: seq<string>, b: seq<string>)
    requires Distinct(a) && Distinct(b) && forall id :: id in a <==> id in b
    ensures multiset(a) == multiset(b)
  {
    DistinctCounts(a);
    DistinctCounts(b);
    forall id ensures multiset(a)[id] == multiset(b)[id] {
      assert id in multiset(a) <==> id in a;
      assert id in multiset(b) <==> id in b;
    }
  }

  // The checks.

  /** The offers of some plugins, in order. */
  function AllOffers(plugins: PluginMap, ids: seq<string>): seq<string>
    requires forall id :: id in ids ==> id in plugins
  {
    if |ids| == 0 then []
    else AllOffers(plugins, ids[..|ids| - 1]) + plugins[ids[|ids| - 1]].manifest.offers
  }

  lemma {:induction false} AllOffersMembers(plugins: PluginMap, ids: seq<string>)
    requires forall id :: id in ids ==> id in plugins
    ensures forall capability :: capability in AllOffers(plugins, ids) <==> OfferedBy(plugins, ids, capability)
  {
    if |ids| > 0 {
      var front, last := ids[..|ids| - 1], ids[|ids| - 1];
      AllOffersMembers(plugins, front);
      assert ids == front + [last];
      forall capability ensures capability in AllOffers(plugins, ids) <==> OfferedBy(plugins, ids, capability) {
        OfferedByMore(plugins, front, last, capability);
      }
    }
  }

  lemma OfferedByMore(plugins: PluginMap, front: seq<string>, last: string, capability: string)
    ensures OfferedBy(plugins, front + [last], capability)
      <==> OfferedBy(plugins, front, capability) || Offers(plugins, last, capability)
  {
    assert last in front + [last];
    assert forall id :: id in front ==> id in front + [last];
  }

  /** Conflict-freedom among the listed plugins. */
  ghost predicate ConflictFreeIn(plugins: PluginMap, ids: seq<string>)
    requires forall id :: id in ids ==> id in plugins
  {
    && (forall id, other, capability ::
          id in ids && other in ids && Offers(plugins, id, capability) && Offers(plugins, other, capability) ==>
            id == other)
    && (forall id :: id in ids ==> Distinct(plugins[id].manifest.offers))
  }

  lemma {:induction false} ConflictsShow(plugins: PluginMap, ids: seq<string>)
    requires Distinct(ids) && forall id :: id in ids ==> id in plugins
    ensures Distinct(AllOffers(plugins, ids)) <==> ConflictFreeIn(plugins, ids)
  {
    if |ids| > 0 {
      var front, last := ids[..|ids| - 1], ids[|ids| - 1];
      assert ids == front + [last] && last !in front;
      ConflictsShow(plugins, front);
      AllOffersMembers(plugins, front);
      DistinctJoin(AllOffers(plugins, front), plugins[last].manifest.offers);
      ConflictFreeMore(plugins, front, last);
    }
  }

  /** One more plugin brings no conflict exactly when its offers are distinct and none was made before. */
  lemma ConflictFreeMore(plugins: PluginMap, front: seq<string>, last: string)
    requires (forall id :: id in front ==> id in plugins) && last in plugins && last !in front
    ensures ConflictFreeIn(plugins, front + [last]) <==>
      && ConflictFreeIn(plugins, front) && Distinct(plugins[last].manifest.offers)
      && forall c :: c in plugins[last].manifest.offers ==> !OfferedBy(plugins, front, c)
  {
    hide Distinct;
    var ids := front + [last];
    if ConflictFreeIn(plugins, ids) {
      forall c | c in plugins[last].manifest.offers ensures !OfferedBy(plugins, front, c) {
        assert Offers(plugins, last, c);
      }
    }
    if forall c :: c in plugins[last].manifest.offers ==> !OfferedBy(plugins, front, c) {
      assert forall id, c :: id in front && Offers(plugins, id, c) ==> OfferedBy(plugins, front, c);
    }
  }

  lemma DistinctJoin(a: seq<string>, b: seq<string>)
    ensures Distinct(a + b) <==> Distinct(a) && Distinct(b) && forall x :: !(x in a && x in b)
  {
    var c := a + b;
    if Distinct(c) {
      assert forall i, j :: 0 <= i < j < |a| ==> c[i] == a[i] && c[j] == a[j] && c[i] != c[j];
      forall i, j | 0 <= i < j < |b| ensures b[i] != b[j] {
        assert c[|a| + i] == b[i] && c[|a| + j] == b[j];
      }
      forall x | x in a ensures x !in b {
        var i :| 0 <= i < |a| && a[i] == x;
        assert c[i] == x;
        assert forall j :: 0 <= j < |b| ==> c[|a| + j] == b[j] && c[|a| + j] != c[i];
      }
    }
    if Distinct(a) && Distinct(b) && forall x :: !(x in a && x in b) {
      forall i, j | 0 <= i < j < |c| ensures c[i] != c[j] {
        if i < |a| <= j {
          assert a[i] in a && b[j - |a|] in b;
        }
      }
    }
  }

  /** Every plugin that declares itself a tool satisfies the tool protocol. */
  method CheckToolProtocolConformance(plugins: PluginMap) returns (ok: bool)
    ensures ok <==> Conforms(plugins)
  {
    var ids := SortedIds(plugins.Keys);
    for k := 0 to |ids|
      invariant forall i :: 0 <= i < k ==> (plugins[ids[i]].manifest.kind.ToolKind? ==> plugins[ids[i]].facet.Some?)
    {
      if plugins[ids[k]].manifest.kind.ToolKind? && plugins[ids[k]].facet.None? {
        return false;
      }
    }
    return true;
  }

  /** Which plugin offers each capability, unless two offers collide. */
  method CapabilityProviders(plugins: PluginMap) returns (providers: Option<map<string, string>>)
    ensures providers.Some? <==> ConflictFree(plugins)
    ensures providers.Some? ==>
      && (forall capability :: capability in providers.value <==> Offered(plugins, capability))
      && forall capability :: capability in providers.value ==>
           Offers(plugins, providers.value[capability], capability)
  {
    hide Distinct, AllOffers, SortedBy, ConflictFree, Offered;
    var ids := SortedIds(plugins.Keys);
    var found: map<string, string> := map[];
    NothingOffered(plugins, ids);
    assert ids[..|ids|] == ids;
    ConflictsEverywhere(plugins, ids);
    for k := 0 to |ids|
      invariant forall id :: id in ids[..k] ==> id in plugins
      invariant found.Keys == Members(AllOffers(plugins, ids[..k])) && Distinct(AllOffers(plugins, ids[..k]))
      invariant forall capability :: capability in found ==> Offers(plugins, found[capability], capability)
    {
      var offers := plugins[ids[k]].manifest.offers;
      ghost var before := AllOffers(plugins, ids[..k]);
      NextOffers(plugins, ids, k);
      for j := 0 to |offers|
        invariant found.Keys == Members(before + offers[..j]) && Distinct(before + offers[..j])
        invariant forall capability :: capability in found ==> Offers(plugins, found[capability], capability)
      {
        NextOffer(before, offers, j);
        if offers[j] in found {
          Collides(plugins, ids, k, j);
          return None;
        }
        found := found[offers[j] := ids[k]];
      }
      assert offers[..|offers|] == offers;
    }
    providers := Some(found);
  }

  ghost function Members(items: seq<string>): set<string> {
    set x | x in items
  }

  lemma NothingOffered(plugins: PluginMap, ids: seq<string>)
    ensures AllOffers(plugins, ids[..0]) == [] && Distinct([]) && Members([]) == {}
  {
  }

  lemma NextOffers(plugins: PluginMap, ids: seq<string>, k: nat)
    requires k < |ids| && forall id :: id in ids ==> id in plugins
    ensures AllOffers(plugins, ids[..k + 1]) == AllOffers(plugins, ids[..k]) + plugins[ids[k]].manifest.offers
    ensures AllOffers(plugins, ids[..k]) + plugins[ids[k]].manifest.offers[..0] == AllOffers(plugins, ids[..k])
  {
    assert ids[..k + 1][..k] == ids[..k];
  }

  lemma NextOffer(before: seq<string>, offers: seq<string>, j: nat)
    requires j < |offers| && Distinct(before + offers[..j])
    ensures Distinct(before + offers[..j + 1]) <==> offers[j] !in before + offers[..j]
    ensures Members(before + offers[..j + 1]) == Members(before + offers[..j]) + {offers[j]}
  {
    assert before + offers[..j + 1] == (before + offers[..j]) + [offers[j]];
    DistinctJoin(before + offers[..j], [offers[j]]);
  }

  lemma ConflictsEverywhere(plugins: PluginMap, ids: seq<string>)
    requires SortedSet(ids, plugins.Keys)
    ensures Distinct(AllOffers(plugins, ids)) <==> ConflictFree(plugins)
    ensures forall capability :: capability in AllOffers(plugins, ids) <==> Offered(plugins, capability)
  {
    hide SortedBy;
    ConflictsShow(plugins, ids);
    AllOffersMembers(plugins, ids);
    forall capability ensures OfferedBy(plugins, ids, capability) <==> Offered(plugins, capability) {
      if Offered(plugins, capability) {
        var id :| Offers(plugins, id, capability);
        assert id in ids;
      }
    }
  }

  /** A repeated offer stays repeated however many offers follow. */
  lemma Collides(plugins: PluginMap, ids: seq<string>, k: nat, j: nat)
    requires k < |ids| && forall id :: id in ids ==> id in plugins
    requires j < |plugins[ids[k]].manifest.offers|
    requires plugins[ids[k]].manifest.offers[j] in AllOffers(plugins, ids[..k]) + plugins[ids[k]].manifest.offers[..j]
    ensures !Distinct(AllOffers(plugins, ids))
  {
    var offers, before := plugins[ids[k]].manifest.offers, AllOffers(plugins, ids[..k]);
    assert ids[..k + 1][..k] == ids[..k];
    var all := AllOffers(plugins, ids[..k + 1]);
    assert all == before + offers;
    var i :| 0 <= i < |before| + j && (before + offers[..j])[i] == offers[j];
    assert all[i] == offers[j] && all[|before| + j] == offers[j];
    OffersExtend(plugins, ids, k + 1);
  }

  lemma {:induction false} OffersExtend(plugins: PluginMap, ids: seq<string>, k: nat)
    requires k <= |ids| && forall id :: id in ids ==> id in plugins
    ensures AllOffers(plugins, ids[..k]) <= AllOffers(plugins, ids)
    decreases |ids|
  {
    if k < |ids| {
      assert ids[..|ids| - 1][..k] == ids[..k];
      OffersExtend(plugins, ids[..|ids| - 1], k);
    } else {
      assert ids[..k] == ids;
    }
  }

  method CheckRequirements(plugins: PluginMap, providers: map<string, string>) returns (ok: bool)
    requires forall capability :: capability in providers <==> Offered(plugins, capability)
    ensures ok <==> NothingMissing(plugins)
  {
    hide Offered, SortedBy, Distinct;
    var ids := SortedIds(plugins.Keys);
    for k := 0 to |ids|
      invariant forall i, capability :: 0 <= i < k && Needs(plugins, ids[i], capability) ==> capability in providers
    {
      var needs := plugins[ids[k]].manifest.needs;
      for j := 0 to |needs|
        invariant forall i :: 0 <= i < j ==> needs[i] in providers
      {
        if needs[j] !in providers {
          assert Needs(plugins, ids[k], needs[j]);
          return false;
        }
      }
    }
    forall id, capability | Needs(plugins, id, capability) ensures Offered(plugins, capability) {
      var i :| 0 <= i < |ids| && ids[i] == id;
      assert capability in providers;
    }
    return true;
  }

  method CheckToolNames(plugins: PluginMap) returns (ok: bool)
    ensures ok <==> ToolNamesDistinct(plugins)
  {
    var ids := SortedIds(plugins.Keys);
    var names: map<string, string> := map[];
    for k := 0 to |ids|
      invariant forall name :: name in names ==>
        names[name] in ids[..k] && ShowsTool(plugins, names[name]) && plugins[names[name]].facet.value.name == name
      invariant forall i :: 0 <= i < k && ShowsTool(plugins, ids[i]) ==>
        plugins[ids[i]].facet.value.name in names && names[plugins[ids[i]].facet.value.name] == ids[i]
    {
      if IsVisibleTool(plugins[ids[k]]) {
        var name := plugins[ids[k]].facet.value.name;
        if name in names {
          assert ids[k] !in ids[..k];
          return false;
        }
        names := names[name := ids[k]];
      }
    }
    forall id, other | ShowsTool(plugins, id) && ShowsTool(plugins, other) && id != other
      ensures plugins[id].facet.value.name != plugins[other].facet.value.name
    {
      assert id in ids && other in ids;
    }
    return true;
  }

  // Layers.

  /** Some listed plugin of depth below `bound` offers this. */
  ghost predicate OfferedBelow(plugins: PluginMap, depth: map<string, nat>, bound: nat, capability: string) {
    exists from :: from in depth && depth[from] < bound && Offers(plugins, from, capability)
  }

  /** Everything a plugin needs is offered by listed plugins of depth below `bound`. */
  ghost predicate FedBelow(plugins: PluginMap, depth: map<string, nat>, bound: nat, id: string) {
    forall capability :: Needs(plugins, id, capability) ==> OfferedBelow(plugins, depth, bound, capability)
  }

  /** Some plugin one step below this depth feeds it. */
  ghost predicate FedAt(plugins: PluginMap, depth: map<string, nat>, id: string, level: nat) {
    level > 0 ==> exists from :: from in depth && Feeds(plugins, from, id) && depth[from] + 1 == level
  }

  /** The first `level` layers are listed: exactly the plugins whose needs are met below. */
  ghost predicate Layered(plugins: PluginMap, order: seq<string>, depth: map<string, nat>, level: nat) {
    && Distinct(order) && depth.Keys <= plugins.Keys
    && (forall id :: id in order <==> id in depth)
    && (forall i, j :: 0 <= i < j < |order| ==> Precedes(depth, order[i], order[j]))
    && (forall id :: id in depth ==> depth[id] < level && FedBelow(plugins, depth, depth[id], id))
    && (forall id :: id in depth ==> FedAt(plugins, depth, id, depth[id]))
    && (level > 0 ==> forall id :: id in plugins && id !in depth ==> !FedBelow(plugins, depth, level - 1, id))
  }

  ghost function Deeper(depth: map<string, nat>, ready: set<string>, level: nat): map<string, nat> {
    map id | id in depth.Keys + ready :: if id in depth then depth[id] else level
  }

  lemma BelowStays(plugins: PluginMap, depth: map<string, nat>, ready: set<string>, level: nat, bound: nat,
                   capability: string)
    requires bound <= level && forall id :: id in depth ==> depth[id] < level
    ensures OfferedBelow(plugins, Deeper(depth, ready, level), bound, capability)
      <==> OfferedBelow(plugins, depth, bound, capability)
  {
    var more := Deeper(depth, ready, level);
    if OfferedBelow(plugins, depth, bound, capability) {
      var from :| from in depth && depth[from] < bound && Offers(plugins, from, capability);
      assert from in more && more[from] < bound;
    }
  }

  lemma FedStays(plugins: PluginMap, depth: map<string, nat>, ready: set<string>, level: nat, bound: nat, id: string)
    requires bound <= level && forall other :: other in depth ==> depth[other] < level
    ensures FedBelow(plugins, Deeper(depth, ready, level), bound, id) <==> FedBelow(plugins, depth, bound, id)
  {
    hide OfferedBelow;
    forall capability
      ensures OfferedBelow(plugins, Deeper(depth, ready, level), bound, capability)
        <==> OfferedBelow(plugins, depth, bound, capability)
    {
      BelowStays(plugins, depth, ready, level, bound, capability);
    }
  }

  lemma FedAtStays(plugins: PluginMap, depth: map<string, nat>, ready: set<string>, level: nat, id: string, at: nat)
    requires FedAt(plugins, depth, id, at)
    ensures FedAt(plugins, Deeper(depth, ready, level), id, at)
  {
    hide Feeds;
    if at > 0 {
      var from :| from in depth && Feeds(plugins, from, id) && depth[from] + 1 == at;
      assert from in Deeper(depth, ready, level);
    }
  }

  /** A plugin first fed at this level is fed by one exactly a level below. */
  lemma NewlyFed(plugins: PluginMap, depth: map<string, nat>, level: nat, id: string)
    requires FedBelow(plugins, depth, level, id)
    requires level > 0 ==> !FedBelow(plugins, depth, level - 1, id)
    ensures FedAt(plugins, depth, id, level)
  {
    if level > 0 {
      var capability :| Needs(plugins, id, capability) && !OfferedBelow(plugins, depth, level - 1, capability);
      assert OfferedBelow(plugins, depth, level, capability);
      var from :| from in depth && depth[from] < level && Offers(plugins, from, capability);
      assert Feeds(plugins, from, id);
    }
  }

  /** What the next layer is: the unlisted plugins whose needs are met. */
  ghost predicate IsReady(plugins: PluginMap, depth: map<string, nat>, level: nat, ready: set<string>) {
    forall id :: id in ready <==> id in plugins && id !in depth && FedBelow(plugins, depth, level, id)
  }

  lemma LayerAdds(plugins: PluginMap, order: seq<string>, depth: map<string, nat>, level: nat, ready: set<string>,
                  layer: seq<string>)
    requires Layered(plugins, order, depth, level) && IsReady(plugins, depth, level, ready) && SortedSet(layer, ready)
    ensures Layered(plugins, order + layer, Deeper(depth, ready, level), level + 1)
  {
    hide FedBelow, FedAt, Feeds;
    var more, all := Deeper(depth, ready, level), order + layer;
    LayerOrders(plugins, order, depth, level, ready, layer);
    forall id | id in more
      ensures more[id] < level + 1 && FedBelow(plugins, more, more[id], id) && FedAt(plugins, more, id, more[id])
    {
      FedStays(plugins, depth, ready, level, more[id], id);
      if id !in depth {
        NewlyFed(plugins, depth, level, id);
      }
      FedAtStays(plugins, depth, ready, level, id, more[id]);
    }
    forall id | id in plugins && id !in more ensures !FedBelow(plugins, more, level, id) {
      FedStays(plugins, depth, ready, level, level, id);
    }
  }

  lemma LayerOrders(plugins: PluginMap, order: seq<string>, depth: map<string, nat>, level: nat, ready: set<string>,
                    layer: seq<string>)
    requires Distinct(order) && (forall id :: id in order <==> id in depth)
    requires forall i, j :: 0 <= i < j < |order| ==> Precedes(depth, order[i], order[j])
    requires (forall id :: id in depth ==> depth[id] < level) && ready !! depth.Keys && SortedSet(layer, ready)
    ensures Distinct(order + layer)
    ensures forall id :: id in order + layer <==> id in Deeper(depth, ready, level)
    ensures forall i, j :: 0 <= i < j < |order + layer| ==>
      Precedes(Deeper(depth, ready, level), (order + layer)[i], (order + layer)[j])
  {
    DistinctJoin(order, layer);
    var more, all := Deeper(depth, ready, level), order + layer;
    forall i, j | 0 <= i < j < |all| ensures Precedes(more, all[i], all[j]) {
      if j < |order| {
        assert Precedes(depth, order[i], order[j]);
      } else {
        assert layer[j - |order|] in ready;
        if i < |order| {
          assert order[i] in depth;
        } else {
          assert layer[i - |order|] in ready;
        }
      }
    }
  }

  lemma LayeredDepth(plugins: PluginMap, order: seq<string>, depth: map<string, nat>, level: nat)
    requires Layered(plugins, order, depth, level) && depth.Keys == plugins.Keys && ConflictFree(plugins)
    ensures ByDepth(plugins, order, depth)
  {
    forall from, to | Feeds(plugins, from, to) ensures depth[from] < depth[to] {
      var capability :| Offers(plugins, from, capability) && Needs(plugins, to, capability);
      assert OfferedBelow(plugins, depth, depth[to], capability);
    }
    forall to | to in depth && depth[to] > 0
      ensures exists from :: Feeds(plugins, from, to) && from in depth && depth[from] + 1 == depth[to]
    {
      assert FedAt(plugins, depth, to, depth[to]);
    }
  }

  /** A list by depth in which every need is offered at a lower depth meets every dependency. */
  lemma ByDepthMeetsNeeds(plugins: PluginMap, order: seq<string>, depth: map<string, nat>)
    requires ByDepth(plugins, order, depth) && forall id :: id in depth ==> FedBelow(plugins, depth, depth[id], id)
    ensures DependencyOrder(plugins, order)
  {
    hide IsDepth;
    assert depth.Keys == plugins.Keys by { DepthKeys(plugins, depth); }
    forall k, capability | 0 <= k < |order| && Needs(plugins, order[k], capability)
      ensures exists j :: 0 <= j < k && Offers(plugins, order[j], capability)
    {
      assert OfferedBelow(plugins, depth, depth[order[k]], capability);
      var from :| from in depth && depth[from] < depth[order[k]] && Offers(plugins, from, capability);
      assert from in order;
      var j :| 0 <= j < |order| && order[j] == from;
    }
  }

  lemma DepthKeys(plugins: PluginMap, depth: map<string, nat>)
    requires IsDepth(plugins, depth)
    ensures depth.Keys == plugins.Keys
  {
  }

  /** When every plugin is listed, the list is the resolution. */
  lemma LayeredResolves(plugins: PluginMap, order: seq<string>, depth: map<string, nat>, level: nat)
    requires Layered(plugins, order, depth, level) && depth.Keys == plugins.Keys && ConflictFree(plugins)
    ensures IsResolution(plugins, order)
  {
    hide ByDepth, DependencyOrder, FedBelow;
    LayeredDepth(plugins, order, depth, level);
    ByDepthMeetsNeeds(plugins, order, depth);
  }

  /** Any order that meets every dependency shows an unlisted plugin whose needs are met. */
  lemma OrderShowsReady(plugins: PluginMap, depth: map<string, nat>, level: nat, any: seq<string>) returns (id: string)
    requires DependencyOrder(plugins, any) && depth.Keys <= plugins.Keys && depth.Keys != plugins.Keys
    requires forall id :: id in depth ==> depth[id] < level
    ensures id in plugins && id !in depth && FedBelow(plugins, depth, level, id)
  {
    var unlisted :| unlisted in plugins && unlisted !in depth;
    assert unlisted in any;
    var k := FirstUnlisted(any, depth, unlisted);
    id := any[k];
    forall capability | Needs(plugins, id, capability) ensures OfferedBelow(plugins, depth, level, capability) {
      var j :| 0 <= j < k && Offers(plugins, any[j], capability);
      assert any[j] in depth;
    }
  }

  /** When no further plugin is ready, no order meets every dependency. */
  lemma StuckMeansCycle(plugins: PluginMap, order: seq<string>, depth: map<string, nat>, level: nat, any: seq<string>)
    requires Layered(plugins, order, depth, level) && IsReady(plugins, depth, level, {})
    requires depth.Keys != plugins.Keys
    ensures !DependencyOrder(plugins, any)
  {
    hide DependencyOrder, FedBelow;
    if DependencyOrder(plugins, any) {
      var id := OrderShowsReady(plugins, depth, level, any);
    }
  }

  lemma FirstUnlisted(any: seq<string>, depth: map<string, nat>, id: string) returns (k: nat)
    requires id in any && id !in depth
    ensures k < |any| && any[k] !in depth && forall j :: 0 <= j < k ==> any[j] in depth
  {
    k := 0;
    while k < |any| && any[k] in depth
      invariant k <= |any| && forall j :: 0 <= j < k ==> any[j] in depth
    {
      k := k + 1;
    }
  }

  /** What the plugins of a layer still need, tested against the capabilities satisfied so far. */
  predicate NeedsMet(plugins: PluginMap, id: string, satisfied: set<string>)
    requires id in plugins
  {
    forall k :: 0 <= k < |plugins[id].manifest.needs| ==> plugins[id].manifest.needs[k] in satisfied
  }

  /** The capabilities the listed plugins offer. */
  ghost predicate Satisfies(plugins: PluginMap, order: seq<string>, satisfied: set<string>) {
    forall capability :: capability in satisfied <==> OfferedBy(plugins, order, capability)
  }

  lemma ReadyIs(plugins: PluginMap, order: seq<string>, depth: map<string, nat>, level: nat, satisfied: set<string>,
                listed: seq<Plugin>, remaining: set<string>, ready: set<string>)
    requires Layered(plugins, order, depth, level) && Listing(plugins, order, satisfied, listed)
    requires remaining == plugins.Keys - depth.Keys
    requires ready == ReadyIn(plugins, remaining, satisfied)
    ensures IsReady(plugins, depth, level, ready)
  {
    forall capability ensures capability in satisfied <==> OfferedBelow(plugins, depth, level, capability) {
      if OfferedBelow(plugins, depth, level, capability) {
        var from :| from in depth && depth[from] < level && Offers(plugins, from, capability);
        assert from in order;
      }
      if OfferedBy(plugins, order, capability) {
        var from :| from in order && Offers(plugins, from, capability);
        assert from in depth && depth[from] < level;
      }
    }
    forall id | id in plugins ensures NeedsMet(plugins, id, satisfied) <==> FedBelow(plugins, depth, level, id) {
      var needs := plugins[id].manifest.needs;
      if FedBelow(plugins, depth, level, id) {
        forall k | 0 <= k < |needs| ensures needs[k] in satisfied {
          assert Needs(plugins, id, needs[k]);
        }
      }
    }
  }

  /** Everything the resolver carries about the plugins listed so far. */
  ghost predicate Listing(plugins: PluginMap, order: seq<string>, satisfied: set<string>, listed: seq<Plugin>) {
    && Satisfies(plugins, order, satisfied) && (forall id :: id in order ==> id in plugins)
    && listed == Pick(plugins, order)
  }

  function Capabilities(plugin: Plugin): set<string> {
    set c | c in plugin.manifest.offers
  }

  lemma ListingNext(plugins: PluginMap, order: seq<string>, satisfied: set<string>, listed: seq<Plugin>, id: string)
    requires Listing(plugins, order, satisfied, listed) && id in plugins
    ensures Listing(plugins, order + [id], satisfied + Capabilities(plugins[id]), listed + [plugins[id]])
  {
    forall capability
      ensures capability in satisfied + Capabilities(plugins[id]) <==> OfferedBy(plugins, order + [id], capability)
    {
      OfferedByMore(plugins, order, id, capability);
    }
  }

  /** Append one layer to the list, in id order. */
  method ListLayer(plugins: PluginMap, layer: seq<string>, listed: seq<Plugin>, satisfied: set<string>,
                   remaining: set<string>, ghost order: seq<string>)
    returns (nowListed: seq<Plugin>, nowSatisfied: set<string>, nowRemaining: set<string>)
    requires Listing(plugins, order, satisfied, listed) && forall id :: id in layer ==> id in plugins
    ensures Listing(plugins, order + layer, nowSatisfied, nowListed)
    ensures nowRemaining == remaining - Members(layer)
  {
    hide Listing;
    nowListed, nowSatisfied, nowRemaining := listed, satisfied, remaining;
    assert order + layer[..0] == order;
    for k := 0 to |layer|
      invariant Listing(plugins, order + layer[..k], nowSatisfied, nowListed)
      invariant nowRemaining == remaining - Members(layer[..k])
    {
      var plugin := plugins[layer[k]];
      ListingNext(plugins, order + layer[..k], nowSatisfied, nowListed, layer[k]);
      assert order + layer[..k + 1] == (order + layer[..k]) + [layer[k]];
      assert Members(layer[..k + 1]) == Members(layer[..k]) + {layer[k]};
      nowListed := nowListed + [plugin];
      nowSatisfied := nowSatisfied + Capabilities(plugin);
      nowRemaining := nowRemaining - {layer[k]};
    }
    assert layer[..|layer|] == layer;
  }

  /** The remaining plugins whose needs are met. */
  function ReadyIn(plugins: PluginMap, remaining: set<string>, satisfied: set<string>): set<string>
    requires remaining <= plugins.Keys
  {
    set id | id in remaining && NeedsMet(plugins, id, satisfied)
  }

  /** Everything the resolver keeps between layers. */
  ghost predicate Progress(plugins: PluginMap, order: seq<string>, depth: map<string, nat>, level: nat,
                           listed: seq<Plugin>, satisfied: set<string>, remaining: set<string>)
  {
    && Layered(plugins, order, depth, level) && Listing(plugins, order, satisfied, listed)
    && remaining == plugins.Keys - depth.Keys && depth.Keys <= plugins.Keys
  }

  /** Order the plugins layer by layer; `None` when a dependency cycle remains. */
  method ResolveLayers(plugins: PluginMap) returns (resolved: Option<seq<Plugin>>, ghost order: seq<string>)
    requires ConflictFree(plugins)
    ensures resolved.Some? ==>
      && IsResolution(plugins, order) && (forall id :: id in order ==> id in plugins)
      && resolved.value == Pick(plugins, order)
    ensures resolved.None? ==> forall any :: !DependencyOrder(plugins, any)
  {
    hide ConflictFree, Progress, ReadyIn, DependencyOrder, IsResolution, Pick;
    var remaining, satisfied: set<string> := plugins.Keys, {};
    var listed: seq<Plugin> := [];
    ghost var depth: map<string, nat>, level: nat := map[], 0;
    order := [];
    NothingListed(plugins);
    while remaining != {}
      invariant Progress(plugins, order, depth, level, listed, satisfied, remaining) && remaining <= plugins.Keys
      decreases |remaining|
    {
      var ready := ReadyIn(plugins, remaining, satisfied);
      if ready == {} {
        NoOrderLeft(plugins, order, depth, level, listed, satisfied, remaining);
        return None, order;
      }
      listed, satisfied, remaining, order, depth :=
        ListReady(plugins, listed, satisfied, remaining, ready, order, depth, level);
      level := level + 1;
    }
    ProgressResolves(plugins, order, depth, level, listed, satisfied);
    resolved := Some(listed);
  }

  /** List one layer of ready plugins. */
  method ListReady(plugins: PluginMap, listed: seq<Plugin>, satisfied: set<string>, remaining: set<string>,
                   ready: set<string>, ghost order: seq<string>, ghost depth: map<string, nat>, ghost level: nat)
    returns (nowListed: seq<Plugin>, nowSatisfied: set<string>, nowRemaining: set<string>,
             ghost nowOrder: seq<string>, ghost nowDepth: map<string, nat>)
    requires Progress(plugins, order, depth, level, listed, satisfied, remaining) && remaining <= plugins.Keys
    requires ready == ReadyIn(plugins, remaining, satisfied) && ready != {} && ConflictFree(plugins)
    ensures Progress(plugins, nowOrder, nowDepth, level + 1, nowListed, nowSatisfied, nowRemaining)
    ensures nowRemaining <= plugins.Keys && |nowRemaining| < |remaining|
  {
    hide ConflictFree, Progress, Listing, SortedSet, ReadyIn, Deeper, Members;
    var layer := SortedIds(ready);
    LayerNamed(plugins, layer, ready, remaining, satisfied);
    ProgressListing(plugins, order, depth, level, listed, satisfied, remaining);
    nowListed, nowSatisfied, nowRemaining := ListLayer(plugins, layer, listed, satisfied, remaining, order);
    nowOrder, nowDepth := order + layer, Deeper(depth, ready, level);
    RemainingShrinks(remaining, ready);
    LayerProgress(plugins, order, depth, level, listed, satisfied, remaining, ready, layer, nowListed, nowSatisfied);
  }

  lemma LayerNamed(plugins: PluginMap, layer: seq<string>, ready: set<string>, remaining: set<string>,
                   satisfied: set<string>)
    requires remaining <= plugins.Keys && ready == ReadyIn(plugins, remaining, satisfied) && SortedSet(layer, ready)
    ensures ready <= remaining && Members(layer) == ready && forall id :: id in layer ==> id in plugins
  {
    hide NeedsMet;
  }

  lemma ProgressListing(plugins: PluginMap, order: seq<string>, depth: map<string, nat>, level: nat,
                        listed: seq<Plugin>, satisfied: set<string>, remaining: set<string>)
    requires Progress(plugins, order, depth, level, listed, satisfied, remaining)
    ensures Listing(plugins, order, satisfied, listed)
  {
  }

  lemma LayerProgress(plugins: PluginMap, order: seq<string>, depth: map<string, nat>, level: nat,
                      listed: seq<Plugin>, satisfied: set<string>, remaining: set<string>, ready: set<string>,
                      layer: seq<string>, nowListed: seq<Plugin>, nowSatisfied: set<string>)
    requires Progress(plugins, order, depth, level, listed, satisfied, remaining) && remaining <= plugins.Keys
    requires ready == ReadyIn(plugins, remaining, satisfied) && ready != {} && ConflictFree(plugins)
    requires SortedSet(layer, ready) && ready <= remaining
    requires Listing(plugins, order + layer, nowSatisfied, nowListed)
    ensures Progress(plugins, order + layer, Deeper(depth, ready, level), level + 1, nowListed, nowSatisfied,
                     remaining - ready)
  {
    hide ConflictFree, Layered, IsReady, Listing, SortedSet, ReadyIn, Deeper;
    ReadyIs(plugins, order, depth, level, satisfied, listed, remaining, ready);
    LayerAdds(plugins, order, depth, level, ready, layer);
    DeeperKeys(depth, ready, level);
  }

  lemma DeeperKeys(depth: map<string, nat>, ready: set<string>, level: nat)
    ensures Deeper(depth, ready, level).Keys == depth.Keys + ready
  {
  }

  lemma NoOrderLeft(plugins: PluginMap, order: seq<string>, depth: map<string, nat>, level: nat,
                    listed: seq<Plugin>, satisfied: set<string>, remaining: set<string>)
    requires Progress(plugins, order, depth, level, listed, satisfied, remaining) && remaining <= plugins.Keys
    requires ReadyIn(plugins, remaining, satisfied) == {} && remaining != {}
    ensures forall any :: !DependencyOrder(plugins, any)
  {
    hide Layered, IsReady, Listing, NeedsMet, DependencyOrder;
    ReadyIs(plugins, order, depth, level, satisfied, listed, remaining, {});
    forall any ensures !DependencyOrder(plugins, any) {
      StuckMeansCycle(plugins, order, depth, level, any);
    }
  }

  lemma ProgressResolves(plugins: PluginMap, order: seq<string>, depth: map<string, nat>, level: nat,
                         listed: seq<Plugin>, satisfied: set<string>)
    requires Progress(plugins, order, depth, level, listed, satisfied, {}) && ConflictFree(plugins)
    ensures IsResolution(plugins, order) && (forall id :: id in order ==> id in plugins)
    ensures listed == Pick(plugins, order)
  {
    hide Layered, Listing, IsResolution, ConflictFree, Pick;
    assert forall id :: id in plugins.Keys - depth.Keys <==> id in plugins && id !in depth;
    assert depth.Keys == plugins.Keys;
    LayeredResolves(plugins, order, depth, level);
    ListingPicks(plugins, order, satisfied, listed);
  }

  lemma ListingPicks(plugins: PluginMap, order: seq<string>, satisfied: set<string>, listed: seq<Plugin>)
    requires Listing(plugins, order, satisfied, listed)
    ensures (forall id :: id in order ==> id in plugins) && listed == Pick(plugins, order)
  {
  }

  lemma NothingListed(plugins: PluginMap)
    ensures Progress(plugins, [], map[], 0, [], {}, plugins.Keys)
  {
  }

  lemma RemainingShrinks(left: set<string>, ready: set<string>)
    requires ready <= left && ready != {}
    ensures |left - ready| < |left|
  {
    var id :| id in ready;
    assert |left - ready| == |left| - |ready|;
  }

  // The registry.

  /** Every check passes and some order meets every dependency. */
  ghost predicate Resolvable(plugins: PluginMap) {
    && Conforms(plugins) && ConflictFree(plugins) && NothingMissing(plugins) && ToolNamesDistinct(plugins)
    && exists order :: DependencyOrder(plugins, order)
  }

  /** The refusal a set of plugins meets, in the order of the checks. */
  ghost predicate IsRefusal(plugins: PluginMap, e: RegistryError) {
    e == if !Conforms(plugins) then NotATool
         else if !ConflictFree(plugins) then CapabilityConflict
         else if !NothingMissing(plugins) then MissingCapability
         else if !ToolNamesDistinct(plugins) then DuplicateToolName
         else DependencyCycle
  }

  ghost predicate Resolves(plugins: PluginMap, resolved: seq<Plugin>) {
    exists order ::
      IsResolution(plugins, order) && (forall id :: id in order ==> id in plugins) && resolved == Pick(plugins, order)
  }

  /** A check that fails, once those before it passed, refuses the set. */
  lemma CheckRefuses(plugins: PluginMap, e: RegistryError)
    requires match e
      case NotATool => !Conforms(plugins)
      case CapabilityConflict => Conforms(plugins) && !ConflictFree(plugins)
      case MissingCapability => Conforms(plugins) && ConflictFree(plugins) && !NothingMissing(plugins)
      case DuplicateToolName =>
        Conforms(plugins) && ConflictFree(plugins) && NothingMissing(plugins) && !ToolNamesDistinct(plugins)
      case _ => false
    ensures !Resolvable(plugins) && IsRefusal(plugins, e)
  {
    hide Conforms, ConflictFree, NothingMissing, ToolNamesDistinct, DependencyOrder;
  }

  /** Once every check passed, the layers decide. */
  lemma LayersDecide(plugins: PluginMap, listed: Option<seq<Plugin>>, order: seq<string>)
    requires Conforms(plugins) && ConflictFree(plugins) && NothingMissing(plugins) && ToolNamesDistinct(plugins)
    requires listed.Some? ==>
      && IsResolution(plugins, order) && (forall id :: id in order ==> id in plugins)
      && listed.value == Pick(plugins, order)
    requires listed.None? ==> forall any :: !DependencyOrder(plugins, any)
    ensures listed.Some? ==> Resolvable(plugins) && Resolves(plugins, listed.value)
    ensures listed.None? ==> !Resolvable(plugins) && IsRefusal(plugins, DependencyCycle)
  {
    hide Conforms, ConflictFree, NothingMissing, ToolNamesDistinct, DependencyOrder, Pick, ByDepth;
  }

  /** Run the checks in their order, then order the plugins layer by layer. */
  method ResolveAll(plugins: PluginMap) returns (r: Resolution)
    requires forall id :: id in plugins ==> plugins[id].manifest.id == id
    ensures r.Resolved? <==> Resolvable(plugins)
    ensures if r.Resolved? then Resolves(plugins, r.plugins) else IsRefusal(plugins, r.error)
  {
    hide Conforms, ConflictFree, NothingMissing, ToolNamesDistinct, Resolvable, Resolves, IsRefusal;
    hide DependencyOrder, IsResolution, Pick;
    var conforms := CheckToolProtocolConformance(plugins);
    if !conforms {
      CheckRefuses(plugins, NotATool);
      return Refused(NotATool);
    }
    var providers := CapabilityProviders(plugins);
    if providers.None? {
      CheckRefuses(plugins, CapabilityConflict);
      return Refused(CapabilityConflict);
    }
    var met := CheckRequirements(plugins, providers.value);
    if !met {
      CheckRefuses(plugins, MissingCapability);
      return Refused(MissingCapability);
    }
    var named := CheckToolNames(plugins);
    if !named {
      CheckRefuses(plugins, DuplicateToolName);
      return Refused(DuplicateToolName);
    }
    var listed, order := ResolveLayers(plugins);
    LayersDecide(plugins, listed, order);
    if listed.None? {
      return Refused(DependencyCycle);
    }
    return Resolved(listed.value);
  }

  class PluginRegistry {
    const allowedIds: set<string>
    var plugins: PluginMap
    var resolved: Option<seq<Plugin>>

    constructor (allowedIds: set<string>)
      ensures this.allowedIds == allowedIds && plugins == map[] && resolved.None? && Valid()
    {
      this.allowedIds, plugins, resolved := allowedIds, map[], None;
    }

    /** Only allow-listed plugins, each under its own id; a resolved registry holds its one resolution. */
    ghost predicate Valid()
      reads this
    {
      && (forall id :: id in plugins ==> id in allowedIds && plugins[id].manifest.id == id)
      && (resolved.Some? ==> Resolvable(plugins) && Resolves(plugins, resolved.value))
    }

    /** Accept one allow-listed plugin under a new id; a resolved registry accepts none. */
    method Register(plugin: Plugin) returns (e: Option<RegistryError>)
      requires Valid()
      modifies this`plugins
      ensures Valid()
      ensures e == (if resolved.Some? then Some(AlreadyResolved)
                    else if plugin.manifest.id !in allowedIds then Some(NotAllowed)
                    else if plugin.manifest.id in old(plugins) then Some(AlreadyRegistered)
                    else None)
      ensures plugins == if e.None? then old(plugins)[plugin.manifest.id := plugin] else old(plugins)
    {
      if resolved.Some? {
        return Some(AlreadyResolved);
      }
      if plugin.manifest.id !in allowedIds {
        return Some(NotAllowed);
      }
      if plugin.manifest.id in plugins {
        return Some(AlreadyRegistered);
      }
      plugins := plugins[plugin.manifest.id := plugin];
      return None;
    }

    /** Resolve once: succeeds exactly when the set is resolvable, and then always with the same plugins. */
    method Resolve() returns (r: Resolution)
      requires Valid()
      modifies this`resolved
      ensures Valid()
      ensures r.Resolved? <==> Resolvable(plugins)
      ensures r.Resolved? ==> resolved == Some(r.plugins) && Resolves(plugins, r.plugins)
      ensures r.Refused? ==> resolved == old(resolved) && IsRefusal(plugins, r.error)
      ensures old(resolved).Some? ==> r == Resolved(old(resolved).value) && resolved == old(resolved)
    {
      hide Conforms, ConflictFree, NothingMissing, ToolNamesDistinct, Resolvable, Resolves, IsRefusal;
      if resolved.Some? {
        return Resolved(resolved.value);
      }
      r := ResolveAll(plugins);
      if r.Resolved? {
        resolved := Some(r.plugins);
      }
    }

    /** Resolve one visible tool by its name, in a resolved registry only. */
    method ToolNamed(name: string) returns (r: Option<ToolFacet>)
      requires Valid()
      ensures resolved.None? ==> r.None?
      ensures resolved.Some? ==> r == ToolByName(resolved.value, name)
      ensures resolved.Some? ==> forall id :: ShowsTool(plugins, id) ==>
        (plugins[id].facet.value.name == name ==> r == plugins[id].facet)
      ensures r.Some? ==> exists id :: ShowsTool(plugins, id) && r == plugins[id].facet && r.value.name == name
    {
      if resolved.None? {
        return None;
      }
      r := ToolByName(resolved.value, name);
      VisibleToolFound(plugins, resolved.value, name);
    }
  }

  /** A resolution is the same list however the plugins were registered. */
  lemma ResolvesUnique(plugins: PluginMap, a: seq<Plugin>, b: seq<Plugin>)
    requires Resolves(plugins, a) && Resolves(plugins, b)
    ensures a == b
  {
    hide IsResolution;
    var order :| IsResolution(plugins, order) && (forall id :: id in order ==> id in plugins)
                 && a == Pick(plugins, order);
    var other :| IsResolution(plugins, other) && (forall id :: id in other ==> id in plugins)
                 && b == Pick(plugins, other);
    ResolutionUnique(plugins, order, other);
  }

  lemma {:induction false} ToolByNameFinds(resolved: seq<Plugin>, name: string)
    ensures ToolByName(resolved, name).Some? ==>
      exists k :: 0 <= k < |resolved| && IsVisibleTool(resolved[k]) && resolved[k].facet.value.name == name
                  && ToolByName(resolved, name) == resolved[k].facet
    ensures ToolByName(resolved, name).None? ==>
      forall k :: 0 <= k < |resolved| && IsVisibleTool(resolved[k]) ==> resolved[k].facet.value.name != name
  {
    if |resolved| > 0 && !(IsVisibleTool(resolved[0]) && resolved[0].facet.value.name == name) {
      ToolByNameFinds(resolved[1..], name);
      assert forall k :: 0 <= k < |resolved| - 1 ==> resolved[1..][k] == resolved[k + 1];
    }
  }

  /** A resolution shows exactly the visible tools of the set. */
  lemma ResolvedShows(plugins: PluginMap, resolved: seq<Plugin>)
    requires Resolves(plugins, resolved)
    ensures forall k :: 0 <= k < |resolved| && IsVisibleTool(resolved[k]) ==>
      exists id :: ShowsTool(plugins, id) && plugins[id] == resolved[k]
    ensures forall id :: ShowsTool(plugins, id) ==> exists k :: 0 <= k < |resolved| && resolved[k] == plugins[id]
  {
    hide ByDepth;
    var order :| IsResolution(plugins, order) && (forall id :: id in order ==> id in plugins)
                 && resolved == Pick(plugins, order);
    forall k | 0 <= k < |resolved| && IsVisibleTool(resolved[k])
      ensures exists id :: ShowsTool(plugins, id) && plugins[id] == resolved[k]
    {
      assert ShowsTool(plugins, order[k]);
    }
    forall id | ShowsTool(plugins, id) ensures exists k :: 0 <= k < |resolved| && resolved[k] == plugins[id] {
      assert id in order;
      var k :| 0 <= k < |order| && order[k] == id;
      assert resolved[k] == plugins[id];
    }
  }

  /** In a resolved registry a tool's name finds that tool and no other. */
  lemma VisibleToolFound(plugins: PluginMap, resolved: seq<Plugin>, name: string)
    requires Resolvable(plugins) && Resolves(plugins, resolved)
    ensures forall id :: ShowsTool(plugins, id) ==>
      (plugins[id].facet.value.name == name ==> ToolByName(resolved, name) == plugins[id].facet)
    ensures ToolByName(resolved, name).Some? ==>
      exists id :: ShowsTool(plugins, id) && ToolByName(resolved, name) == plugins[id].facet
                   && plugins[id].facet.value.name == name
  {
    hide Resolves, Conforms, ConflictFree, NothingMissing, DependencyOrder, ToolByName;
    ToolByNameFinds(resolved, name);
    ResolvedShows(plugins, resolved);
    forall id | ShowsTool(plugins, id) && plugins[id].facet.value.name == name
      ensures ToolByName(resolved, name) == plugins[id].facet
    {
      var k :| 0 <= k < |resolved| && resolved[k] == plugins[id];
    }
  }
}
