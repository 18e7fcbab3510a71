/** Dependencies between sites: unavailable sites, evaluation order and root causes. */
module SiteTopology {
  import opened Ids
  import opened Graphs
  import opened Topology
  import Config
  import Contract

  const STATUS_UNKNOWN := 0
  const STATUS_HEALTHY := 1
  const STATUS_WARNING := 2
  const STATUS_CRITICAL := 3

  datatype DeviceProjection = DeviceProjection(
    status: int,
    statusReason: string,
    failureCount: Option<int>,
    upstreamDeviceIDs: seq<Id>,
    unavailableUpstreamIDs: seq<Id>,
    rootCauseDeviceIDs: seq<Id>,
    alertsEnabled: bool)

  datatype Counts = Counts(healthy: int, warning: int, critical: int, unknown: int, dependencyImpacted: int)

  datatype SiteNode = SiteNode(name: Id, upstreamSiteIDs: seq<Id>, hubDeviceIDs: seq<Id>)

  datatype SiteDevice = SiteDevice(inventoryDeviceID: Id, projection: DeviceProjection)

  datatype SiteRawHealth = SiteRawHealth(devices: seq<SiteDevice>, counts: Counts)

  type SiteIndex = map<Id, SiteNode>
  type RawHealth = map<Id, SiteRawHealth>

  const NO_HEALTH := SiteRawHealth([], Counts(0, 0, 0, 0, 0))

  /** Missing keys read as empty values. */
  function NodeOf(index: SiteIndex, name: Id): SiteNode {
    if name in index then index[name] else SiteNode("", [], [])
  }

  function RawOf(raw: RawHealth, name: Id): SiteRawHealth {
    if name in raw then raw[name] else NO_HEALTH
  }

  predicate IsDirectFailureReason(reason: string) {
    ToLower(Contract.Trim(reason)) in {"direct_unreachable", "poll_failed", ""}
  }

  predicate IsDirectCritical(p: DeviceProjection) {
    p.status == STATUS_CRITICAL && IsDirectFailureReason(p.statusReason)
  }

  predicate HubFailed(raw: SiteRawHealth, hubs: seq<Id>) {
    exists i :: 0 <= i < |raw.devices| && raw.devices[i].inventoryDeviceID in hubs
      && IsDirectCritical(raw.devices[i].projection)
  }

  /** Judged by its hub devices when it has some, otherwise by its counts. */
  predicate SiteUnavailable(raw: SiteRawHealth, node: SiteNode) {
    if node.hubDeviceIDs != [] then HubFailed(raw, node.hubDeviceIDs) else raw.counts.critical > 0
  }

  predicate Unavailable(raw: RawHealth, index: SiteIndex, name: Id) {
    SiteUnavailable(RawOf(raw, name), NodeOf(index, name))
  }

  predicate HasFailed(d: SiteDevice) {
    IsDirectCritical(d.projection) || d.projection.status == STATUS_UNKNOWN
  }

  function Failures(devices: seq<SiteDevice>): nat {
    if devices == [] then 0
    else Failures(devices[..|devices| - 1]) + if HasFailed(devices[|devices| - 1]) then 1 else 0
  }

  /** Most of the site's devices failed. */
  method ShowsCascadeSignature(raw: SiteRawHealth) returns (b: bool)
    ensures b == Cascades(raw)
  {
    if |raw.devices| == 0 { return false; }
    var failed := 0;
    var i := 0;
    while i < |raw.devices|
      invariant 0 <= i <= |raw.devices| && failed == Failures(raw.devices[..i])
    {
      SplitAt(raw.devices, i);
      if HasFailed(raw.devices[i]) { failed := failed + 1; }
      i := i + 1;
    }
    assert raw.devices[..i] == raw.devices;
    b := failed * 2 > |raw.devices|;
  }

  predicate Cascades(raw: SiteRawHealth) {
    Failures(raw.devices) * 2 > |raw.devices|
  }

  // ---- The evaluation order ----

  function Upstreams(index: SiteIndex, name: Id): seq<Id> {
    NodeOf(index, name).upstreamSiteIDs
  }

  /** Index keys and every site some key names as upstream. */
  ghost function Nodes(index: SiteIndex): set<Id> {
    index.Keys + set a, u | a in index.Keys && u in index[a].upstreamSiteIDs :: u
  }

  ghost function SiteGraph(index: SiteIndex): Graph {
    map x | x in Nodes(index) :: Upstreams(index, x)
  }

  lemma SiteGraphEdge(index: SiteIndex, a: Id, u: Id)
    requires a in SiteGraph(index)
    ensures u in Upstreams(index, a) <==> Edge(SiteGraph(index), a, u)
  {
  }

  /** The upstreams of finished sites have been visited. */
  predicate Expanded(index: SiteIndex, visited: set<Id>, out: seq<Id>) {
    forall x, u :: x in out && u in Upstreams(index, x) ==> u in visited
  }

  lemma ExpandedMore(index: SiteIndex, visited: set<Id>, more: set<Id>, out: seq<Id>)
    requires Expanded(index, visited, out) && visited <= more
    ensures Expanded(index, more, out)
  {
  }

  lemma ExpandedAppend(index: SiteIndex, visited: set<Id>, out: seq<Id>, id: Id)
    requires Expanded(index, visited, out)
    requires forall k :: 0 <= k < |Upstreams(index, id)| ==> Upstreams(index, id)[k] in visited
    ensures Expanded(index, visited, out + [id])
  {
  }

  lemma StepShrinksRest(all: set<Id>, visited: set<Id>, id: Id)
    requires id in all && id !in visited
    ensures |all - (visited + {id})| < |all - visited|
  {
    assert id in all - visited;
    SubsetCard(all - (visited + {id}), all - visited);
  }

  /** `path` holds the sites whose visit is under way. */
  ghost predicate Ordering(index: SiteIndex, visited: set<Id>, out: seq<Id>, path: seq<Id>) {
    && Partition(visited, out, path) && visited <= Nodes(index)
    && OnWalk(index, path) && OutInOrder(index, out) && Expanded(index, visited, out)
  }

  predicate Partition(visited: set<Id>, out: seq<Id>, path: seq<Id>) {
    NoDup(path) && NoDup(out) && Elems(path) !! Elems(out) && visited == Elems(path) + Elems(out)
  }

  ghost predicate OnWalk(index: SiteIndex, path: seq<Id>) {
    path != [] ==> IsPath(SiteGraph(index), path)
  }

  ghost predicate OutInOrder(index: SiteIndex, out: seq<Id>) {
    !Cyclic(SiteGraph(index)) ==> UpstreamFirst(SiteGraph(index), out)
  }

  lemma PartitionEnter(visited: set<Id>, out: seq<Id>, path: seq<Id>, id: Id)
    requires Partition(visited, out, path) && id !in visited
    ensures Partition(visited + {id}, out, path + [id])
  {
    NoDupAppend(path, id);
    ElemsAppend(path, id);
    assert id !in Elems(path);
  }

  lemma PartitionLeave(visited: set<Id>, out: seq<Id>, path: seq<Id>, id: Id)
    requires Partition(visited, out, path + [id])
    ensures Partition(visited, out + [id], path) && id !in out
    ensures Elems(out + [id]) == Elems(out) + {id}
  {
    NoDupAppend(path, id);
    ElemsAppend(path, id);
    ElemsAppend(out, id);
    assert id !in Elems(out);
    NoDupAppend(out, id);
    assert id !in Elems(path);
  }

  lemma OrderingEnter(index: SiteIndex, visited: set<Id>, out: seq<Id>, path: seq<Id>, id: Id)
    requires Ordering(index, visited, out, path) && id in Nodes(index) && id !in visited
    requires path != [] ==> Edge(SiteGraph(index), path[|path| - 1], id)
    ensures Ordering(index, visited + {id}, out, path + [id])
  {
    hide Nodes, SiteGraph, Cyclic, Edge, UpstreamFirst, IsPath, Expanded, Partition;
    PartitionEnter(visited, out, path, id);
    Walked(index, id, path);
    ExpandedMore(index, visited, visited + {id}, out);
  }

  lemma Walked(index: SiteIndex, id: Id, path: seq<Id>)
    requires OnWalk(index, path) && (path != [] ==> Edge(SiteGraph(index), path[|path| - 1], id))
    ensures OnWalk(index, path + [id])
  {
    if path != [] { PathExtend(SiteGraph(index), path, id); }
  }

  lemma ShorterWalk(index: SiteIndex, id: Id, path: seq<Id>)
    requires OnWalk(index, path + [id])
    ensures OnWalk(index, path)
  {
    forall k | 0 <= k < |path| - 1 ensures Edge(SiteGraph(index), path[k], path[k + 1]) {
      assert Edge(SiteGraph(index), (path + [id])[k], (path + [id])[k + 1]);
    }
  }

  lemma Placed(index: SiteIndex, out: seq<Id>, id: Id)
    requires OutInOrder(index, out) && id !in out && id in Nodes(index)
    requires !Cyclic(SiteGraph(index)) ==> forall k :: 0 <= k < |Upstreams(index, id)| ==>
      Upstreams(index, id)[k] in Elems(out)
    ensures OutInOrder(index, out + [id])
  {
    if !Cyclic(SiteGraph(index)) {
      UpstreamFirstAppend(SiteGraph(index), out, id);
    }
  }

  lemma OrderingLeave(index: SiteIndex, visited: set<Id>, out: seq<Id>, path: seq<Id>, id: Id)
    requires Ordering(index, visited, out, path + [id]) && id in Nodes(index)
    requires forall k :: 0 <= k < |Upstreams(index, id)| ==> Upstreams(index, id)[k] in visited
    requires !Cyclic(SiteGraph(index)) ==> forall k :: 0 <= k < |Upstreams(index, id)| ==>
      Upstreams(index, id)[k] in Elems(out)
    ensures Ordering(index, visited, out + [id], path) && Elems(out + [id]) == Elems(out) + {id}
  {
    hide Nodes, SiteGraph, Cyclic, Edge, UpstreamFirst, IsPath, Expanded, Partition, OnWalk, OutInOrder, Upstreams;
    PartitionLeave(visited, out, path, id);
    ShorterWalk(index, id, path);
    Placed(index, out, id);
    ExpandedAppend(index, visited, out, id);
  }

  class SiteOrder {
    const index: SiteIndex
    var visited: set<Id>
    var out: seq<Id>

    constructor (index: SiteIndex)
      ensures this.index == index && visited == {} && out == []
    {
      this.index := index;
      visited := {};
      out := [];
    }

    ghost predicate Valid(path: seq<Id>)
      reads this
    {
      Ordering(index, visited, out, path)
    }

    method Visit(id: Id, ghost path: seq<Id>)
      requires Valid(path) && id in Nodes(index)
      requires path != [] ==> Edge(SiteGraph(index), path[|path| - 1], id)
      modifies this
      ensures Valid(path) && id in visited && old(visited) <= visited && Elems(old(out)) <= Elems(out)
      ensures !Cyclic(SiteGraph(index)) ==> id in Elems(out)
      decreases |Nodes(index) - visited|
    {
      hide Valid, Edge, Cyclic, Nodes, SiteGraph, Upstreams;
      if id in visited {
        Revisited(id, path);
        return;
      }
      Enter(id, path);
      var ups := Upstreams(index, id);
      var i := 0;
      while i < |ups|
        invariant 0 <= i <= |ups| && Valid(path + [id])
        invariant old(visited) + {id} <= visited && Elems(old(out)) <= Elems(out)
        invariant |Nodes(index) - visited| < |Nodes(index) - old(visited)|
        invariant forall k :: 0 <= k < i ==> ups[k] in visited
        invariant !Cyclic(SiteGraph(index)) ==> forall k :: 0 <= k < i ==> ups[k] in Elems(out)
      {
        UpstreamIsNode(id, i);
        ghost var before := visited;
        Visit(ups[i], path + [id]);
        SubsetCard(Nodes(index) - visited, Nodes(index) - before);
        i := i + 1;
      }
      Leave(id, path);
    }

    lemma UpstreamIsNode(id: Id, i: nat)
      requires id in Nodes(index) && i < |Upstreams(index, id)|
      ensures Upstreams(index, id)[i] in Nodes(index) && Edge(SiteGraph(index), id, Upstreams(index, id)[i])
    {
      var u := Upstreams(index, id)[i];
      assert id in index && u in index[id].upstreamSiteIDs;
      assert u in Nodes(index);
      assert u in SiteGraph(index)[id];
    }

    /** Met again, a site is finished unless it lies on the walk, and then there is a cycle. */
    lemma Revisited(id: Id, path: seq<Id>)
      requires Valid(path) && id in visited
      requires path != [] ==> Edge(SiteGraph(index), path[|path| - 1], id)
      ensures !Cyclic(SiteGraph(index)) ==> id in Elems(out)
    {
      if id in path {
        ClosesCycle(SiteGraph(index), path, id);
      }
    }

    method Enter(id: Id, ghost path: seq<Id>)
      requires Valid(path) && id in Nodes(index) && id !in visited
      requires path != [] ==> Edge(SiteGraph(index), path[|path| - 1], id)
      modifies this
      ensures visited == old(visited) + {id} && out == old(out)
      ensures Valid(path + [id])
      ensures |Nodes(index) - visited| < |Nodes(index) - old(visited)|
    {
      hide Ordering, Nodes, SiteGraph, Edge;
      OrderingEnter(index, visited, out, path, id);
      StepShrinksRest(Nodes(index), visited, id);
      visited := visited + {id};
    }

    method Leave(id: Id, ghost path: seq<Id>)
      requires Valid(path + [id]) && id in Nodes(index)
      requires forall k :: 0 <= k < |Upstreams(index, id)| ==> Upstreams(index, id)[k] in visited
      requires !Cyclic(SiteGraph(index)) ==> forall k :: 0 <= k < |Upstreams(index, id)| ==>
        Upstreams(index, id)[k] in Elems(out)
      modifies this
      ensures Valid(path) && visited == old(visited) && out == old(out) + [id]
      ensures Elems(out) == Elems(old(out)) + {id}
    {
      hide Ordering, Nodes, SiteGraph, Edge, Cyclic, Upstreams;
      OrderingLeave(index, visited, out, path, id);
      out := out + [id];
    }
  }

  /** Every site named anywhere, once; on an acyclic graph every upstream before its dependents. */
  method TopologicalSiteOrder(index: SiteIndex) returns (out: seq<Id>)
    ensures NoDup(out) && Elems(out) == Nodes(index)
    ensures !Cyclic(SiteGraph(index)) ==> IsTopological(SiteGraph(index), out)
  {
    var order := new SiteOrder(index);
    assert order.Valid([]) by { FreshOrder(order); }
    hide Cyclic, SiteGraph, Nodes, SiteOrder.Valid;
    var ids := SortedKeysOf(index);
    var i := 0;
    while i < |ids|
      invariant 0 <= i <= |ids| && order.index == index && order.Valid([])
      invariant Elems(ids[..i]) <= order.visited
    {
      KeyIsNode(index, ids, i);
      order.Visit(ids[i], []);
      ElemsPrefix(ids, i);
      i := i + 1;
    }
    ElemsAll(ids, i);
    AllPlaced(order);
    out := order.out;
  }

  method SortedKeysOf(index: SiteIndex) returns (ids: seq<Id>)
    ensures Elems(ids) == index.Keys
  {
    ids := Config.SortedKeys(index.Keys);
  }

  lemma FreshOrder(order: SiteOrder)
    requires order.visited == {} && order.out == []
    ensures order.Valid([])
  {
  }

  lemma KeyIsNode(index: SiteIndex, ids: seq<Id>, i: nat)
    requires Elems(ids) == index.Keys && i < |ids|
    ensures ids[i] in Nodes(index)
  {
    InElems(ids, i);
  }

  lemma AllPlaced(order: SiteOrder)
    requires order.Valid([]) && order.index.Keys <= order.visited
    ensures NoDup(order.out) && Elems(order.out) == Nodes(order.index)
    ensures !Cyclic(SiteGraph(order.index)) ==> IsTopological(SiteGraph(order.index), order.out)
  {
    hide Cyclic, UpstreamFirst;
    forall n | n in Nodes(order.index) ensures n in Elems(order.out) {
      if n !in order.index {
        var a, u :| a in order.index.Keys && u in order.index[a].upstreamSiteIDs && u == n;
        assert a in order.out;
        assert u in Upstreams(order.index, a);
      }
    }
    assert SiteGraph(order.index).Keys == Nodes(order.index);
  }

  // ---- Root causes ----

  /** The unavailable sites and what they depend on. */
  ghost function UnavailableGraph(raw: RawHealth, index: SiteIndex): Graph {
    map x | x in index && Unavailable(raw, index, x) :: index[x].upstreamSiteIDs
  }

  /** An unavailable site none of whose upstreams is unavailable. */
  predicate IsRootCause(raw: RawHealth, index: SiteIndex, r: Id) {
    && r in index && Unavailable(raw, index, r)
    && forall u :: u in index[r].upstreamSiteIDs ==> !Unavailable(raw, index, u)
  }

  ghost predicate CausedBy(raw: RawHealth, index: SiteIndex, from: seq<Id>, r: Id) {
    exists u :: u in from && Reaches(UnavailableGraph(raw, index), u, r)
  }

  /** The root causes reached from the listed sites through unavailable upstreams. */
  ghost function RootCauses(raw: RawHealth, index: SiteIndex, from: seq<Id>): set<Id> {
    set r | r in index.Keys && IsRootCause(raw, index, r) && CausedBy(raw, index, from, r)
  }

  lemma UnavailableAcyclic(raw: RawHealth, index: SiteIndex)
    requires !Cyclic(SiteGraph(index))
    ensures !Cyclic(UnavailableGraph(raw, index))
  {
    hide Unavailable;
    var g, h := SiteGraph(index), UnavailableGraph(raw, index);
    forall a, b | Edge(h, a, b) ensures Edge(g, a, b) {
      assert a in Nodes(index) && b in Nodes(index);
    }
    SubgraphAcyclic(g, h);
  }

  lemma CausesPrefix(raw: RawHealth, index: SiteIndex, from: seq<Id>, i: nat)
    requires i < |from|
    ensures RootCauses(raw, index, from[..i + 1]) == RootCauses(raw, index, from[..i])
      + RootCauses(raw, index, [from[i]])
    ensures RootCauses(raw, index, from[..0]) == {}
  {
    hide IsRootCause, UnavailableGraph, Reaches;
    assert from[..i + 1] == from[..i] + [from[i]];
    forall r ensures CausedBy(raw, index, from[..i + 1], r) <==>
        (CausedBy(raw, index, from[..i], r) || CausedBy(raw, index, [from[i]], r)) {
    }
  }

  lemma CausedByOne(raw: RawHealth, index: SiteIndex, name: Id, r: Id)
    ensures CausedBy(raw, index, [name], r) <==> Reaches(UnavailableGraph(raw, index), name, r)
  {
    hide UnavailableGraph, Reaches;
    if Reaches(UnavailableGraph(raw, index), name, r) { assert name in [name]; }
  }

  /** Case by case as the walk distinguishes them. */
  lemma CausesOfOne(raw: RawHealth, index: SiteIndex, name: Id)
    ensures !(name in index && Unavailable(raw, index, name)) ==> RootCauses(raw, index, [name]) == {}
    ensures IsRootCause(raw, index, name) ==> RootCauses(raw, index, [name]) == {name}
    ensures name in index && Unavailable(raw, index, name) && !IsRootCause(raw, index, name) ==>
      RootCauses(raw, index, [name]) == RootCauses(raw, index, index[name].upstreamSiteIDs)
  {
    hide Reaches, Unavailable;
    var g := UnavailableGraph(raw, index);
    forall r | IsRootCause(raw, index, r)
      ensures CausedBy(raw, index, [name], r) ==> name in g
      ensures IsRootCause(raw, index, name) ==> (CausedBy(raw, index, [name], r) <==> r == name)
      ensures name in g && r != name ==>
        (CausedBy(raw, index, [name], r) <==> CausedBy(raw, index, index[name].upstreamSiteIDs, r))
    {
      CausedByOne(raw, index, name, r);
      ReachesUnfold(g, name, r);
      if name in g && CausedBy(raw, index, index[name].upstreamSiteIDs, r) {
        var u :| u in index[name].upstreamSiteIDs && Reaches(g, u, r);
        ReachesUnfold(g, u, r);
        assert u in g;
        assert Edge(g, name, u);
      }
    }
  }

  /** From none of these sites a cycle of unavailable ones is reached. */
  ghost predicate CausesEnd(raw: RawHealth, index: SiteIndex, from: seq<Id>) {
    forall u :: u in from ==> CycleFree(UnavailableGraph(raw, index), u)
  }

  lemma CausesEndAt(raw: RawHealth, index: SiteIndex, from: seq<Id>, i: nat)
    requires CausesEnd(raw, index, from) && i < |from|
    ensures CycleFree(UnavailableGraph(raw, index), from[i])
  {
  }

  lemma AcyclicCausesEnd(raw: RawHealth, index: SiteIndex, from: seq<Id>)
    requires !Cyclic(SiteGraph(index))
    ensures CausesEnd(raw, index, from)
  {
    UnavailableAcyclic(raw, index);
    forall u | u in from ensures CycleFree(UnavailableGraph(raw, index), u) {
      AcyclicIsFree(UnavailableGraph(raw, index), u);
    }
  }

  method CollectRootCauseSites(unavailable: seq<Id>, raw: RawHealth, index: SiteIndex) returns (out: seq<Id>)
    requires CausesEnd(raw, index, unavailable)
    ensures out == SortSet(RootCauses(raw, index, unavailable))
  {
    hide *;
    var seen: set<Id> := {};
    out := [];
    NothingCaused(raw, index);
    assert unavailable[..0] == [];
    var i := 0;
    while i < |unavailable|
      invariant 0 <= i <= |unavailable|
      invariant Collected(raw, index, seen, out) && seen == RootCauses(raw, index, unavailable[..i])
    {
      CausesPrefix(raw, index, unavailable, i);
      CausesEndAt(raw, index, unavailable, i);
      seen, out := Walk(unavailable[i], raw, index, seen, out);
      i := i + 1;
    }
    assert unavailable[..i] == unavailable;
    CollectedOnce(raw, index, seen, out);
    SortIdsIsSortSet(out);
    out := SortIds(out);
  }

  ghost predicate Collected(raw: RawHealth, index: SiteIndex, seen: set<Id>, out: seq<Id>) {
    NoDup(out) && seen == Elems(out) && forall r :: r in seen ==> IsRootCause(raw, index, r)
  }

  lemma CollectedOnce(raw: RawHealth, index: SiteIndex, seen: set<Id>, out: seq<Id>)
    requires Collected(raw, index, seen, out)
    ensures NoDup(out) && seen == Elems(out)
  {
  }

  lemma NothingCaused(raw: RawHealth, index: SiteIndex)
    ensures RootCauses(raw, index, []) == {} && Collected(raw, index, {}, [])
  {
  }

  lemma CollectOne(raw: RawHealth, index: SiteIndex, seen: set<Id>, out: seq<Id>, name: Id)
    requires Collected(raw, index, seen, out) && name !in seen && IsRootCause(raw, index, name)
    ensures Collected(raw, index, seen + {name}, out + [name])
  {
    hide IsRootCause;
    assert name in out ==> name in Elems(out);
    NoDupAppend(out, name);
    ElemsAppend(out, name);
  }

  method Walk(name: Id, raw: RawHealth, index: SiteIndex, seen: set<Id>, out: seq<Id>)
    returns (seen': set<Id>, out': seq<Id>)
    requires CycleFree(UnavailableGraph(raw, index), name) && Collected(raw, index, seen, out)
    ensures Collected(raw, index, seen', out') && seen' == seen + RootCauses(raw, index, [name])
    decreases |Below(UnavailableGraph(raw, index), name)|
  {
    hide CycleFree, RootCauses, NoDup, Below, Unavailable, Collected, UnavailableGraph;
    seen', out' := seen, out;
    CausesOfOne(raw, index, name);
    if name in seen {
      SeenIsRoot(raw, index, seen, out, name);
      return;
    }
    if name !in index || !Unavailable(raw, index, name) { return; }
    var ups := index[name].upstreamSiteIDs;
    if |ups| == 0 {
      CollectOne(raw, index, seen, out, name);
      return seen + {name}, out + [name];
    }
    NothingCaused(raw, index);
    assert ups[..0] == [];
    var found := false;
    var i := 0;
    while i < |ups|
      invariant 0 <= i <= |ups|
      invariant found <==> exists k :: 0 <= k < i && Unavailable(raw, index, ups[k])
      invariant Collected(raw, index, seen', out') && seen' == seen + RootCauses(raw, index, ups[..i])
    {
      CausesPrefix(raw, index, ups, i);
      CausesOfOne(raw, index, ups[i]);
      if Unavailable(raw, index, ups[i]) {
        UnavailableHas(raw, index, name);
        CycleFreeNext(UnavailableGraph(raw, index), name, ups[i]);
        BelowShrinks(UnavailableGraph(raw, index), name, ups[i]);
        seen', out' := Walk(ups[i], raw, index, seen', out');
        found := true;
      }
      i := i + 1;
    }
    assert ups[..i] == ups;
    if !found {
      NoneFound(raw, index, ups);
      CollectOne(raw, index, seen', out', name);
      seen', out' := seen' + {name}, out' + [name];
    } else {
      assert !IsRootCause(raw, index, name);
    }
  }

  /** The walk from `name` ends within `n` steps through unavailable sites. */
  predicate WalkEnds(raw: RawHealth, index: SiteIndex, name: Id, n: nat)
    decreases n
  {
    name in index && Unavailable(raw, index, name) ==>
      && n > 0
      && var ups := index[name].upstreamSiteIDs;
         forall i :: 0 <= i < |ups| && Unavailable(raw, index, ups[i]) ==> WalkEnds(raw, index, ups[i], n - 1)
  }

  ghost predicate WalkTerminates(raw: RawHealth, index: SiteIndex, name: Id) {
    exists n: nat :: WalkEnds(raw, index, name, n)
  }

  lemma {:induction false} WalkEndsLater(raw: RawHealth, index: SiteIndex, name: Id, n: nat, m: nat)
    requires WalkEnds(raw, index, name, n) && n <= m
    ensures WalkEnds(raw, index, name, m)
    decreases n
  {
    hide Unavailable;
    if name in index && Unavailable(raw, index, name) {
      var ups := index[name].upstreamSiteIDs;
      forall i | 0 <= i < |ups| && Unavailable(raw, index, ups[i]) ensures WalkEnds(raw, index, ups[i], m - 1) {
        WalkEndsLater(raw, index, ups[i], n - 1, m - 1);
      }
    }
  }

  lemma {:induction false} FreeWalkEnds(raw: RawHealth, index: SiteIndex, name: Id)
    requires CycleFree(UnavailableGraph(raw, index), name)
    ensures WalkEnds(raw, index, name, |Below(UnavailableGraph(raw, index), name)|)
    decreases |Below(UnavailableGraph(raw, index), name)|
  {
    hide Unavailable;
    var g := UnavailableGraph(raw, index);
    if name in index && Unavailable(raw, index, name) {
      ReachesSelf(g, name);
      assert name in Below(g, name);
      var ups, n := index[name].upstreamSiteIDs, |Below(g, name)|;
      forall i | 0 <= i < |ups| && Unavailable(raw, index, ups[i]) ensures WalkEnds(raw, index, ups[i], n - 1) {
        CycleFreeNext(g, name, ups[i]);
        BelowShrinks(g, name, ups[i]);
        FreeWalkEnds(raw, index, ups[i]);
        WalkEndsLater(raw, index, ups[i], |Below(g, ups[i])|, n - 1);
      }
    }
  }

  lemma {:induction false} EndsBoundsPaths(raw: RawHealth, index: SiteIndex, p: seq<Id>, n: nat)
    requires IsPath(UnavailableGraph(raw, index), p) && WalkEnds(raw, index, p[0], n)
    ensures |p| <= n + 1
    decreases n
  {
    hide Unavailable;
    var g := UnavailableGraph(raw, index);
    if |p| > 1 {
      assert Edge(g, p[0], p[1]);
      var ups := index[p[0]].upstreamSiteIDs;
      var i :| 0 <= i < |ups| && ups[i] == p[1];
      assert WalkEnds(raw, index, ups[i], n - 1);
      forall k | 0 <= k < |p| - 2 ensures Edge(g, p[1..][k], p[1..][k + 1]) {
        assert Edge(g, p[k + 1], p[k + 2]);
      }
      EndsBoundsPaths(raw, index, p[1..], n - 1);
    }
  }

  /** The walk from a site ends exactly when it leads to no cycle of unavailable sites. */
  lemma SiteWalkEndsExactly(raw: RawHealth, index: SiteIndex, name: Id)
    ensures WalkTerminates(raw, index, name) <==> CycleFree(UnavailableGraph(raw, index), name)
  {
    hide Unavailable;
    if CycleFree(UnavailableGraph(raw, index), name) {
      FreeWalkEnds(raw, index, name);
      var n: nat := |Below(UnavailableGraph(raw, index), name)|;
      assert WalkEnds(raw, index, name, n);
    } else if WalkTerminates(raw, index, name) {
      var n: nat :| WalkEnds(raw, index, name, n);
      var p := LongWalks(UnavailableGraph(raw, index), name, n + 1);
      EndsBoundsPaths(raw, index, p, n);
    }
  }

  lemma UnavailableHas(raw: RawHealth, index: SiteIndex, name: Id)
    requires name in index && Unavailable(raw, index, name)
    ensures name in UnavailableGraph(raw, index) && UnavailableGraph(raw, index)[name] == index[name].upstreamSiteIDs
  {
  }

  lemma SeenIsRoot(raw: RawHealth, index: SiteIndex, seen: set<Id>, out: seq<Id>, name: Id)
    requires Collected(raw, index, seen, out) && name in seen
    ensures IsRootCause(raw, index, name)
  {
  }

  /** Available upstreams lead to no cause. */
  lemma {:induction false} NoneFound(raw: RawHealth, index: SiteIndex, ups: seq<Id>)
    requires forall k :: 0 <= k < |ups| ==> !Unavailable(raw, index, ups[k])
    ensures RootCauses(raw, index, ups) == {}
  {
    hide Unavailable, RootCauses;
    if ups == [] {
      NothingCaused(raw, index);
    } else {
      var n := |ups| - 1;
      NoneFound(raw, index, ups[..n]);
      CausesPrefix(raw, index, ups, n);
      CausesOfOne(raw, index, ups[n]);
      assert ups[..n + 1] == ups;
    }
  }

  // Health evidence exists for indexed sites only.
  predicate RawKnown(raw: RawHealth, index: SiteIndex) {
    raw.Keys <= index.Keys
  }

  /** From any unavailable site some root cause is reached. */
  lemma {:induction false} UnavailableHasCause(raw: RawHealth, index: SiteIndex, name: Id)
    requires CycleFree(UnavailableGraph(raw, index), name) && RawKnown(raw, index) && Unavailable(raw, index, name)
    ensures name in index && RootCauses(raw, index, [name]) != {}
    decreases |Below(UnavailableGraph(raw, index), name)|
  {
    UnavailableIsIndexed(raw, index, name);
    CausesOfOne(raw, index, name);
    hide CycleFree, Below, Unavailable, UnavailableGraph, RootCauses;
    if !IsRootCause(raw, index, name) {
      var ups := index[name].upstreamSiteIDs;
      var k :| 0 <= k < |ups| && Unavailable(raw, index, ups[k]);
      UnavailableHas(raw, index, name);
      CycleFreeNext(UnavailableGraph(raw, index), name, ups[k]);
      BelowShrinks(UnavailableGraph(raw, index), name, ups[k]);
      UnavailableHasCause(raw, index, ups[k]);
      CausesMember(raw, index, ups, k);
    }
  }

  lemma UnavailableIsIndexed(raw: RawHealth, index: SiteIndex, name: Id)
    requires RawKnown(raw, index) && Unavailable(raw, index, name)
    ensures name in index
  {
  }

  lemma CausesMember(raw: RawHealth, index: SiteIndex, from: seq<Id>, k: nat)
    requires k < |from|
    ensures RootCauses(raw, index, [from[k]]) <= RootCauses(raw, index, from)
  {
    hide IsRootCause, UnavailableGraph, Reaches;
    forall r | CausedBy(raw, index, [from[k]], r) ensures CausedBy(raw, index, from, r) {
      CausedByOne(raw, index, from[k], r);
      assert from[k] in from;
    }
  }
}
