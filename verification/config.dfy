/** The collector's device inventory: overlays, and the dependency check run on every load. */
module Config {
  import opened Ids
  import opened Graphs

  /** `upstreamDeviceIDs` distinguishes a missing list (None) from an empty one; `interfaceFilters` stands for all
      filter rules and lists together, empty when none is set. */
  datatype DeviceConfig = DeviceConfig(
    id: Id,
    host: string,
    role: string,
    temperatureWarningC: Option<real>,
    upstreamDeviceIDs: Option<seq<Id>>,
    alertsEnabled: Option<bool>,
    interfaceFilters: seq<string>)
  {
    function Upstreams(): seq<Id> {
      upstreamDeviceIDs.GetOr([])
    }
  }

  datatype DependencyError =
    | DuplicateUpstream(device: Id, upstream: Id)
    | SelfUpstream(device: Id)
    | MissingUpstream(device: Id, upstream: Id)
    | CycleAt(device: Id)

  /** Indexing keeps the last entry of an id. */
  function Index(devices: seq<DeviceConfig>): map<Id, DeviceConfig> {
    if devices == [] then map[]
    else
      var last := devices[|devices| - 1];
      Index(devices[..|devices| - 1])[last.id := last]
  }

  function DependencyGraph(index: map<Id, DeviceConfig>): Graph {
    map id | id in index :: index[id].Upstreams()
  }

  lemma {:induction false} IndexKeys(devices: seq<DeviceConfig>)
    ensures forall id :: id in Index(devices) <==> exists d :: d in devices && d.id == id
    ensures forall id :: id in Index(devices) ==> Index(devices)[id] in devices && Index(devices)[id].id == id
  {
    if devices != [] {
      var n := |devices| - 1;
      IndexKeys(devices[..n]);
      assert devices == devices[..n] + [devices[n]];
      forall id ensures id in Index(devices) <==> exists d :: d in devices && d.id == id {
        if id in Index(devices) {
          if id == devices[n].id {
            assert devices[n] in devices;
          } else {
            var d :| d in devices[..n] && d.id == id;
            assert d in devices;
          }
        }
      }
    }
  }

  lemma IndexAppend(devices: seq<DeviceConfig>, d: DeviceConfig)
    ensures Index(devices + [d]) == Index(devices)[d.id := d]
  {
    assert (devices + [d])[..|devices|] == devices;
  }

  /** The entry of its id that counts: the last one. */
  ghost predicate LastEntry(devices: seq<DeviceConfig>, k: nat) {
    k < |devices| && forall j :: k < j < |devices| ==> devices[j].id != devices[k].id
  }

  lemma {:induction false} IndexLast(devices: seq<DeviceConfig>, k: nat)
    requires LastEntry(devices, k)
    ensures devices[k].id in Index(devices) && Index(devices)[devices[k].id] == devices[k]
  {
    var n := |devices| - 1;
    if k < n {
      assert devices[n].id != devices[k].id;
      IndexLast(devices[..n], k);
    }
  }

  ghost predicate UniqueIds(devices: seq<DeviceConfig>) {
    forall i, j :: 0 <= i < j < |devices| ==> devices[i].id != devices[j].id
  }

  lemma {:induction false} IndexUnique(devices: seq<DeviceConfig>, d: DeviceConfig)
    requires UniqueIds(devices) && d in devices
    ensures d.id in Index(devices) && Index(devices)[d.id] == d
  {
    var n := |devices| - 1;
    assert devices == devices[..n] + [devices[n]];
    if d != devices[n] {
      IndexUnique(devices[..n], d);
      var i :| 0 <= i < n && devices[..n][i] == d;
      assert devices[i].id != devices[n].id;
    }
  }

  /** What one device's upstream list must satisfy. */
  ghost predicate UpstreamsWellFormed(known: set<Id>, d: DeviceConfig) {
    && NoDup(d.Upstreams())
    && d.id !in d.Upstreams()
    && forall u :: u in d.Upstreams() ==> u in known
  }

  /** The inventories the dependency check is meant to accept. */
  ghost predicate AcceptableDependencies(devices: seq<DeviceConfig>) {
    && (forall d :: d in devices ==> UpstreamsWellFormed(Index(devices).Keys, d))
    && !Cyclic(DependencyGraph(Index(devices)))
  }

  /** What a rejected inventory's error says about one device's list. */
  ghost predicate ListErrorExplains(known: set<Id>, d: DeviceConfig, e: DependencyError) {
    match e
    case DuplicateUpstream(id, u) => d.id == id && multiset(d.Upstreams())[u] >= 2
    case SelfUpstream(id) => d.id == id && id in d.Upstreams()
    case MissingUpstream(id, u) => d.id == id && u in d.Upstreams() && u !in known
    case CycleAt(_) => false
  }

  ghost predicate ErrorExplains(devices: seq<DeviceConfig>, e: DependencyError) {
    match e
    case CycleAt(id) => CycleThrough(DependencyGraph(Index(devices)), id)
    case _ => exists d :: d in devices && ListErrorExplains(Index(devices).Keys, d, e)
  }

  lemma ClosedEdge(g: Graph, a: Id, i: nat)
    requires Closed(g) && a in g && i < |g[a]|
    ensures g[a][i] in g && Edge(g, a, g[a][i])
  {
  }

  datatype Colour = Visiting | Visited

  /** The three-colour depth-first search; an absent colour means unvisited. */
  class CycleFinder {
    const g: Graph
    var state: map<Id, Colour>
    // The visited nodes in the order the search finished them.
    ghost var finished: seq<Id>

    constructor (g: Graph)
      ensures this.g == g && state == map[] && finished == []
    {
      this.g := g;
      state := map[];
      finished := [];
    }

    /** The grey nodes are exactly the current walk; the black ones are listed upstream-first. */
    ghost predicate Valid(path: seq<Id>)
      reads this
    {
      && state.Keys <= g.Keys
      && NoDup(path)
      && (path != [] ==> IsPath(g, path))
      && (forall x :: x in path <==> x in state && state[x] == Visiting)
      && (forall x :: x in finished <==> x in state && state[x] == Visited)
      && UpstreamFirst(g, finished)
    }

    method Visit(id: Id, path: seq<Id>) returns (cycleAt: Option<Id>)
      requires Valid(path) && id in g
      requires path != [] ==> Edge(g, path[|path| - 1], id)
      requires Closed(g)
      modifies this
      ensures old(state).Keys <= state.Keys
      ensures cycleAt.None? ==> Valid(path) && id in Elems(finished) && Elems(old(finished)) <= Elems(finished)
      ensures cycleAt.Some? ==> CycleThrough(g, cycleAt.value)
      decreases |g.Keys - state.Keys|, 0
    {
      hide *;
      if id in state {
        Seen(id, path);
        return if state[id] == Visiting then Some(id) else None;
      }
      Open(id, path);
      ElemsNone(g[id]);
      var i := 0;
      while i < |g[id]|
        invariant 0 <= i <= |g[id]|
        invariant Valid(path + [id]) && Elems(g[id][..i]) <= Elems(finished)
        invariant old(state).Keys <= state.Keys && Elems(old(finished)) <= Elems(finished)
        invariant |g.Keys - state.Keys| < |g.Keys - old(state).Keys|
      {
        cycleAt := VisitUpstream(id, path, i);
        if cycleAt.Some? {
          return;
        }
        i := i + 1;
      }
      ElemsAll(g[id], i);
      Close(id, path);
      cycleAt := None;
    }

    /** One round of the loop above. */
    method VisitUpstream(id: Id, path: seq<Id>, i: nat) returns (cycleAt: Option<Id>)
      requires Valid(path + [id]) && id in g && i < |g[id]| && Elems(g[id][..i]) <= Elems(finished)
      requires Closed(g)
      modifies this
      ensures old(state).Keys <= state.Keys && |g.Keys - state.Keys| <= |g.Keys - old(state).Keys|
      ensures cycleAt.None? ==> Valid(path + [id]) && Elems(old(finished)) <= Elems(finished)
      ensures cycleAt.None? ==> Elems(g[id][..i + 1]) <= Elems(finished)
      ensures cycleAt.Some? ==> CycleThrough(g, cycleAt.value)
      decreases |g.Keys - state.Keys|, 1
    {
      hide *;
      ClosedEdge(g, id, i);
      ghost var before := state.Keys;
      cycleAt := Visit(g[id][i], path + [id]);
      SubsetCard(g.Keys - state.Keys, g.Keys - before);
      ElemsPrefix(g[id], i);
    }

    /** A grey node met again lies on the walk; a black one is finished. */
    lemma Seen(id: Id, path: seq<Id>)
      requires Valid(path) && id in state
      requires path != [] ==> Edge(g, path[|path| - 1], id)
      ensures state[id] == Visiting ==> CycleThrough(g, id)
      ensures state[id] == Visited ==> id in Elems(finished)
    {
      if state[id] == Visiting {
        ClosesCycle(g, path, id);
      }
    }

    lemma AllFinished()
      requires Valid([]) && g.Keys <= Elems(finished)
      ensures !Cyclic(g)
    {
      assert forall x :: x in finished <==> x in Elems(finished);
      TopologicalIsAcyclic(g, finished);
    }

    method Open(id: Id, path: seq<Id>)
      requires Valid(path) && id in g && id !in state
      requires path != [] ==> Edge(g, path[|path| - 1], id)
      modifies this
      ensures state == old(state)[id := Visiting] && finished == old(finished)
      ensures Valid(path + [id])
      ensures |g.Keys - state.Keys| < |g.Keys - old(state).Keys|
    {
      NoDupAppend(path, id);
      if path != [] { PathExtend(g, path, id); }
      assert id in g.Keys - old(state).Keys;
      state := state[id := Visiting];
      assert g.Keys - state.Keys < g.Keys - old(state).Keys;
      SubsetCard(g.Keys - state.Keys, g.Keys - old(state).Keys);
    }

    method Close(id: Id, path: seq<Id>)
      requires Valid(path + [id]) && id in g
      requires Elems(g[id]) <= Elems(finished)
      modifies this
      ensures state == old(state)[id := Visited] && finished == old(finished) + [id]
      ensures Valid(path) && Elems(finished) == Elems(old(finished)) + {id}
    {
      NoDupAppend(path, id);
      assert (path + [id])[|path|] == id;
      assert id in path + [id];
      assert forall u :: u in g[id] ==> u in Elems(g[id]);
      UpstreamFirstAppend(g, finished, id);
      ElemsAppend(finished, id);
      ElemsAppend(path, id);
      assert forall x :: x in path + [id] <==> x in Elems(path + [id]);
      state := state[id := Visited];
      finished := finished + [id];
      if path != [] {
        forall k | 0 <= k < |path| - 1 ensures Edge(g, path[k], path[k + 1]) {
          assert Edge(g, (path + [id])[k], (path + [id])[k + 1]);
        }
      }
    }
  }

  /** Checks the upstream lists one by one, then searches the graph for a cycle. */
  method ValidateDependencies(devices: seq<DeviceConfig>) returns (error: Option<DependencyError>)
    ensures error.None? <==> AcceptableDependencies(devices)
    ensures error.Some? ==> ErrorExplains(devices, error.value)
  {
    var byID := Index(devices);
    error := CheckLists(devices, byID.Keys);
    if error.Some? {
      return;
    }
    IndexKeys(devices);
    var cycleAt := FindCycle(DependencyGraph(byID));
    error := if cycleAt.Some? then Some(CycleAt(cycleAt.value)) else None;
  }

  lemma CycleThroughIsCyclic(g: Graph, a: Id)
    requires CycleThrough(g, a)
    ensures Cyclic(g)
  {
  }

  method FindCycle(g: Graph) returns (cycleAt: Option<Id>)
    requires Closed(g)
    ensures cycleAt.None? <==> !Cyclic(g)
    ensures cycleAt.Some? ==> CycleThrough(g, cycleAt.value)
  {
    var finder := new CycleFinder(g);
    assert finder.Valid([]);
    hide CycleFinder.Valid, CycleThrough, Cyclic, Closed;
    var ids := SortedKeys(g.Keys);
    var i := 0;
    while i < |ids|
      invariant 0 <= i <= |ids|
      invariant finder.g == g && finder.Valid([])
      invariant Elems(ids[..i]) <= Elems(finder.finished)
    {
      assert ids[i] in Elems(ids);
      cycleAt := finder.Visit(ids[i], []);
      if cycleAt.Some? {
        CycleThroughIsCyclic(g, cycleAt.value);
        return;
      }
      ElemsPrefix(ids, i);
      i := i + 1;
    }
    ElemsAll(ids, i);
    finder.AllFinished();
    cycleAt := None;
  }

  method CheckLists(devices: seq<DeviceConfig>, known: set<Id>) returns (error: Option<DependencyError>)
    ensures error.None? <==> forall d :: d in devices ==> UpstreamsWellFormed(known, d)
    ensures error.Some? ==> exists d :: d in devices && ListErrorExplains(known, d, error.value)
  {
    var i := 0;
    while i < |devices|
      invariant 0 <= i <= |devices|
      invariant forall k :: 0 <= k < i ==> UpstreamsWellFormed(known, devices[k])
    {
      error := CheckUpstreams(known, devices[i]);
      if error.Some? {
        assert devices[i] in devices;
        return;
      }
      i := i + 1;
    }
    error := None;
  }

  method CheckUpstreams(known: set<Id>, d: DeviceConfig) returns (error: Option<DependencyError>)
    ensures error.None? <==> UpstreamsWellFormed(known, d)
    ensures error.Some? ==> ListErrorExplains(known, d, error.value)
  {
    var ups := d.Upstreams();
    var seen: set<Id> := {};
    var i := 0;
    while i < |ups|
      invariant 0 <= i <= |ups|
      invariant seen == Elems(ups[..i]) && NoDup(ups[..i])
      invariant d.id !in ups[..i] && seen <= known
    {
      var u := ups[i];
      assert ups[..i + 1] == ups[..i] + [u];
      if u in seen {
        DuplicateCounts(ups, i);
        return Some(DuplicateUpstream(d.id, u));
      }
      NoDupAppend(ups[..i], u);
      ElemsAppend(ups[..i], u);
      seen := seen + {u};
      if u == d.id {
        return Some(SelfUpstream(d.id));
      }
      if u !in known {
        return Some(MissingUpstream(d.id, u));
      }
      i := i + 1;
    }
    assert ups[..i] == ups;
    assert forall u :: u in ups ==> u in seen;
    error := None;
  }

  lemma DuplicateCounts(s: seq<Id>, i: nat)
    requires i < |s| && s[i] in s[..i]
    ensures multiset(s)[s[i]] >= 2 && !NoDup(s)
  {
    var k :| 0 <= k < i && s[..i][k] == s[i];
    assert s == s[..k] + [s[k]] + s[k + 1..i] + [s[i]] + s[i + 1..];
  }

  /** The keys of a map as a strictly increasing list. */
  method SortedKeys(keys: set<Id>) returns (ids: seq<Id>)
    ensures ids == SortSet(keys)
  {
    ids := [];
    var rest := keys;
    while rest != {}
      invariant rest <= keys && NoDup(ids) && Elems(ids) == keys - rest
      decreases rest
    {
      var id :| id in rest;
      assert id !in Elems(ids);
      NoDupAppend(ids, id);
      ElemsAppend(ids, id);
      ids := ids + [id];
      rest := rest - {id};
    }
    assert Elems(ids) == keys;
    SortIdsIsSortSet(ids);
    ids := SortIds(ids);
  }
}
