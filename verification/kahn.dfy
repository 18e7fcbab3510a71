/** The evaluation order of a poll cycle: Kahn's sort over the device inventory. */
module EvaluationOrder {
  import opened Ids
  import opened Graphs
  import opened Config

  /** Upstream lists as the tracker reads them: no empty id, no repeats, increasing. */
  ghost function Normalized(ids: seq<Id>): seq<Id> {
    SortSet(Elems(ids) - {""})
  }

  method NormalizeIDs(ids: seq<Id>) returns (out: seq<Id>)
    ensures out == Normalized(ids)
  {
    var seen: set<Id> := {};
    out := [];
    var i := 0;
    while i < |ids|
      invariant 0 <= i <= |ids|
      invariant seen == Elems(ids[..i]) - {""} && Elems(out) == seen && NoDup(out)
    {
      var id := ids[i];
      ElemsPrefix(ids, i);
      i := i + 1;
      if id == "" || id in seen {
        continue;
      }
      assert id !in Elems(out);
      NoDupAppend(out, id);
      ElemsAppend(out, id);
      seen := seen + {id};
      out := out + [id];
    }
    ElemsAll(ids, i);
    SortIdsIsSortSet(out);
    out := SortIds(out);
  }

  /** The upstream graph the evaluation follows. */
  ghost function UpstreamGraph(index: map<Id, DeviceConfig>): Graph {
    map id | id in index :: Normalized(index[id].Upstreams())
  }

  /** The upstreams of `a` that are still to be placed. */
  ghost function Missing(g: Graph, done: set<Id>, a: Id): set<Id> {
    set u | u in g.Keys && Edge(g, a, u) && u !in done
  }

  /** Nodes not yet placed whose upstreams all are. */
  ghost function Ready(g: Graph, done: set<Id>): set<Id> {
    set a | a in g.Keys && a !in done && Missing(g, done, a) == {}
  }

  ghost function Children(g: Graph, u: Id): set<Id> {
    set a | a in g.Keys && Edge(g, a, u)
  }

  ghost function Next(g: Graph, done: seq<Id>): (m: Id)
    requires Ready(g, Elems(done)) != {}
    ensures IsLeast(m, Ready(g, Elems(done)))
  {
    LeastExists(Ready(g, Elems(done)));
    var m :| IsLeast(m, Ready(g, Elems(done)));
    m
  }

  lemma StepShrinks(g: Graph, done: seq<Id>)
    requires Ready(g, Elems(done)) != {}
    ensures |g.Keys - Elems(done + [Next(g, done)])| < |g.Keys - Elems(done)|
  {
    var m := Next(g, done);
    ElemsAppend(done, m);
    assert m in g.Keys - Elems(done);
    SubsetCard(g.Keys - Elems(done + [m]), g.Keys - Elems(done));
  }

  lemma NextIsNew(g: Graph, done: seq<Id>)
    requires Ready(g, Elems(done)) != {}
    ensures Next(g, done) in g.Keys && Next(g, done) !in done && Next(g, done) !in Elems(done)
  {
  }

  /** Repeatedly places the least ready node; when none is ready the rest follows in id order. */
  ghost function KahnFrom(g: Graph, done: seq<Id>): seq<Id>
    decreases |g.Keys - Elems(done)|
  {
    if Ready(g, Elems(done)) == {} then done + SortSet(g.Keys - Elems(done))
    else
      StepShrinks(g, done);
      KahnFrom(g, done + [Next(g, done)])
  }

  ghost function KahnOrder(g: Graph): seq<Id> {
    KahnFrom(g, [])
  }

  /** The nodes the fallback appends: those on or downstream of a cycle. */
  ghost function LeftoverFrom(g: Graph, done: seq<Id>): set<Id>
    decreases |g.Keys - Elems(done)|
  {
    if Ready(g, Elems(done)) == {} then g.Keys - Elems(done)
    else
      StepShrinks(g, done);
      LeftoverFrom(g, done + [Next(g, done)])
  }

  /** Kahn's order lists every device exactly once, whatever the graph. */
  lemma {:induction false} KahnIsPermutation(g: Graph, done: seq<Id>)
    requires NoDup(done) && Elems(done) <= g.Keys
    ensures NoDup(KahnFrom(g, done)) && Elems(KahnFrom(g, done)) == g.Keys
    decreases |g.Keys - Elems(done)|
  {
    hide Ready, Missing, NoDup, Elems, Sorted;
    if Ready(g, Elems(done)) == {} {
      var rest := SortSet(g.Keys - Elems(done));
      SortedNoDup(rest);
      ConcatNoDup(done, rest);
    } else {
      StepShrinks(g, done);
      NextIsNew(g, done);
      NoDupAppend(done, Next(g, done));
      ElemsAppend(done, Next(g, done));
      KahnIsPermutation(g, done + [Next(g, done)]);
    }
  }

  lemma {:induction false} KahnSound(g: Graph, done: seq<Id>)
    requires UpstreamFirst(g, done) && Elems(done) <= g.Keys && LeftoverFrom(g, done) == {}
    ensures UpstreamFirst(g, KahnFrom(g, done))
    decreases |g.Keys - Elems(done)|
  {
    if Ready(g, Elems(done)) == {} {
      assert SortSet({}) == [];
      assert g.Keys - Elems(done) == {};
      assert KahnFrom(g, done) == done + [] == done;
    } else {
      PlaceReady(g, done, Next(g, done));
      StepShrinks(g, done);
      KahnSound(g, done + [Next(g, done)]);
    }
  }

  lemma PlaceReady(g: Graph, done: seq<Id>, m: Id)
    requires UpstreamFirst(g, done) && Elems(done) <= g.Keys && m in Ready(g, Elems(done))
    ensures UpstreamFirst(g, done + [m]) && Elems(done + [m]) == Elems(done) + {m} <= g.Keys
  {
    ElemsAppend(done, m);
    forall u | Edge(g, m, u) ensures u in done {
      assert u !in Missing(g, Elems(done), m);
    }
    assert m !in Elems(done);
    UpstreamFirstAppend(g, done, m);
  }

  lemma {:induction false} LeftoverNeedsCycle(g: Graph, done: seq<Id>)
    requires Elems(done) <= g.Keys && !Cyclic(g)
    ensures LeftoverFrom(g, done) == {}
    decreases |g.Keys - Elems(done)|
  {
    var left := g.Keys - Elems(done);
    if Ready(g, Elems(done)) == {} {
      forall x | x in left ensures HasUpstreamIn(g, left, x) {
        assert x !in Ready(g, Elems(done));
        var u :| u in Missing(g, Elems(done), x);
      }
      if left != {} {
        StuckIsCyclic(g, left);
      }
    } else {
      StepShrinks(g, done);
      ElemsAppend(done, Next(g, done));
      LeftoverNeedsCycle(g, done + [Next(g, done)]);
    }
  }

  /** The order is a permutation of the inventory for every graph; it is upstream-first, and
      never falls back to the leftover, exactly when the graph has no cycle. */
  lemma KahnOrderCorrect(g: Graph)
    ensures NoDup(KahnOrder(g)) && Elems(KahnOrder(g)) == g.Keys
    ensures UpstreamFirst(g, KahnOrder(g)) <==> !Cyclic(g)
    ensures LeftoverFrom(g, []) == {} <==> !Cyclic(g)
  {
    KahnIsPermutation(g, []);
    if !Cyclic(g) {
      LeftoverNeedsCycle(g, []);
    }
    if LeftoverFrom(g, []) == {} {
      KahnSound(g, []);
    }
    if UpstreamFirst(g, KahnOrder(g)) {
      TopologicalIsAcyclic(g, KahnOrder(g));
    }
  }

  /** Every inventory the dependency check accepts is evaluated upstream-first. */
  lemma AcceptedInventoryOrder(devices: seq<DeviceConfig>)
    requires AcceptableDependencies(devices)
    ensures !Cyclic(UpstreamGraph(Index(devices)))
    ensures LeftoverFrom(UpstreamGraph(Index(devices)), []) == {}
    ensures IsTopological(UpstreamGraph(Index(devices)), KahnOrder(UpstreamGraph(Index(devices))))
  {
    var index := Index(devices);
    var g, h := DependencyGraph(index), UpstreamGraph(index);
    forall a, b | Edge(h, a, b) ensures Edge(g, a, b) {
      assert b in Elems(h[a]);
    }
    SubgraphAcyclic(g, h);
    KahnOrderCorrect(h);
  }

  function Lookup(m: map<Id, seq<Id>>, k: Id): seq<Id> {
    if k in m then m[k] else []
  }

  /** `children` lists the dependents of every device, those in `rest` not yet counted. */
  ghost predicate ListsChildren(g: Graph, children: map<Id, seq<Id>>, rest: set<Id>) {
    forall u :: NoDup(Lookup(children, u)) && Elems(Lookup(children, u)) == Children(g, u) - rest
  }

  /** As ListsChildren, where `a` is listed so far only under the upstreams in `D`. */
  ghost predicate ListsPartly(g: Graph, children: map<Id, seq<Id>>, rest: set<Id>, a: Id, D: set<Id>) {
    forall u :: ListedFor(g, children, rest, a, D, u)
  }

  ghost predicate ListedFor(g: Graph, children: map<Id, seq<Id>>, rest: set<Id>, a: Id, D: set<Id>, u: Id) {
    && NoDup(Lookup(children, u))
    && Elems(Lookup(children, u)) == if u in D then Children(g, u) - rest else Children(g, u) - rest - {a}
  }

  lemma ListsNothing(g: Graph)
    ensures ListsChildren(g, map[], g.Keys)
  {
    forall u ensures Children(g, u) - g.Keys == Elems<Id>([]) {
    }
  }

  lemma ListStart(g: Graph, children: map<Id, seq<Id>>, rest: set<Id>, a: Id)
    requires ListsChildren(g, children, rest + {a})
    ensures ListsPartly(g, children, rest, a, {})
  {
    forall u ensures Children(g, u) - (rest + {a}) == Children(g, u) - rest - {a} {
    }
  }

  lemma ListChild(g: Graph, children: map<Id, seq<Id>>, rest: set<Id>, a: Id, D: set<Id>, up: Id)
    requires ListsPartly(g, children, rest, a, D) && up !in D && Edge(g, a, up) && a !in rest
    ensures ListsPartly(g, children[up := Lookup(children, up) + [a]], rest, a, D + {up})
  {
    var cs := Lookup(children, up);
    assert ListedFor(g, children, rest, a, D, up);
    assert a !in Elems(cs);
    NoDupAppend(cs, a);
    ElemsAppend(cs, a);
    assert a in Children(g, up);
    assert Elems(cs + [a]) == Children(g, up) - rest;
    var children' := children[up := cs + [a]];
    hide Children, NoDup, Edge;
    forall u ensures ListedFor(g, children', rest, a, D + {up}, u) {
      assert ListedFor(g, children, rest, a, D, u);
      assert u != up ==> Lookup(children', u) == Lookup(children, u);
    }
  }

  lemma ListSkip(g: Graph, children: map<Id, seq<Id>>, rest: set<Id>, a: Id, D: set<Id>, up: Id)
    requires ListsPartly(g, children, rest, a, D) && up !in g
    ensures ListsPartly(g, children, rest, a, D + {up})
  {
    assert Children(g, up) == {};
    forall u ensures ListedFor(g, children, rest, a, D + {up}, u) {
      assert ListedFor(g, children, rest, a, D, u);
    }
  }

  lemma ListDone(g: Graph, children: map<Id, seq<Id>>, rest: set<Id>, a: Id)
    requires a in g && ListsPartly(g, children, rest, a, Elems(g[a]))
    ensures ListsChildren(g, children, rest)
    ensures Missing(g, {}, a) == Elems(g[a]) * g.Keys
  {
    forall u ensures NoDup(Lookup(children, u)) && Elems(Lookup(children, u)) == Children(g, u) - rest {
      assert ListedFor(g, children, rest, a, Elems(g[a]), u);
      if u !in Elems(g[a]) {
        assert a !in Children(g, u);
      }
    }
  }

  lemma GraphAt(index: map<Id, DeviceConfig>, a: Id)
    requires a in index
    ensures UpstreamGraph(index).Keys == index.Keys && UpstreamGraph(index)[a] == Normalized(index[a].Upstreams())
    ensures Sorted(UpstreamGraph(index)[a])
  {
  }

  /** The number of upstreams each device still waits for. */
  ghost predicate CountsMissing(g: Graph, indegree: map<Id, int>, done: set<Id>) {
    indegree.Keys == g.Keys && forall a :: a in g ==> indegree[a] == |Missing(g, done, a)|
  }

  /** Counts each device's known upstreams and lists each device's dependents. */
  method BuildEdges(index: map<Id, DeviceConfig>) returns (indegree: map<Id, int>, children: map<Id, seq<Id>>)
    ensures CountsMissing(UpstreamGraph(index), indegree, {})
    ensures ListsChildren(UpstreamGraph(index), children, {})
  {
    ghost var g := UpstreamGraph(index);
    assert g.Keys == index.Keys;
    indegree, children := map[], map[];
    ListsNothing(g);
    hide Missing, ListsChildren, UpstreamGraph;
    var rest := index.Keys;
    while rest != {}
      invariant rest <= index.Keys && indegree.Keys == index.Keys - rest
      invariant forall a :: a in indegree ==> indegree[a] == |Missing(g, {}, a)|
      invariant ListsChildren(g, children, rest)
      decreases rest
    {
      var a :| a in rest;
      GraphAt(index, a);
      assert rest == rest - {a} + {a};
      rest := rest - {a};
      var ups := NormalizeIDs(index[a].Upstreams());
      var n;
      n, children := AddEdges(index.Keys, g, a, ups, rest, children);
      indegree := indegree[a := n];
    }
    assert indegree.Keys == index.Keys;
    assert rest == {};
  }

  method AddEdges(known: set<Id>, ghost g: Graph, a: Id, ups: seq<Id>, ghost rest: set<Id>, children: map<Id, seq<Id>>)
    returns (n: int, children': map<Id, seq<Id>>)
    requires g.Keys == known && a in known && g[a] == ups && Sorted(ups) && a !in rest
    requires ListsChildren(g, children, rest + {a})
    ensures n == |Missing(g, {}, a)|
    ensures ListsChildren(g, children', rest)
  {
    hide Missing, ListsChildren, ListsPartly, Children, NoDup, Sorted;
    n, children' := 0, children;
    SortedNoDup(ups);
    ListStart(g, children, rest, a);
    ghost var D: set<Id> := {};
    var j := 0;
    while j < |ups|
      invariant 0 <= j <= |ups| && D == Elems(ups[..j])
      invariant n == |D * known|
      invariant ListsPartly(g, children', rest, a, D)
    {
      var up := ups[j];
      NotEarlier(ups, j);
      ElemsPrefix(ups, j);
      KnownStep(D, known, up);
      if up in known {
        ListChild(g, children', rest, a, D, up);
        children' := children'[up := Lookup(children', up) + [a]];
        n := n + 1;
      } else {
        ListSkip(g, children', rest, a, D, up);
      }
      D := D + {up};
      j := j + 1;
    }
    ElemsAll(ups, j);
    ListDone(g, children', rest, a);
  }

  lemma KnownStep(D: set<Id>, known: set<Id>, up: Id)
    requires up !in D
    ensures |(D + {up}) * known| == |D * known| + if up in known then 1 else 0
  {
    if up in known {
      assert (D + {up}) * known == D * known + {up};
    } else {
      assert (D + {up}) * known == D * known;
    }
  }

  lemma NotEarlier(s: seq<Id>, i: nat)
    requires NoDup(s) && i < |s|
    ensures s[i] !in Elems(s[..i])
  {
  }

  /** Placing `id` leaves its dependents one upstream short of what they missed before. */
  lemma MissingAfter(g: Graph, done: set<Id>, id: Id, a: Id)
    requires id in g && id !in done
    ensures a in Children(g, id) ==> |Missing(g, done, a)| == |Missing(g, done + {id}, a)| + 1
    ensures a !in Children(g, id) ==> Missing(g, done, a) == Missing(g, done + {id}, a)
  {
    if a in Children(g, id) {
      assert Missing(g, done, a) == Missing(g, done + {id}, a) + {id};
    }
  }

  ghost function NewlyReady(g: Graph, done: set<Id>, cs: set<Id>): set<Id> {
    set c | c in cs && Missing(g, done, c) == {}
  }

  lemma ReadyAfter(g: Graph, order: seq<Id>, id: Id)
    requires UpstreamFirst(g, order) && id in Ready(g, Elems(order))
    ensures Ready(g, Elems(order) + {id}) ==
            Ready(g, Elems(order)) - {id} + NewlyReady(g, Elems(order) + {id}, Children(g, id))
    ensures Children(g, id) !! Ready(g, Elems(order))
  {
    var done := Elems(order);
    forall a ensures a in Ready(g, done + {id}) <==>
                     a in Ready(g, done) - {id} + NewlyReady(g, done + {id}, Children(g, id)) {
      MissingAfter(g, done, id, a);
      if a in Children(g, id) {
        ChildNotPlaced(g, order, id, a);
      }
    }
    forall a | a in Children(g, id) ensures a !in Ready(g, done) {
      MissingAfter(g, done, id, a);
    }
  }

  lemma ChildNotPlaced(g: Graph, order: seq<Id>, id: Id, a: Id)
    requires UpstreamFirst(g, order) && id !in Elems(order) && a in Children(g, id)
    ensures a !in Elems(order)
  {
    forall i | 0 <= i < |order| ensures !Edge(g, order[i], id) {
      assert id !in order[..i];
    }
  }

  /** Midway through releasing `id`: the dependents in `D` are already counted down. */
  ghost predicate CountsPartly(g: Graph, indegree: map<Id, int>, done: set<Id>, id: Id, D: set<Id>) {
    && indegree.Keys == g.Keys
    && forall a :: a in g ==> indegree[a] == if a in D then |Missing(g, done + {id}, a)| else |Missing(g, done, a)|
  }

  lemma CountDown(g: Graph, indegree: map<Id, int>, done: set<Id>, id: Id, D: set<Id>, c: Id)
    requires CountsPartly(g, indegree, done, id, D) && id in g && id !in done
    requires c in Children(g, id) && c !in D
    ensures c in indegree && CountsPartly(g, indegree[c := indegree[c] - 1], done, id, D + {c})
    ensures indegree[c] - 1 == 0 <==> Missing(g, done + {id}, c) == {}
  {
    MissingAfter(g, done, id, c);
  }

  lemma CountsWhole(g: Graph, indegree: map<Id, int>, done: set<Id>, id: Id)
    requires CountsPartly(g, indegree, done, id, Children(g, id)) && id in g && id !in done
    ensures CountsMissing(g, indegree, done + {id})
  {
    forall a | a in g ensures indegree[a] == |Missing(g, done + {id}, a)| {
      MissingAfter(g, done, id, a);
    }
  }

  lemma NewlyReadyStep(g: Graph, done: set<Id>, D: set<Id>, c: Id)
    ensures NewlyReady(g, done, D + {c}) == NewlyReady(g, done, D) + if Missing(g, done, c) == {} then {c} else {}
    ensures NewlyReady(g, done, D) <= D
    ensures NewlyReady(g, done, {}) == {}
  {
  }

  lemma ReleaseStart(g: Graph, indegree: map<Id, int>, done: set<Id>, id: Id)
    requires CountsMissing(g, indegree, done)
    ensures CountsPartly(g, indegree, done, id, {})
    ensures NewlyReady(g, done + {id}, {}) == {}
  {
  }

  /** Takes `id` off its dependents' counts and queues those that become ready. */
  method Release(ghost g: Graph, ghost done: set<Id>, id: Id, cs: seq<Id>, indegree: map<Id, int>, queue: seq<Id>)
    returns (indegree': map<Id, int>, queue': seq<Id>)
    requires id in g && id !in done
    requires NoDup(cs) && Elems(cs) == Children(g, id) && Elems(cs) !! Elems(queue)
    requires CountsMissing(g, indegree, done)
    requires Sorted(queue)
    ensures CountsMissing(g, indegree', done + {id})
    ensures queue' == SortSet(Elems(queue) + NewlyReady(g, done + {id}, Children(g, id)))
  {
    hide *;
    ReleaseStart(g, indegree, done, id);
    EmptyList();
    assert cs[..0] == [];
    indegree', queue' := indegree, queue;
    ghost var D: set<Id> := {};
    var k := 0;
    while k < |cs|
      invariant 0 <= k <= |cs| && D == Elems(cs[..k]) <= Elems(cs)
      invariant CountsPartly(g, indegree', done, id, D)
      invariant Sorted(queue') && Elems(queue') == Elems(queue) + NewlyReady(g, done + {id}, D)
      invariant NewlyReady(g, done + {id}, D) <= D
    {
      var c := cs[k];
      InElems(cs, k);
      NotEarlier(cs, k);
      ElemsPrefix(cs, k);
      CountDown(g, indegree', done, id, D, c);
      NewlyReadyStep(g, done + {id}, D, c);
      NewlyReadyStep(g, done + {id}, D + {c}, c);
      indegree' := indegree'[c := indegree'[c] - 1];
      if indegree'[c] == 0 {
        queue' := Enqueue(queue', c);
      }
      D := D + {c};
      k := k + 1;
    }
    ElemsAll(cs, k);
    CountsWhole(g, indegree', done, id);
    SortedUnique(queue', SortSet(Elems(queue) + NewlyReady(g, done + {id}, Children(g, id))));
  }

  method Enqueue(queue: seq<Id>, c: Id) returns (queue': seq<Id>)
    requires Sorted(queue) && c !in Elems(queue)
    ensures Sorted(queue') && Elems(queue') == Elems(queue) + {c}
  {
    SortedNoDup(queue);
    NoDupAppend(queue, c);
    ElemsAppend(queue, c);
    queue' := SortIds(queue + [c]);
    SortIdsProps(queue + [c]);
  }

  method TopologicalOrder(index: map<Id, DeviceConfig>) returns (order: seq<Id>)
    ensures order == KahnOrder(UpstreamGraph(index))
  {
    hide *;
    ghost var g := UpstreamGraph(index);
    KahnStart(index);
    var ids := SortedKeys(index.Keys);
    var indegree, children := BuildEdges(index);
    var queue := RootsOf(g, ids, indegree);
    order := [];
    while queue != []
      invariant CountsMissing(g, indegree, Elems(order))
      invariant queue == SortSet(Ready(g, Elems(order)))
      invariant UpstreamFirst(g, order) && Elems(order) <= g.Keys
      invariant KahnFrom(g, order) == KahnOrder(g)
      decreases |g.Keys - Elems(order)|
    {
      var id := queue[0];
      HeadIsNext(g, order, queue);
      StepShrinks(g, order);
      var cs := SortIds(Lookup(children, id));
      ChildrenAt(g, children, id, cs);
      ReadyAfter(g, order, id);
      TailElems(queue);
      indegree, queue := Release(g, Elems(order), id, cs, indegree, queue[1..]);
      PlaceReady(g, order, id);
      order := order + [id];
    }
    NoneReady(g, Elems(order));
    order := AppendLeftover(g, ids, order);
  }

  lemma KahnStart(index: map<Id, DeviceConfig>)
    ensures UpstreamGraph(index).Keys == index.Keys && Elems<Id>([]) == {}
    ensures KahnFrom(UpstreamGraph(index), []) == KahnOrder(UpstreamGraph(index))
    ensures UpstreamFirst(UpstreamGraph(index), [])
  {
  }

  lemma ChildrenAt(g: Graph, children: map<Id, seq<Id>>, id: Id, cs: seq<Id>)
    requires ListsChildren(g, children, {}) && cs == SortIds(Lookup(children, id))
    ensures NoDup(cs) && Elems(cs) == Children(g, id)
  {
    SortIdsProps(Lookup(children, id));
    assert Children(g, id) - {} == Children(g, id);
  }

  lemma NoneReady(g: Graph, done: set<Id>)
    requires SortSet(Ready(g, done)) == []
    ensures Ready(g, done) == {}
  {
  }

  lemma HeadIsNext(g: Graph, order: seq<Id>, queue: seq<Id>)
    requires queue == SortSet(Ready(g, Elems(order))) && queue != []
    ensures Ready(g, Elems(order)) != {} && queue[0] == Next(g, order)
    ensures queue[0] in Ready(g, Elems(order)) && queue[0] in g && queue[0] !in Elems(order)
    ensures KahnFrom(g, order + [queue[0]]) == KahnFrom(g, order)
  {
    var S := Ready(g, Elems(order));
    assert queue[0] in Elems(queue);
    forall x | x in S && x != queue[0] ensures Less(queue[0], x) {
      assert x in Elems(queue);
    }
    LeastUnique(queue[0], Next(g, order), S);
  }

  lemma TailElems(s: seq<Id>)
    requires Sorted(s) && s != []
    ensures Sorted(s[1..]) && Elems(s[1..]) == Elems(s) - {s[0]}
  {
    forall x ensures x in Elems(s[1..]) <==> x in Elems(s) - {s[0]} {
      TailMember(s, x);
    }
  }

  lemma ZeroMeansReady(g: Graph, indegree: map<Id, int>, id: Id)
    requires CountsMissing(g, indegree, {}) && id in g
    ensures id in indegree && (indegree[id] == 0 <==> id in Ready(g, {}))
  {
  }

  lemma EmptyList()
    ensures Sorted([]) && NoDup<Id>([]) && Elems<Id>([]) == {}
  {
  }

  lemma ReadyAreNodes(g: Graph, done: set<Id>)
    ensures Ready(g, done) * g.Keys == Ready(g, done)
  {
  }

  method RootsOf(ghost g: Graph, ids: seq<Id>, indegree: map<Id, int>) returns (queue: seq<Id>)
    requires ids == SortSet(g.Keys) && CountsMissing(g, indegree, {})
    ensures queue == SortSet(Ready(g, {}))
  {
    hide *;
    EmptyList();
    queue := [];
    var i := 0;
    while i < |ids|
      invariant 0 <= i <= |ids|
      invariant Sorted(queue) && Elems(queue) == Ready(g, {}) * Elems(ids[..i])
    {
      InElems(ids, i);
      ElemsPrefix(ids, i);
      ZeroMeansReady(g, indegree, ids[i]);
      if indegree[ids[i]] == 0 {
        SortedAppend(ids, i, queue);
        queue := queue + [ids[i]];
      }
      i := i + 1;
    }
    ElemsAll(ids, i);
    ReadyAreNodes(g, {});
    SortedUnique(queue, SortSet(Ready(g, {})));
  }

  lemma KahnEnd(g: Graph, order: seq<Id>)
    requires Ready(g, Elems(order)) == {}
    ensures KahnFrom(g, order) == order + SortSet(g.Keys - Elems(order))
    ensures Elems<Id>([]) == (g.Keys - Elems(order)) * Elems<Id>([])
  {
  }

  /** The fallback: devices the sort could not place follow in id order. */
  method AppendLeftover(ghost g: Graph, ids: seq<Id>, order: seq<Id>) returns (order': seq<Id>)
    requires ids == SortSet(g.Keys) && Elems(order) <= g.Keys
    requires Ready(g, Elems(order)) == {}
    ensures order' == KahnFrom(g, order)
  {
    hide *;
    ghost var left := g.Keys - Elems(order);
    KahnEnd(g, order);
    EmptyList();
    var seen := Elems(order);
    var rest: seq<Id> := [];
    var i := 0;
    while i < |ids|
      invariant 0 <= i <= |ids|
      invariant Sorted(rest) && Elems(rest) == left * Elems(ids[..i])
    {
      InElems(ids, i);
      ElemsPrefix(ids, i);
      if ids[i] !in seen {
        SortedAppend(ids, i, rest);
        rest := rest + [ids[i]];
      }
      i := i + 1;
    }
    ElemsAll(ids, i);
    assert left * g.Keys == left;
    SortedUnique(rest, SortSet(left));
    order' := order + rest;
  }
}
