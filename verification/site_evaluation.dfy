/** Evaluating the whole site topology: which sites are impacted, and because of which others. */
module SiteEvaluation {
  import opened Ids
  import opened Graphs
  import opened Topology
  import opened SiteTopology
  import opened SiteCompletion

  datatype SiteState = SiteState(
    upstreamSiteIDs: seq<Id>,
    unavailableUpstreamSiteIDs: seq<Id>,
    rootCauseSiteIDs: seq<Id>,
    impacted: bool)

  function DownUpstreams(raw: RawHealth, index: SiteIndex, ups: seq<Id>): seq<Id> {
    if ups == [] then []
    else
      var n := |ups| - 1;
      DownUpstreams(raw, index, ups[..n]) + if Unavailable(raw, index, ups[n]) then [ups[n]] else []
  }

  /** Every upstream is unavailable, there is one, and most devices failed. */
  predicate Impacted(raw: RawHealth, index: SiteIndex, name: Id) {
    var ups := Upstreams(index, name);
    ups != [] && (forall u :: u in ups ==> Unavailable(raw, index, u)) && Cascades(RawOf(raw, name))
  }

  ghost function StateOf(raw: RawHealth, index: SiteIndex, name: Id): SiteState {
    var ups := Upstreams(index, name);
    var down := SortIds(DownUpstreams(raw, index, ups));
    if Impacted(raw, index, name) then SiteState(ups, down, SortSet(RootCauses(raw, index, ups)), true)
    else SiteState(ups, down, [], false)
  }

  lemma {:induction false} DownLength(raw: RawHealth, index: SiteIndex, ups: seq<Id>)
    ensures |DownUpstreams(raw, index, ups)| <= |ups|
    ensures |DownUpstreams(raw, index, ups)| == |ups| <==> forall u :: u in ups ==> Unavailable(raw, index, u)
    ensures (forall u :: u in ups ==> Unavailable(raw, index, u)) ==> DownUpstreams(raw, index, ups) == ups
  {
    hide Unavailable;
    if ups != [] {
      var n := |ups| - 1;
      DownLength(raw, index, ups[..n]);
      assert ups == ups[..n] + [ups[n]];
    }
  }

  lemma CausesSameElements(raw: RawHealth, index: SiteIndex, a: seq<Id>, b: seq<Id>)
    requires Elems(a) == Elems(b)
    ensures RootCauses(raw, index, a) == RootCauses(raw, index, b)
  {
    hide IsRootCause, UnavailableGraph, Reaches;
    forall r ensures CausedBy(raw, index, a, r) <==> CausedBy(raw, index, b, r) {
      assert forall u :: u in a <==> u in Elems(a);
      assert forall u :: u in b <==> u in Elems(b);
    }
  }

  /** When the site is impacted, the walk for its root causes ends. */
  ghost predicate ImpactEnds(raw: RawHealth, index: SiteIndex, name: Id) {
    Impacted(raw, index, name) ==> CausesEnd(raw, index, Upstreams(index, name))
  }

  lemma EndsSorted(raw: RawHealth, index: SiteIndex, a: seq<Id>, b: seq<Id>)
    requires CausesEnd(raw, index, a) && Elems(a) == Elems(b)
    ensures CausesEnd(raw, index, b)
  {
    forall u | u in b ensures CycleFree(UnavailableGraph(raw, index), u) {
      assert u in Elems(b) && u in Elems(a);
    }
  }

  /** One site's state, given which sites are down. */
  method EvaluateSite(raw: RawHealth, index: SiteIndex, down: set<Id>, name: Id) returns (state: SiteState)
    requires name in Nodes(index) && ImpactEnds(raw, index, name)
    requires forall x :: x in Nodes(index) ==> (x in down <==> Unavailable(raw, index, x))
    ensures state == StateOf(raw, index, name)
  {
    hide CausesEnd, Unavailable, Nodes, SiteGraph, RootCauses, Upstreams, Cascades, SortBy;
    var ups := Upstreams(index, name);
    var unavailable: seq<Id> := [];
    var i := 0;
    while i < |ups|
      invariant 0 <= i <= |ups| && unavailable == DownUpstreams(raw, index, ups[..i])
    {
      SplitAt(ups, i);
      UpstreamNode(index, name, i);
      if ups[i] in down { unavailable := unavailable + [ups[i]]; }
      i := i + 1;
    }
    assert ups[..i] == ups;
    DownLength(raw, index, ups);
    SortIdsProps(unavailable);
    var sorted := SortIds(unavailable);
    state := SiteState(ups, sorted, [], false);
    if |ups| > 0 && |sorted| == |ups| {
      var cascade := ShowsCascadeSignature(RawOf(raw, name));
      if cascade {
        EndsSorted(raw, index, ups, sorted);
        var causes := CollectRootCauseSites(sorted, raw, index);
        CausesSameElements(raw, index, sorted, ups);
        state := SiteState(ups, sorted, causes, true);
      }
    }
  }

  lemma UpstreamNode(index: SiteIndex, name: Id, i: nat)
    requires i < |Upstreams(index, name)|
    ensures Upstreams(index, name)[i] in Nodes(index)
  {
    var u := Upstreams(index, name)[i];
    assert name in index && u in index[name].upstreamSiteIDs;
  }

  /** Whatever order the maps are read in, the walks that the impacted sites need end. */
  ghost predicate EvaluationEnds(index: SiteIndex, raw: RawHealth) {
    forall naming :: Chosen(index, naming) ==> AllImpactsEnd(raw, Completed(index, naming))
  }

  ghost predicate AllImpactsEnd(raw: RawHealth, index: SiteIndex) {
    forall name :: name in Nodes(index) ==> ImpactEnds(raw, index, name)
  }

  /** Evaluation ends for every evidence when the operator's edges are acyclic and lead back around to no
      site that is completed; never leading down the scheme is enough for the latter. */
  lemma EvaluationEndsWhen(index: SiteIndex, raw: RawHealth)
    requires !Cyclic(SiteGraph(index))
    requires NeverDescends(index) || forall naming :: Chosen(index, naming) ==> !Cyclic(ReturnGraph(index, naming))
    ensures EvaluationEnds(index, raw)
  {
    hide *;
    forall naming | Chosen(index, naming) ensures AllImpactsEnd(raw, Completed(index, naming)) {
      if NeverDescends(index) {
        ClimbingStaysAcyclic(index, naming);
      } else {
        CompletionExact(index, naming);
      }
      AcyclicImpactsEnd(raw, Completed(index, naming));
    }
    EndsForAll(index, raw);
  }

  lemma EndsForAll(index: SiteIndex, raw: RawHealth)
    requires forall naming :: Chosen(index, naming) ==> AllImpactsEnd(raw, Completed(index, naming))
    ensures EvaluationEnds(index, raw)
  {
  }

  lemma AcyclicImpactsEnd(raw: RawHealth, index: SiteIndex)
    requires !Cyclic(SiteGraph(index))
    ensures AllImpactsEnd(raw, index)
  {
    hide SiteGraph, Impacted, Upstreams, CausesEnd;
    forall name | name in Nodes(index) ensures ImpactEnds(raw, index, name) {
      AcyclicCausesEnd(raw, index, Upstreams(index, name));
    }
  }

  lemma CompletedEnds(index: SiteIndex, raw: RawHealth, completed: SiteIndex)
    requires EvaluationEnds(index, raw) && Completes(index, completed)
    ensures AllImpactsEnd(raw, completed)
  {
  }

  lemma EndsAt(raw: RawHealth, index: SiteIndex, order: seq<Id>, i: nat)
    requires AllImpactsEnd(raw, index) && Elems(order) == Nodes(index) && i < |order|
    ensures order[i] in Nodes(index) && ImpactEnds(raw, index, order[i])
  {
    InElems(order, i);
  }

  /** Completion, order, unavailability of every site, then each site's state. */
  method EvaluateSiteTopology(index: SiteIndex, raw: RawHealth)
    returns (states: map<Id, SiteState>)
    requires EvaluationEnds(index, raw)
    ensures exists c :: Completes(index, c) && EvaluatedOn(raw, c, states)
  {
    hide *;
    var completed := CompleteMissingSiteUpstreams(index);
    CompletedEnds(index, raw, completed);
    var order := TopologicalSiteOrder(completed);
    var down: set<Id> := {};
    var i := 0;
    while i < |order|
      invariant 0 <= i <= |order|
      invariant forall k :: 0 <= k < i ==> (order[k] in down <==> Unavailable(raw, completed, order[k]))
      invariant down <= Elems(order[..i])
    {
      NewInOrder(order, i);
      ElemsPrefix(order, i);
      if Unavailable(raw, completed, order[i]) { down := down + {order[i]}; }
      i := i + 1;
    }
    DownKnown(raw, completed, order, down);
    states := map[];
    i := 0;
    while i < |order|
      invariant 0 <= i <= |order| && states.Keys == Elems(order[..i])
      invariant forall name :: name in states ==> states[name] == StateOf(raw, completed, name)
    {
      EndsAt(raw, completed, order, i);
      ElemsPrefix(order, i);
      var state := EvaluateSite(raw, completed, down, order[i]);
      states := states[order[i] := state];
      i := i + 1;
    }
    ElemsAll(order, i);
    EvaluatedAll(raw, completed, states);
  }

  lemma EvaluatedAll(raw: RawHealth, index: SiteIndex, states: map<Id, SiteState>)
    requires states.Keys == Nodes(index)
    requires forall name :: name in states ==> states[name] == StateOf(raw, index, name)
    ensures EvaluatedOn(raw, index, states)
  {
    hide Nodes, StateOf;
  }

  ghost predicate EvaluatedOn(raw: RawHealth, index: SiteIndex, states: map<Id, SiteState>) {
    states.Keys == Nodes(index) && forall name :: name in states ==> states[name] == StateOf(raw, index, name)
  }

  lemma NewInOrder(order: seq<Id>, i: nat)
    requires NoDup(order) && i < |order|
    ensures order[i] !in Elems(order[..i]) && forall k :: 0 <= k < i ==> order[k] != order[i]
    ensures Elems(order[..0]) == {}
  {
  }

  lemma DownKnown(raw: RawHealth, index: SiteIndex, order: seq<Id>, down: set<Id>)
    requires Elems(order) == Nodes(index)
    requires forall k :: 0 <= k < |order| ==> (order[k] in down <==> Unavailable(raw, index, order[k]))
    ensures forall x :: x in Nodes(index) ==> (x in down <==> Unavailable(raw, index, x))
    ensures Elems(order[..0]) == {}
  {
    hide Unavailable, Nodes;
    forall x | x in Nodes(index) ensures x in down <==> Unavailable(raw, index, x) {
      assert x in Elems(order);
      var k :| 0 <= k < |order| && order[k] == x;
    }
  }

  /** What an impacted site reports: exactly the unavailable sites without unavailable upstreams of their
      own that its upstreams lead to, sorted; and there always is one. */
  lemma ImpactedSitesHaveRootCauses(raw: RawHealth, index: SiteIndex, name: Id)
    requires ImpactEnds(raw, index, name) && RawKnown(raw, index) && StateOf(raw, index, name).impacted
    ensures var causes := StateOf(raw, index, name).rootCauseSiteIDs;
      && causes != [] && Sorted(causes)
      && forall r :: r in causes <==> IsRootCause(raw, index, r) && CausedBy(raw, index, Upstreams(index, name), r)
  {
    var ups := Upstreams(index, name);
    CausesEndAt(raw, index, ups, 0);
    hide CycleFree, Unavailable, SiteGraph, UnavailableGraph, IsRootCause, CausedBy, Cascades;
    assert ups[0] in ups;
    UnavailableHasCause(raw, index, ups[0]);
    CausesMember(raw, index, ups, 0);
    var causes := SortSet(RootCauses(raw, index, ups));
    assert forall r :: r in causes <==> r in Elems(causes);
    RootIsIndexed(raw, index);
  }

  lemma RootIsIndexed(raw: RawHealth, index: SiteIndex)
    ensures forall r :: IsRootCause(raw, index, r) ==> r in index
  {
  }
}
