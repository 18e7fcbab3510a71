/** Completing the site graph by name, and when that closes a cycle. */
module SiteCompletion {
  import opened Ids
  import opened Graphs
  import opened Topology
  import opened SiteTopology

  predicate IsCore(name: Id) {
    Names(name, "core")
  }

  lemma NotCore(name: Id)
    requires name == ""
    ensures !IsCore(name)
  {
  }

  // What the order in which the maps are read decides: the core site, "" when there is none, and one site for
  // each lower-cased name.
  datatype Naming = Naming(core: Id, byLower: map<Id, Id>)

  predicate FoundCore(index: SiteIndex, core: Id) {
    if exists c :: c in index && IsCore(c) then core in index && IsCore(core) else core == ""
  }

  predicate LowerMap(index: SiteIndex, done: set<Id>, byLower: map<Id, Id>) {
    && (forall l :: l in byLower ==> byLower[l] in index && ToLower(byLower[l]) == l)
    && (forall n :: n in done ==> ToLower(n) in byLower)
  }

  predicate Chosen(index: SiteIndex, naming: Naming) {
    FoundCore(index, naming.core) && LowerMap(index, index.Keys, naming.byLower)
  }

  function CoreList(core: Id): seq<Id> {
    if core != "" then [core] else []
  }

  /** The distribution site that an access site's name points at, "" when there is none. */
  function MatchingMdf(byLower: map<Id, Id>, name: Id): Id
    requires Names(name, IDF)
  {
    if IndexOf(ToLower(name), IDF) > 0 && MdfOf(name) in byLower then byLower[MdfOf(name)] else ""
  }

  /** The upstreams that a site without any is given. */
  function Inferred(naming: Naming, name: Id): seq<Id> {
    if IsCore(name) then []
    else if Names(name, IDF) then
      if MatchingMdf(naming.byLower, name) != "" then [MatchingMdf(naming.byLower, name)] else CoreList(naming.core)
    else if Names(name, MDF) then CoreList(naming.core)
    else []
  }

  /** The operator gave this site no upstream. */
  predicate Bare(index: SiteIndex, name: Id) {
    name in index && index[name].upstreamSiteIDs == []
  }

  function Completed(index: SiteIndex, naming: Naming): SiteIndex {
    map name | name in index ::
      if Bare(index, name) then index[name].(upstreamSiteIDs := Inferred(naming, name)) else index[name]
  }

  ghost predicate Completes(index: SiteIndex, completed: SiteIndex) {
    exists naming :: Chosen(index, naming) && completed == Completed(index, naming)
  }

  method ReadNames(index: SiteIndex) returns (naming: Naming)
    ensures Chosen(index, naming)
  {
    hide ToLower, Names;
    var byLower: map<Id, Id>, core := map[], "";
    var todo := index.Keys;
    while todo != {}
      invariant todo <= index.Keys && LowerMap(index, index.Keys - todo, byLower)
      invariant if exists c :: c in index.Keys - todo && IsCore(c) then core in index && IsCore(core) else core == ""
      decreases todo
    {
      var name :| name in todo;
      todo := todo - {name};
      byLower := byLower[ToLower(name) := name];
      if core == "" && IsCore(name) {
        NotCore("");
        core := name;
      }
    }
    naming := Naming(core, byLower);
  }

  /** Fills in upstreams for sites without any; given ones are kept. */
  method CompleteMissingSiteUpstreams(index: SiteIndex) returns (completed: SiteIndex)
    ensures Completes(index, completed)
  {
    hide Chosen, MdfOf, IndexOf, ToLower, Contains;
    var naming := ReadNames(index);
    completed := index;
    var todo := index.Keys;
    while todo != {}
      invariant todo <= index.Keys && completed.Keys == index.Keys
      invariant forall n :: n in todo ==> completed[n] == index[n]
      invariant forall n :: n in index && n !in todo ==> completed[n] == Completed(index, naming)[n]
      decreases todo
    {
      var name :| name in todo;
      todo := todo - {name};
      var node := completed[name];
      if |node.upstreamSiteIDs| == 0 && !IsCore(name) {
        if Names(name, IDF) {
          var mdf := MatchingMdf(naming.byLower, name);
          if mdf != "" {
            node := node.(upstreamSiteIDs := [mdf]);
          } else if naming.core != "" {
            node := node.(upstreamSiteIDs := [naming.core]);
          }
        } else if Names(name, MDF) {
          if naming.core != "" {
            node := node.(upstreamSiteIDs := [naming.core]);
          }
        }
      }
      completed := completed[name := node];
    }
    assert completed == Completed(index, naming);
  }

  // ---- What completion gives ----

  predicate MdfMatch(index: SiteIndex, name: Id, m: Id)
    requires Names(name, IDF)
  {
    m in index && IndexOf(ToLower(name), IDF) > 0 && ToLower(m) == MdfOf(name)
  }

  predicate HasMdf(index: SiteIndex, name: Id) {
    Names(name, IDF) && exists m :: m in index && MdfMatch(index, name, m)
  }

  /** How far down the scheme a site stands. */
  function SiteLevel(name: Id): nat {
    if IsCore(name) then 0 else Level(name) + 1
  }

  lemma MdfLevel(index: SiteIndex, name: Id, m: Id)
    requires Names(name, IDF) && MdfMatch(index, name, m)
    ensures SiteLevel(m) < Level(name) + 1
  {
    NoIdfLeft(ToLower(name));
    assert !Names(m, IDF);
  }

  lemma MatchIsMdf(index: SiteIndex, naming: Naming, name: Id)
    requires Chosen(index, naming) && Names(name, IDF)
    ensures MatchingMdf(naming.byLower, name) != "" ==> MdfMatch(index, name, MatchingMdf(naming.byLower, name))
    ensures MatchingMdf(naming.byLower, name) == "" ==> forall m :: m in index ==> !MdfMatch(index, name, m)
  {
    hide Contains, IndexOf;
    if MatchingMdf(naming.byLower, name) == "" && MdfOf(name) in naming.byLower {
      assert |MdfOf(name)| >= 4;
    }
  }

  /** An inferred upstream is a site of the index, strictly higher in the scheme; an access site gets a
      distribution site its name points at when there is one, otherwise like a distribution site the core. */
  lemma InferredClimbs(index: SiteIndex, naming: Naming, name: Id)
    requires Chosen(index, naming)
    ensures |Inferred(naming, name)| <= 1
    ensures forall u :: u in Inferred(naming, name) ==>
      && u in index && SiteLevel(u) < SiteLevel(name)
      && if HasMdf(index, name) then MdfMatch(index, name, u) else IsCore(u)
    ensures Inferred(naming, name) == [] <==>
      IsCore(name) || ((forall c :: c in index ==> !IsCore(c)) && !HasMdf(index, name))
      || !(Names(name, IDF) || Names(name, MDF))
  {
    NotCore("");
    if Names(name, IDF) {
      MatchIsMdf(index, naming, name);
      if MatchingMdf(naming.byLower, name) != "" { MdfLevel(index, name, MatchingMdf(naming.byLower, name)); }
    }
    hide Contains, MdfOf, IndexOf, ToLower, MdfMatch, MatchingMdf, LowerMap;
  }

  lemma CompletedNodes(index: SiteIndex, naming: Naming)
    requires Chosen(index, naming)
    ensures Nodes(Completed(index, naming)) == Nodes(index)
  {
    hide Chosen, Inferred;
    var c := Completed(index, naming);
    forall x | x in Nodes(c) ensures x in Nodes(index) {
      if x !in index {
        var a, u :| a in c.Keys && u in c[a].upstreamSiteIDs && u == x;
        if Bare(index, a) {
          InferredClimbs(index, naming, a);
        }
      }
    }
    forall x | x in Nodes(index) ensures x in Nodes(c) {
      if x !in index {
        var a, u :| a in index.Keys && u in index[a].upstreamSiteIDs && u == x;
        assert u in c[a].upstreamSiteIDs;
      }
    }
  }

  /** The completed graph: the operator's edges and the inferred ones. */
  lemma CompletedEdge(index: SiteIndex, naming: Naming, a: Id, b: Id)
    requires Chosen(index, naming)
    ensures Edge(SiteGraph(Completed(index, naming)), a, b) <==>
      Edge(SiteGraph(index), a, b) || (Bare(index, a) && b in Inferred(naming, a))
    ensures Bare(index, a) ==> !Edge(SiteGraph(index), a, b)
  {
    hide Chosen, Inferred;
    CompletedNodes(index, naming);
    InferredClimbs(index, naming, a);
  }

  // ---- When completion closes a cycle ----

  /** The operator's edges lead from the upstream inferred for `a` to `b`. */
  ghost predicate ReturnsTo(index: SiteIndex, naming: Naming, a: Id, b: Id) {
    exists u :: u in Inferred(naming, a) && Reaches(SiteGraph(index), u, b)
  }

  ghost function Returns(index: SiteIndex, naming: Naming, a: Id): set<Id> {
    set b | b in index.Keys && Bare(index, b) && ReturnsTo(index, naming, a, b)
  }

  /** Each site to be completed, with those its inferred upstream depends on by the operator's edges. */
  ghost function ReturnGraph(index: SiteIndex, naming: Naming): Graph {
    map a | a in index && Bare(index, a) :: SortSet(Returns(index, naming, a))
  }

  lemma ReturnEdge(index: SiteIndex, naming: Naming, a: Id, b: Id)
    ensures Edge(ReturnGraph(index, naming), a, b) <==>
      Bare(index, a) && Bare(index, b) && ReturnsTo(index, naming, a, b)
  {
    hide ReturnsTo;
    assert forall x :: x in SortSet(Returns(index, naming, a)) <==> x in Elems(SortSet(Returns(index, naming, a)));
  }

  /** In the completed graph every site of `S` has an upstream in `S`. */
  ghost predicate Endless(index: SiteIndex, naming: Naming, S: set<Id>) {
    forall y :: y in S ==> HasUpstreamIn(SiteGraph(Completed(index, naming)), S, y)
  }

  /** A site that keeps its operator edges goes on inside the set by one of them. */
  lemma KeptEdge(index: SiteIndex, naming: Naming, S: set<Id>, y: Id)
    requires Chosen(index, naming) && Endless(index, naming, S) && y in S && !Bare(index, y)
    ensures HasUpstreamIn(SiteGraph(index), S, y)
  {
    hide SiteGraph, Chosen, Bare, Edge;
    assert HasUpstreamIn(SiteGraph(Completed(index, naming)), S, y);
    var z :| z in S && Edge(SiteGraph(Completed(index, naming)), y, z);
    CompletedEdge(index, naming, y, z);
  }

  /** Following the operator's edges inside such a set arrives at a site to be completed. */
  lemma ArrivesAtBare(index: SiteIndex, naming: Naming, S: set<Id>, x: Id)
    requires Chosen(index, naming) && !Cyclic(SiteGraph(index)) && x in S && Endless(index, naming, S)
    ensures exists b :: b in S && Bare(index, b) && Reaches(SiteGraph(index), x, b)
  {
    var g := SiteGraph(index);
    hide SiteGraph, Chosen, Cyclic, Bare, Reaches, Endless, Edge;
    if forall b :: b in S && Reaches(g, x, b) ==> !Bare(index, b) {
      var T := set y | y in S && Reaches(g, x, y);
      ReachesSelf(g, x);
      forall y | y in T ensures HasUpstreamIn(g, T, y) {
        KeptEdge(index, naming, S, y);
        var z :| z in S && Edge(g, y, z);
        ReachesEdge(g, y, z);
        ReachesTrans(g, x, y, z);
        assert z in T;
      }
      assert x in T;
      StuckIsCyclic(g, T);
    }
  }

  /** From a site to be completed the way around such a set is a return. */
  lemma ReturnInside(index: SiteIndex, naming: Naming, S: set<Id>, a: Id)
    requires Chosen(index, naming) && !Cyclic(SiteGraph(index)) && Endless(index, naming, S)
    requires a in S && Bare(index, a)
    ensures exists b :: b in S && Bare(index, b) && Edge(ReturnGraph(index, naming), a, b)
  {
    hide SiteGraph, Chosen, Cyclic, Bare, Reaches, Edge, ReturnGraph, Inferred;
    assert HasUpstreamIn(SiteGraph(Completed(index, naming)), S, a);
    var u :| u in S && Edge(SiteGraph(Completed(index, naming)), a, u);
    hide Endless, HasUpstreamIn, Completed;
    CompletedEdge(index, naming, a, u);
    ArrivesAtBare(index, naming, S, u);
    var b :| b in S && Bare(index, b) && Reaches(SiteGraph(index), u, b);
    ReturnEdge(index, naming, a, b);
  }

  lemma CycleIsEndless(index: SiteIndex, naming: Naming) returns (S: set<Id>, x: Id)
    requires Cyclic(SiteGraph(Completed(index, naming)))
    ensures Endless(index, naming, S) && x in S
  {
    var h := SiteGraph(Completed(index, naming));
    var p :| IsCycle(h, p);
    hide SiteGraph, IsCycle, HasUpstreamIn;
    CycleNonempty(h, p);
    S, x := Elems(p), p[0];
    forall y | y in Elems(p) ensures HasUpstreamIn(h, Elems(p), y) {
      CycleMembers(h, p, y);
    }
  }

  lemma CycleReturns(index: SiteIndex, naming: Naming)
    requires Chosen(index, naming) && Cyclic(SiteGraph(Completed(index, naming))) && !Cyclic(SiteGraph(index))
    ensures Cyclic(ReturnGraph(index, naming))
  {
    hide *;
    var r := ReturnGraph(index, naming);
    var S, x := CycleIsEndless(index, naming);
    var T := set y | y in S && Bare(index, y);
    ArrivesAtBare(index, naming, S, x);
    var first :| first in S && Bare(index, first);
    forall a | a in T ensures HasUpstreamIn(r, T, a) {
      ReturnInside(index, naming, S, a);
      var b :| b in S && Bare(index, b) && Edge(r, a, b);
      UpstreamIn(r, T, a, b);
    }
    assert first in T;
    StuckIsCyclic(r, T);
  }

  lemma UpstreamIn(g: Graph, T: set<Id>, a: Id, b: Id)
    requires b in T && Edge(g, a, b)
    ensures HasUpstreamIn(g, T, a)
  {
  }

  lemma CycleNonempty(g: Graph, p: seq<Id>)
    requires IsCycle(g, p)
    ensures p != [] && p[0] in Elems(p)
  {
  }

  lemma ReturnsCycle(index: SiteIndex, naming: Naming)
    requires Chosen(index, naming) && Cyclic(ReturnGraph(index, naming))
    ensures Cyclic(SiteGraph(Completed(index, naming)))
  {
    var g, h, r := SiteGraph(index), SiteGraph(Completed(index, naming)), ReturnGraph(index, naming);
    var p :| IsCycle(r, p);
    var S := set x, b | x in h.Keys && b in Elems(p) && Reaches(h, x, b) :: x;
    assert forall b :: b in p <==> b in Elems(p);
    CycleNonempty(r, p);
    hide SiteGraph, ReturnGraph, Chosen, Cyclic, Bare, IsCycle, Reaches, Edge;
    forall x | x in S ensures HasUpstreamIn(h, S, x) {
      var b :| b in Elems(p) && Reaches(h, x, b);
      ReturnsNext(index, naming, p, x, b);
      var y, b' :| Edge(h, x, y) && b' in Elems(p) && Reaches(h, y, b');
      EdgeEnds(h, x, y);
      assert y in S;
    }
    CycleMembers(r, p, p[0]);
    OnReturns(index, naming, p[0]);
    ReachesSelf(h, p[0]);
    assert p[0] in S;
    StuckIsCyclic(h, S);
  }

  lemma EdgeEnds(g: Graph, a: Id, b: Id)
    requires Edge(g, a, b)
    ensures a in g && b in g
  {
  }

  lemma OnReturns(index: SiteIndex, naming: Naming, b: Id)
    requires b in ReturnGraph(index, naming)
    ensures b in SiteGraph(Completed(index, naming))
  {
  }

  /** A site that leads to the cycle of returns has an upstream that does so too. */
  lemma ReturnsNext(index: SiteIndex, naming: Naming, p: seq<Id>, x: Id, b: Id)
    requires Chosen(index, naming) && IsCycle(ReturnGraph(index, naming), p)
    requires b in Elems(p) && Reaches(SiteGraph(Completed(index, naming)), x, b)
    ensures var h := SiteGraph(Completed(index, naming));
      exists y, b' :: Edge(h, x, y) && b' in Elems(p) && Reaches(h, y, b')
  {
    var g, h, r := SiteGraph(index), SiteGraph(Completed(index, naming)), ReturnGraph(index, naming);
    hide SiteGraph, ReturnGraph, Chosen, Bare, IsCycle, Reaches;
    ReachesUnfold(h, x, b);
    if x == b {
      CycleMembers(r, p, b);
      var b' :| b' in Elems(p) && Edge(r, b, b');
      ReturnEdge(index, naming, b, b');
      var u :| u in Inferred(naming, b) && Reaches(g, u, b');
      CompletedEdge(index, naming, b, u);
      forall v, w | Edge(g, v, w) ensures Edge(h, v, w) {
        CompletedEdge(index, naming, v, w);
      }
      ReachesMore(g, h, u, b');
      assert Edge(h, x, u);
    }
  }

  /** The exact condition, in terms of the given index: completion leaves a cycle exactly when the operator's
      edges hold one already, or lead from the upstreams inferred for some sites back around to those sites. */
  lemma CompletionExact(index: SiteIndex, naming: Naming)
    requires Chosen(index, naming)
    ensures Cyclic(SiteGraph(Completed(index, naming))) <==>
      Cyclic(SiteGraph(index)) || Cyclic(ReturnGraph(index, naming))
  {
    hide Cyclic, Chosen, Completed, ReturnGraph, SiteGraph;
    if !Cyclic(SiteGraph(index)) && Cyclic(SiteGraph(Completed(index, naming))) {
      CycleReturns(index, naming);
    }
    if Cyclic(SiteGraph(index)) && !Cyclic(SiteGraph(Completed(index, naming))) {
      forall a, b | Edge(SiteGraph(index), a, b) ensures Edge(SiteGraph(Completed(index, naming)), a, b) {
        CompletedEdge(index, naming, a, b);
      }
      SubgraphAcyclic(SiteGraph(Completed(index, naming)), SiteGraph(index));
    }
    if Cyclic(ReturnGraph(index, naming)) { ReturnsCycle(index, naming); }
  }

  /** No operator edge leads down the scheme. */
  predicate NeverDescends(index: SiteIndex) {
    forall a, u :: a in index && u in index[a].upstreamSiteIDs ==> SiteLevel(u) <= SiteLevel(a)
  }

  lemma {:induction false} PathNeverDescends(index: SiteIndex, p: seq<Id>, n: nat)
    requires NeverDescends(index) && IsPath(SiteGraph(index), p) && n < |p|
    ensures SiteLevel(p[n]) <= SiteLevel(p[0])
  {
    hide SiteLevel;
    if n > 0 {
      assert Edge(SiteGraph(index), p[n - 1], p[n]);
      PathNeverDescends(index, p, n - 1);
    }
  }

  lemma ReachNeverDescends(index: SiteIndex, u: Id, b: Id)
    requires NeverDescends(index) && Reaches(SiteGraph(index), u, b)
    ensures SiteLevel(b) <= SiteLevel(u)
  {
    var p :| IsPath(SiteGraph(index), p) && p[0] == u && p[|p| - 1] == b;
    hide SiteLevel, SiteGraph, NeverDescends;
    PathNeverDescends(index, p, |p| - 1);
  }

  lemma ReturnClimbs(index: SiteIndex, naming: Naming, a: Id, b: Id)
    requires Chosen(index, naming) && NeverDescends(index) && Edge(ReturnGraph(index, naming), a, b)
    ensures SiteLevel(b) < SiteLevel(a)
  {
    ReturnEdge(index, naming, a, b);
    hide SiteLevel, SiteGraph, Inferred, Chosen, Bare, ReturnGraph, Reaches, NeverDescends;
    InferredClimbs(index, naming, a);
    var u :| u in Inferred(naming, a) && Reaches(SiteGraph(index), u, b);
    ReachNeverDescends(index, u, b);
  }

  /** Acyclic operator edges that never lead down the scheme stay acyclic, whatever completion adds. */
  lemma ClimbingStaysAcyclic(index: SiteIndex, naming: Naming)
    requires Chosen(index, naming) && NeverDescends(index) && !Cyclic(SiteGraph(index))
    ensures !Cyclic(SiteGraph(Completed(index, naming)))
  {
    var g := ReturnGraph(index, naming);
    var rank := map n | n in index :: SiteLevel(n);
    hide SiteLevel, Chosen, NeverDescends, SiteGraph, ReturnsTo;
    forall a, b | Edge(g, a, b) ensures a in rank && b in rank && rank[b] < rank[a] {
      ReturnEdge(index, naming, a, b);
      ReturnClimbs(index, naming, a, b);
    }
    RankedIsAcyclic(g, rank);
    CompletionExact(index, naming);
  }

  lemma NamingExists(index: SiteIndex) returns (naming: Naming)
    ensures Chosen(index, naming)
  {
    var byLower := map l | l in (set n | n in index :: ToLower(n)) :: LowerName(index, l);
    var core := "";
    if c :| c in index && IsCore(c) { core := c; }
    naming := Naming(core, byLower);
  }

  ghost function LowerName(index: SiteIndex, l: Id): (name: Id)
    requires exists n :: n in index && ToLower(n) == l
    ensures name in index && ToLower(name) == l
  {
    var n :| n in index && ToLower(n) == l;
    n
  }

  /** Over all the orders in which the maps may be read. */
  lemma SomeCompletionCyclic(index: SiteIndex)
    ensures (exists c :: Completes(index, c) && Cyclic(SiteGraph(c))) <==>
      Cyclic(SiteGraph(index)) || exists naming :: Chosen(index, naming) && Cyclic(ReturnGraph(index, naming))
  {
    hide SiteGraph, Cyclic, Chosen, ReturnGraph, Completed;
    var any := NamingExists(index);
    assert Completes(index, Completed(index, any));
    CompletionExact(index, any);
    if c :| Completes(index, c) && Cyclic(SiteGraph(c)) {
      var naming :| Chosen(index, naming) && c == Completed(index, naming);
      CompletionExact(index, naming);
    }
    if naming :| Chosen(index, naming) && Cyclic(ReturnGraph(index, naming)) {
      CompletionExact(index, naming);
      assert Completes(index, Completed(index, naming));
    }
  }

  // An operator's edge from the core down to a distribution site meets the inferred edge back up.
  const DOWNWARD := map["core" := SiteNode("core", ["a-mdf"], []), "a-mdf" := SiteNode("a-mdf", [], [])]

  lemma DownwardCloses(naming: Naming)
    requires Chosen(DOWNWARD, naming)
    ensures !Cyclic(SiteGraph(DOWNWARD)) && Cyclic(SiteGraph(Completed(DOWNWARD, naming)))
  {
    hide *;
    DownwardAcyclic();
    DownwardInferred(naming);
    DownwardCompleted(naming);
    TwoSiteCycle(Completed(DOWNWARD, naming), "core", "a-mdf");
  }

  lemma DownwardCompleted(naming: Naming)
    requires Inferred(naming, "a-mdf") == ["core"]
    ensures var c := Completed(DOWNWARD, naming);
      && c.Keys == {"core", "a-mdf"}
      && c["core"].upstreamSiteIDs == ["a-mdf"] && c["a-mdf"].upstreamSiteIDs == ["core"]
  {
    hide Inferred;
  }

  lemma DownwardInferred(naming: Naming)
    requires Chosen(DOWNWARD, naming)
    ensures Inferred(naming, "a-mdf") == ["core"]
  {
    DownwardNames();
    hide Names, LowerMap;
    assert "core" in DOWNWARD && IsCore("core");
  }

  lemma TwoSiteCycle(index: SiteIndex, a: Id, b: Id)
    requires a in index && b in index && index[a].upstreamSiteIDs == [b] && index[b].upstreamSiteIDs == [a]
    ensures Cyclic(SiteGraph(index))
  {
    SiteGraphEdge(index, a, b);
    SiteGraphEdge(index, b, a);
    assert IsCycle(SiteGraph(index), [a, b, a]);
  }

  lemma DownwardAcyclic()
    ensures !Cyclic(SiteGraph(DOWNWARD))
  {
    var g := SiteGraph(DOWNWARD);
    assert g.Keys == {"core", "a-mdf"};
    forall a, b | Edge(g, a, b) ensures a == "core" && b == "a-mdf" {
    }
    RankedIsAcyclic(g, map["core" := 1, "a-mdf" := 0]);
  }

  lemma DownwardNames()
    ensures Names("core", "core") && !Names("a-mdf", "core") && Names("a-mdf", MDF) && !Names("a-mdf", IDF)
  {
    var c, m := ToLower("core"), ToLower("a-mdf");
    assert c == "core" && OccursAt(c, "core", 0);
    assert m == "a-mdf" && m[1..5] == MDF && OccursAt(m, MDF, 1);
    forall i | 0 <= i <= |m| ensures !OccursAt(m, "core", i) && !OccursAt(m, IDF, i) {
      if i + 4 <= |m| {
        assert m[i..i + 4][1] == m[i + 1];
        assert m[i..i + 4][0] == m[i];
      }
    }
  }
}
