/** Dependency graphs: each node maps to the list of its upstreams. */
module Graphs {
  import opened Ids

  type Graph = map<Id, seq<Id>>

  predicate Edge(g: Graph, a: Id, b: Id) {
    a in g && b in g && b in g[a]
  }

  /** Every upstream is itself a node. */
  ghost predicate Closed(g: Graph) {
    forall x, u :: x in g && u in g[x] ==> u in g
  }

  /** A walk along upstream edges; a single node is a walk of length one. */
  ghost predicate IsPath(g: Graph, p: seq<Id>) {
    p != [] && forall i :: 0 <= i < |p| - 1 ==> Edge(g, p[i], p[i + 1])
  }

  ghost predicate Reaches(g: Graph, a: Id, b: Id) {
    exists p :: IsPath(g, p) && p[0] == a && p[|p| - 1] == b
  }

  ghost predicate IsCycle(g: Graph, p: seq<Id>) {
    IsPath(g, p) && |p| >= 2 && p[0] == p[|p| - 1]
  }

  ghost predicate CycleThrough(g: Graph, a: Id) {
    exists p :: IsCycle(g, p) && p[0] == a
  }

  ghost predicate Cyclic(g: Graph) {
    exists p :: IsCycle(g, p)
  }

  /** A duplicate-free list in which every upstream stands before its dependents. */
  ghost predicate UpstreamFirst(g: Graph, order: seq<Id>) {
    NoDup(order) && forall i, u :: 0 <= i < |order| && Edge(g, order[i], u) ==> u in order[..i]
  }

  ghost predicate IsTopological(g: Graph, order: seq<Id>) {
    UpstreamFirst(g, order) && Elems(order) == g.Keys
  }

  lemma ReachesSelf(g: Graph, a: Id)
    ensures Reaches(g, a, a)
  {
    assert IsPath(g, [a]);
  }

  lemma PathConcat(g: Graph, p: seq<Id>, q: seq<Id>)
    requires IsPath(g, p) && IsPath(g, q) && p[|p| - 1] == q[0]
    ensures IsPath(g, p + q[1..]) && (p + q[1..])[0] == p[0]
    ensures (p + q[1..])[|p + q[1..]| - 1] == q[|q| - 1]
  {
    var r := p + q[1..];
    forall i | 0 <= i < |r| - 1 ensures Edge(g, r[i], r[i + 1]) {
      if i >= |p| - 1 {
        assert r[i] == q[i - |p| + 1] && r[i + 1] == q[i - |p| + 2];
      }
    }
  }

  lemma ReachesTrans(g: Graph, a: Id, b: Id, c: Id)
    requires Reaches(g, a, b) && Reaches(g, b, c)
    ensures Reaches(g, a, c)
  {
    var p :| IsPath(g, p) && p[0] == a && p[|p| - 1] == b;
    var q :| IsPath(g, q) && q[0] == b && q[|q| - 1] == c;
    PathConcat(g, p, q);
  }

  lemma ReachesEdge(g: Graph, a: Id, b: Id)
    requires Edge(g, a, b)
    ensures Reaches(g, a, b)
  {
    assert IsPath(g, [a, b]);
  }

  /** A walk either stays put or starts with an edge. */
  lemma ReachesUnfold(g: Graph, a: Id, c: Id)
    ensures Reaches(g, a, c) <==> a == c || exists b :: Edge(g, a, b) && Reaches(g, b, c)
  {
    if Reaches(g, a, c) && a != c {
      var p :| IsPath(g, p) && p[0] == a && p[|p| - 1] == c;
      assert IsPath(g, p[1..]);
      assert Edge(g, p[0], p[1]) && Reaches(g, p[1], c);
    }
    if a == c {
      ReachesSelf(g, a);
    }
    if exists b :: Edge(g, a, b) && Reaches(g, b, c) {
      var b :| Edge(g, a, b) && Reaches(g, b, c);
      ReachesEdge(g, a, b);
      ReachesTrans(g, a, b, c);
    }
  }

  lemma PathExtend(g: Graph, p: seq<Id>, b: Id)
    requires IsPath(g, p) && Edge(g, p[|p| - 1], b)
    ensures IsPath(g, p + [b])
  {
    var q := p + [b];
    forall k | 0 <= k < |q| - 1 ensures Edge(g, q[k], q[k + 1]) {
      if k < |p| - 1 { assert Edge(g, p[k], p[k + 1]); }
    }
  }

  /** An edge from the end of a walk back into it closes a cycle. */
  lemma ClosesCycle(g: Graph, p: seq<Id>, b: Id)
    requires IsPath(g, p) && Edge(g, p[|p| - 1], b) && b in p
    ensures CycleThrough(g, b)
  {
    PathExtend(g, p, b);
    var i :| 0 <= i < |p| && p[i] == b;
    var q := (p + [b])[i..];
    forall k | 0 <= k < |q| - 1 ensures Edge(g, q[k], q[k + 1]) {
      assert Edge(g, (p + [b])[i + k], (p + [b])[i + k + 1]);
    }
    assert IsCycle(g, q) && q[0] == b;
  }

  lemma UpstreamFirstAppend(g: Graph, order: seq<Id>, a: Id)
    requires UpstreamFirst(g, order) && a !in order
    requires forall u :: Edge(g, a, u) ==> u in order
    ensures UpstreamFirst(g, order + [a])
  {
    NoDupAppend(order, a);
    var r := order + [a];
    forall i, u | 0 <= i < |r| && Edge(g, r[i], u) ensures u in r[..i] {
      if i < |order| {
        assert r[..i] == order[..i] && r[i] == order[i];
      } else {
        assert r[..i] == order;
      }
    }
  }

  /** In an upstream-first list, walks from a listed node move strictly towards the front. */
  lemma {:induction false} PathDescends(g: Graph, order: seq<Id>, p: seq<Id>, i: nat)
    requires UpstreamFirst(g, order) && IsPath(g, p) && i < |order| && order[i] == p[0]
    ensures forall k :: 0 <= k < |p| ==> p[k] in order[..i + 1]
    ensures forall k :: 0 < k < |p| ==> p[k] in order[..i]
    decreases |p|
  {
    assert order[..i + 1][i] == p[0];
    if |p| > 1 {
      assert Edge(g, p[0], p[1]);
      assert p[1] in order[..i];
      var j :| 0 <= j < i && order[j] == p[1];
      var q := p[1..];
      forall k | 0 <= k < |q| - 1 ensures Edge(g, q[k], q[k + 1]) {
        assert Edge(g, p[k + 1], p[k + 2]);
      }
      PathDescends(g, order, q, j);
      forall k | 0 < k < |p| ensures p[k] in order[..i] {
        assert p[k] == q[k - 1] && q[k - 1] in order[..j + 1];
      }
    }
  }

  /** A graph whose nodes can be listed upstream-first has no cycle. */
  lemma TopologicalIsAcyclic(g: Graph, order: seq<Id>)
    requires IsTopological(g, order)
    ensures !Cyclic(g)
  {
    if Cyclic(g) {
      var p :| IsCycle(g, p);
      assert Edge(g, p[0], p[1]);
      assert p[0] in Elems(order);
      var i :| 0 <= i < |order| && order[i] == p[0];
      PathDescends(g, order, p, i);
    }
  }

  lemma CycleFromRepeat(g: Graph, p: seq<Id>, i: nat, j: nat)
    requires IsPath(g, p) && i < j < |p| && p[i] == p[j]
    ensures Cyclic(g)
  {
    var q := p[i..j + 1];
    forall k | 0 <= k < |q| - 1 ensures Edge(g, q[k], q[k + 1]) {
      assert Edge(g, p[i + k], p[i + k + 1]);
    }
    assert IsCycle(g, q);
  }

  ghost predicate HasUpstreamIn(g: Graph, S: set<Id>, x: Id) {
    exists y :: y in S && Edge(g, x, y)
  }

  /** Builds a walk of any length inside a set whose every node has an upstream in the set. */
  lemma {:induction false} WalkInside(g: Graph, S: set<Id>, a: Id, n: nat) returns (p: seq<Id>)
    requires a in S && forall x :: x in S ==> HasUpstreamIn(g, S, x)
    ensures IsPath(g, p) && |p| == n + 1 && p[0] == a && Elems(p) <= S
    decreases n
  {
    if n == 0 {
      p := [a];
    } else {
      assert HasUpstreamIn(g, S, a);
      var b :| b in S && Edge(g, a, b);
      var q := WalkInside(g, S, b, n - 1);
      p := [a] + q;
      forall k | 0 <= k < |p| - 1 ensures Edge(g, p[k], p[k + 1]) {
        if k > 0 { assert p[k] == q[k - 1] && p[k + 1] == q[k]; }
      }
      forall x | x in Elems(p) ensures x in S {
        assert x == a || x in Elems(q);
      }
    }
  }

  /** A nonempty set in which every node has an upstream inside the set contains a cycle. */
  lemma StuckIsCyclic(g: Graph, S: set<Id>)
    requires S != {} && forall x :: x in S ==> HasUpstreamIn(g, S, x)
    ensures Cyclic(g)
  {
    var a :| a in S;
    var p := WalkInside(g, S, a, |S|);
    Pigeonhole(p, S);
    var i, j :| 0 <= i < j < |p| && p[i] == p[j];
    CycleFromRepeat(g, p, i, j);
  }

  /** More edges reach at least as far. */
  lemma ReachesMore(g: Graph, h: Graph, a: Id, b: Id)
    requires forall x, y :: Edge(g, x, y) ==> Edge(h, x, y)
    requires Reaches(g, a, b)
    ensures Reaches(h, a, b)
  {
    var p :| IsPath(g, p) && p[0] == a && p[|p| - 1] == b;
    assert IsPath(h, p);
  }

  /** Fewer edges cannot create a cycle. */
  lemma SubgraphAcyclic(g: Graph, h: Graph)
    requires forall a, b :: Edge(h, a, b) ==> Edge(g, a, b)
    requires !Cyclic(g)
    ensures !Cyclic(h)
  {
    if Cyclic(h) {
      var p :| IsCycle(h, p);
      assert IsCycle(g, p);
    }
  }

  /** Edges that always lead to a smaller rank cannot close a cycle. */
  lemma RankedIsAcyclic(g: Graph, rank: map<Id, nat>)
    requires forall a, b :: Edge(g, a, b) ==> a in rank && b in rank && rank[b] < rank[a]
    ensures !Cyclic(g)
  {
    if Cyclic(g) {
      var p :| IsCycle(g, p);
      assert Edge(g, p[0], p[1]);
      RankDescends(g, rank, p, |p| - 1);
    }
  }

  lemma {:induction false} RankDescends(g: Graph, rank: map<Id, nat>, p: seq<Id>, n: nat)
    requires forall a, b :: Edge(g, a, b) ==> a in rank && b in rank && rank[b] < rank[a]
    requires IsPath(g, p) && 0 < n < |p|
    ensures p[0] in rank && p[n] in rank && rank[p[n]] < rank[p[0]]
  {
    assert Edge(g, p[n - 1], p[n]);
    if n > 1 {
      RankDescends(g, rank, p, n - 1);
    }
  }

  /** The nodes of a graph reached from `a`; its size is the walk's rank. */
  ghost function Below(g: Graph, a: Id): set<Id> {
    set b | b in g.Keys && Reaches(g, a, b)
  }

  /** No cycle is reached from `a`. */
  ghost predicate CycleFree(g: Graph, a: Id) {
    forall c :: Reaches(g, a, c) ==> !CycleThrough(g, c)
  }

  lemma AcyclicIsFree(g: Graph, a: Id)
    requires !Cyclic(g)
    ensures CycleFree(g, a)
  {
  }

  /** Every upstream inherits the absence of cycles; one outside the graph leads nowhere. */
  lemma CycleFreeNext(g: Graph, a: Id, b: Id)
    requires CycleFree(g, a) && a in g && b in g[a]
    ensures CycleFree(g, b)
  {
    forall c | Reaches(g, b, c) ensures !CycleThrough(g, c) {
      if b in g {
        ReachesUnfold(g, a, c);
      } else {
        ReachesUnfold(g, b, c);
        forall p | p != [] && p[0] == b ensures !IsCycle(g, p) {
          assert |p| >= 2 ==> !Edge(g, p[0], p[1]);
        }
      }
    }
  }

  lemma BelowShrinks(g: Graph, a: Id, b: Id)
    requires CycleFree(g, a) && a in g && b in g[a]
    ensures |Below(g, b)| < |Below(g, a)|
  {
    ReachesSelf(g, a);
    if b in g {
      forall c | c in Below(g, b) ensures c in Below(g, a) {
        ReachesUnfold(g, a, c);
      }
      if a in Below(g, b) {
        var p :| IsPath(g, p) && p[0] == b && p[|p| - 1] == a;
        ClosesCycleFrom(g, a, p);
      }
    } else {
      forall c | c in Below(g, b) ensures false {
        ReachesUnfold(g, b, c);
      }
    }
    assert a in Below(g, a) && a !in Below(g, b);
    SubsetCard(Below(g, b), Below(g, a));
  }

  lemma ClosesCycleFrom(g: Graph, a: Id, p: seq<Id>)
    requires IsPath(g, p) && Edge(g, a, p[0]) && p[|p| - 1] == a
    ensures CycleThrough(g, a)
  {
    assert IsPath(g, [a, p[0]]);
    PathConcat(g, [a, p[0]], p);
    assert IsCycle(g, [a, p[0]] + p[1..]);
  }

  /** From a node that reaches a cycle there are walks of every length. */
  lemma LongWalks(g: Graph, a: Id, n: nat) returns (p: seq<Id>)
    requires !CycleFree(g, a)
    ensures IsPath(g, p) && |p| == n + 1 && p[0] == a
  {
    var c :| Reaches(g, a, c) && CycleThrough(g, c);
    var S := set x | x in g.Keys && Reaches(g, x, c);
    var q :| IsCycle(g, q) && q[0] == c;
    assert Edge(g, q[0], q[1]) && IsPath(g, q[1..]) && Reaches(g, q[1], c);
    ReachesUnfold(g, a, c);
    forall x | x in S ensures HasUpstreamIn(g, S, x) {
      ReachesUnfold(g, x, c);
      if x == c {
        assert q[1] in S;
      } else {
        var y :| Edge(g, x, y) && Reaches(g, y, c);
        assert y in S;
      }
    }
    p := WalkInside(g, S, a, n);
  }

  lemma CycleMembers(g: Graph, p: seq<Id>, x: Id)
    requires IsCycle(g, p) && x in p
    ensures x in g && HasUpstreamIn(g, Elems(p), x)
  {
    var i :| 0 <= i < |p| && p[i] == x;
    var j := if i == |p| - 1 then 0 else i;
    assert Edge(g, p[j], p[j + 1]) && p[j + 1] in Elems(p);
  }
}
