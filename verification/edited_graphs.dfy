/** What replacing the upstream lists of two nodes does to cycles. */
module EditedGraphs {
  import opened Ids
  import opened Graphs

  /** Away from `a` and `b` the edges of `g` are edges of `h`. */
  ghost predicate AgreeOff(g: Graph, h: Graph, a: Id, b: Id) {
    forall x, y :: Edge(g, x, y) && x != a && x != b ==> Edge(h, x, y)
  }

  /** A walk that ends in `a` or `b` meets one of them first, and up to there stays a walk wherever the other
      edges agree. */
  lemma {:induction false} MeetsFirst(g: Graph, p: seq<Id>, a: Id, b: Id) returns (x: Id, q: seq<Id>)
    requires IsPath(g, p) && p[|p| - 1] in {a, b}
    ensures x in {a, b} && q != [] && q[0] == p[0] && q[|q| - 1] == x && IsPath(g, q)
    ensures forall i :: 0 <= i < |q| - 1 ==> q[i] !in {a, b}
    decreases |p|
  {
    if p[0] in {a, b} {
      x, q := p[0], [p[0]];
    } else {
      assert Edge(g, p[0], p[1]);
      PathTail(g, p);
      var r;
      x, r := MeetsFirst(g, p[1..], a, b);
      q := [p[0]] + r;
      forall i | 0 <= i < |q| - 1 ensures Edge(g, q[i], q[i + 1]) && q[i] !in {a, b} {
        if i > 0 { assert q[i] == r[i - 1] && q[i + 1] == r[i]; }
      }
    }
  }

  lemma PathTail(g: Graph, p: seq<Id>)
    requires IsPath(g, p) && |p| > 1
    ensures IsPath(g, p[1..])
  {
    forall i | 0 <= i < |p| - 2 ensures Edge(g, p[1..][i], p[1..][i + 1]) {
      assert Edge(g, p[i + 1], p[i + 2]);
    }
  }

  lemma StaysPath(g: Graph, h: Graph, q: seq<Id>, a: Id, b: Id)
    requires IsPath(g, q) && AgreeOff(g, h, a, b) && forall i :: 0 <= i < |q| - 1 ==> q[i] !in {a, b}
    ensures IsPath(h, q)
  {
    forall i | 0 <= i < |q| - 1 ensures Edge(h, q[i], q[i + 1]) {
      assert Edge(g, q[i], q[i + 1]);
    }
  }

  /** When `a` depends on `u` in an acyclic graph `h`, a walk in `g` from `u` to `b` also exists wherever the
      edges away from the two agree: it cannot pass `a`. */
  lemma AvoidsEdited(g: Graph, h: Graph, k: Graph, u: Id, a: Id, b: Id)
    requires Reaches(g, u, b) && AgreeOff(g, h, a, b) && AgreeOff(g, k, a, b)
    requires !Cyclic(h) && Edge(h, a, u) && a != b
    ensures Reaches(k, u, b)
  {
    var p :| IsPath(g, p) && p[0] == u && p[|p| - 1] == b;
    var x, q := MeetsFirst(g, p, a, b);
    StaysPath(g, h, q, a, b);
    StaysPath(g, k, q, a, b);
    if x == a {
      ClosesCycleFrom(h, a, q);
      assert Cyclic(h);
    }
  }

  lemma SubPath(g: Graph, p: seq<Id>, i: nat, j: nat)
    requires IsPath(g, p) && i <= j < |p|
    ensures Reaches(g, p[i], p[j])
  {
    var q := p[i..j + 1];
    forall k | 0 <= k < |q| - 1 ensures Edge(g, q[k], q[k + 1]) {
      assert Edge(g, p[i + k], p[i + k + 1]);
    }
    assert IsPath(g, q);
  }

  /** The nodes of a cycle all reach each other. */
  lemma CycleReaches(g: Graph, p: seq<Id>, x: Id, y: Id)
    requires IsCycle(g, p) && x in p && y in p
    ensures Reaches(g, x, y)
  {
    var i :| 0 <= i < |p| && p[i] == x;
    var j :| 0 <= j < |p| && p[j] == y;
    SubPath(g, p, i, |p| - 1);
    SubPath(g, p, 0, j);
    ReachesTrans(g, x, p[0], y);
  }

  lemma CycleSuccessor(g: Graph, p: seq<Id>, x: Id) returns (u: Id)
    requires IsCycle(g, p) && x in p
    ensures Edge(g, x, u) && u in p
  {
    CycleMembers(g, p, x);
    u :| u in Elems(p) && Edge(g, x, u);
  }

  lemma EdgesMakeCycle(g: Graph, a: Id, u: Id, b: Id, v: Id)
    requires Edge(g, a, u) && Reaches(g, u, b) && Edge(g, b, v) && Reaches(g, v, a)
    ensures Cyclic(g)
  {
    ReachesEdge(g, b, v);
    ReachesTrans(g, u, b, v);
    ReachesTrans(g, u, v, a);
    var p :| IsPath(g, p) && p[0] == u && p[|p| - 1] == a;
    ClosesCycleFrom(g, a, p);
    assert Cyclic(g);
  }

  /** The list given to `a` leads to `b` by the edges there were before. */
  ghost predicate LeadsTo(g: Graph, list: seq<Id>, b: Id) {
    exists u :: u in list && Reaches(g, u, b)
  }

  /** How the four graphs of two edits are related. */
  ghost predicate Edits(g: Graph, g1: Graph, g2: Graph, g12: Graph, a: Id, la: seq<Id>, b: Id, lb: seq<Id>) {
    && a != b && g1 == g[a := la] && g2 == g[b := lb] && g12 == g[a := la][b := lb]
    && Closed(g) && Closed(g1) && Closed(g2)
  }

  lemma EditsAgree(g: Graph, g1: Graph, g2: Graph, g12: Graph, a: Id, la: seq<Id>, b: Id, lb: seq<Id>)
    requires Edits(g, g1, g2, g12, a, la, b, lb)
    ensures AgreeOff(g, g1, a, b) && AgreeOff(g, g2, a, b) && AgreeOff(g, g12, a, b)
    ensures AgreeOff(g12, g, a, b) && AgreeOff(g12, g1, a, b) && AgreeOff(g12, g2, a, b)
    ensures forall u :: u in la ==> Edge(g1, a, u) && Edge(g12, a, u)
    ensures forall u :: u in lb ==> Edge(g2, b, u) && Edge(g12, b, u)
    ensures forall u :: Edge(g12, a, u) ==> u in la
    ensures forall u :: Edge(g12, b, u) ==> u in lb
    ensures forall x, y :: Edge(g12, x, y) && x != a && y != a ==> Edge(g2, x, y)
    ensures forall x, y :: Edge(g12, x, y) && x != b && y != b ==> Edge(g1, x, y)
  {
    forall u | u in lb ensures Edge(g2, b, u) && Edge(g12, b, u) {
      assert b in g2 && u in g2[b];
    }
    forall u | u in la ensures Edge(g1, a, u) && Edge(g12, a, u) {
      assert a in g1 && u in g1[a];
    }
  }

  lemma BothOnCycle(g: Graph, g1: Graph, g2: Graph, g12: Graph, a: Id, la: seq<Id>, b: Id, lb: seq<Id>, p: seq<Id>)
    requires Edits(g, g1, g2, g12, a, la, b, lb) && !Cyclic(g1) && !Cyclic(g2) && IsCycle(g12, p)
    ensures a in p && b in p
  {
    EditsAgree(g, g1, g2, g12, a, la, b, lb);
    hide Edits;
    assert a !in p ==> IsCycle(g2, p);
    assert b !in p ==> IsCycle(g1, p);
  }

  /** Each edit alone keeps the graph acyclic. Together they close a cycle exactly when, before both, the list
      given to `a` leads to `b` and the list given to `b` leads to `a`. */
  lemma TwoEditsExactly(g: Graph, g1: Graph, g2: Graph, g12: Graph, a: Id, la: seq<Id>, b: Id, lb: seq<Id>)
    requires Edits(g, g1, g2, g12, a, la, b, lb) && !Cyclic(g1) && !Cyclic(g2)
    ensures Cyclic(g12) <==> LeadsTo(g, la, b) && LeadsTo(g, lb, a)
  {
    EditsAgree(g, g1, g2, g12, a, la, b, lb);
    if Cyclic(g12) {
      var p :| IsCycle(g12, p);
      BothOnCycle(g, g1, g2, g12, a, la, b, lb, p);
      hide Edits, IsCycle, Cyclic, Reaches;
      var u := CycleSuccessor(g12, p, a);
      var v := CycleSuccessor(g12, p, b);
      CycleReaches(g12, p, u, b);
      CycleReaches(g12, p, v, a);
      AvoidsEdited(g12, g1, g, u, a, b);
      Swapped(g12, g2, a, b);
      Swapped(g12, g, a, b);
      AvoidsEdited(g12, g2, g, v, b, a);
    }
    if LeadsTo(g, la, b) && LeadsTo(g, lb, a) {
      var u :| u in la && Reaches(g, u, b);
      var v :| v in lb && Reaches(g, v, a);
      hide Edits, IsCycle, Cyclic, Reaches;
      AvoidsEdited(g, g1, g12, u, a, b);
      Swapped(g, g2, a, b);
      Swapped(g, g12, a, b);
      AvoidsEdited(g, g2, g12, v, b, a);
      EdgesMakeCycle(g12, a, u, b, v);
    }
  }

  lemma Swapped(g: Graph, h: Graph, a: Id, b: Id)
    requires AgreeOff(g, h, a, b)
    ensures AgreeOff(g, h, b, a)
  {
  }
}
