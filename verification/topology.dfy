/** Inferring upstreams from neighbour answers and device names when a site is set up. */
module Topology {
  import opened Ids
  import opened Graphs
  import opened Config
  import Contract

  // ---- Names ----

  function LowerChar(c: char): char {
    if 'A' <= c <= 'Z' then (c as int + 32) as char else c
  }

  function ToLower(s: string): (t: string)
    ensures |t| == |s|
    ensures forall i :: 0 <= i < |s| ==> t[i] == LowerChar(s[i])
  {
    if s == "" then "" else [LowerChar(s[0])] + ToLower(s[1..])
  }

  predicate OccursAt(s: string, sub: string, i: nat) {
    i + |sub| <= |s| && s[i..i + |sub|] == sub
  }

  predicate Contains(s: string, sub: string) {
    exists i :: 0 <= i <= |s| && OccursAt(s, sub, i)
  }

  /** The first occurrence. */
  function IndexOf(s: string, sub: string): (i: nat)
    requires Contains(s, sub)
    ensures OccursAt(s, sub, i) && forall j: nat :: j < i ==> !OccursAt(s, sub, j)
  {
    FirstOccurrence(s, sub, 0)
  }

  function FirstOccurrence(s: string, sub: string, from: nat): (i: nat)
    requires Contains(s, sub) && forall j: nat :: j < from ==> !OccursAt(s, sub, j)
    ensures OccursAt(s, sub, i) && forall j: nat :: j < i ==> !OccursAt(s, sub, j)
    decreases |s| - from
  {
    if OccursAt(s, sub, from) then from
    else
      assert from < |s| by {
        var k :| 0 <= k <= |s| && OccursAt(s, sub, k);
        assert k > from;
      }
      FirstOccurrence(s, sub, from + 1)
  }

  /** Lower-casing replaces each capital letter by its small one and nothing else. */
  lemma LowerByTable(c: char)
    ensures forall i :: 0 <= i < |Contract.CAPITALS| && Contract.CAPITALS[i] == c ==> LowerChar(c) == Contract.SMALL[i]
    ensures c !in Contract.CAPITALS ==> LowerChar(c) == c
  {
    Contract.LetterCodes();
    var capitals := Contract.CAPITALS;
    hide Contract.CAPITALS, Contract.SMALL;
    if 'A' <= c <= 'Z' {
      assert capitals[c as int - 65] == c;
    }
  }

  const IDF := "-idf"
  const MDF := "-mdf"
  const CORE := "do-core"

  predicate Names(id: Id, part: string) {
    Contains(ToLower(id), part)
  }

  function RoleFor(id: Id, depth: nat): string {
    if Names(id, "core") || depth == 0 then "Core Switch"
    else if Names(id, MDF) then "Distribution Switch"
    else if Names(id, IDF) then "Access Switch"
    else if depth == 1 then "Distribution Switch"
    else "Access Switch"
  }

  function NamingDepth(id: Id): nat {
    if Names(id, "core") then 0
    else if Names(id, MDF) then 1
    else if Names(id, IDF) then 2
    else 1
  }

  /** The access switch's distribution switch by name. */
  function MdfOf(id: Id): Id
    requires Names(id, IDF)
  {
    ToLower(id)[..IndexOf(ToLower(id), IDF)] + MDF
  }

  function NamingUpstream(id: Id, known: set<Id>): Id {
    if Names(id, IDF) && IndexOf(ToLower(id), IDF) > 0 && MdfOf(id) in known then MdfOf(id)
    else if (Names(id, MDF) || Names(id, IDF)) && CORE in known then CORE
    else ""
  }

  // ---- The same, told from the text of a name ----

  /** The lower-cased name holds the text. */
  ghost predicate Holds(id: Id, part: string) {
    exists a, b :: ToLower(id) == a + part + b
  }

  /** What stands before the first "-idf" of the lower-cased name. */
  ghost predicate Stem(id: Id, stem: string) {
    && (exists b :: ToLower(id) == stem + "-idf" + b)
    && forall a, b :: ToLower(id) == a + "-idf" + b ==> |stem| <= |a|
  }

  /** The known distribution switch of the same stem, otherwise the core for switches below it. */
  ghost predicate Suggested(id: Id, known: set<Id>, ups: Option<seq<Id>>) {
    && (forall stem :: Stem(id, stem) && stem != "" && stem + "-mdf" in known ==> ups == Some([stem + "-mdf"]))
    && ((forall stem :: Stem(id, stem) ==> stem == "" || stem + "-mdf" !in known) ==>
          ups == if (Holds(id, "-mdf") || Holds(id, "-idf")) && "do-core" in known then Some(["do-core"]) else None)
  }

  /** The role of a device `n` links away from the root, or of one that no link reaches. */
  ghost predicate RoleFits(id: Id, n: Option<nat>, role: string) {
    if Holds(id, "core") || n == Some(0) then role == "Core Switch"
    else if Holds(id, "-mdf") then role == "Distribution Switch"
    else if Holds(id, "-idf") then role == "Access Switch"
    else if n == None || n == Some(1) then role == "Distribution Switch"
    else role == "Access Switch"
  }

  lemma HoldsIs(id: Id, part: string)
    ensures Holds(id, part) <==> Names(id, part)
  {
    hide ToLower;
    var t := ToLower(id);
    if a, b :| t == a + part + b {
      assert OccursAt(t, part, |a|);
    }
    if Names(id, part) {
      var i :| 0 <= i <= |t| && OccursAt(t, part, i);
      assert t == t[..i] + part + t[i + |part|..];
    }
  }

  lemma StemIs(id: Id)
    requires Names(id, IDF)
    ensures forall stem :: Stem(id, stem) <==> stem == ToLower(id)[..IndexOf(ToLower(id), IDF)]
  {
    hide ToLower;
    var t := ToLower(id);
    var i := IndexOf(t, IDF);
    assert t == t[..i] + "-idf" + t[i + 4..];
    forall a, b | t == a + "-idf" + b ensures i <= |a| && a == t[..|a|] {
      assert OccursAt(t, IDF, |a|);
    }
    forall stem ensures Stem(id, stem) <==> stem == t[..i] {
      if Stem(id, stem) {
        assert |stem| <= |t[..i]|;
      }
    }
  }

  lemma SuggestedIs(id: Id, known: set<Id>)
    ensures var up := NamingUpstream(id, known); Suggested(id, known, if up != "" then Some([up]) else None)
  {
    HoldsIs(id, "-mdf");
    HoldsIs(id, "-idf");
    forall stem ensures Stem(id, stem) ==> Holds(id, "-idf") {
      if b :| ToLower(id) == stem + "-idf" + b {}
    }
    if Names(id, IDF) { StemIs(id); }
    hide Stem, Holds, IndexOf, ToLower, Contains;
  }

  lemma RolesAre(id: Id)
    ensures forall n :: RoleFits(id, Some(n), RoleFor(id, n))
    ensures RoleFits(id, None, RoleFor(id, NamingDepth(id)))
  {
    HoldsIs(id, "core");
    HoldsIs(id, "-mdf");
    HoldsIs(id, "-idf");
    hide Holds, Names;
  }

  /** How far down the naming scheme a device stands. */
  function Level(id: Id): nat {
    if Names(id, IDF) then 2 else if Names(id, MDF) then 1 else 0
  }

  /** Cutting at the first "-idf" and appending "-mdf" leaves no "-idf". */
  lemma NoIdfLeft(s: string)
    requires Contains(s, IDF)
    ensures !Contains(s[..IndexOf(s, IDF)] + MDF, IDF)
  {
    var i := IndexOf(s, IDF);
    var t := s[..i] + MDF;
    forall k: nat ensures !OccursAt(t, IDF, k) {
      if k + 4 <= i {
        assert t[k..k + 4] == s[k..k + 4];
        assert !OccursAt(s, IDF, k);
      } else if k < i {
        assert t[i] == '-' && IDF[i - k] != '-';
        assert k + 4 <= |t| ==> t[k..k + 4][i - k] == t[i];
      } else if k == i {
        assert t[k..k + 4][1] == t[k + 1] == 'm' && IDF[1] == 'i';
      }
    }
  }

  lemma LowerTwice(c: char)
    ensures LowerChar(LowerChar(c)) == LowerChar(c)
  {
  }

  lemma LowerPrefix(id: Id, i: nat)
    requires i <= |id|
    ensures ToLower(ToLower(id)[..i] + MDF) == ToLower(id)[..i] + MDF
  {
    hide ToLower, LowerChar;
    var t := ToLower(id)[..i] + MDF;
    forall k | 0 <= k < |t| ensures LowerChar(t[k]) == t[k] {
      if k < i {
        LowerTwice(id[k]);
      } else {
        assert t[k] == MDF[k - i];
        MdfIsLower(k - i);
      }
    }
    assert ToLower(t) == t;
  }

  lemma MdfIsLower(k: nat)
    requires k < |MDF|
    ensures LowerChar(MDF[k]) == MDF[k]
  {
    assert MDF[0] == '-' && MDF[1] == 'm' && MDF[2] == 'd' && MDF[3] == 'f';
  }

  lemma CoreLetters()
    ensures var t := ToLower(CORE);
      |t| == 7 && t[0] == 'd' && t[1] == 'o' && t[2] == '-' && t[3] == 'c' && t[4] == 'o' && t[5] == 'r' && t[6] == 'e'
  {
    assert forall i :: 0 <= i < 7 ==> ToLower(CORE)[i] == LowerChar(CORE[i]);
  }

  lemma CoreLevel()
    ensures Level(CORE) == 0
  {
    CoreLetters();
    var t := ToLower(CORE);
    hide ToLower;
    forall i | 0 <= i <= |t| ensures !OccursAt(t, IDF, i) && !OccursAt(t, MDF, i) {
      assert i + 4 <= |t| ==> t[i..i + 4][3] == t[i + 3] && t[i + 3] != 'f';
    }
  }

  /** The naming fallback leads strictly up the scheme, to a known device. */
  lemma NamingClimbs(id: Id, known: set<Id>)
    requires NamingUpstream(id, known) != ""
    ensures NamingUpstream(id, known) in known && Level(NamingUpstream(id, known)) < Level(id)
  {
    CoreLevel();
    if Names(id, IDF) && IndexOf(ToLower(id), IDF) > 0 && MdfOf(id) in known {
      var i := IndexOf(ToLower(id), IDF);
      NoIdfLeft(ToLower(id));
      LowerPrefix(id, i);
      assert !Names(MdfOf(id), IDF);
    }
  }

  // ---- Links ----

  type Links = map<Id, set<Id>>

  predicate Linked(adj: Links, a: Id, b: Id) {
    a in adj && b in adj[a]
  }

  function Neighbors(adj: Links, a: Id): set<Id> {
    if a in adj then adj[a] else {}
  }

  function AddEdge(adj: Links, a: Id, b: Id): Links {
    if a == "" || b == "" || a == b then adj
    else adj[a := Neighbors(adj, a) + {b}][b := (if b in adj then adj[b] else {}) + {a}]
  }

  /** Links run both ways, between different named devices out of `known`. */
  ghost predicate LinksOk(adj: Links, known: set<Id>) {
    forall a, b :: Linked(adj, a, b) ==> Linked(adj, b, a) && a in known && b in known && a != b && a != ""
  }

  lemma AddEdgeLinks(adj: Links, a: Id, b: Id, x: Id, y: Id)
    ensures Linked(AddEdge(adj, a, b), x, y) <==> Linked(adj, x, y) || IsPair(a, b, x, y)
  {
  }

  lemma AddEdgeOk(adj: Links, known: set<Id>, a: Id, b: Id)
    requires LinksOk(adj, known) && a in known && b in known
    ensures LinksOk(AddEdge(adj, a, b), known)
    ensures forall x, y :: Linked(AddEdge(adj, a, b), x, y) <==> Linked(adj, x, y) || IsPair(a, b, x, y)
  {
    hide AddEdge, Linked;
    var adj' := AddEdge(adj, a, b);
    forall x, y
      ensures Linked(adj', x, y) <==> Linked(adj, x, y) || IsPair(a, b, x, y)
      ensures Linked(adj', x, y) ==> Linked(adj', y, x)
    {
      AddEdgeLinks(adj, a, b, x, y);
      AddEdgeLinks(adj, a, b, y, x);
    }
  }

  predicate IsPair(a: Id, b: Id, x: Id, y: Id) {
    a != "" && b != "" && a != b && ((x == a && y == b) || (x == b && y == a))
  }

  // A device's answer to the neighbour query: addresses, or None on error.
  type Answer = Option<seq<string>>

  function Hosts(devices: seq<DeviceConfig>): map<string, Id> {
    if devices == [] then map[]
    else
      var last := devices[|devices| - 1];
      Hosts(devices[..|devices| - 1])[Contract.Trim(last.host) := last.id]
  }

  lemma {:induction false} HostsKnown(devices: seq<DeviceConfig>)
    ensures forall h :: h in Hosts(devices) ==> Hosts(devices)[h] in Index(devices)
  {
    if devices != [] {
      HostsKnown(devices[..|devices| - 1]);
    }
  }

  /** The last device whose host is the address once trimmed. */
  predicate LastAtHost(devices: seq<DeviceConfig>, address: string, k: int) {
    && 0 <= k < |devices| && Contract.Trim(devices[k].host) == address
    && forall j :: k < j < |devices| ==> Contract.Trim(devices[j].host) != address
  }

  lemma {:induction false} HostsAreLast(devices: seq<DeviceConfig>, address: string)
    ensures address in Hosts(devices) <==> exists k :: LastAtHost(devices, address, k)
    ensures forall k :: LastAtHost(devices, address, k) ==>
      address in Hosts(devices) && Hosts(devices)[address] == devices[k].id
  {
    hide Contract.Trim;
    if devices != [] {
      var n := |devices| - 1;
      HostsAreLast(devices[..n], address);
      forall k ensures LastAtHost(devices, address, k) <==>
        if Contract.Trim(devices[n].host) == address then k == n else LastAtHost(devices[..n], address, k)
      {
      }
      if Contract.Trim(devices[n].host) == address {
        assert LastAtHost(devices, address, n);
      }
    }
  }

  /** Device `i` named another one's address among its neighbours: the two are linked, both ways. */
  ghost predicate Heard(devices: seq<DeviceConfig>, answers: seq<Answer>, i: nat, n: nat, x: Id, y: Id)
    requires i < |devices| == |answers| && answers[i].Some? && n < |answers[i].value|
  {
    exists k :: LastAtHost(devices, answers[i].value[n], k) && IsPair(devices[i].id, devices[k].id, x, y)
  }

  ghost predicate HeardFrom(devices: seq<DeviceConfig>, answers: seq<Answer>, i: nat, upTo: nat, x: Id, y: Id)
    requires i < |devices| == |answers| && answers[i].Some? && upTo <= |answers[i].value|
  {
    exists n :: 0 <= n < upTo && Heard(devices, answers, i, n, x, y)
  }

  /** Some answer among the first `upTo` links the two. */
  ghost predicate HeardBy(devices: seq<DeviceConfig>, answers: seq<Answer>, upTo: nat, x: Id, y: Id)
    requires upTo <= |devices| == |answers|
  {
    exists i :: 0 <= i < upTo && answers[i].Some? && HeardFrom(devices, answers, i, |answers[i].value|, x, y)
  }

  /** Collects the links of all answers; failed queries count for nothing. */
  method CollectLinks(devices: seq<DeviceConfig>, answers: seq<Answer>) returns (adj: Links)
    requires |answers| == |devices|
    ensures LinksOk(adj, Index(devices).Keys)
    ensures forall x, y :: Linked(adj, x, y) <==> HeardBy(devices, answers, |devices|, x, y)
  {
    hide Hosts, Heard, HeardFrom, LinksOk, IsPair, Index, AddEdge;
    adj := map[];
    NoLinks(devices);
    var i := 0;
    while i < |devices|
      invariant 0 <= i <= |devices| && LinksOk(adj, Index(devices).Keys)
      invariant forall x, y :: Linked(adj, x, y) <==> HeardBy(devices, answers, i, x, y)
    {
      ghost var before := adj;
      if answers[i].Some? {
        adj := LinksOfOne(devices, answers, i, adj);
      }
      forall x, y ensures Linked(adj, x, y) <==> HeardBy(devices, answers, i + 1, x, y) {
        HeardNext(devices, answers, i, x, y);
        assert Linked(before, x, y) <==> HeardBy(devices, answers, i, x, y);
      }
      i := i + 1;
    }
  }

  lemma NoLinks(devices: seq<DeviceConfig>)
    ensures LinksOk(map[], Index(devices).Keys)
  {
  }

  lemma HeardNext(devices: seq<DeviceConfig>, answers: seq<Answer>, i: nat, x: Id, y: Id)
    requires i < |devices| == |answers|
    ensures var more := answers[i].Some? && HeardFrom(devices, answers, i, |answers[i].value|, x, y);
      HeardBy(devices, answers, i + 1, x, y) <==> HeardBy(devices, answers, i, x, y) || more
  {
    hide HeardFrom;
  }

  method LinksOfOne(devices: seq<DeviceConfig>, answers: seq<Answer>, i: nat, adj0: Links) returns (adj: Links)
    requires i < |devices| == |answers| && answers[i].Some? && LinksOk(adj0, Index(devices).Keys)
    ensures LinksOk(adj, Index(devices).Keys)
    ensures forall x, y :: Linked(adj, x, y) <==>
      Linked(adj0, x, y) || HeardFrom(devices, answers, i, |answers[i].value|, x, y)
  {
    hide Hosts, LinksOk, IsPair, Index, AddEdge;
    adj := adj0;
    var d, nips := devices[i], answers[i].value;
    var hosts := Hosts(devices);
    HostsKnown(devices);
    InIndex(devices, i);
    var n := 0;
    while n < |nips|
      invariant 0 <= n <= |nips| && LinksOk(adj, Index(devices).Keys)
      invariant forall x, y :: Linked(adj, x, y) <==> Linked(adj0, x, y) || HeardFrom(devices, answers, i, n, x, y)
    {
      ghost var before := adj;
      HostsAreLast(devices, nips[n]);
      if nips[n] in hosts {
        AddEdgeOk(adj, Index(devices).Keys, d.id, hosts[nips[n]]);
        adj := AddEdge(adj, d.id, hosts[nips[n]]);
      }
      forall x, y ensures Linked(adj, x, y) <==> Linked(adj0, x, y) || HeardFrom(devices, answers, i, n + 1, x, y) {
        HeardFromNext(devices, answers, i, n, x, y);
        assert Linked(before, x, y) <==> Linked(adj0, x, y) || HeardFrom(devices, answers, i, n, x, y);
      }
      n := n + 1;
    }
  }

  lemma HeardFromNext(devices: seq<DeviceConfig>, answers: seq<Answer>, i: nat, n: nat, x: Id, y: Id)
    requires i < |devices| == |answers| && answers[i].Some? && n < |answers[i].value|
    ensures HeardFrom(devices, answers, i, n + 1, x, y) <==>
      HeardFrom(devices, answers, i, n, x, y) || Heard(devices, answers, i, n, x, y)
  {
    hide Heard;
  }

  lemma InIndex(devices: seq<DeviceConfig>, i: nat)
    requires i < |devices|
    ensures devices[i].id in Index(devices)
  {
    IndexKeys(devices);
    assert devices[i] in devices;
  }

  /** The first device named as a core, otherwise the first of those with the most links. */
  method PickRoot(devices: seq<DeviceConfig>, adj: Links) returns (root: Id)
    requires devices != []
    ensures root in Index(devices)
    ensures exists k :: 0 <= k < |devices| && root == devices[k].id && IsFirstBest(devices, adj, k)
  {
    hide Index, Names;
    var i := 0;
    while i < |devices|
      invariant 0 <= i <= |devices|
      invariant forall j :: 0 <= j < i ==> !Names(devices[j].id, "core")
    {
      if Names(devices[i].id, "core") {
        InIndex(devices, i);
        assert IsFirstBest(devices, adj, i);
        return devices[i].id;
      }
      i := i + 1;
    }
    var best, bestDegree := 0, -1;
    i := 0;
    while i < |devices|
      invariant 0 <= i <= |devices| && (i == 0 ==> bestDegree == -1)
      invariant i > 0 ==> best < i && bestDegree == |Neighbors(adj, devices[best].id)|
      invariant forall j :: 0 <= j < i ==> |Neighbors(adj, devices[j].id)| <= bestDegree
      invariant i > 0 ==> forall j :: 0 <= j < best ==> |Neighbors(adj, devices[j].id)| < bestDegree
    {
      var degree := |Neighbors(adj, devices[i].id)|;
      if degree > bestDegree {
        bestDegree := degree;
        best := i;
      }
      i := i + 1;
    }
    InIndex(devices, best);
    assert IsFirstBest(devices, adj, best);
    root := devices[best].id;
  }

  predicate IsFirstBest(devices: seq<DeviceConfig>, adj: Links, k: nat)
    requires k < |devices|
  {
    var someCore := exists j :: 0 <= j < |devices| && Names(devices[j].id, "core");
    if someCore then Names(devices[k].id, "core") && forall j :: 0 <= j < k ==> !Names(devices[j].id, "core")
    else
      && (forall j :: 0 <= j < |devices| ==> |Neighbors(adj, devices[j].id)| <= |Neighbors(adj, devices[k].id)|)
      && (forall j :: 0 <= j < k ==> |Neighbors(adj, devices[j].id)| < |Neighbors(adj, devices[k].id)|)
  }

  // ---- Breadth-first parents ----

  datatype Search = Search(parent: map<Id, Id>, depth: map<Id, nat>, queue: seq<Id>)

  predicate ParentOk(adj: Links, s: Search, x: Id) {
    && x in s.parent && x in s.depth && s.parent[x] in s.depth
    && Linked(adj, s.parent[x], x) && s.depth[x] == s.depth[s.parent[x]] + 1
  }

  predicate TreeOk(adj: Links, root: Id, s: Search) {
    && root in s.depth && s.depth[root] == 0
    && s.parent.Keys == s.depth.Keys - {root}
    && forall x :: x in s.parent ==> ParentOk(adj, s, x)
  }

  /** All links of a discovered device lead to discovered ones, at most one step deeper. */
  ghost predicate Explored(adj: Links, s: Search, x: Id) {
    x in s.depth && forall y :: Linked(adj, x, y) ==> y in s.depth && s.depth[y] <= s.depth[x] + 1
  }

  predicate QueueOk(s: Search) {
    && (forall i :: 0 <= i < |s.queue| ==> s.queue[i] in s.depth)
    && forall i, j :: 0 <= i < j < |s.queue| ==> s.depth[s.queue[i]] <= s.depth[s.queue[j]]
  }

  /** Nothing discovered lies deeper than one step below `d`, nothing queued lies above it. */
  predicate Frontier(s: Search, d: nat) {
    && (forall x :: x in s.depth ==> s.depth[x] <= d + 1)
    && (forall i :: 0 <= i < |s.queue| ==> s.queue[i] in s.depth && d <= s.depth[s.queue[i]])
  }

  ghost predicate AllButQueued(adj: Links, s: Search, busy: set<Id>) {
    forall x :: x in s.depth && x !in s.queue && x !in busy ==> Explored(adj, s, x)
  }

  function Discover(s: Search, cur: Id, n: Id): Search
    requires cur in s.depth
  {
    Search(s.parent[n := cur], s.depth[n := s.depth[cur] + 1], s.queue + [n])
  }

  ghost predicate Searching(adj: Links, root: Id, s: Search, cur: Id) {
    && TreeOk(adj, root, s) && QueueOk(s) && AllButQueued(adj, s, {cur})
    && cur in s.depth && Frontier(s, s.depth[cur])
  }

  lemma DiscoverKeeps(adj: Links, root: Id, s: Search, cur: Id, n: Id)
    requires Searching(adj, root, s, cur) && Linked(adj, cur, n) && n !in s.depth
    ensures Searching(adj, root, Discover(s, cur, n), cur)
  {
    DiscoverKeepsTree(adj, root, s, cur, n);
    DiscoverKeepsQueue(s, cur, n);
    DiscoverKeepsExplored(adj, s, cur, n);
    hide TreeOk, QueueOk, AllButQueued, Frontier;
  }

  lemma DiscoverKeepsTree(adj: Links, root: Id, s: Search, cur: Id, n: Id)
    requires TreeOk(adj, root, s) && cur in s.depth && Linked(adj, cur, n) && n !in s.depth
    ensures TreeOk(adj, root, Discover(s, cur, n))
  {
    var s' := Discover(s, cur, n);
    forall x | x in s'.parent ensures ParentOk(adj, s', x) {
      assert x != n ==> ParentOk(adj, s, x);
    }
  }

  lemma DiscoverKeepsQueue(s: Search, cur: Id, n: Id)
    requires QueueOk(s) && cur in s.depth && Frontier(s, s.depth[cur]) && n !in s.depth
    ensures var s' := Discover(s, cur, n);
      QueueOk(s') && cur in s'.depth && Frontier(s', s'.depth[cur])
  {
  }

  lemma DiscoverKeepsExplored(adj: Links, s: Search, cur: Id, n: Id)
    requires AllButQueued(adj, s, {cur}) && cur in s.depth && n !in s.depth
    ensures AllButQueued(adj, Discover(s, cur, n), {cur})
  {
    var s' := Discover(s, cur, n);
    assert n in s'.queue;
    forall x | x in s'.depth && x !in s'.queue && x != cur ensures Explored(adj, s', x) {
      assert forall q :: q in s.queue ==> q in s'.queue;
      assert Explored(adj, s, x);
    }
  }

  /** Discovers what is still unknown around one device, in any order. */
  method Explore(adj: Links, root: Id, s0: Search, cur: Id) returns (s: Search)
    requires Searching(adj, root, s0, cur)
    ensures Searching(adj, root, s, cur) && Explored(adj, s, cur)
    ensures s0.depth.Keys <= s.depth.Keys <= s0.depth.Keys + Neighbors(adj, cur)
    ensures s.depth.Keys == s0.depth.Keys ==> s == s0
    ensures s.depth[cur] == s0.depth[cur]
  {
    s := s0;
    var todo := Neighbors(adj, cur);
    while todo != {}
      invariant Searching(adj, root, s, cur) && todo <= Neighbors(adj, cur)
      invariant s0.depth.Keys <= s.depth.Keys <= s0.depth.Keys + Neighbors(adj, cur)
      invariant s.depth.Keys == s0.depth.Keys ==> s == s0
      invariant s.depth[cur] == s0.depth[cur]
      invariant forall y :: y in Neighbors(adj, cur) ==> y in todo || y in s.depth
      decreases todo
    {
      hide TreeOk, QueueOk, AllButQueued, Frontier;
      var n :| n in todo;
      todo := todo - {n};
      if n in s.depth { continue; }
      DiscoverKeeps(adj, root, s, cur, n);
      assert n in Discover(s, cur, n).depth.Keys;
      s := Discover(s, cur, n);
    }
  }

  /** Nothing is queued any more: the discovered part is closed under links. */
  ghost predicate Complete(adj: Links, root: Id, s: Search) {
    TreeOk(adj, root, s) && forall x :: x in s.depth ==> Explored(adj, s, x)
  }

  ghost predicate Paused(adj: Links, root: Id, s: Search) {
    && TreeOk(adj, root, s) && QueueOk(s) && AllButQueued(adj, s, {})
    && (s.queue != [] ==> s.queue[0] in s.depth && Frontier(s, s.depth[s.queue[0]]))
  }

  lemma PopKeeps(adj: Links, root: Id, s: Search)
    requires Paused(adj, root, s) && s.queue != []
    ensures Searching(adj, root, s.(queue := s.queue[1..]), s.queue[0])
  {
    var s', cur := s.(queue := s.queue[1..]), s.queue[0];
    forall x | x in s'.parent ensures ParentOk(adj, s', x) {
      assert ParentOk(adj, s, x);
    }
    assert s.queue == [cur] + s'.queue;
    forall x | x in s'.depth && x !in s'.queue && x != cur ensures Explored(adj, s', x) {
      assert Explored(adj, s, x);
    }
  }

  lemma PauseAfter(adj: Links, root: Id, s: Search, cur: Id)
    requires Searching(adj, root, s, cur) && Explored(adj, s, cur)
    ensures Paused(adj, root, s)
  {
    hide TreeOk, Explored;
    if s.queue != [] {
      assert s.depth[cur] <= s.depth[s.queue[0]];
    }
  }

  lemma PausedStart(adj: Links, root: Id)
    ensures Paused(adj, root, Search(map[], map[root := 0], [root]))
  {
  }

  method Breadth(adj: Links, root: Id, known: set<Id>) returns (s: Search)
    requires LinksOk(adj, known) && root in known
    ensures Complete(adj, root, s) && s.depth.Keys <= known
  {
    s := Search(map[], map[root := 0], [root]);
    PausedStart(adj, root);
    while s.queue != []
      invariant Paused(adj, root, s) && s.depth.Keys <= known
      decreases |known - s.depth.Keys|, |s.queue|
    {
      hide Paused, Searching, Explored, LinksOk;
      ghost var before := s;
      PopKeeps(adj, root, s);
      var cur := s.queue[0];
      s := s.(queue := s.queue[1..]);
      s := Explore(adj, root, s, cur);
      PauseAfter(adj, root, s, cur);
      NeighborsKnown(adj, known, cur);
      SubsetCard(known - s.depth.Keys, known - before.depth.Keys);
      FewerLeft(known, before.depth.Keys, s.depth.Keys);
    }
  }

  lemma FewerLeft(known: set<Id>, before: set<Id>, after: set<Id>)
    requires before <= after <= known
    ensures before != after ==> |known - after| < |known - before|
  {
    SubsetCard(known - after, known - before);
    if before != after {
      var x :| x in after && x !in before;
      assert x in known - before && x !in known - after;
    }
  }

  lemma NeighborsKnown(adj: Links, known: set<Id>, a: Id)
    requires LinksOk(adj, known)
    ensures Neighbors(adj, a) <= known
  {
    forall b | b in Neighbors(adj, a) ensures b in known {
      assert Linked(adj, a, b);
    }
  }

  // ---- Depth is distance ----

  ghost predicate IsWalk(adj: Links, p: seq<Id>) {
    p != [] && forall i :: 0 <= i < |p| - 1 ==> Linked(adj, p[i], p[i + 1])
  }

  ghost predicate WalkTo(adj: Links, root: Id, x: Id, steps: nat) {
    exists p :: IsWalk(adj, p) && p[0] == root && p[|p| - 1] == x && |p| == steps + 1
  }

  ghost predicate Reachable(adj: Links, root: Id, x: Id) {
    exists n: nat :: WalkTo(adj, root, x, n)
  }

  ghost predicate IsDistance(adj: Links, root: Id, x: Id, n: nat) {
    WalkTo(adj, root, x, n) && forall m: nat :: WalkTo(adj, root, x, m) ==> n <= m
  }

  lemma {:induction false} TreeWalk(adj: Links, root: Id, s: Search, x: Id)
    requires TreeOk(adj, root, s) && x in s.depth
    ensures WalkTo(adj, root, x, s.depth[x])
    decreases s.depth[x]
  {
    if x == root {
      assert IsWalk(adj, [root]);
    } else {
      assert ParentOk(adj, s, x);
      var y := s.parent[x];
      TreeWalk(adj, root, s, y);
      var p :| IsWalk(adj, p) && p[0] == root && p[|p| - 1] == y && |p| == s.depth[y] + 1;
      var q := p + [x];
      forall i | 0 <= i < |q| - 1 ensures Linked(adj, q[i], q[i + 1]) {
        if i < |p| - 1 { assert Linked(adj, p[i], p[i + 1]); }
      }
      assert IsWalk(adj, q);
    }
  }

  lemma {:induction false} WalkBound(adj: Links, root: Id, s: Search, p: seq<Id>, n: nat)
    requires Complete(adj, root, s) && IsWalk(adj, p) && p[0] == root && n < |p|
    ensures p[n] in s.depth && s.depth[p[n]] <= n
  {
    if n > 0 {
      WalkBound(adj, root, s, p, n - 1);
      assert Explored(adj, s, p[n - 1]);
      assert Linked(adj, p[n - 1], p[n]);
    }
  }

  /** A completed search discovers exactly the connected devices, at their distance from the root. */
  lemma DepthIsDistance(adj: Links, root: Id, s: Search, x: Id)
    requires Complete(adj, root, s)
    ensures x in s.depth <==> Reachable(adj, root, x)
    ensures x in s.depth ==> IsDistance(adj, root, x, s.depth[x])
  {
    if x in s.depth {
      TreeWalk(adj, root, s, x);
    }
    forall m: nat | WalkTo(adj, root, x, m) ensures x in s.depth && s.depth[x] <= m {
      var p :| IsWalk(adj, p) && p[0] == root && p[|p| - 1] == x && |p| == m + 1;
      WalkBound(adj, root, s, p, m);
    }
  }

  // ---- Naming fallback and the enriched inventory ----

  /** What one device ends up with: its place in the search, or what its name suggests. */
  ghost predicate PlacedAt(adj: Links, root: Id, known: set<Id>, parent: map<Id, Id>, depth: map<Id, nat>, x: Id) {
    && x in depth
    && if Reachable(adj, root, x) then SearchedAt(adj, root, parent, depth, x) else NamedAt(known, parent, depth, x)
  }

  ghost predicate SearchedAt(adj: Links, root: Id, parent: map<Id, Id>, depth: map<Id, nat>, x: Id) {
    && x in depth && IsDistance(adj, root, x, depth[x])
    && (x in parent <==> x != root)
    && (x in parent ==> Linked(adj, parent[x], x) && Reachable(adj, root, parent[x]))
    && (x in parent ==> parent[x] in depth && depth[x] == depth[parent[x]] + 1)
  }

  predicate NamedAt(known: set<Id>, parent: map<Id, Id>, depth: map<Id, nat>, x: Id) {
    && x in depth && depth[x] == NamingDepth(x)
    && (x in parent <==> NamingUpstream(x, known) != "")
    && (x in parent ==> parent[x] == NamingUpstream(x, known))
  }

  /** The search's part is untouched; outside it, names decide for the devices seen so far. */
  predicate FilledIn(s: Search, known: set<Id>, parent: map<Id, Id>, depth: map<Id, nat>) {
    && s.depth.Keys <= depth.Keys
    && (forall x :: x in s.depth ==> depth[x] == s.depth[x])
    && (forall x :: x in s.parent ==> x in parent && parent[x] == s.parent[x])
    && (forall x :: x in parent && x in s.depth ==> x in s.parent)
    && (forall x :: x in depth && x !in s.depth ==> NamedAt(known, parent, depth, x))
    && parent.Keys <= depth.Keys
  }

  lemma FilledAtStart(adj: Links, root: Id, s: Search, known: set<Id>)
    requires Complete(adj, root, s)
    ensures FilledIn(s, known, s.parent, s.depth) && s.parent.Keys <= s.depth.Keys
  {
    hide NamedAt, Explored;
  }

  lemma FillOne(s: Search, known: set<Id>, parent: map<Id, Id>, depth: map<Id, nat>, x: Id)
    requires FilledIn(s, known, parent, depth) && x !in depth && s.parent.Keys <= s.depth.Keys
    ensures var up := NamingUpstream(x, known);
      FilledIn(s, known, if up != "" then parent[x := up] else parent, depth[x := NamingDepth(x)])
  {
    hide NamingUpstream, NamingDepth;
    var up := NamingUpstream(x, known);
    var parent' := if up != "" then parent[x := up] else parent;
    var depth' := depth[x := NamingDepth(x)];
    forall y | y in depth' && y !in s.depth ensures NamedAt(known, parent', depth', y) {
      assert y != x ==> NamedAt(known, parent, depth, y);
    }
  }

  method BfsParents(root: Id, adj: Links, devices: seq<DeviceConfig>) returns (parent: map<Id, Id>, depth: map<Id, nat>)
    requires LinksOk(adj, Index(devices).Keys) && root in Index(devices)
    ensures forall x :: x in Index(devices) ==> PlacedAt(adj, root, Index(devices).Keys, parent, depth, x)
  {
    var known := Index(devices).Keys;
    var s := Breadth(adj, root, known);
    hide FilledIn, Complete, Index, LinksOk, NamingUpstream, NamingDepth, PlacedAt;
    parent, depth := s.parent, s.depth;
    FilledAtStart(adj, root, s, known);
    var i := 0;
    while i < |devices|
      invariant 0 <= i <= |devices| && FilledIn(s, known, parent, depth)
      invariant forall k :: 0 <= k < i ==> devices[k].id in depth
    {
      var id := devices[i].id;
      if id !in depth {
        FillOne(s, known, parent, depth, id);
        var up := NamingUpstream(id, known);
        depth := depth[id := NamingDepth(id)];
        if up != "" { parent := parent[id := up]; }
      }
      i := i + 1;
    }
    AllPlaced(adj, root, devices, s, parent, depth);
  }

  lemma AllPlaced(adj: Links, root: Id, devices: seq<DeviceConfig>, s: Search, parent: map<Id, Id>, depth: map<Id, nat>)
    requires Complete(adj, root, s) && FilledIn(s, Index(devices).Keys, parent, depth)
    requires forall k :: 0 <= k < |devices| ==> devices[k].id in depth
    ensures forall x :: x in Index(devices) ==> PlacedAt(adj, root, Index(devices).Keys, parent, depth, x)
  {
    IndexKeys(devices);
    forall x | x in Index(devices) ensures PlacedAt(adj, root, Index(devices).Keys, parent, depth, x) {
      var d :| d in devices && d.id == x;
      OnePlaced(adj, root, Index(devices).Keys, s, parent, depth, x);
    }
  }

  lemma OnePlaced(adj: Links, root: Id, known: set<Id>, s: Search, parent: map<Id, Id>, depth: map<Id, nat>, x: Id)
    requires Complete(adj, root, s) && FilledIn(s, known, parent, depth) && x in depth
    ensures PlacedAt(adj, root, known, parent, depth, x)
  {
    hide NamingUpstream, NamingDepth, Reachable, IsDistance, Explored;
    DepthIsDistance(adj, root, s, x);
    if x in s.parent {
      assert ParentOk(adj, s, x);
      DepthIsDistance(adj, root, s, s.parent[x]);
    }
  }

  function Enriched(d: DeviceConfig, parent: map<Id, Id>, depth: map<Id, nat>): DeviceConfig
    requires d.id in depth
  {
    d.(role := RoleFor(d.id, depth[d.id]),
       upstreamDeviceIDs := if d.id in parent && parent[d.id] != "" then Some([parent[d.id]]) else None)
  }

  ghost predicate EnrichedBy(devices: seq<DeviceConfig>, out: seq<DeviceConfig>, adj: Links, root: Id,
                             parent: map<Id, Id>, depth: map<Id, nat>)
  {
    && |out| == |devices|
    && (forall x :: x in Index(devices) ==> PlacedAt(adj, root, Index(devices).Keys, parent, depth, x))
    && (forall i :: 0 <= i < |devices| ==> devices[i].id in depth && out[i] == Enriched(devices[i], parent, depth))
  }

  /** The links all answers amount to. */
  ghost predicate LinksHeard(devices: seq<DeviceConfig>, answers: seq<Answer>, adj: Links)
    requires |answers| == |devices|
  {
    forall x, y :: Linked(adj, x, y) <==> HeardBy(devices, answers, |devices|, x, y)
  }

  ghost predicate ChosenRoot(devices: seq<DeviceConfig>, adj: Links, root: Id) {
    exists k :: 0 <= k < |devices| && root == devices[k].id && IsFirstBest(devices, adj, k)
  }

  /** A device on a link path to the root gets a neighbour one step nearer, any other what its name suggests; its
      role follows from its name and its distance. Nothing else changes. */
  ghost predicate InferredAt(adj: Links, root: Id, known: set<Id>, d: DeviceConfig, out: DeviceConfig) {
    && out == d.(role := out.role, upstreamDeviceIDs := out.upstreamDeviceIDs)
    && (!Reachable(adj, root, d.id) ==>
          Suggested(d.id, known, out.upstreamDeviceIDs) && RoleFits(d.id, None, out.role))
    && forall n: nat :: IsDistance(adj, root, d.id, n) ==>
         RoleFits(d.id, Some(n), out.role) && NearerUpstream(adj, root, d.id, n, out.upstreamDeviceIDs)
  }

  ghost predicate NearerUpstream(adj: Links, root: Id, id: Id, n: nat, ups: Option<seq<Id>>) {
    if n == 0 then ups == None
    else exists p :: ups == Some([p]) && Linked(adj, p, id) && IsDistance(adj, root, p, n - 1)
  }

  /** What each device is inferred to be, from the answers, the names and the links between them alone. */
  ghost predicate Inferred(devices: seq<DeviceConfig>, answers: seq<Answer>, out: seq<DeviceConfig>)
    requires |answers| == |devices| == |out|
  {
    exists adj, root ::
      && LinksHeard(devices, answers, adj) && ChosenRoot(devices, adj, root)
      && forall i :: 0 <= i < |devices| ==> InferredAt(adj, root, Index(devices).Keys, devices[i], out[i])
  }

  method Enrich(devices: seq<DeviceConfig>, answers: seq<Answer>) returns (out: seq<DeviceConfig>)
    requires |answers| == |devices|
    ensures |out| == |devices| && (devices != [] ==> Inferred(devices, answers, out))
    ensures AcceptableDependencies(out)
  {
    out := devices;
    if devices == [] {
      NoDevices();
      return;
    }
    var adj := CollectLinks(devices, answers);
    var root := PickRoot(devices, adj);
    var parent, depth := BfsParents(root, adj, devices);
    AllDepths(devices, adj, root, parent, depth);
    var i := 0;
    while i < |out|
      invariant 0 <= i <= |out| == |devices|
      invariant forall k :: 0 <= k < |devices| ==> devices[k].id in depth
      invariant forall k :: 0 <= k < i ==> out[k] == Enriched(devices[k], parent, depth)
      invariant forall k :: i <= k < |out| ==> out[k] == devices[k]
    {
      hide Enriched, PlacedAt, Index, LinksOk, Linked, HeardBy, IsFirstBest;
      out := out[i := Enriched(out[i], parent, depth)];
      i := i + 1;
    }
    assert EnrichedBy(devices, out, adj, root, parent, depth) by { hide Enriched, PlacedAt; }
    assert LinksHeard(devices, answers, adj) && ChosenRoot(devices, adj, root) by { hide HeardBy, IsFirstBest; }
    assert Inferred(devices, answers, out) by { EnrichedIsInferred(devices, answers, out, adj, root, parent, depth); }
    hide *;
    ForestAccepted(devices, out, adj, root, parent, depth);
  }

  lemma EnrichedIsInferred(devices: seq<DeviceConfig>, answers: seq<Answer>, out: seq<DeviceConfig>, adj: Links,
                           root: Id, parent: map<Id, Id>, depth: map<Id, nat>)
    requires |answers| == |devices| && LinksOk(adj, Index(devices).Keys)
    requires LinksHeard(devices, answers, adj) && ChosenRoot(devices, adj, root)
    requires EnrichedBy(devices, out, adj, root, parent, depth)
    ensures |out| == |devices| && Inferred(devices, answers, out)
  {
    hide LinksHeard, ChosenRoot, LinksOk, Enriched, PlacedAt, Index, InferredAt;
    var known := Index(devices).Keys;
    forall i | 0 <= i < |devices| ensures InferredAt(adj, root, known, devices[i], out[i]) {
      InIndex(devices, i);
      EnrichedFits(devices[i], adj, root, known, parent, depth);
    }
  }

  lemma EnrichedFits(d: DeviceConfig, adj: Links, root: Id, known: set<Id>, parent: map<Id, Id>, depth: map<Id, nat>)
    requires LinksOk(adj, known) && d.id in known && d.id in depth
    requires forall x :: x in known ==> PlacedAt(adj, root, known, parent, depth, x)
    ensures InferredAt(adj, root, known, d, Enriched(d, parent, depth))
  {
    SuggestedIs(d.id, known);
    RolesAre(d.id);
    ReachedFits(d, adj, root, known, parent, depth);
    hide Suggested, RoleFits, RoleFor, NamingUpstream, NamingDepth, WalkTo, IsDistance, NearerUpstream;
    assert PlacedAt(adj, root, known, parent, depth, d.id);
  }

  lemma ReachedFits(d: DeviceConfig, adj: Links, root: Id, known: set<Id>, parent: map<Id, Id>, depth: map<Id, nat>)
    requires LinksOk(adj, known) && d.id in known && d.id in depth
    requires forall x :: x in known ==> PlacedAt(adj, root, known, parent, depth, x)
    ensures forall n: nat :: IsDistance(adj, root, d.id, n) ==>
      n == depth[d.id] && NearerUpstream(adj, root, d.id, n, Enriched(d, parent, depth).upstreamDeviceIDs)
  {
    assert IsWalk(adj, [root]) && WalkTo(adj, root, root, 0);
    hide Suggested, RoleFor, NamingUpstream, NamingDepth, WalkTo;
    assert PlacedAt(adj, root, known, parent, depth, d.id);
    if Reachable(adj, root, d.id) && d.id in parent {
      var p := parent[d.id];
      assert Linked(adj, p, d.id);
      assert PlacedAt(adj, root, known, parent, depth, p);
    }
  }

  lemma AllDepths(devices: seq<DeviceConfig>, adj: Links, root: Id, parent: map<Id, Id>, depth: map<Id, nat>)
    requires forall x :: x in Index(devices) ==> PlacedAt(adj, root, Index(devices).Keys, parent, depth, x)
    ensures forall k :: 0 <= k < |devices| ==> devices[k].id in depth
  {
    hide SearchedAt, NamedAt;
    forall k | 0 <= k < |devices| ensures devices[k].id in depth {
      InIndex(devices, k);
    }
  }

  lemma NoDevices()
    ensures AcceptableDependencies([])
  {
    var g := DependencyGraph(Index([]));
    forall p ensures !IsCycle(g, p) {
      assert IsCycle(g, p) ==> Edge(g, p[0], p[1]);
    }
  }

  lemma SameKeys(devices: seq<DeviceConfig>, out: seq<DeviceConfig>)
    requires |out| == |devices| && forall i :: 0 <= i < |out| ==> out[i].id == devices[i].id
    ensures Index(out).Keys == Index(devices).Keys
  {
    IndexKeys(devices);
    IndexKeys(out);
    forall x ensures x in Index(out) <==> x in Index(devices) {
      if x in Index(out) {
        var i :| 0 <= i < |out| && out[i] == Index(out)[x];
        assert devices[i] in devices;
      }
      if x in Index(devices) {
        var i :| 0 <= i < |devices| && devices[i] == Index(devices)[x];
        assert out[i] in out;
      }
    }
  }

  /** A device's upstream is placed before it: nearer to the root, or higher in the naming scheme. */
  ghost function RankOf(adj: Links, root: Id, depth: map<Id, nat>, bound: nat, x: Id): nat
    requires x in depth
  {
    if Reachable(adj, root, x) then depth[x] else bound + Level(x)
  }

  lemma {:induction false} DepthBound(depth: map<Id, nat>) returns (bound: nat)
    ensures forall x :: x in depth ==> depth[x] < bound
    decreases |depth|
  {
    if depth == map[] {
      bound := 0;
    } else {
      var x :| x in depth;
      var rest := depth - {x};
      assert rest.Keys == depth.Keys - {x};
      assert |rest.Keys| < |depth.Keys|;
      bound := DepthBound(rest);
      if bound <= depth[x] { bound := depth[x] + 1; }
      forall y | y in depth ensures depth[y] < bound {
        assert y != x ==> y in rest && rest[y] == depth[y];
      }
    }
  }

  lemma UpstreamRanksLower(adj: Links, root: Id, known: set<Id>, parent: map<Id, Id>, depth: map<Id, nat>, bound: nat,
                           a: Id)
    requires LinksOk(adj, known) && PlacedAt(adj, root, known, parent, depth, a) && a in parent
    requires forall x :: x in known ==> x in depth && depth[x] < bound
    ensures parent[a] in known && parent[a] in depth
    ensures RankOf(adj, root, depth, bound, parent[a]) < RankOf(adj, root, depth, bound, a)
  {
    hide NamingUpstream, NamingDepth, Reachable, IsDistance, Level;
    if Reachable(adj, root, a) {
      assert Linked(adj, parent[a], a);
    } else {
      NamingClimbs(a, known);
    }
  }

  lemma ForestAccepted(devices: seq<DeviceConfig>, out: seq<DeviceConfig>, adj: Links, root: Id,
                       parent: map<Id, Id>, depth: map<Id, nat>)
    requires LinksOk(adj, Index(devices).Keys) && EnrichedBy(devices, out, adj, root, parent, depth)
    ensures AcceptableDependencies(out)
  {
    hide *;
    var known := Index(devices).Keys;
    AtMostOneUpstream(devices, out, adj, root, parent, depth);
    var bound := DepthBound(depth);
    DepthsKnown(devices, out, adj, root, parent, depth, bound);
    var rank := Ranks(known, adj, root, parent, depth, bound);
    EdgesRanked(out, parent, rank);
    forall d | d in out ensures UpstreamsWellFormed(known, d) {
      OneIsWellFormed(d, parent, rank);
    }
    AcceptedWhen(out);
  }

  lemma DepthsKnown(devices: seq<DeviceConfig>, out: seq<DeviceConfig>, adj: Links, root: Id,
                    parent: map<Id, Id>, depth: map<Id, nat>, bound: nat)
    requires EnrichedBy(devices, out, adj, root, parent, depth) && forall x :: x in depth ==> depth[x] < bound
    ensures KnownDepths(Index(devices).Keys, depth, bound)
    ensures EachPlaced(Index(devices).Keys, adj, root, parent, depth)
  {
    hide SearchedAt, NamedAt, Enriched, Reachable;
  }

  lemma AcceptedWhen(out: seq<DeviceConfig>)
    requires forall d :: d in out ==> UpstreamsWellFormed(Index(out).Keys, d)
    requires !Cyclic(DependencyGraph(Index(out)))
    ensures AcceptableDependencies(out)
  {
  }

  ghost predicate EachPlaced(known: set<Id>, adj: Links, root: Id, parent: map<Id, Id>, depth: map<Id, nat>) {
    forall x :: x in known ==> PlacedAt(adj, root, known, parent, depth, x)
  }

  lemma AtMostOneUpstream(devices: seq<DeviceConfig>, out: seq<DeviceConfig>, adj: Links, root: Id,
                          parent: map<Id, Id>, depth: map<Id, nat>)
    requires EnrichedBy(devices, out, adj, root, parent, depth)
    ensures Index(out).Keys == Index(devices).Keys
    ensures forall d :: d in out ==> OneUpstream(d, parent) && d.id in Index(devices)
  {
    hide PlacedAt, RoleFor;
    SameKeys(devices, out);
    forall d | d in out ensures OneUpstream(d, parent) && d.id in Index(devices) {
      var i :| 0 <= i < |out| && out[i] == d;
      assert d == Enriched(devices[i], parent, depth);
      InIndex(devices, i);
    }
  }

  lemma Ranks(known: set<Id>, adj: Links, root: Id, parent: map<Id, Id>, depth: map<Id, nat>, bound: nat)
    returns (rank: map<Id, nat>)
    requires LinksOk(adj, known) && EachPlaced(known, adj, root, parent, depth) && KnownDepths(known, depth, bound)
    ensures rank.Keys == known
    ensures forall a :: a in known && a in parent ==> parent[a] in rank && rank[parent[a]] < rank[a]
  {
    hide LinksOk, PlacedAt, RankOf;
    rank := map x | x in known :: RankOf(adj, root, depth, bound, x);
    forall a | a in known && a in parent ensures parent[a] in rank && rank[parent[a]] < rank[a] {
      assert PlacedAt(adj, root, known, parent, depth, a);
      UpstreamRanksLower(adj, root, known, parent, depth, bound, a);
    }
  }

  lemma OneIsWellFormed(d: DeviceConfig, parent: map<Id, Id>, rank: map<Id, nat>)
    requires OneUpstream(d, parent) && d.id in rank
    requires forall a :: a in rank && a in parent ==> parent[a] in rank && rank[parent[a]] < rank[a]
    ensures UpstreamsWellFormed(rank.Keys, d)
  {
  }

  predicate KnownDepths(known: set<Id>, depth: map<Id, nat>, bound: nat) {
    forall x :: x in known ==> x in depth && depth[x] < bound
  }

  predicate OneUpstream(d: DeviceConfig, parent: map<Id, Id>) {
    d.Upstreams() == [] || (d.id in parent && d.Upstreams() == [parent[d.id]])
  }

  lemma EdgesRanked(out: seq<DeviceConfig>, parent: map<Id, Id>, rank: map<Id, nat>)
    requires forall d :: d in out ==> OneUpstream(d, parent)
    requires rank.Keys == Index(out).Keys
    requires forall a :: a in Index(out) && a in parent ==> parent[a] in rank && rank[parent[a]] < rank[a]
    ensures !Cyclic(DependencyGraph(Index(out)))
  {
    var g := DependencyGraph(Index(out));
    IndexKeys(out);
    forall a, b | Edge(g, a, b) ensures a in rank && b in rank && rank[b] < rank[a] {
      assert OneUpstream(Index(out)[a], parent);
    }
    RankedIsAcyclic(g, rank);
  }
}
