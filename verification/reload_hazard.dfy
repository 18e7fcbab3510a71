/** Reloads and the root-cause walk: a reload that reverses an edge can trap it, reloads that keep to one
    order of the devices cannot. */
module ReloadHazard {
  import opened Ids
  import opened Graphs
  import opened Config
  import opened EvaluationOrder
  import opened Health
  import opened HealthTracker
  import opened HealthRuns
  import opened HealthHistory
  import opened HealthVerdicts
  import opened HealthStream

  /** A cycle ends exactly when each single walk it starts does. */
  lemma BatchEndsExactly(cfg: Settings, ledger: Ledger, outcomes: seq<PollOutcome>)
    ensures BatchEnds(cfg, ledger, outcomes) <==> AllWalksEnd(cfg, ledger, outcomes)
  {
    OrderKnown(cfg, ledger, outcomes);
    var base, order := Recorded(cfg, ledger, outcomes), KahnOrder(cfg.Upstreams());
    hide Evaluate, Recorded, KahnOrder, VerdictAt, CycleFree, WalkTerminates, Evidence;
    forall i | 0 <= i < |order| ensures WalkSafeAt(cfg, base, order, i) <==> WalksEndAt(cfg, base, order, i) {
      var l := Evaluate(cfg, base, order[..i]).ledger;
      forall u ensures WalkTerminates(l, u) <==> CycleFree(Evidence(l), u) {
        WalkEndsExactly(l, u);
      }
    }
  }

  /** The walks from the failed upstreams of the device in place `i`, when it is found unknown. */
  ghost predicate WalksEndAt(cfg: Settings, base: Ledger, order: seq<Id>, i: nat)
    requires Known(cfg, base, order) && i < |order|
  {
    var l := Evaluate(cfg, base, order[..i]).ledger;
    var v := VerdictAt(cfg, l, order[i]);
    v.Decided? && v.state == Unknown ==> forall u :: u in v.unavailable ==> WalkTerminates(l, u)
  }

  ghost predicate AllWalksEnd(cfg: Settings, ledger: Ledger, outcomes: seq<PollOutcome>) {
    OrderKnown(cfg, ledger, outcomes);
    var base, order := Recorded(cfg, ledger, outcomes), KahnOrder(cfg.Upstreams());
    forall i :: 0 <= i < |order| ==> WalksEndAt(cfg, base, order, i)
  }

  // ---- Reloads that keep to one order ----

  /** Each device depends only on devices that `g` lets it depend on. */
  ghost predicate KeepsTo(g: Graph, cfg: Settings) {
    forall id :: id in cfg.DeviceIndex() ==> id in g && Elems(Ups(cfg, id)) <= Elems(g[id])
  }

  ghost predicate AllKeepTo(g: Graph, steps: seq<TrackerStep>) {
    forall i :: 0 <= i < |steps| && steps[i].Cycle? ==> KeepsTo(g, steps[i].cfg)
  }

  ghost predicate LedgerWithin(g: Graph, ledger: Ledger) {
    EvidenceWithin(g, ledger) && ledger.Keys <= g.Keys
  }

  lemma RecordedWithin(g: Graph, cfg: Settings, ledger: Ledger, outcomes: seq<PollOutcome>)
    requires LedgerWithin(g, ledger) && KeepsTo(g, cfg)
    ensures LedgerWithin(g, Recorded(cfg, ledger, outcomes))
  {
    hide Normalized, Index, RecordAll;
    var start := WithEntries(ledger, cfg.DeviceIndex().Keys);
    forall id | id in start ensures SameEvidence(RecordAll(start, outcomes)[id], start[id]) {
      RecordAllKeepsEvidence(start, outcomes, id);
    }
  }

  lemma EvaluatedWithin(g: Graph, cfg: Settings, base: Ledger, order: seq<Id>)
    requires LedgerWithin(g, base) && KeepsTo(g, cfg) && Known(cfg, base, order)
    ensures LedgerWithin(g, Evaluate(cfg, base, order).ledger)
  {
    EvaluateEvidence(cfg, g, base, order);
  }

  lemma {:induction false} PlayWithin(g: Graph, steps: seq<TrackerStep>)
    requires AllKeepTo(g, steps)
    ensures LedgerWithin(g, Play(steps).ledger)
  {
    if steps != [] {
      var n := |steps| - 1;
      assert AllKeepTo(g, steps[..n]);
      PlayWithin(g, steps[..n]);
      hide Evaluate, Recorded, KahnOrder, KeepsTo;
      match steps[n]
      case Cycle(cfg, outcomes) =>
        var ledger := Play(steps[..n]).ledger;
        BatchLedger(cfg, ledger, outcomes);
        RecordedWithin(g, cfg, ledger, outcomes);
        EvaluatedWithin(g, cfg, Recorded(cfg, ledger, outcomes), KahnOrder(cfg.Upstreams()));
      case Retain(_) =>
    }
  }

  /** Over every run with reloads and prunes whose configurations all keep to one acyclic graph, however
      they change, every walk of every further such cycle ends. */
  lemma OneOrderEnds(g: Graph, steps: seq<TrackerStep>, cfg: Settings, outcomes: seq<PollOutcome>)
    requires !Cyclic(g) && AllKeepTo(g, steps) && KeepsTo(g, cfg)
    ensures BatchEnds(cfg, Play(steps).ledger, outcomes)
  {
    var ledger := Play(steps).ledger;
    PlayWithin(g, steps);
    OrderKnown(cfg, ledger, outcomes);
    var base, order := Recorded(cfg, ledger, outcomes), KahnOrder(cfg.Upstreams());
    RecordedWithin(g, cfg, ledger, outcomes);
    hide Cyclic, Evaluate, Recorded, KahnOrder, VerdictAt, EvidenceEnds, EvidenceWithin, KeepsTo, Play;
    forall i | 0 <= i < |order| ensures WalkSafeAt(cfg, base, order, i) {
      EvaluatedWithin(g, cfg, base, order[..i]);
      var l := Evaluate(cfg, base, order[..i]).ledger;
      WithinAcyclic(g, l);
      var v := VerdictAt(cfg, l, order[i]);
      if v.Decided? { AcyclicEnds(l, v.unavailable); }
    }
  }

  // ---- A reload that reverses an edge ----

  /** Before the reload `b` depends on `a` and `d` on `b`. */
  ghost predicate Before(cfg: Settings, a: Id, b: Id, d: Id) {
    && cfg.DeviceIndex().Keys == {a, b, d}
    && cfg.DeviceIndex()[a].Upstreams() == [] && cfg.DeviceIndex()[b].Upstreams() == [a]
    && cfg.DeviceIndex()[d].Upstreams() == [b]
  }

  /** After it `d` depends on `a`, `a` on `b` and `b` on a new device. */
  ghost predicate After(cfg: Settings, a: Id, b: Id, c: Id, d: Id) {
    && cfg.DeviceIndex().Keys == {a, b, c, d}
    && cfg.DeviceIndex()[a].Upstreams() == [b] && cfg.DeviceIndex()[b].Upstreams() == [c]
    && cfg.DeviceIndex()[c].Upstreams() == [] && cfg.DeviceIndex()[d].Upstreams() == [a]
  }

  predicate Different(a: Id, b: Id, c: Id, d: Id) {
    a != b && a != c && a != d && b != c && b != d && c != d && a != "" && b != "" && c != "" && d != ""
  }

  /** Polled once, and failed. */
  predicate Fails(outcomes: seq<PollOutcome>, id: Id) {
    DistinctDevices(outcomes) && exists i :: 0 <= i < |outcomes| && outcomes[i].deviceID == id && !outcomes[i].success
  }

  lemma SingleNormalized(x: Id)
    requires x != ""
    ensures Normalized([x]) == [x] && Normalized([]) == []
  {
    assert Elems([x]) - {""} == {x} == Elems([x]);
    SortedUnique(SortSet({x}), [x]);
    assert Elems<Id>([]) - {""} == {} == Elems<Id>([]);
    SortedUnique(SortSet({}), []);
  }

  lemma BeforeGraph(cfg: Settings, a: Id, b: Id, c: Id, d: Id)
    requires Different(a, b, c, d) && Before(cfg, a, b, d)
    ensures Ups(cfg, a) == [] && Ups(cfg, b) == [a] && Ups(cfg, d) == [b] && !Cyclic(cfg.Upstreams())
  {
    SingleNormalized(a);
    SingleNormalized(b);
    hide Normalized;
    RankedIsAcyclic(cfg.Upstreams(), map[a := 0, b := 1, d := 2]);
  }

  lemma AfterGraph(cfg: Settings, a: Id, b: Id, c: Id, d: Id)
    requires Different(a, b, c, d) && After(cfg, a, b, c, d)
    ensures Ups(cfg, a) == [b] && Ups(cfg, b) == [c] && Ups(cfg, c) == [] && Ups(cfg, d) == [a]
    ensures cfg.Upstreams() == map[a := [b], b := [c], c := [], d := [a]] && !Cyclic(cfg.Upstreams())
  {
    SingleNormalized(a);
    SingleNormalized(b);
    SingleNormalized(c);
    hide Normalized;
    hide Cyclic;
    assert cfg.Upstreams() == map[a := [b], b := [c], c := [], d := [a]];
    ChainAcyclic(a, b, c, d);
  }

  lemma ChainAcyclic(a: Id, b: Id, c: Id, d: Id)
    requires Different(a, b, c, d)
    ensures !Cyclic(map[a := [b], b := [c], c := [], d := [a]])
  {
    RankedIsAcyclic(map[a := [b], b := [c], c := [], d := [a]], map[a := 2, b := 1, c := 0, d := 3]);
  }

  /** The new dependencies leave one order only. */
  lemma AfterOrder(cfg: Settings, a: Id, b: Id, c: Id, d: Id)
    requires Different(a, b, c, d) && After(cfg, a, b, c, d)
    ensures KahnOrder(cfg.Upstreams()) == [c, b, a, d]
  {
    AfterGraph(cfg, a, b, c, d);
    var g := cfg.Upstreams();
    KahnOrderCorrect(g);
    OnlyOrder(g, KahnOrder(g), a, b, c, d);
  }

  lemma Precedes(g: Graph, order: seq<Id>, i: nat, y: Id) returns (j: nat)
    requires IsTopological(g, order) && i < |order| && Edge(g, order[i], y)
    ensures j < i && order[j] == y
  {
    j :| 0 <= j < i && order[..i][j] == y;
  }

  lemma OnlyOrder(g: Graph, order: seq<Id>, a: Id, b: Id, c: Id, d: Id)
    requires g == map[a := [b], b := [c], c := [], d := [a]] && Different(a, b, c, d) && IsTopological(g, order)
    ensures order == [c, b, a, d]
  {
    NoDupCard(order);
    FourKeys(a, b, c, d);
    assert d in Elems(order);
    var i :| 0 <= i < |order| && order[i] == d;
    hide IsTopological, NoDup;
    var j := Precedes(g, order, i, a);
    var k := Precedes(g, order, j, b);
    var m := Precedes(g, order, k, c);
    assert m == 0 && k == 1 && j == 2 && i == 3;
  }

  lemma FourKeys(a: Id, b: Id, c: Id, d: Id)
    requires Different(a, b, c, d)
    ensures |{a, b, c, d}| == 4
  {
  }

  // What a run of failures leaves in the ledger.

  lemma {:induction false} VerdictsOfOne(outcomes: seq<PollOutcome>, id: Id, i: nat)
    requires DistinctDevices(outcomes)
    ensures i < |outcomes| && outcomes[i].deviceID == id ==> Verdicts(outcomes, id) == [outcomes[i].success]
    ensures (forall k :: 0 <= k < |outcomes| ==> outcomes[k].deviceID != id) ==> Verdicts(outcomes, id) == []
  {
    if outcomes != [] {
      var n := |outcomes| - 1;
      VerdictsOfOne(outcomes[..n], id, i);
    }
  }

  lemma {:induction false} AllFailures(batches: seq<seq<PollOutcome>>, id: Id)
    requires forall b :: b in batches ==> Fails(b, id)
    ensures |History(batches, id)| == |batches| == TrailingFailures(History(batches, id))
    ensures batches != [] ==> var h := History(batches, id); h != [] && !h[|h| - 1]
  {
    if batches != [] {
      var n := |batches| - 1;
      AllFailures(batches[..n], id);
      assert Fails(batches[n], id);
      var i :| 0 <= i < |batches[n]| && batches[n][i].deviceID == id && !batches[n][i].success;
      VerdictsOfOne(batches[n], id, i);
      var h := History(batches[..n], id);
      assert (h + [false])[..|h|] == h;
    }
  }

  /** An entry that has seen nothing but `n` failures. */
  predicate FailedTimes(e: DeviceHealth, n: int) {
    e.hasOutcome && !e.lastOutcomeSuccess && e.failureCount == n
  }

  predicate IsCriticalEntry(e: DeviceHealth) {
    e.hasState && e.state == Critical
  }

  /** The old order's evidence: `a` critical, `b` unknown behind it, `d` behind `b`. */
  predicate LeftBehind(l: Ledger, n: nat, a: Id, b: Id, d: Id) {
    && l.Keys == {a, b, d} && FailedTimes(l[a], n) && FailedTimes(l[b], n) && FailedTimes(l[d], n)
    && IsCriticalEntry(l[a])
    && IsUnknown(l[b]) && l[b].unavailableUpstream == [a]
    && IsUnknown(l[d]) && l[d].unavailableUpstream == [b]
  }

  lemma FailingRun(cfg: Settings, batches: seq<seq<PollOutcome>>, id: Id)
    requires !Cyclic(cfg.Upstreams()) && id in cfg.DeviceIndex() && batches != []
    requires forall b :: b in batches ==> Fails(b, id)
    ensures var l := RunLedger(cfg, batches);
      && id in l && FailedTimes(l[id], |batches|)
      && StateFits(cfg, l, EntryBefore(RunLedger(cfg, batches[..|batches| - 1]), id), id)
  {
    hide RunLedger, Cyclic, StateFits;
    StateIsDetermined(cfg, batches, id);
    FailureCountIsTrailingRun(cfg, batches, id);
    AllFailures(batches, id);
  }

  lemma BeforeLedger(cfg: Settings, batches: seq<seq<PollOutcome>>, a: Id, b: Id, c: Id, d: Id)
    requires Different(a, b, c, d) && Before(cfg, a, b, d) && |batches| >= cfg.Threshold()
    requires forall o :: o in batches ==> Fails(o, a) && Fails(o, b) && Fails(o, d)
    ensures LeftBehind(RunLedger(cfg, batches), |batches|, a, b, d)
  {
    BeforeGraph(cfg, a, b, c, d);
    FailingRun(cfg, batches, a);
    FailingRun(cfg, batches, b);
    FailingRun(cfg, batches, d);
    RunKeys(cfg, batches);
    var l, earlier := RunLedger(cfg, batches), RunLedger(cfg, batches[..|batches| - 1]);
    hide RunLedger, Cyclic, Normalized, StateFits;
    FitsAlone(cfg, l, EntryBefore(earlier, a), a);
    FitsBehind(cfg, l, EntryBefore(earlier, b), b, a);
    FitsBehind(cfg, l, EntryBefore(earlier, d), d, b);
  }

  lemma FitsAlone(cfg: Settings, l: Ledger, before: DeviceHealth, id: Id)
    requires id in cfg.DeviceIndex() && id in l && Ups(cfg, id) == [] && StateFits(cfg, l, before, id)
    requires FailedTimes(l[id], l[id].failureCount) && l[id].failureCount >= cfg.Threshold()
    ensures IsCriticalEntry(l[id]) && HasFailed(l, cfg.Threshold(), id)
  {
    hide Normalized;
  }

  lemma FitsBehind(cfg: Settings, l: Ledger, before: DeviceHealth, id: Id, up: Id)
    requires id in cfg.DeviceIndex() && id in l && Ups(cfg, id) == [up] && StateFits(cfg, l, before, id)
    requires HasFailed(l, cfg.Threshold(), up)
    requires FailedTimes(l[id], l[id].failureCount) && l[id].failureCount >= cfg.Threshold()
    ensures IsUnknown(l[id]) && l[id].unavailableUpstream == [up] && HasFailed(l, cfg.Threshold(), id)
  {
    hide Normalized;
    assert forall u :: u in [up] ==> u == up;
  }

  lemma RunKeys(cfg: Settings, batches: seq<seq<PollOutcome>>)
    requires !Cyclic(cfg.Upstreams()) && batches != []
    requires forall b :: b in batches ==> DistinctDevices(b)
    ensures RunLedger(cfg, batches).Keys == cfg.DeviceIndex().Keys
  {
    var n := |batches| - 1;
    RunConsistent(cfg, batches[..n]);
    BatchConsistent(cfg, RunLedger(cfg, batches[..n]), batches[n]);
  }

  function Cycles(cfg: Settings, batches: seq<seq<PollOutcome>>): seq<TrackerStep> {
    seq(|batches|, i requires 0 <= i < |batches| => Cycle(cfg, batches[i]))
  }

  lemma {:induction false} PlayCycles(cfg: Settings, batches: seq<seq<PollOutcome>>)
    ensures Play(Cycles(cfg, batches)).ledger == RunLedger(cfg, batches)
  {
    if batches != [] {
      var n := |batches| - 1;
      PlayCycles(cfg, batches[..n]);
      assert Cycles(cfg, batches)[..n] == Cycles(cfg, batches[..n]);
    }
  }

  /** The ledger the reload finds: nothing was pruned, for every old device is still configured. */
  lemma ReloadedLedger(cfg: Settings, batches: seq<seq<PollOutcome>>, active: set<Id>)
    requires RunLedger(cfg, batches).Keys <= active
    ensures Play(Cycles(cfg, batches) + [Retain(active)]).ledger == RunLedger(cfg, batches)
  {
    PlayCycles(cfg, batches);
    var steps := Cycles(cfg, batches);
    assert (steps + [Retain(active)])[..|steps|] == steps;
    hide RunLedger, Cycles;
  }

  // The first cycle after the reload.

  lemma RecordedFailure(cfg: Settings, l: Ledger, outcomes: seq<PollOutcome>, id: Id)
    requires id in cfg.DeviceIndex() && Fails(outcomes, id) && (id in l ==> FailedTimes(l[id], l[id].failureCount))
    ensures var r := Recorded(cfg, l, outcomes);
      && id in r && FailedTimes(r[id], 1 + if id in l then l[id].failureCount else 0)
      && SameEvidence(r[id], EntryBefore(l, id))
  {
    hide Index;
    var start := WithEntries(l, cfg.DeviceIndex().Keys);
    var i :| 0 <= i < |outcomes| && outcomes[i].deviceID == id && !outcomes[i].success;
    RecordedAt(start, outcomes, id, i);
    hide RecordAll;
  }

  /** What the cycle starts from. */
  predicate Restarted(r: Ledger, threshold: int, a: Id, b: Id, c: Id, d: Id) {
    && r.Keys == {a, b, c, d} && threshold > 1 && FailedTimes(r[c], 1) && !r[c].hasState
    && FailedTimes(r[a], r[a].failureCount) && r[a].failureCount >= threshold && IsCriticalEntry(r[a])
    && FailedTimes(r[b], r[b].failureCount) && r[b].failureCount >= threshold
    && IsUnknown(r[b]) && r[b].unavailableUpstream == [a]
    && FailedTimes(r[d], r[d].failureCount) && r[d].failureCount >= threshold
  }

  lemma RestartedAfter(cfg: Settings, l: Ledger, outcomes: seq<PollOutcome>, n: nat, a: Id, b: Id, c: Id, d: Id)
    requires Different(a, b, c, d) && After(cfg, a, b, c, d) && LeftBehind(l, n, a, b, d)
    requires 1 < cfg.Threshold() <= n + 1
    requires Fails(outcomes, a) && Fails(outcomes, b) && Fails(outcomes, c) && Fails(outcomes, d)
    ensures Restarted(Recorded(cfg, l, outcomes), cfg.Threshold(), a, b, c, d)
  {
    hide Recorded, Fails, Index, IsUnknown;
    RecordedFailure(cfg, l, outcomes, a);
    RecordedFailure(cfg, l, outcomes, b);
    RecordedFailure(cfg, l, outcomes, c);
    RecordedFailure(cfg, l, outcomes, d);
    BatchLedger(cfg, l, outcomes);
    RestartedWhen(l, Recorded(cfg, l, outcomes), cfg.Threshold(), n, a, b, c, d);
  }

  lemma RestartedWhen(l: Ledger, r: Ledger, threshold: int, n: nat, a: Id, b: Id, c: Id, d: Id)
    requires Different(a, b, c, d) && LeftBehind(l, n, a, b, d) && 1 < threshold <= n + 1 && r.Keys == {a, b, c, d}
    requires forall x :: x in {a, b, d} ==> FailedTimes(r[x], n + 1) && SameEvidence(r[x], l[x])
    requires FailedTimes(r[c], 1) && SameEvidence(r[c], Unobserved())
    ensures Restarted(r, threshold, a, b, c, d)
  {
    assert a in {a, b, d} && b in {a, b, d} && d in {a, b, d};
  }

  /** The new device is pending, so `b` is undecided and keeps its old evidence. */
  lemma PendingPair(cfg: Settings, r: Ledger, a: Id, b: Id, c: Id, d: Id)
    requires Different(a, b, c, d) && After(cfg, a, b, c, d) && Restarted(r, cfg.Threshold(), a, b, c, d)
    ensures VerdictAt(cfg, r, c).Undecided? && VerdictAt(cfg, r, b).Undecided?
  {
    AfterGraph(cfg, a, b, c, d);
    hide Normalized, CriticalBehind;
    assert c in [c] && StatusOf(r, cfg.Threshold(), c) == Unsettled;
  }

  /** A device behind one failed upstream. */
  lemma BehindFailed(cfg: Settings, r: Ledger, id: Id, up: Id)
    requires id in cfg.DeviceIndex() && id in r && Ups(cfg, id) == [up] && HasFailed(r, cfg.Threshold(), up)
    requires FailedTimes(r[id], r[id].failureCount) && r[id].failureCount >= cfg.Threshold()
    ensures var v := VerdictAt(cfg, r, id);
      v.Decided? && v.state == Unknown && v.unavailable == [up]
  {
    hide Normalized, CriticalBehind;
    assert StatusOf(r, cfg.Threshold(), up) == Failed;
    assert forall u :: u in [up] ==> u == up;
  }

  lemma EvaluateThree(cfg: Settings, base: Ledger, a: Id, b: Id, c: Id)
    requires Known(cfg, base, [c, b, a])
    requires VerdictAt(cfg, base, c).Undecided? && VerdictAt(cfg, base, b).Undecided?
    ensures Evaluate(cfg, base, [c, b, a]).ledger == base[a := EntryAfter(cfg, a, base[a], VerdictAt(cfg, base, a))]
  {
    assert [c, b, a][..2] == [c, b] && [c, b][..1] == [c] && [c][..0] == [];
    hide VerdictAt, EventsAfter;
    assert base[c := base[c]] == base && base[b := base[b]] == base;
    assert Evaluate(cfg, base, [c]).ledger == base;
    assert Evaluate(cfg, base, [c, b]).ledger == base;
  }

  lemma Circle(l: Ledger, a: Id, b: Id)
    requires a in l && IsUnknown(l[a]) && l[a].unavailableUpstream == [b]
    requires b in l && IsUnknown(l[b]) && l[b].unavailableUpstream == [a]
    ensures !WalkTerminates(l, a)
  {
    var g := Evidence(l);
    assert Edge(g, a, b) && Edge(g, b, a);
    assert IsCycle(g, [a, b, a]);
    ReachesSelf(g, a);
    assert CycleThrough(g, a);
    WalkEndsExactly(l, a);
  }

  /** Midway through the cycle `a` and `b` each note the other, and `d` asks for the walk from `a`. */
  lemma Trapped(cfg: Settings, base: Ledger, a: Id, b: Id, c: Id, d: Id)
    requires Different(a, b, c, d) && After(cfg, a, b, c, d) && Restarted(base, cfg.Threshold(), a, b, c, d)
    ensures Known(cfg, base, [c, b, a])
    ensures var mid := Evaluate(cfg, base, [c, b, a]).ledger;
      var v := VerdictAt(cfg, mid, d);
      v.Decided? && v.state == Unknown && v.unavailable == [a] && !WalkTerminates(mid, a)
  {
    AfterGraph(cfg, a, b, c, d);
    PendingPair(cfg, base, a, b, c, d);
    assert HasFailed(base, cfg.Threshold(), b);
    BehindFailed(cfg, base, a, b);
    EvaluateThree(cfg, base, a, b, c);
    var mid := Evaluate(cfg, base, [c, b, a]).ledger;
    hide Evaluate, VerdictAt, Normalized, Cyclic, Index, WalkTerminates;
    assert mid[a].unavailableUpstream == [b] && IsUnknown(mid[a]) && FailedTimes(mid[a], base[a].failureCount);
    assert HasFailed(mid, cfg.Threshold(), a);
    BehindFailed(cfg, mid, d, a);
    Circle(mid, a, b);
  }

  /** A run from the empty tracker to a walk that never ends. Under the old dependencies `b` fails behind `a`
      and `d` behind `b`; the reload lets `a` depend on `b`, `b` on a new device and `d` on `a`. In the next
      cycle, everything still failing, `b` is undecided and keeps its old evidence, `a` is found behind `b`,
      and the walk for `d` runs in a circle. Both configurations, and the ledger the reload finds, are
      acyclic. */
  lemma ReloadTrapsWalk(before: Settings, after: Settings, batches: seq<seq<PollOutcome>>, outcomes: seq<PollOutcome>,
                        a: Id, b: Id, c: Id, d: Id)
    requires Different(a, b, c, d) && Before(before, a, b, d) && After(after, a, b, c, d)
    requires |batches| >= before.Threshold() && 1 < after.Threshold() <= |batches| + 1
    requires forall o :: o in batches ==> Fails(o, a) && Fails(o, b) && Fails(o, d)
    requires Fails(outcomes, a) && Fails(outcomes, b) && Fails(outcomes, c) && Fails(outcomes, d)
    ensures !Cyclic(before.Upstreams()) && !Cyclic(after.Upstreams())
    ensures var l := Play(Cycles(before, batches) + [Retain(after.DeviceIndex().Keys)]).ledger;
      !Cyclic(Evidence(l)) && !AllWalksEnd(after, l, outcomes)
  {
    BeforeGraph(before, a, b, c, d);
    AfterGraph(after, a, b, c, d);
    AfterOrder(after, a, b, c, d);
    BeforeLedger(before, batches, a, b, c, d);
    var l := RunLedger(before, batches);
    ReloadedLedger(before, batches, after.DeviceIndex().Keys);
    OldEvidence(l, |batches|, a, b, c, d);
    RestartedAfter(after, l, outcomes, |batches|, a, b, c, d);
    var base := Recorded(after, l, outcomes);
    OrderKnown(after, l, outcomes);
    Trapped(after, base, a, b, c, d);
    hide *;
    LastWalk(after, l, outcomes, a, b, c, d);
  }

  lemma LastWalk(cfg: Settings, l: Ledger, outcomes: seq<PollOutcome>, a: Id, b: Id, c: Id, d: Id)
    requires KahnOrder(cfg.Upstreams()) == [c, b, a, d] && Known(cfg, Recorded(cfg, l, outcomes), [c, b, a])
    requires Known(cfg, Recorded(cfg, l, outcomes), [c, b, a, d])
    requires var mid := Evaluate(cfg, Recorded(cfg, l, outcomes), [c, b, a]).ledger;
      var v := VerdictAt(cfg, mid, d);
      v.Decided? && v.state == Unknown && v.unavailable == [a] && !WalkTerminates(mid, a)
    ensures !AllWalksEnd(cfg, l, outcomes)
  {
    OrderKnown(cfg, l, outcomes);
    var order := [c, b, a, d];
    assert order[..3] == [c, b, a];
    hide Evaluate, VerdictAt, WalkTerminates, KahnOrder, Recorded;
    assert !WalksEndAt(cfg, Recorded(cfg, l, outcomes), order, 3);
  }

  lemma OldEvidence(l: Ledger, n: nat, a: Id, b: Id, c: Id, d: Id)
    requires Different(a, b, c, d) && LeftBehind(l, n, a, b, d)
    ensures !Cyclic(Evidence(l))
  {
    RankedIsAcyclic(Evidence(l), map[a := 0, b := 1, d := 2]);
  }
}
