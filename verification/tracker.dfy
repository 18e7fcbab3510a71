/** The tracker: the ledger kept in place, evaluated by loops and a recursive walk. */
module HealthTracker {
  import opened Ids
  import opened Graphs
  import opened Config
  import opened EvaluationOrder
  import opened Health

  /** What a walk from one device finds, case by case as the walk distinguishes them. */
  lemma BehindOne(ledger: Ledger, id: Id)
    ensures !(id in ledger && ledger[id].IsDown()) ==> CriticalBehind(ledger, [id]) == {}
    ensures IsCritical(ledger, id) ==> CriticalBehind(ledger, [id]) == {id}
    ensures id in ledger && ledger[id].IsDown() && ledger[id].state == Unknown ==>
              CriticalBehind(ledger, [id]) == CriticalBehind(ledger, ledger[id].unavailableUpstream)
  {
    var g := Evidence(ledger);
    forall c ensures ReachedFrom(ledger, [id], c) <==> Reaches(g, id, c) {
      if Reaches(g, id, c) { assert id in [id]; }
    }
    forall c | IsCritical(ledger, c) ensures
        Reaches(g, id, c) <==>
        if id in g && ledger[id].state == Unknown then ReachedFrom(ledger, ledger[id].unavailableUpstream, c)
        else id == c
    {
      ReachesUnfold(g, id, c);
      if id in g && ledger[id].state == Unknown && ReachedFrom(ledger, ledger[id].unavailableUpstream, c) {
        var u :| u in ledger[id].unavailableUpstream && Reaches(g, u, c);
        ReachesUnfold(g, u, c);
        assert u in g;
        assert Edge(g, id, u);
      }
    }
  }

  lemma BehindPrefix(ledger: Ledger, from: seq<Id>, i: nat)
    requires i < |from|
    ensures CriticalBehind(ledger, from[..i + 1]) == CriticalBehind(ledger, from[..i])
      + CriticalBehind(ledger, [from[i]])
    ensures CriticalBehind(ledger, from[..0]) == {}
  {
    assert from[..i + 1] == from[..i] + [from[i]];
    forall c ensures ReachedFrom(ledger, from[..i + 1], c) <==>
        ReachedFrom(ledger, from[..i], c) || ReachedFrom(ledger, [from[i]], c) {
    }
  }

  // ---- When the root-cause walk ends ----

  /** The walk from `id` ends within `n` steps through unknown devices. */
  predicate WalkEnds(ledger: Ledger, id: Id, n: nat)
    decreases n
  {
    id in ledger && ledger[id].hasState && ledger[id].state == Unknown ==>
      && n > 0
      && var ups := ledger[id].unavailableUpstream;
         forall i :: 0 <= i < |ups| ==> WalkEnds(ledger, ups[i], n - 1)
  }

  ghost predicate WalkTerminates(ledger: Ledger, id: Id) {
    exists n: nat :: WalkEnds(ledger, id, n)
  }

  lemma {:induction false} WalkEndsLater(ledger: Ledger, id: Id, n: nat, m: nat)
    requires WalkEnds(ledger, id, n) && n <= m
    ensures WalkEnds(ledger, id, m)
    decreases n
  {
    if id in ledger && ledger[id].hasState && ledger[id].state == Unknown {
      forall i | 0 <= i < |ledger[id].unavailableUpstream|
        ensures WalkEnds(ledger, ledger[id].unavailableUpstream[i], m - 1)
      {
        WalkEndsLater(ledger, ledger[id].unavailableUpstream[i], n - 1, m - 1);
      }
    }
  }

  lemma {:induction false} FreeWalkEnds(ledger: Ledger, id: Id)
    requires CycleFree(Evidence(ledger), id)
    ensures WalkEnds(ledger, id, |Below(Evidence(ledger), id)|)
    decreases |Below(Evidence(ledger), id)|
  {
    var g := Evidence(ledger);
    if id in ledger && ledger[id].hasState && ledger[id].state == Unknown {
      ReachesSelf(g, id);
      assert id in Below(g, id);
      var ups, n := ledger[id].unavailableUpstream, |Below(g, id)|;
      forall i | 0 <= i < |ups| ensures WalkEnds(ledger, ups[i], n - 1) {
        CycleFreeNext(g, id, ups[i]);
        BelowShrinks(g, id, ups[i]);
        FreeWalkEnds(ledger, ups[i]);
        WalkEndsLater(ledger, ups[i], |Below(g, ups[i])|, n - 1);
      }
    }
  }

  /** A walk that ends passes no chain of evidence longer than its bound. */
  lemma {:induction false} EndsBoundsPaths(ledger: Ledger, p: seq<Id>, n: nat)
    requires IsPath(Evidence(ledger), p) && WalkEnds(ledger, p[0], n)
    ensures |p| <= n + 1
    decreases n
  {
    if |p| > 1 {
      assert Edge(Evidence(ledger), p[0], p[1]);
      var ups := ledger[p[0]].unavailableUpstream;
      var i :| 0 <= i < |ups| && ups[i] == p[1];
      assert WalkEnds(ledger, ups[i], n - 1);
      assert IsPath(Evidence(ledger), p[1..]) by {
        forall k | 0 <= k < |p| - 2 ensures Edge(Evidence(ledger), p[1..][k], p[1..][k + 1]) {
          assert Edge(Evidence(ledger), p[k + 1], p[k + 2]);
        }
      }
      EndsBoundsPaths(ledger, p[1..], n - 1);
    }
  }

  /** The walk from a device ends exactly when the evidence behind it holds no cycle. */
  lemma WalkEndsExactly(ledger: Ledger, id: Id)
    ensures WalkTerminates(ledger, id) <==> CycleFree(Evidence(ledger), id)
  {
    if CycleFree(Evidence(ledger), id) {
      FreeWalkEnds(ledger, id);
      var n: nat := |Below(Evidence(ledger), id)|;
      assert WalkEnds(ledger, id, n);
    } else if WalkTerminates(ledger, id) {
      var n: nat :| WalkEnds(ledger, id, n);
      var p := LongWalks(Evidence(ledger), id, n + 1);
      EndsBoundsPaths(ledger, p, n);
    }
  }

  ghost predicate EvidenceEnds(ledger: Ledger, from: seq<Id>) {
    forall u :: u in from ==> CycleFree(Evidence(ledger), u)
  }

  lemma EndsAt(ledger: Ledger, from: seq<Id>, i: nat)
    requires EvidenceEnds(ledger, from) && i < |from|
    ensures CycleFree(Evidence(ledger), from[i])
  {
  }

  /** Only a verdict of unknown walks; its walks start at the failed upstreams. */
  ghost predicate WalkSafe(ledger: Ledger, v: Verdict) {
    v.Decided? && v.state == Unknown ==> EvidenceEnds(ledger, v.unavailable)
  }

  ghost predicate WalkSafeAt(cfg: Settings, base: Ledger, order: seq<Id>, i: nat)
    requires Known(cfg, base, order) && i < |order|
  {
    var l := Evaluate(cfg, base, order[..i]).ledger;
    WalkSafe(l, VerdictAt(cfg, l, order[i]))
  }

  ghost predicate OrderEnds(cfg: Settings, base: Ledger, order: seq<Id>)
    requires Known(cfg, base, order)
  {
    forall i :: 0 <= i < |order| ==> WalkSafeAt(cfg, base, order, i)
  }

  /** Every walk that one cycle needs ends; the later ones see what the earlier devices were settled as. */
  ghost predicate BatchEnds(cfg: Settings, ledger: Ledger, outcomes: seq<PollOutcome>) {
    OrderKnown(cfg, ledger, outcomes);
    OrderEnds(cfg, Recorded(cfg, ledger, outcomes), KahnOrder(cfg.Upstreams()))
  }

  // Gauge inputs; the counts by state are spelled out.
  datatype Snapshot = Snapshot(
    healthy: nat,
    warning: nat,
    critical: nat,
    unknown: nat,
    dependencyImpacted: nat,
    pendingFailures: nat)

  function InState(ledger: Ledger, ids: set<Id>, s: State): set<Id> {
    set id | id in ids && id in ledger && ledger[id].hasState && ledger[id].state == s
  }

  /** Failing, but neither critical nor unknown yet. */
  function PendingIn(ledger: Ledger, ids: set<Id>): set<Id> {
    set id | id in ids && id in ledger && ledger[id].failureCount > 0 && !ledger[id].IsDown()
  }

  function SnapshotOf(ledger: Ledger, ids: set<Id>): Snapshot {
    Snapshot(|InState(ledger, ids, Healthy)|, |InState(ledger, ids, Warning)|, |InState(ledger, ids, Critical)|,
             |InState(ledger, ids, Unknown)|, |InState(ledger, ids, Unknown)|, |PendingIn(ledger, ids)|)
  }

  lemma CountOne(S: set<Id>, T: set<Id>, id: Id, member: bool)
    requires id !in S && T == if member then S + {id} else S
    ensures |T| == |S| + if member then 1 else 0
  {
  }

  function OneIf(b: bool): nat {
    if b then 1 else 0
  }

  /** Counting one more entry. */
  lemma SnapshotNext(ledger: Ledger, done: set<Id>, id: Id)
    requires id in ledger && id !in done
    ensures var e, s := ledger[id], SnapshotOf(ledger, done);
      var unknown := OneIf(e.hasState && e.state == Unknown);
      SnapshotOf(ledger, done + {id}) ==
        Snapshot(s.healthy + OneIf(e.hasState && e.state == Healthy),
                 s.warning + OneIf(e.hasState && e.state == Warning),
                 s.critical + OneIf(e.hasState && e.state == Critical), s.unknown + unknown,
                 s.dependencyImpacted + unknown, s.pendingFailures + OneIf(e.failureCount > 0 && !e.IsDown()))
  {
    InStateNext(ledger, done, id, Healthy);
    InStateNext(ledger, done, id, Warning);
    InStateNext(ledger, done, id, Critical);
    InStateNext(ledger, done, id, Unknown);
    PendingNext(ledger, done, id);
    hide InState, PendingIn;
  }

  lemma InStateNext(ledger: Ledger, done: set<Id>, id: Id, s: State)
    requires id in ledger && id !in done
    ensures |InState(ledger, done + {id}, s)| ==
      |InState(ledger, done, s)| + OneIf(ledger[id].hasState && ledger[id].state == s)
  {
    var e := ledger[id];
    var more := e.hasState && e.state == s;
    forall x ensures x in InState(ledger, done + {id}, s) <==> x in InState(ledger, done, s) || (x == id && more) {
    }
    hide InState;
    CountOne(InState(ledger, done, s), InState(ledger, done + {id}, s), id, more);
  }

  lemma PendingNext(ledger: Ledger, done: set<Id>, id: Id)
    requires id in ledger && id !in done
    ensures |PendingIn(ledger, done + {id})| ==
      |PendingIn(ledger, done)| + OneIf(ledger[id].failureCount > 0 && !ledger[id].IsDown())
  {
    var more := ledger[id].failureCount > 0 && !ledger[id].IsDown();
    CountOne(PendingIn(ledger, done), PendingIn(ledger, done + {id}), id, more);
  }

  class Tracker {
    var devices: Ledger

    constructor ()
      ensures devices == map[]
    {
      devices := map[];
    }

    /** Reload retention: entries of devices no longer configured are dropped, the rest kept as they are. */
    method Prune(activeIDs: seq<Id>)
      modifies this
      ensures devices.Keys == old(devices).Keys * Elems(activeIDs)
      ensures forall id :: id in devices ==> devices[id] == old(devices)[id]
    {
      devices := map id | id in devices && id in activeIDs :: devices[id];
    }

    /** Counts every entry once, in any order: devices by state, and those with failures still pending. */
    method TakeSnapshot() returns (snap: Snapshot)
      ensures snap == SnapshotOf(devices, devices.Keys)
    {
      hide SnapshotOf;
      snap := Snapshot(0, 0, 0, 0, 0, 0);
      EmptySnapshot(devices);
      ghost var done: set<Id> := {};
      var rest := devices.Keys;
      while rest != {}
        invariant rest <= devices.Keys && done == devices.Keys - rest && snap == SnapshotOf(devices, done)
        decreases rest
      {
        var id :| id in rest;
        SnapshotNext(devices, done, id);
        rest, done := rest - {id}, done + {id};
        var entry := devices[id];
        if !entry.hasState {
          if entry.failureCount > 0 {
            snap := snap.(pendingFailures := snap.pendingFailures + 1);
          }
        } else {
          match entry.state {
            case Healthy => snap := snap.(healthy := snap.healthy + 1);
            case Warning => snap := snap.(warning := snap.warning + 1);
            case Critical => snap := snap.(critical := snap.critical + 1);
            case Unknown =>
              snap := snap.(unknown := snap.unknown + 1, dependencyImpacted := snap.dependencyImpacted + 1);
          }
          if entry.failureCount > 0 && entry.state != Critical && entry.state != Unknown {
            snap := snap.(pendingFailures := snap.pendingFailures + 1);
          }
        }
      }
      assert done == devices.Keys;
    }

    method CollectRootCauses(unavailable: seq<Id>) returns (out: seq<Id>)
      requires EvidenceEnds(devices, unavailable)
      ensures out == SortSet(CriticalBehind(devices, unavailable))
    {
      var seen: set<Id> := {};
      out := [];
      hide *;
      EmptyList();
      NothingBehind(devices);
      assert unavailable[..0] == [];
      var i := 0;
      while i < |unavailable|
        invariant 0 <= i <= |unavailable|
        invariant NoDup(out) && seen == Elems(out) == CriticalBehind(devices, unavailable[..i])
      {
        BehindPrefix(devices, unavailable, i);
        EndsAt(devices, unavailable, i);
        seen, out := Walk(unavailable[i], seen, out);
        i := i + 1;
      }
      assert unavailable[..i] == unavailable;
      SortIdsIsSortSet(out);
      out := SortIds(out);
    }

    /** Critical devices are collected once; unknown ones are passed through, however often met. */
    method Walk(id: Id, seen: set<Id>, out: seq<Id>) returns (seen': set<Id>, out': seq<Id>)
      requires CycleFree(Evidence(devices), id)
      requires NoDup(out) && seen == Elems(out)
      ensures NoDup(out') && seen' == Elems(out') == Elems(out) + CriticalBehind(devices, [id])
      decreases |Below(Evidence(devices), id)|
    {
      hide CycleFree, CriticalBehind, NoDup, Below;
      seen', out' := seen, out;
      BehindOne(devices, id);
      if id !in devices || !devices[id].hasState {
        return;
      }
      match devices[id].state {
        case Critical =>
          if id !in seen {
            NoDupAppend(out, id);
            ElemsAppend(out, id);
            seen', out' := seen + {id}, out + [id];
          }
        case Unknown =>
          var ups := devices[id].unavailableUpstream;
          NothingBehind(devices);
          assert ups[..0] == [];
          var i := 0;
          while i < |ups|
            invariant 0 <= i <= |ups|
            invariant NoDup(out') && seen' == Elems(out') == Elems(out) + CriticalBehind(devices, ups[..i])
          {
            BehindPrefix(devices, ups, i);
            CycleFreeNext(Evidence(devices), id, ups[i]);
            BelowShrinks(Evidence(devices), id, ups[i]);
            seen', out' := Walk(ups[i], seen', out');
            i := i + 1;
          }
          assert ups[..i] == ups;
        case _ =>
      }
    }

    method EvaluateFailure(upstreams: seq<Id>, threshold: int) returns (v: Verdict)
      requires Sorted(upstreams) && WalkSafe(devices, FailureVerdict(devices, upstreams, threshold))
      ensures v == FailureVerdict(devices, upstreams, threshold)
    {
      if upstreams == [] {
        return DIRECT_FAILURE;
      }
      var anySuccess, anyPending := false, false;
      var unavailable: seq<Id> := [];
      var i := 0;
      while i < |upstreams|
        invariant 0 <= i <= |upstreams|
        invariant anySuccess <==> exists k :: 0 <= k < i && StatusOf(devices, threshold, upstreams[k]) == Answering
        invariant anyPending <==> exists k :: 0 <= k < i && StatusOf(devices, threshold, upstreams[k]) == Unsettled
        invariant !anySuccess && !anyPending ==> unavailable == upstreams[..i]
        invariant |unavailable| <= i && (anySuccess || anyPending || |unavailable| == i)
      {
        match StatusOf(devices, threshold, upstreams[i]) {
          case Answering => anySuccess := true;
          case Unsettled => anyPending := true;
          case Failed => unavailable := unavailable + [upstreams[i]];
        }
        i := i + 1;
      }
      if anySuccess {
        return DIRECT_FAILURE;
      }
      if anyPending || |unavailable| < |upstreams| {
        return Undecided;
      }
      assert unavailable == upstreams;
      SortedNoDup(upstreams);
      SortIdsIsSortSet(unavailable);
      SortedUnique(unavailable, SortIds(unavailable));
      var rootCauses := CollectRootCauses(SortIds(unavailable));
      v := Decided(Unknown, UpstreamUnreachable, None, SortIds(unavailable), rootCauses);
    }

    method EvaluateDevice(entry: DeviceHealth, upstreams: seq<Id>, warningC: real, threshold: int) returns (v: Verdict)
      requires Sorted(upstreams) && WalkSafe(devices, VerdictFor(devices, entry, upstreams, warningC, threshold))
      ensures v == VerdictFor(devices, entry, upstreams, warningC, threshold)
    {
      if !entry.hasOutcome {
        return Undecided;
      }
      if entry.lastOutcomeSuccess {
        return SuccessVerdict(entry, warningC);
      }
      if entry.failureCount < threshold {
        return Undecided;
      }
      v := EvaluateFailure(upstreams, threshold);
    }

    /** Commits a completed cycle, provided that every walk it needs ends. */
    method ApplyBatch(cfg: Settings, outcomes: seq<PollOutcome>) returns (events: seq<Event>)
      requires BatchEnds(cfg, devices, outcomes)
      modifies this
      ensures Evaluated(devices, events) == Batch(cfg, old(devices), outcomes)
    {
      var index := cfg.DeviceIndex();
      devices := WithEntries(devices, index.Keys);
      CommitOutcomes(outcomes);
      OrderKnown(cfg, old(devices), outcomes);
      var order := TopologicalOrder(index);
      events := EvaluateInOrder(cfg, order);
      events := SortBy(events, DeviceOf);
    }

    method EvaluateInOrder(cfg: Settings, order: seq<Id>) returns (events: seq<Event>)
      requires Known(cfg, devices, order) && OrderEnds(cfg, devices, order)
      modifies this
      ensures Evaluated(devices, events) == Evaluate(cfg, old(devices), order)
    {
      events := [];
      ghost var base := devices;
      assert Evaluate(cfg, base, order[..0]) == Evaluated(devices, events);
      hide *;
      var i := 0;
      while i < |order|
        invariant 0 <= i <= |order|
        invariant Evaluated(devices, events) == Evaluate(cfg, base, order[..i])
      {
        EvaluateNext(cfg, base, order, i);
        var more := SettleDevice(cfg, order[i]);
        events := events + more;
        i := i + 1;
      }
      assert order[..i] == order;
    }

    method SettleDevice(cfg: Settings, id: Id) returns (events: seq<Event>)
      requires id in cfg.DeviceIndex() && id in devices && WalkSafe(devices, VerdictAt(cfg, devices, id))
      modifies this
      ensures devices == Settle(cfg, Evaluated(old(devices), []), id).ledger
      ensures events == EventsAfter(cfg, id, old(devices)[id], VerdictAt(cfg, old(devices), id))
    {
      hide WalkSafe, VerdictFor, EventFor, Committed, Evidence, Emits;
      var threshold := cfg.Threshold();
      var device, entry := cfg.DeviceIndex()[id], devices[id];
      var warningC := WarningFor(cfg, device);
      var upstreams := NormalizeIDs(device.Upstreams());
      var v := EvaluateDevice(entry, upstreams, warningC, threshold);
      events := [];
      if v.Decided? {
        var alertsEnabled := AlertsFor(device);
        devices := devices[id := Committed(entry, v, upstreams, warningC, alertsEnabled)];
        if Emits(entry, v, alertsEnabled) {
          events := [EventFor(id, entry, v, upstreams, warningC, alertsEnabled, threshold, cfg.policyRevision)];
        }
      } else {
        assert devices[id := entry] == devices;
      }
    }

    method CommitOutcomes(outcomes: seq<PollOutcome>)
      modifies this
      ensures devices == RecordAll(old(devices), outcomes)
    {
      var i := 0;
      while i < |outcomes|
        invariant 0 <= i <= |outcomes|
        invariant devices == RecordAll(old(devices), outcomes[..i])
      {
        var o := outcomes[i];
        assert outcomes[..i + 1][..i] == outcomes[..i];
        if o.deviceID in devices {
          devices := devices[o.deviceID := ApplyOutcome(devices[o.deviceID], o)];
        }
        i := i + 1;
      }
      assert outcomes[..i] == outcomes;
    }
  }

  /** The configured dependencies together with the evidence a ledger already carries. */
  ghost function Combined(cfg: Settings, ledger: Ledger): Graph {
    map id | id in ledger.Keys + cfg.DeviceIndex().Keys ::
      (if id in cfg.DeviceIndex() then Normalized(cfg.DeviceIndex()[id].Upstreams()) else [])
      + (if id in ledger && ledger[id].IsDown() && ledger[id].state == Unknown
         then ledger[id].unavailableUpstream else [])
  }

  ghost predicate SameEvidence(a: DeviceHealth, b: DeviceHealth) {
    a.hasState == b.hasState && a.state == b.state && a.unavailableUpstream == b.unavailableUpstream
  }

  lemma {:induction false} RecordAllKeepsEvidence(ledger: Ledger, outcomes: seq<PollOutcome>, id: Id)
    requires id in ledger
    ensures SameEvidence(RecordAll(ledger, outcomes)[id], ledger[id])
  {
    if outcomes != [] {
      RecordAllKeepsEvidence(ledger, outcomes[..|outcomes| - 1], id);
    }
  }

  lemma CombinedSame(cfg: Settings, l: Ledger, m: Ledger)
    requires m.Keys == l.Keys + cfg.DeviceIndex().Keys
    requires forall id :: id in m ==> if id in l then SameEvidence(m[id], l[id]) else !m[id].hasState
    ensures Combined(cfg, m) == Combined(cfg, l)
  {
    hide Normalized, Index;
  }

  lemma RecordedKeepsEvidence(cfg: Settings, ledger: Ledger, outcomes: seq<PollOutcome>)
    ensures Combined(cfg, Recorded(cfg, ledger, outcomes)) == Combined(cfg, ledger)
  {
    hide Index, Normalized, Combined, RecordAll;
    var start := WithEntries(ledger, cfg.DeviceIndex().Keys);
    forall id | id in start
      ensures if id in ledger then SameEvidence(RecordAll(start, outcomes)[id], ledger[id])
        else !RecordAll(start, outcomes)[id].hasState
    {
      RecordAllKeepsEvidence(start, outcomes, id);
    }
    CombinedSame(cfg, ledger, Recorded(cfg, ledger, outcomes));
  }

  /** The failed upstreams noted for each unknown device are edges of `g`. */
  ghost predicate EvidenceWithin(g: Graph, ledger: Ledger) {
    forall a :: a in ledger && ledger[a].IsDown() && ledger[a].state == Unknown ==>
      a in g && Elems(ledger[a].unavailableUpstream) <= Elems(g[a])
  }

  lemma WithinAcyclic(g: Graph, ledger: Ledger)
    requires EvidenceWithin(g, ledger) && ledger.Keys <= g.Keys && !Cyclic(g)
    ensures !Cyclic(Evidence(ledger))
  {
    forall a, b | Edge(Evidence(ledger), a, b) ensures Edge(g, a, b) {
      assert b in Elems(ledger[a].unavailableUpstream);
      assert b in Elems(g[a]);
    }
    SubgraphAcyclic(g, Evidence(ledger));
  }

  lemma SettleEvidence(cfg: Settings, g: Graph, s: Evaluated, id: Id)
    requires id in cfg.DeviceIndex() && id in s.ledger && EvidenceWithin(g, s.ledger)
    requires id in g && Elems(Normalized(cfg.DeviceIndex()[id].Upstreams())) <= Elems(g[id])
    ensures EvidenceWithin(g, Settle(cfg, s, id).ledger)
  {
  }

  lemma {:induction false} EvaluateEvidence(cfg: Settings, g: Graph, ledger: Ledger, order: seq<Id>)
    requires Known(cfg, ledger, order)
    requires EvidenceWithin(g, ledger)
    requires forall id :: id in cfg.DeviceIndex() ==>
      id in g && Elems(Normalized(cfg.DeviceIndex()[id].Upstreams())) <= Elems(g[id])
    ensures EvidenceWithin(g, Evaluate(cfg, ledger, order).ledger)
  {
    if order != [] {
      var n := |order| - 1;
      EvaluateEvidence(cfg, g, ledger, order[..n]);
      assert order[n] in order;
      SettleEvidence(cfg, g, Evaluate(cfg, ledger, order[..n]), order[n]);
    }
  }

  lemma CombinedCovers(cfg: Settings, ledger: Ledger)
    ensures EvidenceWithin(Combined(cfg, ledger), ledger)
    ensures forall id :: id in cfg.DeviceIndex() ==>
      id in Combined(cfg, ledger) &&
      Elems(Normalized(cfg.DeviceIndex()[id].Upstreams())) <= Elems(Combined(cfg, ledger)[id])
  {
  }

  lemma EvaluateNext(cfg: Settings, ledger: Ledger, order: seq<Id>, i: nat)
    requires Known(cfg, ledger, order) && OrderEnds(cfg, ledger, order) && i < |order|
    ensures Known(cfg, ledger, order[..i]) && Known(cfg, ledger, order[..i + 1])
    ensures order[i] in cfg.DeviceIndex() && order[i] in ledger
    ensures var r := Evaluate(cfg, ledger, order[..i]);
      && WalkSafe(r.ledger, VerdictAt(cfg, r.ledger, order[i]))
      && Evaluate(cfg, ledger, order[..i + 1]) ==
         Evaluated(Settle(cfg, Evaluated(r.ledger, []), order[i]).ledger,
                   r.events + EventsAfter(cfg, order[i], r.ledger[order[i]], VerdictAt(cfg, r.ledger, order[i])))
  {
    assert order[..i + 1][..i] == order[..i];
    assert WalkSafeAt(cfg, ledger, order, i);
    hide VerdictAt, WalkSafe, EventsAfter, EntryAfter;
  }

  /** Mid-cycle evidence stays within the dependencies combined with the earlier evidence. */
  lemma EvidenceAcyclic(cfg: Settings, ledger: Ledger, order: seq<Id>)
    requires Known(cfg, ledger, order)
    requires cfg.DeviceIndex().Keys <= ledger.Keys && !Cyclic(Combined(cfg, ledger))
    ensures !Cyclic(Evidence(Evaluate(cfg, ledger, order).ledger))
  {
    CombinedCovers(cfg, ledger);
    EvaluateEvidence(cfg, Combined(cfg, ledger), ledger, order);
    WithinAcyclic(Combined(cfg, ledger), Evaluate(cfg, ledger, order).ledger);
  }

  lemma AcyclicEnds(ledger: Ledger, from: seq<Id>)
    requires !Cyclic(Evidence(ledger))
    ensures EvidenceEnds(ledger, from)
  {
    forall u | u in from ensures CycleFree(Evidence(ledger), u) {
      AcyclicIsFree(Evidence(ledger), u);
    }
  }

  /** Every cycle ends whose dependencies and the evidence kept from earlier cycles hold no cycle together. */
  lemma CombinedEnds(cfg: Settings, ledger: Ledger, outcomes: seq<PollOutcome>)
    requires !Cyclic(Combined(cfg, ledger))
    ensures BatchEnds(cfg, ledger, outcomes)
  {
    hide Cyclic, Combined, Evaluate, VerdictAt, EvidenceEnds, Evidence, KahnOrder;
    OrderKnown(cfg, ledger, outcomes);
    RecordedKeepsEvidence(cfg, ledger, outcomes);
    var base, order := Recorded(cfg, ledger, outcomes), KahnOrder(cfg.Upstreams());
    forall i | 0 <= i < |order| ensures WalkSafeAt(cfg, base, order, i) {
      EvidenceAcyclic(cfg, base, order[..i]);
      var l := Evaluate(cfg, base, order[..i]).ledger;
      var v := VerdictAt(cfg, l, order[i]);
      if v.Decided? { AcyclicEnds(l, v.unavailable); }
    }
  }

  lemma EmptySnapshot(ledger: Ledger)
    ensures SnapshotOf(ledger, {}) == Snapshot(0, 0, 0, 0, 0, 0)
  {
  }

  lemma NothingBehind(ledger: Ledger)
    ensures CriticalBehind(ledger, []) == {}
  {
  }
}
