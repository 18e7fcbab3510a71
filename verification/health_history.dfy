/** The ledger read back: what its numbers and root causes say about the outcomes behind them. */
module HealthHistory {
  import opened Ids
  import opened Graphs
  import opened Config
  import opened EvaluationOrder
  import opened Health
  import opened HealthTracker
  import opened HealthRuns

  /** A walk along configured upstreams that leaves only unknown devices behind it. */
  ghost predicate UnknownChain(cfg: Settings, ledger: Ledger, p: seq<Id>) {
    IsPath(cfg.Upstreams(), p) && forall i :: 0 <= i < |p| - 1 ==> p[i] in ledger && IsUnknown(ledger[p[i]])
  }

  ghost predicate ChainTo(cfg: Settings, ledger: Ledger, d: Id, c: Id) {
    exists p :: UnknownChain(cfg, ledger, p) && p[0] == d && p[|p| - 1] == c
  }

  /** The reference: critical devices reachable from `d` along configured upstreams through unknown ones. */
  ghost function RootCauseSet(cfg: Settings, ledger: Ledger, d: Id): set<Id> {
    set c | c in ledger.Keys && IsCritical(ledger, c) && ChainTo(cfg, ledger, d, c)
  }

  lemma ChainEdge(cfg: Settings, ledger: Ledger, a: Id, b: Id)
    requires Consistent(cfg, ledger) && a in ledger && IsUnknown(ledger[a])
    ensures Edge(cfg.Upstreams(), a, b) <==> Edge(Evidence(ledger), a, b)
    ensures b in Ups(cfg, a) ==> Edge(Evidence(ledger), a, b)
  {
    hide Normalized, CriticalBehind, CountsOk, Index;
    assert EntryOk(cfg, ledger, a);
    if b in Ups(cfg, a) {
      assert StatusOf(ledger, cfg.Threshold(), b) == Failed;
    }
  }

  lemma ChainsAreEvidence(cfg: Settings, ledger: Ledger, p: seq<Id>)
    requires Consistent(cfg, ledger)
    ensures UnknownChain(cfg, ledger, p) <==> IsPath(Evidence(ledger), p)
  {
    if UnknownChain(cfg, ledger, p) {
      forall i | 0 <= i < |p| - 1 ensures Edge(Evidence(ledger), p[i], p[i + 1]) {
        ChainEdge(cfg, ledger, p[i], p[i + 1]);
      }
    }
    if IsPath(Evidence(ledger), p) {
      forall i | 0 <= i < |p| - 1
        ensures Edge(cfg.Upstreams(), p[i], p[i + 1]) && p[i] in ledger && IsUnknown(ledger[p[i]])
      {
        assert Edge(Evidence(ledger), p[i], p[i + 1]);
        ChainEdge(cfg, ledger, p[i], p[i + 1]);
      }
    }
  }

  lemma ChainUnfold(cfg: Settings, ledger: Ledger, d: Id, c: Id)
    requires Consistent(cfg, ledger) && d in ledger && IsUnknown(ledger[d]) && IsCritical(ledger, c)
    ensures ChainTo(cfg, ledger, d, c) <==> ReachedFrom(ledger, Ups(cfg, d), c)
  {
    var g := Evidence(ledger);
    if ChainTo(cfg, ledger, d, c) {
      var p :| UnknownChain(cfg, ledger, p) && p[0] == d && p[|p| - 1] == c;
      ChainsAreEvidence(cfg, ledger, p);
      assert Reaches(g, d, c);
    }
    ReachesUnfold(g, d, c);
    assert EntryOk(cfg, ledger, d);
    if ReachedFrom(ledger, Ups(cfg, d), c) {
      var u :| u in Ups(cfg, d) && Reaches(g, u, c);
      ChainEdge(cfg, ledger, d, u);
      var p :| IsPath(g, p) && p[0] == d && p[|p| - 1] == c;
      ChainsAreEvidence(cfg, ledger, p);
    }
  }

  /** What a consistent ledger says of an unknown device. */
  ghost predicate Explained(cfg: Settings, l: Ledger, d: Id) {
    && d in l && d in cfg.DeviceIndex() && Ups(cfg, d) != [] && l[d].unavailableUpstream == Ups(cfg, d)
    && (forall u :: u in Ups(cfg, d) ==>
          && u in l && l[u].hasOutcome && !l[u].lastOutcomeSuccess
          && l[u].failureCount >= cfg.Threshold() && l[u].IsDown())
    && l[d].rootCauses == SortSet(RootCauseSet(cfg, l, d))
    && l[d].rootCauses != []
  }

  lemma CausesAreChains(cfg: Settings, l: Ledger, d: Id)
    requires Consistent(cfg, l) && d in l && IsUnknown(l[d])
    ensures d in cfg.DeviceIndex() && RootCauseSet(cfg, l, d) == CriticalBehind(l, Ups(cfg, d))
  {
    hide Consistent, ChainTo, Ups, Normalized, ReachedFrom, Index;
    assert d in cfg.DeviceIndex() by { KnownInLedger(cfg, l, d); }
    forall c ensures c in RootCauseSet(cfg, l, d) <==> c in CriticalBehind(l, Ups(cfg, d)) {
      if IsCritical(l, c) { ChainUnfold(cfg, l, d, c); }
    }
  }

  lemma KnownInLedger(cfg: Settings, l: Ledger, d: Id)
    requires Consistent(cfg, l) && d in l
    ensures d in cfg.DeviceIndex() && EntryOk(cfg, l, d)
  {
    hide EntryOk, Index;
  }

  lemma ConsistentExplains(cfg: Settings, l: Ledger, d: Id)
    requires Consistent(cfg, l) && d in l && IsUnknown(l[d])
    ensures Explained(cfg, l, d)
  {
    KnownInLedger(cfg, l, d);
    CausesAreChains(cfg, l, d);
    hide Consistent, RootCauseSet, CriticalBehind, Normalized, Index, CountsOk;
    forall u | u in Ups(cfg, d)
      ensures u in l && l[u].hasOutcome && !l[u].lastOutcomeSuccess
      ensures l[u].failureCount >= cfg.Threshold() && l[u].IsDown()
    {
      assert StatusOf(l, cfg.Threshold(), u) == Failed;
    }
    var c :| c in CriticalBehind(l, Ups(cfg, d));
    assert c in Elems(l[d].rootCauses);
  }

  /** After every run of cycles under one acyclic configuration, each unknown device has only failed
      upstreams, and its root causes are exactly the critical devices behind it, sorted, at least one. */
  lemma RootCausesExact(cfg: Settings, batches: seq<seq<PollOutcome>>, d: Id)
    requires !Cyclic(cfg.Upstreams())
    requires forall b :: b in batches ==> DistinctDevices(b)
    requires d in RunLedger(cfg, batches) && IsUnknown(RunLedger(cfg, batches)[d])
    ensures Explained(cfg, RunLedger(cfg, batches), d)
  {
    hide RunLedger, Cyclic, Explained;
    RunConsistent(cfg, batches);
    ConsistentExplains(cfg, RunLedger(cfg, batches), d);
  }

  /** Along such runs the recursive walk always terminates: the next cycle's precondition holds. */
  lemma RunWalkTerminates(cfg: Settings, batches: seq<seq<PollOutcome>>, next: seq<PollOutcome>)
    requires !Cyclic(cfg.Upstreams())
    requires forall b :: b in batches ==> DistinctDevices(b)
    ensures BatchEnds(cfg, RunLedger(cfg, batches), next)
  {
    var l := RunLedger(cfg, batches);
    RunConsistent(cfg, batches);
    forall a, b | Edge(Combined(cfg, l), a, b) ensures Edge(cfg.Upstreams(), a, b) {
      if a in l { assert EntryOk(cfg, l, a); }
    }
    SubgraphAcyclic(cfg.Upstreams(), Combined(cfg, l));
    CombinedEnds(cfg, l, next);
  }

  /** The successes and failures of one device, oldest first, over a run. */
  function Verdicts(outcomes: seq<PollOutcome>, id: Id): seq<bool> {
    if outcomes == [] then []
    else
      var n := |outcomes| - 1;
      Verdicts(outcomes[..n], id) + if outcomes[n].deviceID == id then [outcomes[n].success] else []
  }

  function History(batches: seq<seq<PollOutcome>>, id: Id): seq<bool> {
    if batches == [] then []
    else
      var n := |batches| - 1;
      History(batches[..n], id) + Verdicts(batches[n], id)
  }

  function TrailingFailures(h: seq<bool>): nat {
    if h == [] || h[|h| - 1] then 0 else 1 + TrailingFailures(h[..|h| - 1])
  }

  /** An entry that has seen exactly the outcomes in `h`. */
  predicate Remembers(e: DeviceHealth, h: seq<bool>) {
    && e.failureCount == TrailingFailures(h)
    && (e.hasOutcome <==> h != [])
    && (h != [] ==> e.lastOutcomeSuccess == h[|h| - 1])
  }

  lemma RememberOne(e: DeviceHealth, h: seq<bool>, o: PollOutcome)
    requires Remembers(e, h)
    ensures Remembers(ApplyOutcome(e, o), h + [o.success])
  {
    assert (h + [o.success])[..|h|] == h;
  }

  lemma {:induction false} RecordRemembers(ledger: Ledger, outcomes: seq<PollOutcome>, id: Id, h: seq<bool>)
    requires id in ledger && Remembers(ledger[id], h)
    ensures Remembers(RecordAll(ledger, outcomes)[id], h + Verdicts(outcomes, id))
  {
    if outcomes == [] {
      assert h + [] == h;
    } else {
      var n := |outcomes| - 1;
      RecordRemembers(ledger, outcomes[..n], id, h);
      hide Remembers, TrailingFailures, ApplyOutcome;
      var before := h + Verdicts(outcomes[..n], id);
      if outcomes[n].deviceID == id {
        var after := before + [outcomes[n].success];
        assert after == h + Verdicts(outcomes, id);
        RememberOne(RecordAll(ledger, outcomes[..n])[id], before, outcomes[n]);
      } else {
        assert h + Verdicts(outcomes, id) == before;
      }
    }
  }

  lemma {:induction false} EvaluateKeepsOutcomes(cfg: Settings, base: Ledger, order: seq<Id>, id: Id)
    requires Known(cfg, base, order) && id in base
    ensures SameOutcomes(Evaluate(cfg, base, order).ledger[id], base[id])
  {
    if order != [] {
      EvaluateKeepsOutcomes(cfg, base, order[..|order| - 1], id);
    }
  }

  lemma BatchRemembers(cfg: Settings, ledger: Ledger, outcomes: seq<PollOutcome>, id: Id, h: seq<bool>)
    requires id in cfg.DeviceIndex() && (if id in ledger then Remembers(ledger[id], h) else h == [])
    ensures id in Batch(cfg, ledger, outcomes).ledger
    ensures Remembers(Batch(cfg, ledger, outcomes).ledger[id], h + Verdicts(outcomes, id))
  {
    OrderKnown(cfg, ledger, outcomes);
    RecordRemembers(WithEntries(ledger, cfg.DeviceIndex().Keys), outcomes, id, h);
    EvaluateKeepsOutcomes(cfg, Recorded(cfg, ledger, outcomes), KahnOrder(cfg.Upstreams()), id);
  }

  /** Over every run, with any number of outcomes per device and cycle: the failure count is the
      length of the trailing run of failures. */
  lemma {:induction false} FailureCountIsTrailingRun(cfg: Settings, batches: seq<seq<PollOutcome>>, id: Id)
    requires id in cfg.DeviceIndex() && batches != []
    ensures id in RunLedger(cfg, batches)
    ensures Remembers(RunLedger(cfg, batches)[id], History(batches, id))
  {
    var n := |batches| - 1;
    if n > 0 {
      FailureCountIsTrailingRun(cfg, batches[..n], id);
    } else {
      assert batches[..n] == [];
    }
    BatchRemembers(cfg, RunLedger(cfg, batches[..n]), batches[n], id, History(batches[..n], id));
  }

  /** The states over every run: failing states need a full run of failures, a success clears them,
      and the committed reason is determined by the state. */
  lemma StatesFollowOutcomes(cfg: Settings, batches: seq<seq<PollOutcome>>, id: Id)
    requires !Cyclic(cfg.Upstreams()) && id in RunLedger(cfg, batches)
    requires forall b :: b in batches ==> DistinctDevices(b)
    ensures var e, h := RunLedger(cfg, batches)[id], History(batches, id);
      && (e.IsDown() ==> TrailingFailures(h) >= cfg.Threshold())
      && (h != [] && h[|h| - 1] ==> e.hasState && (e.state == Healthy || e.state == Warning))
      && (e.hasState ==> h != [] && e.reason == ReasonOf(e.state))
  {
    RunConsistent(cfg, batches);
    assert EntryOk(cfg, RunLedger(cfg, batches), id);
    FailureCountIsTrailingRun(cfg, batches, id);
  }
}
