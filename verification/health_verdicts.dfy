/** What state each device has after a cycle, told from the outcomes in the finished ledger alone. */
module HealthVerdicts {
  import opened Ids
  import opened Graphs
  import opened Config
  import opened EvaluationOrder
  import opened Health
  import opened HealthTracker
  import opened HealthRuns
  import opened HealthConfluence

  /** The device's last poll succeeded. */
  predicate Answers(l: Ledger, u: Id) {
    u in l && l[u].hasOutcome && l[u].lastOutcomeSuccess
  }

  /** The device failed often enough and is committed as failed. */
  predicate HasFailed(l: Ledger, threshold: int, u: Id) {
    u in l && l[u].hasOutcome && !l[u].lastOutcomeSuccess && l[u].failureCount >= threshold && l[u].IsDown()
  }

  /** The state a device must have after a cycle; `before` is its entry before the cycle. */
  ghost predicate StateFits(cfg: Settings, l: Ledger, before: DeviceHealth, id: Id)
    requires id in cfg.DeviceIndex() && id in l
  {
    var e, ups, own := l[id], Ups(cfg, id), cfg.DeviceIndex()[id].temperatureWarningC;
    var t := if cfg.failureThreshold < 1 then 1 else cfg.failureThreshold;
    var warningC := if own.Some? then own.value else cfg.temperatureWarningC;
    if e.hasOutcome && e.lastOutcomeSuccess then
      e.hasState && e.state == if e.temperatureC.Some? && e.temperatureC.value >= warningC then Warning else Healthy
    else if e.hasOutcome && e.failureCount >= t && (ups == [] || exists u :: u in ups && Answers(l, u)) then
      e.hasState && e.state == Critical && e.unavailableUpstream == [] && e.rootCauses == []
    else if e.hasOutcome && e.failureCount >= t && forall u :: u in ups ==> HasFailed(l, t, u) then
      e.hasState && e.state == Unknown && e.unavailableUpstream == ups
    else
      e.hasState == before.hasState && e.state == before.state
  }

  lemma StatusCases(l: Ledger, t: int, u: Id)
    ensures StatusOf(l, t, u) == Answering <==> Answers(l, u)
    ensures StatusOf(l, t, u) == Failed <==> HasFailed(l, t, u)
  {
  }

  lemma FailureCases(l: Ledger, ups: seq<Id>, t: int)
    ensures var v := FailureVerdict(l, ups, t);
      if ups == [] || exists u :: u in ups && Answers(l, u) then v == DIRECT_FAILURE
      else if forall u :: u in ups ==> HasFailed(l, t, u) then v.Decided? && v.state == Unknown && v.unavailable == ups
      else v.Undecided?
  {
    hide StatusOf, Answers, HasFailed, CriticalBehind;
    forall u
      ensures StatusOf(l, t, u) == Answering <==> Answers(l, u)
      ensures StatusOf(l, t, u) == Failed <==> HasFailed(l, t, u)
    {
      StatusCases(l, t, u);
    }
  }

  /** The verdict on an entry, told from its outcomes. */
  lemma VerdictCases(cfg: Settings, l: Ledger, e: DeviceHealth, id: Id)
    requires id in cfg.DeviceIndex()
    ensures var v, ups, t := VerdictOf(cfg, l, e, id), Ups(cfg, id), cfg.Threshold();
      var warningC := WarningFor(cfg, cfg.DeviceIndex()[id]);
      if e.hasOutcome && e.lastOutcomeSuccess then
        v.Decided? && v.state == if e.temperatureC.Some? && e.temperatureC.value >= warningC then Warning else Healthy
      else if e.hasOutcome && e.failureCount >= t && (ups == [] || exists u :: u in ups && Answers(l, u)) then
        v == DIRECT_FAILURE
      else if e.hasOutcome && e.failureCount >= t && forall u :: u in ups ==> HasFailed(l, t, u) then
        v.Decided? && v.state == Unknown && v.unavailable == ups
      else v.Undecided?
  {
    FailureCases(l, Ups(cfg, id), cfg.Threshold());
    hide Normalized, Index, FailureVerdict, HasFailed, Answers;
  }

  lemma SolvedFits(cfg: Settings, base: Ledger, r: Ledger, id: Id)
    requires Solves(cfg, base, r) && id in r
    ensures StateFits(cfg, r, base[id], id)
  {
    assert r[id] == EntryAfter(cfg, id, base[id], VerdictOf(cfg, r, base[id], id));
    VerdictCases(cfg, r, base[id], id);
    hide Normalized, Index, VerdictOf, HasFailed, Answers, Solves, WarningFor;
  }

  lemma CycleFits(cfg: Settings, ledger: Ledger, outcomes: seq<PollOutcome>, id: Id)
    requires !Cyclic(cfg.Upstreams()) && ledger.Keys <= cfg.DeviceIndex().Keys && NotesOwnUpstreams(cfg, ledger)
    requires id in cfg.DeviceIndex()
    ensures id in Batch(cfg, ledger, outcomes).ledger
    ensures StateFits(cfg, Batch(cfg, ledger, outcomes).ledger, EntryBefore(ledger, id), id)
  {
    hide *;
    var base, order := Recorded(cfg, ledger, outcomes), KahnOrder(cfg.Upstreams());
    KahnOrderCorrect(cfg.Upstreams());
    TopologicalWhen(cfg.Upstreams(), order);
    RecordedNotes(cfg, ledger, outcomes);
    FullyEvaluated(cfg, base, order);
    BatchLedger(cfg, ledger, outcomes);
    var r := Evaluate(cfg, base, order).ledger;
    assert id in r;
    SolvedFits(cfg, base, r, id);
    EntryRecordedBefore(cfg, ledger, outcomes, id);
    SameBefore(cfg, r, base[id], EntryBefore(ledger, id), id);
  }

  function EntryBefore(ledger: Ledger, id: Id): DeviceHealth {
    if id in ledger then ledger[id] else Unobserved()
  }

  lemma TopologicalWhen(g: Graph, order: seq<Id>)
    requires UpstreamFirst(g, order) && Elems(order) == g.Keys
    ensures IsTopological(g, order)
  {
  }

  lemma BatchLedger(cfg: Settings, ledger: Ledger, outcomes: seq<PollOutcome>)
    ensures Known(cfg, Recorded(cfg, ledger, outcomes), KahnOrder(cfg.Upstreams()))
    ensures Batch(cfg, ledger, outcomes).ledger ==
      Evaluate(cfg, Recorded(cfg, ledger, outcomes), KahnOrder(cfg.Upstreams())).ledger
    ensures Recorded(cfg, ledger, outcomes).Keys == ledger.Keys + cfg.DeviceIndex().Keys
  {
    OrderKnown(cfg, ledger, outcomes);
    hide Evaluate, KahnOrder, Index;
  }

  lemma EntryRecordedBefore(cfg: Settings, ledger: Ledger, outcomes: seq<PollOutcome>, id: Id)
    requires id in cfg.DeviceIndex()
    ensures id in Recorded(cfg, ledger, outcomes)
    ensures SameEvidence(Recorded(cfg, ledger, outcomes)[id], EntryBefore(ledger, id))
  {
    hide Index, RecordAll;
    RecordAllKeepsEvidence(WithEntries(ledger, cfg.DeviceIndex().Keys), outcomes, id);
  }

  lemma SameBefore(cfg: Settings, l: Ledger, a: DeviceHealth, b: DeviceHealth, id: Id)
    requires id in cfg.DeviceIndex() && id in l && StateFits(cfg, l, a, id) && SameEvidence(a, b)
    ensures StateFits(cfg, l, b, id)
  {
    hide Normalized, Index, HasFailed, Answers;
  }

  /** Over every run under one acyclic configuration: after each cycle a device that answered is warning or
      healthy by its temperature, one past its threshold is critical when it has no upstreams or one of them
      answered and unknown when all of them have failed, and any other keeps its state. */
  lemma StateIsDetermined(cfg: Settings, batches: seq<seq<PollOutcome>>, id: Id)
    requires !Cyclic(cfg.Upstreams()) && batches != [] && id in cfg.DeviceIndex()
    requires forall b :: b in batches ==> DistinctDevices(b)
    ensures id in RunLedger(cfg, batches)
    ensures StateFits(cfg, RunLedger(cfg, batches), EntryBefore(RunLedger(cfg, batches[..|batches| - 1]), id), id)
  {
    var n := |batches| - 1;
    RunConsistent(cfg, batches[..n]);
    ConsistentNotes(cfg, RunLedger(cfg, batches[..n]));
    hide StateFits, Batch, Cyclic;
    CycleFits(cfg, RunLedger(cfg, batches[..n]), batches[n], id);
  }
}
