/** What a device's outcomes and its own settings make of its entry and its events, field by field, over every run
    of cycles under changing settings and of prunes. */
module HealthOutcomes {
  import opened Ids
  import opened Config
  import opened EvaluationOrder
  import opened Health
  import opened HealthRuns
  import opened HealthConfluence
  import opened HealthStream
  import opened HealthVerdicts

  // ---- What the tracker heard ----

  /** The outcomes of one device, oldest first. */
  function Of(outcomes: seq<PollOutcome>, id: Id): seq<PollOutcome> {
    if outcomes == [] then []
    else
      var n := |outcomes| - 1;
      Of(outcomes[..n], id) + if outcomes[n].deviceID == id then [outcomes[n]] else []
  }

  /** Listed by some cycle's inventory and kept by every prune since. */
  ghost predicate Watched(steps: seq<TrackerStep>, id: Id) {
    && steps != []
    && var before := Watched(steps[..|steps| - 1], id);
       match steps[|steps| - 1]
       case Cycle(cfg, _) => before || exists d :: d in cfg.devices && d.id == id
       case Retain(active) => before && id in active
  }

  /** The outcomes that reached the device's present entry; a prune forgets them. */
  ghost function Heard(steps: seq<TrackerStep>, id: Id): seq<PollOutcome> {
    if steps == [] || !Watched(steps, id) then []
    else
      var before := Heard(steps[..|steps| - 1], id);
      match steps[|steps| - 1]
      case Cycle(_, outcomes) => before + Of(outcomes, id)
      case Retain(_) => before
  }

  function Streak(h: seq<PollOutcome>): nat {
    if h == [] || h[|h| - 1].success then 0 else 1 + Streak(h[..|h| - 1])
  }

  function LastSuccess(h: seq<PollOutcome>): Time {
    if h == [] then 0
    else if h[|h| - 1].success then h[|h| - 1].observedAt
    else LastSuccess(h[..|h| - 1])
  }

  /** An entry that has heard exactly `h`. */
  predicate Knows(e: DeviceHealth, h: seq<PollOutcome>) {
    && e.failureCount == Streak(h) && e.lastSuccessAt == LastSuccess(h)
    && (h == [] ==> !e.hasOutcome && !e.hasState && e.lastObservedAt == 0)
    && (h != [] ==>
          var o := h[|h| - 1];
          && e.hasOutcome && e.lastOutcomeSuccess == o.success && e.lastObservedAt == o.observedAt
          && (o.success ==> e.temperatureC == o.temperatureC))
  }

  lemma KnowsOne(e: DeviceHealth, h: seq<PollOutcome>, o: PollOutcome)
    requires Knows(e, h)
    ensures Knows(ApplyOutcome(e, o), h + [o])
  {
    assert (h + [o])[..|h|] == h;
  }

  lemma {:induction false} RecordKnows(ledger: Ledger, outcomes: seq<PollOutcome>, id: Id, h: seq<PollOutcome>)
    requires id in ledger && Knows(ledger[id], h)
    ensures Knows(RecordAll(ledger, outcomes)[id], h + Of(outcomes, id))
  {
    if outcomes == [] {
      assert h + [] == h;
    } else {
      var n := |outcomes| - 1;
      RecordKnows(ledger, outcomes[..n], id, h);
      hide Knows, ApplyOutcome;
      var before := h + Of(outcomes[..n], id);
      if outcomes[n].deviceID == id {
        assert before + [outcomes[n]] == h + Of(outcomes, id);
        KnowsOne(RecordAll(ledger, outcomes[..n])[id], before, outcomes[n]);
      } else {
        assert h + Of(outcomes, id) == before;
      }
    }
  }

  lemma {:induction false} EvaluateKeepsHeard(cfg: Settings, base: Ledger, order: seq<Id>, id: Id, h: seq<PollOutcome>)
    requires Known(cfg, base, order) && id in base && Knows(base[id], h)
    ensures Knows(Evaluate(cfg, base, order).ledger[id], h)
  {
    if order != [] {
      var n := |order| - 1;
      EvaluateKeepsHeard(cfg, base, order[..n], id, h);
      hide Normalized, Index, FailureVerdict, Streak, LastSuccess;
    }
  }

  lemma CycleKnows(cfg: Settings, ledger: Ledger, outcomes: seq<PollOutcome>, id: Id, h: seq<PollOutcome>)
    requires if id in ledger then Knows(ledger[id], h) else h == []
    requires id in ledger || id in cfg.DeviceIndex()
    ensures id in Batch(cfg, ledger, outcomes).ledger
    ensures Knows(Batch(cfg, ledger, outcomes).ledger[id], h + Of(outcomes, id))
  {
    hide Index, Evaluate, RecordAll, KahnOrder, Of;
    OrderKnown(cfg, ledger, outcomes);
    var start := WithEntries(ledger, cfg.DeviceIndex().Keys);
    assert Knows(start[id], h);
    RecordKnows(start, outcomes, id, h);
    EvaluateKeepsHeard(cfg, Recorded(cfg, ledger, outcomes), KahnOrder(cfg.Upstreams()), id, h + Of(outcomes, id));
  }

  lemma CycleKeys(cfg: Settings, ledger: Ledger, outcomes: seq<PollOutcome>)
    ensures Batch(cfg, ledger, outcomes).ledger.Keys == ledger.Keys + cfg.DeviceIndex().Keys
  {
    hide Index, Evaluate, KahnOrder;
    OrderKnown(cfg, ledger, outcomes);
  }

  /** Over every run with reloads and prunes: the tracker holds exactly the watched devices, and each entry's
      counts, times and answer are those of the outcomes it heard. */
  lemma {:induction false} EntriesKnowWhatTheyHeard(steps: seq<TrackerStep>, id: Id)
    ensures id in Play(steps).ledger <==> Watched(steps, id)
    ensures Watched(steps, id) ==> Knows(Play(steps).ledger[id], Heard(steps, id))
    ensures !Watched(steps, id) ==> Heard(steps, id) == []
  {
    if steps != [] {
      var n := |steps| - 1;
      EntriesKnowWhatTheyHeard(steps[..n], id);
      hide Batch, Knows, Index;
      var ledger := Play(steps[..n]).ledger;
      match steps[n] {
        case Cycle(cfg, outcomes) =>
          IndexKeys(cfg.devices);
          CycleKeys(cfg, ledger, outcomes);
          if Watched(steps, id) {
            CycleKnows(cfg, ledger, outcomes, id, Heard(steps[..n], id));
          }
        case Retain(active) =>
      }
    }
  }

  // ---- What a cycle publishes ----

  /** The committed part of an entry is as it was. */
  predicate SameCommitted(a: DeviceHealth, b: DeviceHealth) {
    && a.hasState == b.hasState && a.state == b.state && a.reason == b.reason
    && a.temperatureWarningC == b.temperatureWarningC && a.upstreamDeviceIDs == b.upstreamDeviceIDs
    && a.unavailableUpstream == b.unavailableUpstream && a.rootCauses == b.rootCauses
    && a.alertsEnabledPublished == b.alertsEnabledPublished && a.hasAlertsEnabled == b.hasAlertsEnabled
  }

  /** A committed entry carries its device's settings: its own limit or else the global one, alerting unless it is
      switched off, and the listed upstreams in increasing order. */
  ghost predicate SettingsShown(cfg: Settings, d: DeviceConfig, e: DeviceHealth) {
    && e.hasState && e.hasAlertsEnabled && e.alertsEnabledPublished == (d.alertsEnabled != Some(false))
    && e.temperatureWarningC.Some?
    && (d.temperatureWarningC.Some? ==> e.temperatureWarningC == d.temperatureWarningC)
    && (d.temperatureWarningC.None? ==> e.temperatureWarningC.value == cfg.temperatureWarningC)
    && Sorted(e.upstreamDeviceIDs)
    && (d.upstreamDeviceIDs.None? ==> e.upstreamDeviceIDs == [])
    && (d.upstreamDeviceIDs.Some? ==>
          forall u :: u in e.upstreamDeviceIDs <==> u in d.upstreamDeviceIDs.value && u != "")
  }

  /** A device whose last outcome was a success. */
  predicate AnswerShown(e: DeviceHealth, o: PollOutcome) {
    && e.temperatureWarningC.Some? && e.temperatureC == o.temperatureC
    && e.unavailableUpstream == [] && e.rootCauses == []
    && if o.temperatureC.Some? && o.temperatureC.value >= e.temperatureWarningC.value
       then e.state == Warning && e.reason == TemperatureThreshold
       else e.state == Healthy && e.reason == Reachable
  }

  /** A device that was reported as failed by this cycle. */
  predicate FailureShown(e: DeviceHealth) {
    && e.temperatureC == None && (e.state == Critical || e.state == Unknown)
    && (e.state == Critical ==> e.reason == DirectUnreachable && e.unavailableUpstream == [] && e.rootCauses == [])
    && (e.state == Unknown ==> e.reason == UpstreamUnreachable && e.unavailableUpstream == e.upstreamDeviceIDs)
  }

  /** What a cycle makes of a device of its inventory that has heard `h`; `before` is its earlier entry. */
  ghost predicate Published(cfg: Settings, d: DeviceConfig, h: seq<PollOutcome>, before: DeviceHealth, e: DeviceHealth)
  {
    if h != [] && h[|h| - 1].success then
      SettingsShown(cfg, d, e) && AnswerShown(e, h[|h| - 1])
    else if Streak(h) < 1 || Streak(h) < cfg.failureThreshold then
      SameCommitted(before, e)
    else if d.upstreamDeviceIDs.None? || forall u :: u in d.upstreamDeviceIDs.value ==> u == "" then
      SettingsShown(cfg, d, e) && FailureShown(e) && e.state == Critical
    else
      SameCommitted(before, e) || (SettingsShown(cfg, d, e) && FailureShown(e))
  }

  lemma UpsShown(cfg: Settings, k: nat)
    requires LastEntry(cfg.devices, k)
    ensures var d := cfg.devices[k];
      && d.id in cfg.DeviceIndex() && cfg.DeviceIndex()[d.id] == d
      && Sorted(Ups(cfg, d.id))
      && (d.upstreamDeviceIDs.None? ==> Ups(cfg, d.id) == [])
      && (d.upstreamDeviceIDs.Some? ==> forall u :: u in Ups(cfg, d.id) <==> u in d.upstreamDeviceIDs.value && u != "")
  {
    IndexLast(cfg.devices, k);
    hide Index;
    var d := cfg.devices[k];
    var S := Elems(d.Upstreams()) - {""};
    assert Elems(SortSet(S)) == S;
    forall u ensures u in Ups(cfg, d.id) <==> u in d.Upstreams() && u != "" {
      assert u in SortSet(S) <==> u in Elems(SortSet(S));
    }
    if d.upstreamDeviceIDs.None? {
      assert S == {};
    }
  }

  /** The rules' verdict on an entry that has heard `h`. */
  lemma RulesPublish(cfg: Settings, k: nat, h: seq<PollOutcome>, base: DeviceHealth, v: Verdict)
    requires LastEntry(cfg.devices, k) && Knows(base, h)
    requires cfg.devices[k].id in cfg.DeviceIndex() && FromRules(cfg, base, cfg.devices[k].id, v)
    ensures Published(cfg, cfg.devices[k], h, base, EntryAfter(cfg, cfg.devices[k].id, base, v))
  {
    var d := cfg.devices[k];
    UpsShown(cfg, k);
    var l: Ledger :| v == VerdictOf(cfg, l, base, d.id);
    hide Index, Normalized, Sorted, CriticalBehind, StatusOf, Streak, LastSuccess;
  }

  /** Every event of a cycle shows a committed entry, which carries the device's settings. */
  lemma RulesTell(cfg: Settings, k: nat, base: DeviceHealth, v: Verdict)
    requires LastEntry(cfg.devices, k) && cfg.devices[k].id in cfg.DeviceIndex()
    ensures EventsAfter(cfg, cfg.devices[k].id, base, v) != [] ==>
      SettingsShown(cfg, cfg.devices[k], EntryAfter(cfg, cfg.devices[k].id, base, v))
  {
    UpsShown(cfg, k);
    hide Index, Normalized, Sorted, Emits, EventFor;
  }

  lemma {:induction false} RecordKeepsCommitted(ledger: Ledger, outcomes: seq<PollOutcome>, id: Id)
    requires id in ledger
    ensures SameCommitted(RecordAll(ledger, outcomes)[id], ledger[id])
  {
    if outcomes != [] {
      RecordKeepsCommitted(ledger, outcomes[..|outcomes| - 1], id);
    }
  }

  lemma CycleSettles(cfg: Settings, ledger: Ledger, outcomes: seq<PollOutcome>, id: Id)
    requires id in cfg.DeviceIndex()
    ensures id in Recorded(cfg, ledger, outcomes) && id in Batch(cfg, ledger, outcomes).ledger
    ensures exists v :: SettledBy(cfg, Recorded(cfg, ledger, outcomes)[id], Batch(cfg, ledger, outcomes), id, v)
  {
    hide *;
    var base, order := Recorded(cfg, ledger, outcomes), KahnOrder(cfg.Upstreams());
    BatchParts(cfg, ledger, outcomes);
    KahnOrderCorrect(cfg.Upstreams());
    EvaluateEachOnce(cfg, base, order, |order|);
    assert order[..|order|] == order;
    var r := Evaluate(cfg, base, order);
    EachOnceDistinct(cfg, base, r, order);
    SortedEvents(r.events);
    RecordedKeys(cfg, ledger, outcomes);
    InOrder(cfg, order, id);
    SettledSorted(cfg, base, r, order, id);
  }

  lemma RecordedKeys(cfg: Settings, ledger: Ledger, outcomes: seq<PollOutcome>)
    ensures Recorded(cfg, ledger, outcomes).Keys == ledger.Keys + cfg.DeviceIndex().Keys
  {
    hide Index, RecordAll;
  }

  lemma InOrder(cfg: Settings, order: seq<Id>, id: Id)
    requires Elems(order) == cfg.Upstreams().Keys && id in cfg.DeviceIndex()
    ensures id in order
  {
    hide Index, Normalized;
    assert id in Elems(order);
  }

  lemma SettledSorted(cfg: Settings, base: Ledger, r: Evaluated, order: seq<Id>, id: Id)
    requires EachOnce(cfg, base, r, order) && id in order && id in cfg.DeviceIndex() && id in base && id in r.ledger
    requires forall e :: e in SortBy(r.events, DeviceOf) <==> e in r.events
    ensures exists v :: SettledBy(cfg, base[id], Evaluated(r.ledger, SortBy(r.events, DeviceOf)), id, v)
  {
    hide EventsAfter, EntryAfter, FromRules, Index, SortBy;
    assert SettledOnce(cfg, base, r, id);
    var v :| SettledBy(cfg, base[id], r, id, v);
    assert SettledBy(cfg, base[id], Evaluated(r.ledger, SortBy(r.events, DeviceOf)), id, v);
  }

  /** One settled device: its entry follows from what it heard, and each of its events shows that entry. */
  lemma SettledPublishes(cfg: Settings, k: nat, h: seq<PollOutcome>, before: DeviceHealth, base: DeviceHealth,
                         r: Evaluated)
    requires LastEntry(cfg.devices, k) && Knows(base, h) && SameCommitted(base, before)
    requires cfg.devices[k].id in cfg.DeviceIndex() && cfg.devices[k].id in r.ledger
    requires exists v :: SettledBy(cfg, base, r, cfg.devices[k].id, v)
    ensures var d, e := cfg.devices[k], r.ledger[cfg.devices[k].id];
      && Published(cfg, d, h, before, e)
      && forall x :: x in r.events && x.deviceID == d.id ==> Mirrors(cfg, x, e) && SettingsShown(cfg, d, e)
  {
    var d := cfg.devices[k];
    hide EventsAfter, EntryAfter, FromRules, Index, Mirrors, SettingsShown, Knows, Streak, AnswerShown, FailureShown;
    var v :| SettledBy(cfg, base, r, d.id, v);
    RulesPublish(cfg, k, h, base, v);
    RulesTell(cfg, k, base, v);
    EventMirrors(cfg, d.id, base, v);
  }

  lemma EntryHeard(cfg: Settings, ledger: Ledger, outcomes: seq<PollOutcome>, id: Id, h: seq<PollOutcome>)
    requires id in cfg.DeviceIndex() && if id in ledger then Knows(ledger[id], h) else h == []
    ensures id in Recorded(cfg, ledger, outcomes)
    ensures Knows(Recorded(cfg, ledger, outcomes)[id], h + Of(outcomes, id))
    ensures SameCommitted(Recorded(cfg, ledger, outcomes)[id], EntryBefore(ledger, id))
  {
    hide Index, RecordAll, Of;
    var start := WithEntries(ledger, cfg.DeviceIndex().Keys);
    RecordKnows(start, outcomes, id, h);
    RecordKeepsCommitted(start, outcomes, id);
  }

  /** Over every run with reloads and prunes: after a cycle each device of its inventory is published as its
      outcomes and its settings say, and the cycle's events show that. */
  lemma {:induction false} PublishedAsHeard(steps: seq<TrackerStep>, cfg: Settings, outcomes: seq<PollOutcome>, k: nat)
    requires steps != [] && steps[|steps| - 1] == Cycle(cfg, outcomes) && LastEntry(cfg.devices, k)
    ensures var d, before := cfg.devices[k], Play(steps[..|steps| - 1]).ledger;
      && d.id in Play(steps).ledger
      && var e := Play(steps).ledger[d.id];
         && Published(cfg, d, Heard(steps, d.id), EntryBefore(before, d.id), e)
         && forall x :: x in EventsOf(before, steps[|steps| - 1]) && x.deviceID == d.id ==>
              Mirrors(cfg, x, e) && SettingsShown(cfg, d, e)
  {
    var n, d := |steps| - 1, cfg.devices[k];
    EntriesKnowWhatTheyHeard(steps[..n], d.id);
    var ledger, h := Play(steps[..n]).ledger, Heard(steps[..n], d.id);
    assert d in cfg.devices;
    assert Heard(steps, d.id) == h + Of(outcomes, d.id);
    IndexLast(cfg.devices, k);
    hide *;
    EntryHeard(cfg, ledger, outcomes, d.id, h);
    CycleSettles(cfg, ledger, outcomes, d.id);
    var base := Recorded(cfg, ledger, outcomes)[d.id];
    SettledPublishes(cfg, k, h + Of(outcomes, d.id), EntryBefore(ledger, d.id), base, Batch(cfg, ledger, outcomes));
    LastStep(steps, cfg, outcomes);
  }

  lemma LastStep(steps: seq<TrackerStep>, cfg: Settings, outcomes: seq<PollOutcome>)
    requires steps != [] && steps[|steps| - 1] == Cycle(cfg, outcomes)
    ensures var before := Play(steps[..|steps| - 1]).ledger;
      Batch(cfg, before, outcomes) == Evaluated(Play(steps).ledger, EventsOf(before, steps[|steps| - 1]))
  {
    hide Batch;
  }
}
