/** The health event stream: replaying it reconstructs the ledger, across reloads and prunes. */
module HealthStream {
  import opened Ids
  import opened Graphs
  import opened Config
  import opened EvaluationOrder
  import opened Health
  import opened HealthTracker
  import opened HealthRuns
  import opened HealthConfluence

  // What a reader of the stream knows about a device.
  datatype Seen = Seen(state: State, alertsEnabled: bool)

  type View = map<Id, Seen>

  function Observe(view: View, e: Event): View {
    view[e.deviceID := Seen(e.state, e.alertsEnabled)]
  }

  function ObserveAll(view: View, events: seq<Event>): View {
    if events == [] then view
    else Observe(ObserveAll(view, events[..|events| - 1]), events[|events| - 1])
  }

  /** Healthy is the best state, then warning, then unknown, then critical. */
  predicate Better(next: State, previous: State) {
    match next
    case Healthy => previous != Healthy
    case Warning => previous == Unknown || previous == Critical
    case Unknown => previous == Critical
    case Critical => false
  }

  /** What an event must say, given what its readers knew before it. */
  predicate Narrates(view: View, e: Event) {
    var known := e.deviceID in view;
    && (known ==> e.previousState == Some(view[e.deviceID].state) && view[e.deviceID] != Seen(e.state, e.alertsEnabled))
    && (!known ==> e.previousState == None)
    && (e.transition == Initial <==> !known)
    && (e.transition == Recovered <==> known && Better(e.state, view[e.deviceID].state))
    && (e.transition == Reasserted <==> known && e.state == view[e.deviceID].state)
    && e.reason == (if e.transition == Recovered then RecoveredReason else ReasonOf(e.state))
  }

  predicate NarratesAll(view: View, events: seq<Event>) {
    forall i :: 0 <= i < |events| ==> Narrates(ObserveAll(view, events[..i]), events[i])
  }

  /** The ledger and a reader of the stream agree. */
  ghost predicate Agrees(ledger: Ledger, view: View) {
    && (forall id :: id in view <==> id in ledger && ledger[id].hasState)
    && (forall id :: id in ledger && ledger[id].hasState ==> AgreesAt(ledger[id], view, id))
  }

  predicate AgreesAt(e: DeviceHealth, view: View, id: Id) {
    && id in view && view[id] == Seen(e.state, e.alertsEnabledPublished)
    && e.hasAlertsEnabled && e.reason == ReasonOf(e.state)
  }

  predicate Sane(v: Verdict) {
    v.Decided? ==> v.reason == ReasonOf(v.state)
  }

  predicate SamePublished(a: DeviceHealth, b: DeviceHealth) {
    && a.hasState == b.hasState && a.state == b.state && a.reason == b.reason
    && a.alertsEnabledPublished == b.alertsEnabledPublished && a.hasAlertsEnabled == b.hasAlertsEnabled
  }

  /** The verdict is the one the rules give the entry, against the upstreams as some ledger shows them. */
  ghost predicate FromRules(cfg: Settings, entry: DeviceHealth, id: Id, v: Verdict)
    requires id in cfg.DeviceIndex()
  {
    exists l: Ledger :: v == VerdictOf(cfg, l, entry, id)
  }

  /** One device settled once: its entry and its events follow from a single verdict. */
  ghost predicate SettledBy(cfg: Settings, base: DeviceHealth, r: Evaluated, id: Id, v: Verdict)
    requires id in cfg.DeviceIndex() && id in r.ledger
  {
    && Sane(v) && FromRules(cfg, base, id, v)
    && r.ledger[id] == EntryAfter(cfg, id, base, v)
    && (forall e :: e in r.events && e.deviceID == id <==> e in EventsAfter(cfg, id, base, v))
  }

  ghost predicate SettledOnce(cfg: Settings, base: Ledger, r: Evaluated, id: Id)
    requires id in cfg.DeviceIndex() && id in r.ledger && id in base
  {
    exists v :: SettledBy(cfg, base[id], r, id, v)
  }

  ghost predicate Bookkept(cfg: Settings, base: Ledger, r: Evaluated, done: seq<Id>) {
    && r.ledger.Keys == base.Keys
    && DistinctEvents(r.events)
    && (forall e :: e in r.events ==> e.deviceID in done)
    && (forall id :: id in base && id !in done ==> r.ledger[id] == base[id])
    && (forall id :: id in done ==> id in base && id in cfg.DeviceIndex())
  }

  ghost predicate EachOnce(cfg: Settings, base: Ledger, r: Evaluated, done: seq<Id>) {
    Bookkept(cfg, base, r, done) && forall id :: id in done ==> SettledOnce(cfg, base, r, id)
  }

  predicate DistinctEvents(events: seq<Event>) {
    forall i, j :: 0 <= i < j < |events| ==> events[i].deviceID != events[j].deviceID
  }

  lemma BookkeptStep(cfg: Settings, base: Ledger, r: Evaluated, done: seq<Id>, id: Id)
    requires Bookkept(cfg, base, r, done) && id !in done && id in base && id in cfg.DeviceIndex()
    ensures Bookkept(cfg, base, Settle(cfg, r, id), done + [id])
  {
    hide EventsAfter, EntryAfter, DistinctEvents, VerdictAt;
    DistinctAppend(cfg, r.events, id, base[id], VerdictAt(cfg, r.ledger, id));
    SettleParts(cfg, r, id);
  }

  lemma EachOnceStep(cfg: Settings, base: Ledger, r: Evaluated, done: seq<Id>, id: Id)
    requires EachOnce(cfg, base, r, done) && id !in done && id in base && id in cfg.DeviceIndex()
    ensures EachOnce(cfg, base, Settle(cfg, r, id), done + [id])
  {
    hide Settle, SettledOnce, DistinctEvents;
    BookkeptStep(cfg, base, r, done, id);
    OnceNew(cfg, base, r, id, VerdictAt(cfg, r.ledger, id));
    forall x | x in done ensures SettledOnce(cfg, base, Settle(cfg, r, id), x) {
      OnceKept(cfg, base, r, id, x);
    }
  }

  lemma DistinctAppend(cfg: Settings, events: seq<Event>, id: Id, entry: DeviceHealth, v: Verdict)
    requires id in cfg.DeviceIndex() && DistinctEvents(events) && forall e :: e in events ==> e.deviceID != id
    ensures var more := EventsAfter(cfg, id, entry, v);
      DistinctEvents(events + more) && forall e :: e in events + more ==> e in events || e.deviceID == id
  {
    hide Normalized;
    var all := events + EventsAfter(cfg, id, entry, v);
    forall i, j | 0 <= i < j < |all| ensures all[i].deviceID != all[j].deviceID {
      if j >= |events| { assert all[i] == events[i] && events[i] in events; }
    }
  }

  lemma OnceNew(cfg: Settings, base: Ledger, r: Evaluated, id: Id, v: Verdict)
    requires id in cfg.DeviceIndex() && id in r.ledger && id in base && r.ledger[id] == base[id]
    requires v == VerdictAt(cfg, r.ledger, id) && forall e :: e in r.events ==> e.deviceID != id
    ensures SettledOnce(cfg, base, Settle(cfg, r, id), id)
  {
    VerdictSane(cfg, r.ledger, id);
    hide Normalized, VerdictFor, Committed;
    var more := EventsAfter(cfg, id, base[id], v);
    forall e ensures e in r.events + more <==> e in r.events || e in more {
    }
    assert forall e :: e in more ==> e.deviceID == id;
    assert v == VerdictOf(cfg, r.ledger, base[id], id);
    assert SettledBy(cfg, base[id], Settle(cfg, r, id), id, v);
  }

  lemma OnceKept(cfg: Settings, base: Ledger, r: Evaluated, id: Id, x: Id)
    requires id in cfg.DeviceIndex() && id in r.ledger
    requires x in cfg.DeviceIndex() && x in r.ledger && x in base && x != id && SettledOnce(cfg, base, r, x)
    ensures SettledOnce(cfg, base, Settle(cfg, r, id), x)
  {
    hide Normalized, VerdictFor, Committed, EntryAfter;
    var w :| SettledBy(cfg, base[x], r, x, w);
    var more := EventsAfter(cfg, id, r.ledger[id], VerdictAt(cfg, r.ledger, id));
    forall e ensures e in r.events + more <==> e in r.events || e in more {
    }
    assert forall e :: e in more ==> e.deviceID == id;
    assert SettledBy(cfg, base[x], Settle(cfg, r, id), x, w);
  }

  lemma VerdictSane(cfg: Settings, ledger: Ledger, id: Id)
    requires id in cfg.DeviceIndex() && id in ledger
    ensures Sane(VerdictAt(cfg, ledger, id))
  {
  }

  lemma OneMore(cfg: Settings, base: Ledger, order: seq<Id>, n: nat)
    requires Known(cfg, base, order) && 0 < n <= |order| && Known(cfg, base, order[..n - 1])
    ensures Known(cfg, base, order[..n]) && order[n - 1] in cfg.DeviceIndex() && order[n - 1] in base
    ensures order[n - 1] in Evaluate(cfg, base, order[..n - 1]).ledger
    ensures Evaluate(cfg, base, order[..n]) == Settle(cfg, Evaluate(cfg, base, order[..n - 1]), order[n - 1])
  {
    hide Settle;
    assert order[..n][..n - 1] == order[..n - 1];
  }

  lemma {:induction false} EvaluateEachOnce(cfg: Settings, base: Ledger, order: seq<Id>, n: nat)
    requires Known(cfg, base, order) && NoDup(order) && n <= |order|
    ensures Known(cfg, base, order[..n])
    ensures EachOnce(cfg, base, Evaluate(cfg, base, order[..n]), order[..n])
  {
    if n == 0 {
      assert order[..n] == [];
    } else {
      hide *;
      EvaluateEachOnce(cfg, base, order, n - 1);
      SplitAt(order, n - 1);
      NotPlacedBefore(order, n - 1);
      OneMore(cfg, base, order, n);
      EachOnceStep(cfg, base, Evaluate(cfg, base, order[..n - 1]), order[..n - 1], order[n - 1]);
    }
  }

  predicate EventMatches(e: Event, after: DeviceHealth) {
    && after.hasState && after.hasAlertsEnabled && after.reason == ReasonOf(after.state)
    && e.state == after.state && e.alertsEnabled == after.alertsEnabledPublished
  }

  /** A single verdict keeps ledger and reader in step, and any event it emits narrates the change. */
  lemma VerdictNarrated(cfg: Settings, view: View, id: Id, before: DeviceHealth, v: Verdict)
    requires id in cfg.DeviceIndex() && Sane(v)
    requires if before.hasState then AgreesAt(before, view, id) else id !in view
    ensures var after := EntryAfter(cfg, id, before, v);
      var events := EventsAfter(cfg, id, before, v);
      && (forall e :: e in events ==> Narrates(view, e) && EventMatches(e, after))
      && (events == [] ==> if after.hasState then AgreesAt(after, view, id) else id !in view)
  {
  }

  lemma {:induction false} RecordKeepsPublished(ledger: Ledger, outcomes: seq<PollOutcome>, id: Id)
    requires id in ledger
    ensures SamePublished(RecordAll(ledger, outcomes)[id], ledger[id])
  {
    if outcomes != [] {
      RecordKeepsPublished(ledger, outcomes[..|outcomes| - 1], id);
    }
  }

  lemma {:induction false} ObserveOthers(view: View, events: seq<Event>, id: Id)
    requires forall i :: 0 <= i < |events| ==> events[i].deviceID != id
    ensures id in ObserveAll(view, events) <==> id in view
    ensures id in view ==> ObserveAll(view, events)[id] == view[id]
  {
    if events != [] {
      ObserveOthers(view, events[..|events| - 1], id);
    }
  }

  lemma {:induction false} ObserveAt(view: View, events: seq<Event>, i: nat)
    requires DistinctEvents(events) && i < |events|
    ensures var e := events[i];
      && e.deviceID in ObserveAll(view, events)
      && ObserveAll(view, events)[e.deviceID] == Seen(e.state, e.alertsEnabled)
  {
    var n := |events| - 1;
    if i < n {
      assert events[i].deviceID != events[n].deviceID;
      ObserveAt(view, events[..n], i);
    }
  }

  /** With one event per device, observing them all is pointwise. */
  lemma ObserveDistinct(view: View, events: seq<Event>, id: Id)
    requires DistinctEvents(events)
    ensures forall e :: e in events && e.deviceID == id ==>
      id in ObserveAll(view, events) && ObserveAll(view, events)[id] == Seen(e.state, e.alertsEnabled)
    ensures (forall e :: e in events ==> e.deviceID != id) ==>
      (id in ObserveAll(view, events) <==> id in view) && (id in view ==> ObserveAll(view, events)[id] == view[id])
  {
    hide ObserveAll, DistinctEvents;
    forall e | e in events && e.deviceID == id
      ensures id in ObserveAll(view, events) && ObserveAll(view, events)[id] == Seen(e.state, e.alertsEnabled)
    {
      var i :| 0 <= i < |events| && events[i] == e;
      ObserveAt(view, events, i);
    }
    if forall e :: e in events ==> e.deviceID != id {
      ObserveOthers(view, events, id);
    }
  }

  lemma NarrateDistinct(view: View, events: seq<Event>)
    requires DistinctEvents(events) && forall e :: e in events ==> Narrates(view, e)
    ensures NarratesAll(view, events)
  {
    forall i | 0 <= i < |events| ensures Narrates(ObserveAll(view, events[..i]), events[i]) {
      assert events[i] in events;
      forall e | e in events[..i] ensures e.deviceID != events[i].deviceID {
        var j :| 0 <= j < i && events[..i][j] == e;
      }
      ObserveDistinct(view, events[..i], events[i].deviceID);
    }
  }

  /** A cycle's sorted events, and its ledger, against what the reader knew before. */
  lemma CycleNarrated(cfg: Settings, ledger: Ledger, view: View, outcomes: seq<PollOutcome>)
    requires Agrees(ledger, view)
    ensures var r := Batch(cfg, ledger, outcomes);
      NarratesAll(view, r.events) && Agrees(r.ledger, ObserveAll(view, r.events)) && StrictlyByDevice(r.events)
  {
    hide *;
    var base := Recorded(cfg, ledger, outcomes);
    var order := KahnOrder(cfg.Upstreams());
    BatchParts(cfg, ledger, outcomes);
    KahnOrderCorrect(cfg.Upstreams());
    EvaluateEachOnce(cfg, base, order, |order|);
    assert order[..|order|] == order;
    var r := Evaluate(cfg, base, order);
    RecordedAgrees(cfg, ledger, view, outcomes);
    EachOnceDistinct(cfg, base, r, order);
    SortedEvents(r.events);
    CycleAgrees(cfg, base, view, r, order, SortBy(r.events, DeviceOf));
  }

  lemma BatchParts(cfg: Settings, ledger: Ledger, outcomes: seq<PollOutcome>)
    ensures Known(cfg, Recorded(cfg, ledger, outcomes), KahnOrder(cfg.Upstreams()))
    ensures var r := Evaluate(cfg, Recorded(cfg, ledger, outcomes), KahnOrder(cfg.Upstreams()));
      Batch(cfg, ledger, outcomes) == Evaluated(r.ledger, SortBy(r.events, DeviceOf))
  {
    OrderKnown(cfg, ledger, outcomes);
    hide Evaluate, Recorded, KahnOrder, SortBy;
  }

  lemma EachOnceDistinct(cfg: Settings, base: Ledger, r: Evaluated, done: seq<Id>)
    requires EachOnce(cfg, base, r, done)
    ensures r.ledger.Keys == base.Keys
    ensures forall i, j :: 0 <= i < j < |r.events| ==> r.events[i].deviceID != r.events[j].deviceID
  {
    hide SettledOnce;
  }

  lemma RecordedAgrees(cfg: Settings, ledger: Ledger, view: View, outcomes: seq<PollOutcome>)
    requires Agrees(ledger, view)
    ensures Agrees(Recorded(cfg, ledger, outcomes), view)
  {
    var start := WithEntries(ledger, cfg.DeviceIndex().Keys);
    forall id | id in start ensures SamePublished(RecordAll(start, outcomes)[id], start[id]) {
      RecordKeepsPublished(start, outcomes, id);
    }
  }

  lemma CycleAgrees(cfg: Settings, base: Ledger, view: View, r: Evaluated, order: seq<Id>, sorted: seq<Event>)
    requires EachOnce(cfg, base, r, order) && Agrees(base, view)
    requires StrictlyByDevice(sorted) && forall e :: e in sorted <==> e in r.events
    ensures NarratesAll(view, sorted) && Agrees(r.ledger, ObserveAll(view, sorted))
  {
    hide EventFor, EntryAfter, EventsAfter, Normalized, Narrates;
    assert DistinctEvents(sorted) by {
      forall i, j | 0 <= i < j < |sorted| ensures sorted[i].deviceID != sorted[j].deviceID {
        LessIrreflexive(sorted[i].deviceID);
      }
    }
    var after := ObserveAll(view, sorted);
    forall id | id in base
      ensures if r.ledger[id].hasState then AgreesAt(r.ledger[id], after, id) else id !in after
    {
      DeviceAgrees(cfg, base, view, r, order, sorted, id);
    }
    forall id | id !in base ensures id !in after {
      ObserveDistinct(view, sorted, id);
    }
    forall e | e in sorted ensures Narrates(view, e) {
      var id := e.deviceID;
      assert SettledOnce(cfg, base, r, id);
      var v :| SettledBy(cfg, base[id], r, id, v);
      VerdictNarrated(cfg, view, id, base[id], v);
    }
    NarrateDistinct(view, sorted);
  }

  lemma DeviceAgrees(cfg: Settings, base: Ledger, view: View, r: Evaluated, order: seq<Id>, sorted: seq<Event>, id: Id)
    requires EachOnce(cfg, base, r, order) && Agrees(base, view) && id in base
    requires DistinctEvents(sorted) && forall e :: e in sorted <==> e in r.events
    ensures var after := ObserveAll(view, sorted);
      if r.ledger[id].hasState then AgreesAt(r.ledger[id], after, id) else id !in after
  {
    hide EventFor, EntryAfter, EventsAfter, Normalized, Narrates;
    ObserveDistinct(view, sorted, id);
    if id in order {
      assert SettledOnce(cfg, base, r, id);
      var v :| SettledBy(cfg, base[id], r, id, v);
      VerdictNarrated(cfg, view, id, base[id], v);
      var events := EventsAfter(cfg, id, base[id], v);
      if events == [] {
        assert forall e :: e in sorted ==> e.deviceID != id;
      } else {
        assert events[0] in events;
        assert events[0] in r.events;
      }
    } else {
      assert forall e :: e in sorted ==> e.deviceID != id;
    }
  }

  // Reload steps: cycles may run under ever-changing settings; pruning keeps the listed devices.
  datatype TrackerStep =
    | Cycle(cfg: Settings, outcomes: seq<PollOutcome>)
    | Retain(active: set<Id>)

  datatype Narrated = Narrated(ledger: Ledger, view: View)

  function Restrict<T>(m: map<Id, T>, ids: set<Id>): map<Id, T> {
    map id | id in m && id in ids :: m[id]
  }

  ghost function EventsOf(ledger: Ledger, step: TrackerStep): seq<Event> {
    match step
    case Cycle(cfg, outcomes) => Batch(cfg, ledger, outcomes).events
    case Retain(_) => []
  }

  /** The tracker, and a reader who observes each event and forgets pruned devices. */
  ghost function TakeStep(s: Narrated, step: TrackerStep): Narrated {
    match step
    case Cycle(cfg, outcomes) =>
      var r := Batch(cfg, s.ledger, outcomes);
      Narrated(r.ledger, ObserveAll(s.view, r.events))
    case Retain(active) => Narrated(Restrict(s.ledger, active), Restrict(s.view, active))
  }

  ghost function Play(steps: seq<TrackerStep>): Narrated {
    if steps == [] then Narrated(map[], map[])
    else TakeStep(Play(steps[..|steps| - 1]), steps[|steps| - 1])
  }

  /** Over every run with reloads and prunes: the reader's view is the ledger's committed state and
      published alerts flag, and each event's previous state, transition and reason are true. */
  lemma {:induction false} StreamReplaysToLedger(steps: seq<TrackerStep>)
    ensures Agrees(Play(steps).ledger, Play(steps).view)
    ensures steps != [] ==> var before := Play(steps[..|steps| - 1]);
      NarratesAll(before.view, EventsOf(before.ledger, steps[|steps| - 1]))
  {
    if steps != [] {
      var n := |steps| - 1;
      StreamReplaysToLedger(steps[..n]);
      match steps[n]
      case Cycle(cfg, outcomes) => CycleNarrated(cfg, Play(steps[..n]).ledger, Play(steps[..n]).view, outcomes);
      case Retain(_) =>
    }
  }

  /** An event shows its device's entry as the cycle left it, field by field. */
  predicate Mirrors(cfg: Settings, e: Event, d: DeviceHealth) {
    && d.hasState && e.state == d.state && e.failureCount == d.failureCount
    && e.failureThreshold == (if cfg.failureThreshold < 1 then 1 else cfg.failureThreshold)
    && e.temperatureC == d.temperatureC && e.temperatureWarningC == d.temperatureWarningC
    && e.policyRevision == cfg.policyRevision
    && e.upstreamDeviceIDs == d.upstreamDeviceIDs && e.unavailableUpstream == d.unavailableUpstream
    && e.rootCauses == d.rootCauses && e.alertsEnabled == d.alertsEnabledPublished
    && e.observedAt == if d.lastObservedAt != 0 then d.lastObservedAt else d.lastSuccessAt
  }

  lemma EventMirrors(cfg: Settings, id: Id, entry: DeviceHealth, v: Verdict)
    requires id in cfg.DeviceIndex()
    ensures forall e :: e in EventsAfter(cfg, id, entry, v) ==>
      e.deviceID == id && Mirrors(cfg, e, EntryAfter(cfg, id, entry, v))
  {
    hide Normalized, Index, Emits, ClassifyTransition, PolicyChanged;
  }

  /** Every event of a cycle tells its device's final entry, and no device has two. */
  lemma EventsMirrorLedger(cfg: Settings, ledger: Ledger, outcomes: seq<PollOutcome>)
    ensures var r := Batch(cfg, ledger, outcomes);
      && (forall e :: e in r.events ==> e.deviceID in r.ledger && Mirrors(cfg, e, r.ledger[e.deviceID]))
      && forall i, j :: 0 <= i < j < |r.events| ==> Less(r.events[i].deviceID, r.events[j].deviceID)
  {
    hide *;
    var base, order := Recorded(cfg, ledger, outcomes), KahnOrder(cfg.Upstreams());
    BatchParts(cfg, ledger, outcomes);
    KahnOrderCorrect(cfg.Upstreams());
    EvaluateEachOnce(cfg, base, order, |order|);
    assert order[..|order|] == order;
    var r := Evaluate(cfg, base, order);
    EachOnceDistinct(cfg, base, r, order);
    SortedEvents(r.events);
    ByDevice(SortBy(r.events, DeviceOf));
    EachMirrors(cfg, base, r, order);
  }

  lemma ByDevice(events: seq<Event>)
    requires StrictlyByDevice(events)
    ensures forall i, j :: 0 <= i < j < |events| ==> Less(events[i].deviceID, events[j].deviceID)
  {
  }

  lemma EachMirrors(cfg: Settings, base: Ledger, r: Evaluated, order: seq<Id>)
    requires EachOnce(cfg, base, r, order)
    ensures forall e :: e in r.events ==> e.deviceID in r.ledger && Mirrors(cfg, e, r.ledger[e.deviceID])
  {
    hide EventsAfter, EntryAfter, Mirrors, Sane;
    forall e | e in r.events ensures e.deviceID in r.ledger && Mirrors(cfg, e, r.ledger[e.deviceID]) {
      var id := e.deviceID;
      assert SettledOnce(cfg, base, r, id);
      var v :| SettledBy(cfg, base[id], r, id, v);
      EventMirrors(cfg, id, base[id], v);
    }
  }
}
