/** From poll outcomes to the backend's table: the tracker, the wire contract and the delivery protocol composed. */
module EndToEnd {
  import opened Ids
  import opened Config
  import opened EvaluationOrder
  import opened Health
  import opened HealthRuns
  import opened HealthConfluence
  import opened HealthStream
  import opened Telemetry
  import opened Delivery
  import opened Convergence
  import C = Contract
  import Ingestion

  ghost function AllEvents(steps: seq<TrackerStep>): seq<Event> {
    if steps == [] then []
    else
      var n := |steps| - 1;
      AllEvents(steps[..n]) + EventsOf(Play(steps[..n]).ledger, steps[n])
  }

  function OutcomesOf(step: TrackerStep): seq<PollOutcome> {
    match step
    case Cycle(_, outcomes) => outcomes
    case Retain(_) => []
  }

  function AllOutcomes(steps: seq<TrackerStep>): seq<PollOutcome> {
    if steps == [] then [] else AllOutcomes(steps[..|steps| - 1]) + OutcomesOf(steps[|steps| - 1])
  }

  /** Polls are timed by a clock that never runs backwards for one device. */
  predicate Chronological(os: seq<PollOutcome>) {
    && (forall i :: 0 <= i < |os| ==> os[i].observedAt > 0)
    && forall i, j :: 0 <= i < j < |os| && os[i].deviceID == os[j].deviceID ==> os[i].observedAt <= os[j].observedAt
  }

  predicate EventTimesOk(events: seq<Event>) {
    forall i, j :: 0 <= i < j < |events| && events[i].deviceID == events[j].deviceID ==>
      events[i].observedAt <= events[j].observedAt
  }

  /** One of the outcomes polled this device at this time. */
  predicate PolledAt(done: seq<PollOutcome>, id: Id, t: Time) {
    exists i :: 0 <= i < |done| && done[i].deviceID == id && done[i].observedAt == t
  }

  predicate NotBefore(t: Time, id: Id, events: seq<Event>) {
    forall e :: e in events && e.deviceID == id ==> e.observedAt <= t
  }

  predicate LedgerStamped(ledger: Ledger, done: seq<PollOutcome>, events: seq<Event>) {
    forall id :: id in ledger && ledger[id].hasOutcome ==> EntryStamped(ledger[id], id, done, events)
  }

  predicate EntryStamped(e: DeviceHealth, id: Id, done: seq<PollOutcome>, events: seq<Event>) {
    PolledAt(done, id, e.lastObservedAt) && NotBefore(e.lastObservedAt, id, events)
  }

  predicate EventsStamped(events: seq<Event>, done: seq<PollOutcome>) {
    forall e :: e in events ==> PolledAt(done, e.deviceID, e.observedAt)
  }

  lemma PolledMore(done: seq<PollOutcome>, more: seq<PollOutcome>, id: Id, t: Time)
    requires PolledAt(done, id, t)
    ensures PolledAt(done + more, id, t)
  {
    var i :| 0 <= i < |done| && done[i].deviceID == id && done[i].observedAt == t;
    assert (done + more)[i] == done[i];
  }

  lemma StampedMore(ledger: Ledger, done: seq<PollOutcome>, more: seq<PollOutcome>, events: seq<Event>)
    requires LedgerStamped(ledger, done, events) && EventsStamped(events, done)
    ensures LedgerStamped(ledger, done + more, events) && EventsStamped(events, done + more)
  {
    hide PolledAt, NotBefore;
    forall id | id in ledger && ledger[id].hasOutcome ensures EntryStamped(ledger[id], id, done + more, events) {
      assert EntryStamped(ledger[id], id, done, events);
      PolledMore(done, more, id, ledger[id].lastObservedAt);
    }
    forall e | e in events ensures PolledAt(done + more, e.deviceID, e.observedAt) {
      PolledMore(done, more, e.deviceID, e.observedAt);
    }
  }

  /** An outcome is no earlier than any event of its device so far. */
  lemma OutcomeNotBefore(done: seq<PollOutcome>, o: PollOutcome, events: seq<Event>)
    requires Chronological(done + [o]) && EventsStamped(events, done)
    ensures NotBefore(o.observedAt, o.deviceID, events) && PolledAt(done + [o], o.deviceID, o.observedAt)
  {
    var all := done + [o];
    assert all[|done|] == o;
    forall e | e in events && e.deviceID == o.deviceID ensures e.observedAt <= o.observedAt {
      assert PolledAt(done, e.deviceID, e.observedAt);
      var i :| 0 <= i < |done| && done[i].deviceID == e.deviceID && done[i].observedAt == e.observedAt;
      assert all[i] == done[i];
    }
  }

  lemma RecordStamped(ledger: Ledger, done: seq<PollOutcome>, o: PollOutcome, events: seq<Event>)
    requires Chronological(done + [o]) && LedgerStamped(ledger, done, events) && EventsStamped(events, done)
    ensures LedgerStamped(Record(ledger, o), done + [o], events)
  {
    OutcomeNotBefore(done, o, events);
    StampedMore(ledger, done, [o], events);
    hide PolledAt, NotBefore, Chronological, EventsStamped;
    var r := Record(ledger, o);
    forall id | id in r && r[id].hasOutcome ensures EntryStamped(r[id], id, done + [o], events) {
      assert id != o.deviceID ==> EntryStamped(ledger[id], id, done + [o], events);
    }
  }

  lemma ChronologicalPrefix(done: seq<PollOutcome>, more: seq<PollOutcome>)
    requires Chronological(done + more)
    ensures Chronological(done)
  {
    assert forall i :: 0 <= i < |done| ==> (done + more)[i] == done[i];
  }

  lemma {:induction false} RecordAllStamped(ledger: Ledger, done: seq<PollOutcome>, outcomes: seq<PollOutcome>,
                                            events: seq<Event>)
    requires Chronological(done + outcomes) && LedgerStamped(ledger, done, events) && EventsStamped(events, done)
    ensures LedgerStamped(RecordAll(ledger, outcomes), done + outcomes, events)
  {
    if outcomes == [] {
      assert done + outcomes == done;
    } else {
      var n := |outcomes| - 1;
      assert done + outcomes == (done + outcomes[..n]) + [outcomes[n]];
      ChronologicalPrefix(done + outcomes[..n], [outcomes[n]]);
      hide LedgerStamped, EventsStamped, Chronological, Record;
      RecordAllStamped(ledger, done, outcomes[..n], events);
      EventsStampedMore(events, done, outcomes[..n]);
      RecordStamped(RecordAll(ledger, outcomes[..n]), done + outcomes[..n], outcomes[n], events);
    }
  }

  lemma EventsStampedMore(events: seq<Event>, done: seq<PollOutcome>, more: seq<PollOutcome>)
    requires EventsStamped(events, done)
    ensures EventsStamped(events, done + more)
  {
    StampedMore(map[], done, more, events);
  }

  /** What evaluation adds: events stamped with their entry's last poll. */
  predicate TimedBy(base: Ledger, events: seq<Event>) {
    forall e :: e in events ==> TimedEvent(base, e)
  }

  predicate TimedEvent(base: Ledger, e: Event) {
    e.deviceID in base && base[e.deviceID].hasOutcome && e.observedAt == StampOf(base[e.deviceID])
  }

  function StampOf(entry: DeviceHealth): Time {
    if entry.lastObservedAt == 0 then entry.lastSuccessAt else entry.lastObservedAt
  }

  predicate SamePolls(a: Ledger, b: Ledger) {
    a.Keys == b.Keys && forall id :: id in a ==> SamePoll(a[id], b[id])
  }

  predicate SamePoll(a: DeviceHealth, b: DeviceHealth) {
    a.hasOutcome == b.hasOutcome && a.lastObservedAt == b.lastObservedAt && a.lastSuccessAt == b.lastSuccessAt
  }

  lemma SettleTimed(cfg: Settings, base: Ledger, s: Evaluated, id: Id)
    requires id in cfg.DeviceIndex() && id in s.ledger && SamePolls(s.ledger, base) && TimedBy(base, s.events)
    ensures SamePolls(Settle(cfg, s, id).ledger, base) && TimedBy(base, Settle(cfg, s, id).events)
  {
    hide FailureVerdict, SuccessVerdict, Normalized, WarningFor, AlertsFor, PolicyChanged, ClassifyTransition, Emits;
    var v := VerdictAt(cfg, s.ledger, id);
    assert SamePoll(s.ledger[id], base[id]);
    assert v.Decided? ==> s.ledger[id].hasOutcome;
    var more := EventsAfter(cfg, id, s.ledger[id], v);
    forall e | e in s.events + more ensures TimedEvent(base, e) {
      assert e in s.events || e in more;
    }
  }

  lemma {:induction false} EvaluateTimed(cfg: Settings, base: Ledger, order: seq<Id>)
    requires Known(cfg, base, order)
    ensures var r := Evaluate(cfg, base, order);
      SamePolls(r.ledger, base) && TimedBy(base, r.events)
  {
    if order != [] {
      EvaluateTimed(cfg, base, order[..|order| - 1]);
      hide SamePolls, TimedBy, Settle;
      SettleTimed(cfg, base, Evaluate(cfg, base, order[..|order| - 1]), order[|order| - 1]);
    }
  }

  lemma SortedTimed(base: Ledger, events: seq<Event>)
    requires TimedBy(base, events)
    ensures TimedBy(base, SortBy(events, DeviceOf))
  {
    hide TimedEvent, SortBy;
    SortByProps(events, DeviceOf);
    MultisetFacts(events, SortBy(events, DeviceOf));
    assert forall e :: e in SortBy(events, DeviceOf) ==> e in Elems(SortBy(events, DeviceOf));
  }

  lemma CycleTimed(cfg: Settings, ledger: Ledger, outcomes: seq<PollOutcome>)
    ensures var base := Recorded(cfg, ledger, outcomes);
      var r := Batch(cfg, ledger, outcomes);
      SamePolls(r.ledger, base) && TimedBy(base, r.events)
  {
    hide KahnOrder, Evaluate, SortBy, SamePolls, TimedBy, Recorded, SortIds;
    OrderKnown(cfg, ledger, outcomes);
    var base := Recorded(cfg, ledger, outcomes);
    EvaluateTimed(cfg, base, KahnOrder(cfg.Upstreams()));
    SortedTimed(base, Evaluate(cfg, base, KahnOrder(cfg.Upstreams())).events);
  }

  /** A new event is no earlier than the old ones of its device, and was polled then. */
  lemma NewEventTime(base: Ledger, done: seq<PollOutcome>, events: seq<Event>, e: Event)
    requires Chronological(done) && LedgerStamped(base, done, events) && TimedEvent(base, e)
    ensures NotBefore(e.observedAt, e.deviceID, events) && PolledAt(done, e.deviceID, e.observedAt)
    ensures e.observedAt == base[e.deviceID].lastObservedAt
  {
    assert EntryStamped(base[e.deviceID], e.deviceID, done, events);
    var i :| 0 <= i < |done| && done[i].deviceID == e.deviceID && done[i].observedAt == base[e.deviceID].lastObservedAt;
  }

  lemma AppendTimes(base: Ledger, done: seq<PollOutcome>, events: seq<Event>, more: seq<Event>)
    requires Chronological(done) && LedgerStamped(base, done, events) && EventsStamped(events, done)
    requires TimedBy(base, more) && EventTimesOk(events)
    ensures EventTimesOk(events + more) && EventsStamped(events + more, done)
    ensures LedgerStamped(base, done, events + more)
  {
    var all := events + more;
    forall e | e in more ensures e.deviceID in base && e.observedAt == base[e.deviceID].lastObservedAt
      && NotBefore(e.observedAt, e.deviceID, events) && PolledAt(done, e.deviceID, e.observedAt)
    {
      assert TimedEvent(base, e);
      NewEventTime(base, done, events, e);
    }
    hide PolledAt, Chronological, TimedBy;
    forall i, j | 0 <= i < j < |all| && all[i].deviceID == all[j].deviceID
      ensures all[i].observedAt <= all[j].observedAt
    {
      if j >= |events| {
        assert all[j] == more[j - |events|];
        if i < |events| { assert all[i] in events; } else { assert all[i] == more[i - |events|]; }
      }
    }
    forall e | e in all ensures PolledAt(done, e.deviceID, e.observedAt) {
      assert e in events || e in more;
    }
    forall id | id in base && base[id].hasOutcome ensures EntryStamped(base[id], id, done, all) {
      assert EntryStamped(base[id], id, done, events);
      forall e | e in all && e.deviceID == id ensures e.observedAt <= base[id].lastObservedAt {
        assert e in events || e in more;
      }
    }
  }

  lemma SamePollsStamped(a: Ledger, b: Ledger, done: seq<PollOutcome>, events: seq<Event>)
    requires SamePolls(a, b) && LedgerStamped(b, done, events)
    ensures LedgerStamped(a, done, events)
  {
    hide PolledAt, NotBefore;
    forall id | id in a && a[id].hasOutcome ensures EntryStamped(a[id], id, done, events) {
      assert SamePoll(a[id], b[id]);
      assert EntryStamped(b[id], id, done, events);
    }
  }

  ghost predicate TimesInvariant(steps: seq<TrackerStep>) {
    && LedgerStamped(Play(steps).ledger, AllOutcomes(steps), AllEvents(steps))
    && EventsStamped(AllEvents(steps), AllOutcomes(steps))
    && EventTimesOk(AllEvents(steps))
  }

  lemma CycleTimes(cfg: Settings, ledger: Ledger, outcomes: seq<PollOutcome>, done: seq<PollOutcome>,
                   events: seq<Event>)
    requires Chronological(done + outcomes) && LedgerStamped(ledger, done, events)
    requires EventsStamped(events, done) && EventTimesOk(events)
    ensures var r := Batch(cfg, ledger, outcomes);
      && LedgerStamped(r.ledger, done + outcomes, events + r.events)
      && EventsStamped(events + r.events, done + outcomes)
      && EventTimesOk(events + r.events)
  {
    var start := WithEntries(ledger, cfg.DeviceIndex().Keys);
    var base := Recorded(cfg, ledger, outcomes);
    assert LedgerStamped(start, done, events) by {
      hide PolledAt, NotBefore;
      forall id | id in start && start[id].hasOutcome ensures EntryStamped(start[id], id, done, events) {
        assert EntryStamped(ledger[id], id, done, events);
      }
    }
    hide RecordAll, LedgerStamped, EventsStamped, EventTimesOk, Chronological, Batch, WithEntries, SamePolls, TimedBy;
    RecordAllStamped(start, done, outcomes, events);
    EventsStampedMore(events, done, outcomes);
    CycleTimed(cfg, ledger, outcomes);
    var r := Batch(cfg, ledger, outcomes);
    AppendTimes(base, done + outcomes, events, r.events);
    SamePollsStamped(r.ledger, base, done + outcomes, events + r.events);
  }

  lemma {:induction false} EventTimesNeverDecrease(steps: seq<TrackerStep>)
    requires Chronological(AllOutcomes(steps))
    ensures TimesInvariant(steps) && EventTimesOk(AllEvents(steps))
  {
    if steps != [] {
      var n := |steps| - 1;
      ChronologicalPrefix(AllOutcomes(steps[..n]), OutcomesOf(steps[n]));
      EventTimesNeverDecrease(steps[..n]);
      match steps[n] {
        case Cycle(cfg, outcomes) =>
          hide LedgerStamped, EventsStamped, EventTimesOk, Chronological, Batch;
          CycleTimes(cfg, Play(steps[..n]).ledger, outcomes, AllOutcomes(steps[..n]), AllEvents(steps[..n]));
        case Retain(active) =>
          assert AllOutcomes(steps) == AllOutcomes(steps[..n]) && AllEvents(steps) == AllEvents(steps[..n]);
          RetainStamped(Play(steps[..n]).ledger, active, AllOutcomes(steps), AllEvents(steps));
      }
    }
  }

  lemma RetainStamped(ledger: Ledger, active: set<Id>, done: seq<PollOutcome>, events: seq<Event>)
    requires LedgerStamped(ledger, done, events)
    ensures LedgerStamped(Restrict(ledger, active), done, events)
  {
    hide PolledAt, NotBefore;
    forall id | id in Restrict(ledger, active) && ledger[id].hasOutcome
      ensures EntryStamped(ledger[id], id, done, events)
    {
    }
  }

  // ---- The messages of a run, and what the table makes of them ----

  /** Each event as a message, under the origin and event id of its publish. */
  function StreamMessages(events: seq<Event>, os: seq<Origin>, ids: seq<C.EventId>): seq<C.Message>
    requires |os| == |events| == |ids|
  {
    if events == [] then []
    else
      var n := |events| - 1;
      StreamMessages(events[..n], os[..n], ids[..n]) + [HealthMessage(os[n], events[n], ids[n])]
  }

  /** The accepted health messages among others. */
  function OnlyHealth(ms: seq<C.Message>): seq<C.Message> {
    if ms == [] then []
    else OnlyHealth(ms[..|ms| - 1]) + if IsHealth(ms[|ms| - 1]) then [ms[|ms| - 1]] else []
  }

  lemma {:induction false} OnlyHealthMembers(ms: seq<C.Message>)
    ensures forall m :: m in OnlyHealth(ms) <==> m in ms && IsHealth(m)
  {
    hide IsHealth;
    if ms != [] {
      var n := |ms| - 1;
      OnlyHealthMembers(ms[..n]);
      assert ms == ms[..n] + [ms[n]];
    }
  }

  lemma {:induction false} LastRowsOnlyHealth(ms: seq<C.Message>)
    ensures LastRows(OnlyHealth(ms)) == LastRows(ms)
  {
    hide IsHealth, KeyOf, RowOf;
    if ms != [] {
      var n := |ms| - 1;
      LastRowsOnlyHealth(ms[..n]);
      var kept := OnlyHealth(ms[..n]);
      if IsHealth(ms[n]) {
        assert (kept + [ms[n]])[..|kept|] == kept;
      } else {
        assert kept + [] == kept;
      }
    }
  }

  /** A relation every pair of a device's messages keeps in the filtered list holds in the whole list. */
  predicate InStep(a: C.Message, b: C.Message) {
    SameDevice(a, b) ==> TimeOf(a) <= TimeOf(b) && a.topic == b.topic
  }

  predicate AllInStep(ms: seq<C.Message>) {
    forall i, j :: 0 <= i < j < |ms| ==> InStep(ms[i], ms[j])
  }

  lemma {:induction false} OnlyHealthInStep(ms: seq<C.Message>)
    requires AllInStep(OnlyHealth(ms))
    ensures AllInStep(ms)
  {
    hide C.Validate;
    if ms != [] {
      var n := |ms| - 1;
      var kept, all := OnlyHealth(ms[..n]), OnlyHealth(ms);
      OnlyHealthMembers(ms[..n]);
      assert forall i :: 0 <= i < |kept| ==> all[i] == kept[i];
      OnlyHealthInStep(ms[..n]);
      forall i, j | 0 <= i < j < |ms| ensures InStep(ms[i], ms[j]) {
        if j < n {
          assert InStep(ms[..n][i], ms[..n][j]);
        } else if IsHealth(ms[i]) && IsHealth(ms[n]) {
          assert ms[..n][i] in kept;
          var k :| 0 <= k < |kept| && kept[k] == ms[i];
          assert InStep(all[k], all[|kept|]);
        }
      }
    }
  }

  /** Every event was publishable and fits the wire, from one site. */
  predicate AllAcceptable(site: string, events: seq<Event>, os: seq<Origin>)
    requires |os| == |events|
  {
    forall i :: 0 <= i < |events| ==> Acceptable(site, events[i], os[i])
  }

  predicate Acceptable(site: string, e: Event, o: Origin) {
    o.siteID == site && OriginNamed(o) && EventNamed(e) && FitsWire(o, e)
  }

  lemma {:induction false} StreamMessageAt(events: seq<Event>, os: seq<Origin>, ids: seq<C.EventId>, i: nat)
    requires |os| == |events| == |ids| && i < |events|
    ensures |StreamMessages(events, os, ids)| == |events|
    ensures StreamMessages(events, os, ids)[i] == HealthMessage(os[i], events[i], ids[i])
  {
    hide HealthMessage;
    var n := |events| - 1;
    if i < n {
      StreamMessageAt(events[..n], os[..n], ids[..n], i);
    } else if n > 0 {
      StreamMessageAt(events[..n], os[..n], ids[..n], 0);
    }
  }

  lemma AcceptableMessage(site: string, e: Event, o: Origin, id: C.EventId)
    requires Acceptable(site, e, o)
    ensures var m := HealthMessage(o, e, id);
      && IsHealth(m) && KeyOf(m) == C.Key(site, e.deviceID) && TimeOf(m) == e.observedAt
      && RowOf(m).health == BodyOf(e) && m.topic == C.Topic(C.HealthV2, site, e.deviceID)
  {
    MessageAccepted(o, e, id);
    hide C.Validate, EventNamed, OriginNamed, FitsWire, BodyOf;
  }

  lemma StreamInStep(site: string, events: seq<Event>, os: seq<Origin>, ids: seq<C.EventId>)
    requires |os| == |events| == |ids| && AllAcceptable(site, events, os) && EventTimesOk(events)
    ensures AllInStep(StreamMessages(events, os, ids))
  {
    var ms := StreamMessages(events, os, ids);
    hide HealthMessage, StreamMessages, C.Validate, Acceptable;
    if events != [] { StreamMessageAt(events, os, ids, 0); } else { StreamEmpty(events, os, ids); }
    forall i, j | 0 <= i < j < |ms| ensures InStep(ms[i], ms[j]) {
      StreamMessageAt(events, os, ids, i);
      StreamMessageAt(events, os, ids, j);
      AcceptableMessage(site, events[i], os[i], ids[i]);
      AcceptableMessage(site, events[j], os[j], ids[j]);
    }
  }

  lemma StreamEmpty(events: seq<Event>, os: seq<Origin>, ids: seq<C.EventId>)
    requires events == [] && os == [] && ids == []
    ensures StreamMessages(events, os, ids) == []
  {
  }

  /** Replaying the events and keeping each device's last message tell the same story. */
  predicate Shows(rows: map<C.Key, Ingestion.HealthRow>, site: string, id: Id, seen: Seen) {
    var k := C.Key(site, id);
    k in rows && rows[k].health.state == StateName(seen.state)
      && rows[k].health.alertsEnabled == Some(seen.alertsEnabled)
  }

  lemma AcceptablePrefix(site: string, events: seq<Event>, os: seq<Origin>, n: nat)
    requires |os| == |events| && n < |events| && AllAcceptable(site, events, os)
    ensures AllAcceptable(site, events[..n], os[..n]) && Acceptable(site, events[n], os[n])
  {
    hide Acceptable;
    forall i | 0 <= i < n ensures Acceptable(site, events[..n][i], os[..n][i]) {
      assert Acceptable(site, events[i], os[i]);
    }
  }

  /** One more acceptable message: its device's row, and nobody else's, becomes what it says. */
  lemma LastRowsNext(site: string, ms: seq<C.Message>, e: Event, o: Origin, eventID: C.EventId, id: Id, seen: Seen)
    requires Acceptable(site, e, o)
    ensures var rows := LastRows(ms + [HealthMessage(o, e, eventID)]);
      if id == e.deviceID then Shows(rows, site, id, Seen(e.state, e.alertsEnabled))
      else Shows(LastRows(ms), site, id, seen) ==> Shows(rows, site, id, seen)
  {
    var m := HealthMessage(o, e, eventID);
    AcceptableMessage(site, e, o, eventID);
    assert (ms + [m])[..|ms|] == ms;
    hide HealthMessage, C.Validate, Acceptable, StateName, IsHealth, KeyOf, RowOf, TimeOf;
  }

  lemma {:induction false} LastRowsReplay(site: string, events: seq<Event>, os: seq<Origin>, ids: seq<C.EventId>,
                                          id: Id)
    requires |os| == |events| == |ids| && AllAcceptable(site, events, os)
    requires id in ObserveAll(map[], events)
    ensures Shows(LastRows(StreamMessages(events, os, ids)), site, id, ObserveAll(map[], events)[id])
  {
    if events != [] {
      var n := |events| - 1;
      var seen := ObserveAll(map[], events)[id];
      AcceptablePrefix(site, events, os, n);
      LastRowsNext(site, StreamMessages(events[..n], os[..n], ids[..n]), events[n], os[n], ids[n], id, seen);
      hide HealthMessage, LastRows, Acceptable, Shows;
      if id != events[n].deviceID {
        LastRowsReplay(site, events[..n], os[..n], ids[..n], id);
      }
    }
  }

  lemma {:induction false} ObserveConcat(view: View, a: seq<Event>, b: seq<Event>)
    ensures ObserveAll(view, a + b) == ObserveAll(ObserveAll(view, a), b)
  {
    if b == [] {
      assert a + b == a;
    } else {
      var n := |b| - 1;
      assert (a + b)[..|a| + n] == a + b[..n];
      ObserveConcat(view, a, b[..n]);
    }
  }

  ghost predicate Within(a: View, b: View) {
    forall id :: id in a ==> id in b && a[id] == b[id]
  }

  lemma {:induction false} ObserveWithin(a: View, b: View, events: seq<Event>)
    requires Within(a, b)
    ensures Within(ObserveAll(a, events), ObserveAll(b, events))
  {
    if events != [] {
      ObserveWithin(a, b, events[..|events| - 1]);
    }
  }

  /** The reader who also forgets pruned devices knows nothing else than the full replay. */
  lemma {:induction false} ViewWithinReplay(steps: seq<TrackerStep>)
    ensures Within(Play(steps).view, ObserveAll(map[], AllEvents(steps)))
  {
    if steps != [] {
      var n := |steps| - 1;
      ViewWithinReplay(steps[..n]);
      var events := EventsOf(Play(steps[..n]).ledger, steps[n]);
      ObserveConcat(map[], AllEvents(steps[..n]), events);
      ObserveWithin(Play(steps[..n]).view, ObserveAll(map[], AllEvents(steps[..n])), events);
      hide Batch;
    }
  }

  lemma {:induction false} AllEventsNamed(steps: seq<TrackerStep>)
    requires AllLoaded(steps)
    ensures EventsNamed(AllEvents(steps))
  {
    if steps != [] {
      var n := |steps| - 1;
      hide EventNamed, Loaded, Batch;
      AllEventsNamed(steps[..n]);
      PlayNamed(steps);
    }
  }

  predicate OriginsOk(site: string, events: seq<Event>, os: seq<Origin>)
    requires |os| == |events|
  {
    forall i :: 0 <= i < |events| ==> os[i].siteID == site && OriginNamed(os[i]) && FitsWire(os[i], events[i])
  }

  /** Every tracker run, published in full through any delivery run without failed transactions: once all
      is settled, the backend's current row of each live device shows the ledger's state and alerts flag. */
  lemma LedgerReachesTable(max: int, delivery: seq<Step>, steps: seq<TrackerStep>,
                           site: string, os: seq<Origin>, ids: seq<C.EventId>, id: Id)
    requires AllLoaded(steps) && Chronological(AllOutcomes(steps))
    requires |os| == |AllEvents(steps)| == |ids| && OriginsOk(site, AllEvents(steps), os)
    requires Smooth(delivery) && Settled(Run(max, delivery))
    requires DistinctEventIds(Run(max, delivery).c.enqueued)
    requires OnlyHealth(Run(max, delivery).c.enqueued) == StreamMessages(AllEvents(steps), os, ids)
    requires id in Play(steps).ledger && Play(steps).ledger[id].hasState
    ensures var e := Play(steps).ledger[id];
      Shows(Run(max, delivery).r.tables.healthCurrent, site, id, Seen(e.state, e.alertsEnabledPublished))
  {
    hide *;
    var events, ms := AllEvents(steps), Run(max, delivery).c.enqueued;
    AllEventsNamed(steps);
    OriginsAcceptable(site, events, os);
    EventTimesNeverDecrease(steps);
    StreamInStep(site, events, os, ids);
    OnlyHealthInStep(ms);
    InStepOrdered(ms);
    ConvergesToLast(max, delivery);
    LastRowsOnlyHealth(ms);
    StreamReplaysToLedger(steps);
    ViewWithinReplay(steps);
    LiveInReplay(steps, id);
    LastRowsReplay(site, events, os, ids, id);
  }

  /** What a full replay says of a live device is what the ledger says. */
  lemma LiveInReplay(steps: seq<TrackerStep>, id: Id)
    requires Agrees(Play(steps).ledger, Play(steps).view)
    requires Within(Play(steps).view, ObserveAll(map[], AllEvents(steps)))
    requires id in Play(steps).ledger && Play(steps).ledger[id].hasState
    ensures var e, replay := Play(steps).ledger[id], ObserveAll(map[], AllEvents(steps));
      id in replay && replay[id] == Seen(e.state, e.alertsEnabledPublished)
  {
    hide Play, ObserveAll, AllEvents;
    assert AgreesAt(Play(steps).ledger[id], Play(steps).view, id);
  }

  lemma OriginsAcceptable(site: string, events: seq<Event>, os: seq<Origin>)
    requires |os| == |events| && OriginsOk(site, events, os) && EventsNamed(events)
    ensures AllAcceptable(site, events, os)
  {
    hide OriginNamed, EventNamed, FitsWire;
    forall i | 0 <= i < |events| ensures Acceptable(site, events[i], os[i]) {
      assert events[i] in events;
    }
  }

  lemma InStepOrdered(ms: seq<C.Message>)
    requires AllInStep(ms) && DistinctEventIds(ms)
    ensures OrderedHistory(ms)
  {
    hide C.Validate;
    assert forall i, j :: 0 <= i < j < |ms| ==> InStep(ms[i], ms[j]);
  }
}
