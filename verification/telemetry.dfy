/** Health events as wire messages, and when the ingestion service accepts them. */
module Telemetry {
  import opened Ids
  import opened Graphs
  import opened Config
  import opened EvaluationOrder
  import opened Health
  import opened HealthRuns
  import opened HealthConfluence
  import opened HealthStream
  import C = Contract

  function StateName(s: State): string {
    match s
    case Healthy => "healthy"
    case Warning => "warning"
    case Critical => "critical"
    case Unknown => "unknown"
  }

  function ReasonName(r: Reason): string {
    match r
    case Reachable => "reachable"
    case TemperatureThreshold => "temperature_threshold"
    case DirectUnreachable => "direct_unreachable"
    case UpstreamUnreachable => "upstream_unreachable"
    case RecoveredReason => "recovered"
  }

  function TransitionName(t: Transition): string {
    match t
    case Initial => "initial"
    case Entered => "entered"
    case Recovered => "recovered"
    case Reasserted => "reasserted"
  }

  // The identity shared by all events of one publish.
  datatype Origin = Origin(siteID: string, collectorID: string, configRevision: string, emittedAt: Time)

  function BodyOf(e: Event): C.HealthBody {
    C.HealthBody(
      StateName(e.state), ReasonName(e.reason),
      if e.previousState.Some? then Some(StateName(e.previousState.value)) else None,
      TransitionName(e.transition), Some(e.failureCount), Some(e.failureThreshold),
      e.temperatureC, e.temperatureWarningC,
      if e.policyRevision == "" then None else Some(e.policyRevision),
      Some(e.upstreamDeviceIDs), Some(e.unavailableUpstream), Some(e.rootCauses), Some(e.alertsEnabled))
  }

  /** One event as a message; `id` is its fresh event id. */
  function HealthMessage(o: Origin, e: Event, id: C.EventId): C.Message {
    C.Message(C.Topic(C.HealthV2, o.siteID, e.deviceID),
      C.Document(
        C.Envelope("2.0", Some(id), "health_state", o.siteID, o.collectorID, e.deviceID,
                   Some(e.observedAt), Some(o.emittedAt), o.configRevision),
        C.Health(BodyOf(e))))
  }

  predicate StateReads(name: string, s: State) {
    (name, s) in {("healthy", Healthy), ("warning", Warning), ("critical", Critical), ("unknown", Unknown)}
  }

  predicate ReasonReads(name: string, r: Reason) {
    (name, r) in {("reachable", Reachable), ("temperature_threshold", TemperatureThreshold),
                  ("direct_unreachable", DirectUnreachable), ("upstream_unreachable", UpstreamUnreachable),
                  ("recovered", RecoveredReason)}
  }

  predicate TransitionReads(name: string, t: Transition) {
    (name, t) in {("initial", Initial), ("entered", Entered), ("recovered", Recovered), ("reasserted", Reasserted)}
  }

  /** What the wire body says is the event, member by member. */
  lemma BodyReads(e: Event)
    ensures var b := BodyOf(e);
      && StateReads(b.state, e.state) && ReasonReads(b.reason, e.reason) && TransitionReads(b.transition, e.transition)
      && (b.previousState.Some? <==> e.previousState.Some?)
      && (b.previousState.Some? ==> StateReads(b.previousState.value, e.previousState.value))
      && b.failureCount == Some(e.failureCount) && b.failureThreshold == Some(e.failureThreshold)
      && b.temperatureC == e.temperatureC && b.temperatureWarningC == e.temperatureWarningC
      && b.policyRevision.GetOr("") == e.policyRevision && b.policyRevision != Some("")
      && b.upstreamDeviceIDs == Some(e.upstreamDeviceIDs) && b.unavailableUpstream == Some(e.unavailableUpstream)
      && b.rootCauses == Some(e.rootCauses) && b.alertsEnabled == Some(e.alertsEnabled)
  {
  }

  /** The envelope names the publisher, the event's device and its time, and goes to the device's health topic. */
  lemma EnvelopeReads(o: Origin, e: Event, id: C.EventId)
    ensures var m := HealthMessage(o, e, id);
      && m.topic == "site/" + o.siteID + "/device/" + e.deviceID + "/telemetry/v2/health" && m.payload.Document?
      && var env := m.payload.env;
         && (env.schemaVersion, env.eventType) == ("2.0", "health_state") && env.eventID == Some(id)
         && (env.siteID, env.collectorID, env.deviceID) == (o.siteID, o.collectorID, e.deviceID)
         && env.observedAt == Some(e.observedAt) && env.emittedAt == Some(o.emittedAt)
         && env.configRevision == o.configRevision
  {
  }

  datatype PublishMode = ModeV1 | ModeV2 | ModeBoth

  /** The messages of one cycle's events, in order; version 1 has no health events. */
  function HealthMessages(mode: PublishMode, o: Origin, events: seq<Event>, ids: seq<C.EventId>): seq<C.Message>
    requires |ids| == |events|
  {
    if mode == ModeV1 then []
    else seq(|events|, i requires 0 <= i < |events| && |ids| == |events| => HealthMessage(o, events[i], ids[i]))
  }

  method HealthEvents(mode: PublishMode, o: Origin, events: seq<Event>, ids: seq<C.EventId>)
    returns (out: seq<C.Message>)
    requires |ids| == |events|
    ensures out == HealthMessages(mode, o, events, ids)
    ensures out == [] <==> mode == ModeV1 || events == []
  {
    if mode != ModeV2 && mode != ModeBoth { return []; }
    out := [];
    var i := 0;
    while i < |events|
      invariant 0 <= i <= |events| && |out| == i
      invariant forall k :: 0 <= k < i ==> out[k] == HealthMessage(o, events[k], ids[k])
    {
      out := out + [HealthMessage(o, events[i], ids[i])];
      i := i + 1;
    }
  }

  // ---- What a loaded configuration guarantees about names ----

  /** Every device id follows the identifier pattern and the dependency check accepted the inventory. */
  ghost predicate Loaded(cfg: Settings) {
    && (forall d :: d in cfg.devices ==> C.MatchesPattern(d.id))
    && AcceptableDependencies(cfg.devices)
  }

  predicate AllNames(ids: seq<Id>) {
    forall i :: 0 <= i < |ids| ==> C.MatchesPattern(ids[i])
  }

  predicate EventNamed(e: Event) {
    && C.MatchesPattern(e.deviceID)
    && AllNames(e.upstreamDeviceIDs) && AllNames(e.unavailableUpstream) && AllNames(e.rootCauses)
    && e.failureCount >= 0 && e.failureThreshold >= 1
  }

  predicate LedgerNamed(ledger: Ledger) {
    forall id :: id in ledger ==> C.MatchesPattern(id) && ledger[id].failureCount >= 0
  }

  predicate EventsNamed(events: seq<Event>) {
    forall e :: e in events ==> EventNamed(e)
  }

  lemma SortedNames(S: set<Id>)
    requires forall x :: x in S ==> C.MatchesPattern(x)
    ensures AllNames(SortSet(S))
  {
    hide C.MatchesPattern;
    var s := SortSet(S);
    forall i | 0 <= i < |s| ensures C.MatchesPattern(s[i]) {
      InElems(s, i);
    }
  }

  lemma LoadedNames(cfg: Settings, id: Id)
    requires Loaded(cfg) && id in cfg.DeviceIndex()
    ensures C.MatchesPattern(id) && AllNames(Normalized(cfg.DeviceIndex()[id].Upstreams()))
  {
    hide C.MatchesPattern;
    IndexKeys(cfg.devices);
    var d := cfg.DeviceIndex()[id];
    assert UpstreamsWellFormed(Index(cfg.devices).Keys, d);
    forall u | u in Elems(d.Upstreams()) - {""} ensures C.MatchesPattern(u) {
      assert u in Index(cfg.devices);
      assert Index(cfg.devices)[u] in cfg.devices;
    }
    SortedNames(Elems(d.Upstreams()) - {""});
  }

  lemma CausesNamed(ledger: Ledger, from: seq<Id>)
    requires LedgerNamed(ledger)
    ensures AllNames(SortSet(CriticalBehind(ledger, from)))
  {
    hide C.MatchesPattern;
    SortedNames(CriticalBehind(ledger, from));
  }

  lemma SettleNamed(cfg: Settings, s: Evaluated, id: Id)
    requires Loaded(cfg) && id in cfg.DeviceIndex() && id in s.ledger
    requires LedgerNamed(s.ledger) && EventsNamed(s.events)
    ensures LedgerNamed(Settle(cfg, s, id).ledger) && EventsNamed(Settle(cfg, s, id).events)
  {
    hide C.MatchesPattern, Normalized, CriticalBehind, Loaded;
    LoadedNames(cfg, id);
    var ups := Normalized(cfg.DeviceIndex()[id].Upstreams());
    CausesNamed(s.ledger, ups);
    var v := VerdictAt(cfg, s.ledger, id);
    assert v.Decided? ==> AllNames(v.unavailable) && AllNames(v.rootCauses);
    hide FailureVerdict, SuccessVerdict, VerdictFor, AllNames;
    var more := EventsAfter(cfg, id, s.ledger[id], v);
    forall e | e in s.events + more ensures EventNamed(e) {
      assert e in s.events || e in more;
    }
  }

  lemma {:induction false} EvaluateNamed(cfg: Settings, ledger: Ledger, order: seq<Id>)
    requires Loaded(cfg) && Known(cfg, ledger, order) && LedgerNamed(ledger)
    ensures var r := Evaluate(cfg, ledger, order);
      LedgerNamed(r.ledger) && EventsNamed(r.events)
  {
    if order != [] {
      EvaluateNamed(cfg, ledger, order[..|order| - 1]);
      hide LedgerNamed, EventsNamed, Settle, Loaded;
      SettleNamed(cfg, Evaluate(cfg, ledger, order[..|order| - 1]), order[|order| - 1]);
    }
  }

  lemma {:induction false} RecordNamed(ledger: Ledger, outcomes: seq<PollOutcome>)
    requires LedgerNamed(ledger)
    ensures LedgerNamed(RecordAll(ledger, outcomes))
  {
    if outcomes != [] {
      RecordNamed(ledger, outcomes[..|outcomes| - 1]);
      hide C.MatchesPattern;
    }
  }

  lemma SortedNamed(events: seq<Event>)
    requires EventsNamed(events)
    ensures EventsNamed(SortBy(events, DeviceOf))
  {
    hide EventNamed, SortBy;
    SortByProps(events, DeviceOf);
    MultisetFacts(events, SortBy(events, DeviceOf));
    assert forall e :: e in SortBy(events, DeviceOf) ==> e in Elems(SortBy(events, DeviceOf));
  }

  lemma EntriesNamed(cfg: Settings, ledger: Ledger)
    requires Loaded(cfg) && LedgerNamed(ledger)
    ensures LedgerNamed(WithEntries(ledger, cfg.DeviceIndex().Keys))
  {
    hide C.MatchesPattern, Loaded, Normalized, AllNames, Index;
    forall id | id in cfg.DeviceIndex() ensures C.MatchesPattern(id) {
      LoadedNames(cfg, id);
    }
  }

  lemma CycleNamed(cfg: Settings, ledger: Ledger, outcomes: seq<PollOutcome>)
    requires Loaded(cfg) && LedgerNamed(ledger)
    ensures var r := Batch(cfg, ledger, outcomes);
      LedgerNamed(r.ledger) && EventsNamed(r.events)
  {
    hide KahnOrder, Evaluate, SortBy, LedgerNamed, EventsNamed, WithEntries, RecordAll, Loaded;
    EntriesNamed(cfg, ledger);
    RecordNamed(WithEntries(ledger, cfg.DeviceIndex().Keys), outcomes);
    OrderKnown(cfg, ledger, outcomes);
    EvaluateNamed(cfg, Recorded(cfg, ledger, outcomes), KahnOrder(cfg.Upstreams()));
    SortedNamed(Evaluate(cfg, Recorded(cfg, ledger, outcomes), KahnOrder(cfg.Upstreams())).events);
  }

  ghost predicate AllLoaded(steps: seq<TrackerStep>) {
    forall i :: 0 <= i < |steps| && steps[i].Cycle? ==> Loaded(steps[i].cfg)
  }

  lemma {:induction false} PlayNamed(steps: seq<TrackerStep>)
    requires AllLoaded(steps)
    ensures LedgerNamed(Play(steps).ledger)
    ensures steps != [] ==> EventsNamed(EventsOf(Play(steps[..|steps| - 1]).ledger, steps[|steps| - 1]))
  {
    hide C.MatchesPattern, Loaded;
    if steps != [] {
      var n := |steps| - 1;
      PlayNamed(steps[..n]);
      match steps[n]
      case Cycle(cfg, outcomes) => CycleNamed(cfg, Play(steps[..n]).ledger, outcomes);
      case Retain(_) =>
    }
  }

  // ---- The contract between the two services ----

  predicate AllShort(ids: seq<Id>) {
    forall i :: 0 <= i < |ids| ==> |ids[i]| <= C.MAX_IDENTIFIER
  }

  /** Every identifier in the message fits the ingestion service's bound. */
  predicate FitsWire(o: Origin, e: Event) {
    && |o.siteID| <= C.MAX_IDENTIFIER && |o.collectorID| <= C.MAX_IDENTIFIER && |e.deviceID| <= C.MAX_IDENTIFIER
    && AllShort(e.upstreamDeviceIDs) && AllShort(e.unavailableUpstream) && AllShort(e.rootCauses)
  }

  predicate OriginNamed(o: Origin) {
    && C.MatchesPattern(o.siteID) && C.MatchesPattern(o.collectorID)
    && C.Trim(o.configRevision) != "" && |o.configRevision| <= C.MAX_IDENTIFIER
  }

  lemma NamesShort(ids: seq<Id>)
    requires AllNames(ids)
    ensures C.AllIdentifiers(ids) <==> AllShort(ids)
  {
    forall i | 0 <= i < |ids| ensures C.CheckIdentifier(ids[i]) <==> |ids[i]| <= C.MAX_IDENTIFIER {
      C.PatternTrimmed(ids[i]);
    }
    hide C.CheckIdentifier, C.MatchesPattern;
  }

  lemma NamesAccepted(e: Event)
    ensures C.IsStateName(StateName(e.state))
    ensures BodyOf(e).reason in {"reachable", "temperature_threshold", "direct_unreachable", "upstream_unreachable",
      "recovered"}
    ensures BodyOf(e).transition in {"initial", "entered", "recovered", "reasserted"}
    ensures BodyOf(e).previousState.Some? ==> C.IsStateName(BodyOf(e).previousState.value)
  {
  }

  lemma BodyAccepted(e: Event)
    requires EventNamed(e)
    ensures C.ValidHealth(BodyOf(e)) <==>
      AllShort(e.upstreamDeviceIDs) && AllShort(e.unavailableUpstream) && AllShort(e.rootCauses)
    ensures C.Normalize(BodyOf(e)) == BodyOf(e)
  {
    NamesAccepted(e);
    NamesShort(e.upstreamDeviceIDs);
    NamesShort(e.unavailableUpstream);
    NamesShort(e.rootCauses);
    hide C.AllIdentifiers, AllShort, AllNames, C.IsStateName, StateName, ReasonName, TransitionName;
  }

  /** A named event is accepted exactly when its identifiers fit, and arrives as it was sent. */
  lemma MessageAccepted(o: Origin, e: Event, id: C.EventId)
    requires OriginNamed(o) && EventNamed(e)
    ensures C.Validate(HealthMessage(o, e, id)) ==
      if FitsWire(o, e) then C.HealthEvent(id, C.Key(o.siteID, e.deviceID), e.observedAt, BodyOf(e)) else C.Rejected
  {
    C.ParseInvertsTopic(C.HealthV2, o.siteID, e.deviceID);
    C.PatternTrimmed(o.siteID);
    C.PatternTrimmed(e.deviceID);
    C.PatternTrimmed(o.collectorID);
    BodyAccepted(e);
    hide C.ParseTopicV2, C.CheckIdentifier, C.MatchesPattern, C.Topic, C.ValidHealth, C.Normalize, BodyOf, C.Trim;
  }

  /** Over every run: whatever event a cycle emits passes the ingestion service's checks exactly when no
      identifier in it exceeds the service's bound, which the collector's own checks do not impose. */
  lemma EmittedEventsAccepted(steps: seq<TrackerStep>, o: Origin, e: Event, id: C.EventId)
    requires steps != [] && AllLoaded(steps) && OriginNamed(o)
    requires e in EventsOf(Play(steps[..|steps| - 1]).ledger, steps[|steps| - 1])
    ensures C.Validate(HealthMessage(o, e, id)) ==
      if FitsWire(o, e) then C.HealthEvent(id, C.Key(o.siteID, e.deviceID), e.observedAt, BodyOf(e)) else C.Rejected
  {
    PlayNamed(steps);
    MessageAccepted(o, e, id);
  }

  const LONG_ID: Id := seq(129, _ => 'a')

  /** A name the collector loads and the ingestion service always rejects. */
  lemma LongIdNeverAccepted(host: string, o: Origin, e: Event, id: C.EventId, threshold: int, warningC: real)
    requires OriginNamed(o) && EventNamed(e) && e.deviceID == LONG_ID
    ensures Loaded(Settings(threshold, warningC, "", [DeviceConfig(LONG_ID, host, "", None, None, None, [])]))
    ensures C.Validate(HealthMessage(o, e, id)).Rejected?
  {
    MessageAccepted(o, e, id);
    var d := DeviceConfig(LONG_ID, host, "", None, None, None, []);
    assert [d][..0] == [];
    assert Index([d]) == map[LONG_ID := d];
    var g := DependencyGraph(Index([d]));
    forall p ensures !IsCycle(g, p) {
      assert g[LONG_ID] == [];
      assert IsCycle(g, p) ==> Edge(g, p[0], p[1]);
    }
  }
}
