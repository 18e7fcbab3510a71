/** Which messages the ingestion service takes in and what each one does to its tables, condition by condition. */
module Acceptance {
  import opened Ids
  import opened Contract
  import opened Ingestion

  /** An identifier once trimmed. */
  predicate NamesOne(v: string) {
    |Trim(v)| <= 128 && MatchesPattern(Trim(v))
  }

  predicate AllNameOne(ids: seq<string>) {
    forall i :: 0 <= i < |ids| ==> NamesOne(ids[i])
  }

  /** What every envelope needs, for a topic that was printed for `site`. */
  predicate EnvelopeFits(env: Envelope, site: string) {
    && env.schemaVersion == "2.0" && env.eventID.Some? && env.observedAt.Some? && env.emittedAt.Some?
    && env.siteID == site && |site| <= 128 && NamesOne(env.collectorID)
    && !AllSpace(env.configRevision) && |env.configRevision| <= 128
  }

  /** Device events name the topic's device, and any collector. */
  predicate DeviceEnvelopeFits(env: Envelope, eventType: string, site: string, device: string) {
    EnvelopeFits(env, site) && env.eventType == eventType && env.deviceID == device && |device| <= 128
  }

  predicate NotNegative(n: Option<int>) {
    n.Some? && n.value >= 0
  }

  predicate HeartbeatBodyFits(b: HeartbeatBody) {
    && !AllSpace(b.hostname) && !AllSpace(b.version) && !AllSpace(b.gitCommit) && !AllSpace(b.buildTime)
    && (b.buildTimeReadable || b.buildTime == "unknown")
    && NotNegative(b.uptimeSeconds) && NotNegative(b.sqliteQueueDepth)
    && NotNegative(b.memoryUsageBytes) && NotNegative(b.goroutineCount)
  }

  predicate HeartbeatFits(m: Message, site: string, collector: string) {
    && m.payload.Document? && EnvelopeFits(m.payload.env, site) && m.payload.env.eventType == "collector_heartbeat"
    && m.payload.env.deviceID == "" && m.payload.env.collectorID == collector
    && m.payload.body.Heartbeat? && HeartbeatBodyFits(m.payload.body.heartbeat)
  }

  predicate HealthBodyFits(h: HealthBody) {
    && h.state in {"healthy", "warning", "critical", "unknown"}
    && h.reason in {"reachable", "temperature_threshold", "direct_unreachable", "upstream_unreachable", "recovered"}
    && h.transition in {"initial", "entered", "recovered", "reasserted"}
    && (h.previousState.Some? ==> h.previousState.value in {"healthy", "warning", "critical", "unknown"})
    && NotNegative(h.failureCount) && h.failureThreshold.Some? && h.failureThreshold.value > 0
    && h.upstreamDeviceIDs.Some? && AllNameOne(h.upstreamDeviceIDs.value)
    && h.unavailableUpstream.Some? && AllNameOne(h.unavailableUpstream.value)
    && h.rootCauses.Some? && AllNameOne(h.rootCauses.value)
  }

  predicate HealthFits(m: Message, site: string, device: string) {
    && m.payload.Document? && DeviceEnvelopeFits(m.payload.env, "health_state", site, device)
    && m.payload.body.Health? && HealthBodyFits(m.payload.body.health)
  }

  predicate ReadingsFit(m: Message, eventType: string, site: string, device: string) {
    && m.payload.Document? && DeviceEnvelopeFits(m.payload.env, eventType, site, device)
    && m.payload.body.Readings? && m.payload.body.wellFormed
  }

  lemma NamesAre(v: string)
    ensures CheckIdentifier(v) <==> NamesOne(v)
    ensures MatchesPattern(v) ==> (NamesOne(v) <==> |v| <= 128)
  {
    if MatchesPattern(v) { PatternTrimmed(v); }
    hide Trim;
  }

  lemma AllNamesAre(ids: seq<string>)
    ensures AllIdentifiers(ids) <==> AllNameOne(ids)
  {
    forall i | 0 <= i < |ids| ensures CheckIdentifier(ids[i]) <==> NamesOne(ids[i]) {
      NamesAre(ids[i]);
    }
    hide CheckIdentifier, NamesOne;
  }

  lemma FitsShort(p: Payload, site: string)
    ensures p.Document? && EnvelopeFits(p.env, site) ==>
      && |site| <= 128 && p.env.siteID == site && NamesOne(p.env.collectorID)
      && p.env.eventID.Some? && p.env.observedAt.Some?
  {
    hide NamesOne, AllSpace;
  }

  lemma EnvelopesAre(env: Envelope, body: Body, k: Kind, site: string, owner: string)
    requires MatchesPattern(site) && MatchesPattern(owner) && |site| <= 128 && |owner| <= 128
    ensures ValidEnvelope(env, body, TopicParts(site, owner, k)) <==>
      && EnvelopeFits(env, site) && body != Missing && env.eventType == EventType(k)
      && if k == HeartbeatV2 then env.deviceID == "" && env.collectorID == owner else env.deviceID == owner
  {
    NamesAre(site);
    NamesAre(owner);
    NamesAre(env.collectorID);
    NotBlank(env.configRevision);
    hide CheckIdentifier, NamesOne, MatchesPattern, Trim, AllSpace;
  }

  lemma HeartbeatsAre(b: HeartbeatBody)
    ensures ValidHeartbeat(b) <==> HeartbeatBodyFits(b)
  {
    NotBlank(b.hostname);
    NotBlank(b.version);
    NotBlank(b.gitCommit);
    NotBlank(b.buildTime);
    hide Trim, AllSpace;
  }

  lemma HealthIs(h: HealthBody)
    ensures ValidHealth(h) <==> HealthBodyFits(h)
  {
    if h.upstreamDeviceIDs.Some? { AllNamesAre(h.upstreamDeviceIDs.value); }
    if h.unavailableUpstream.Some? { AllNamesAre(h.unavailableUpstream.value); }
    if h.rootCauses.Some? { AllNamesAre(h.rootCauses.value); }
    hide AllIdentifiers, AllNameOne;
  }

  /** A heartbeat topic: accepted exactly when all conditions hold, with the body as it was sent. */
  lemma HeartbeatAccepted(m: Message, site: string, collector: string)
    requires MatchesPattern(site) && MatchesPattern(collector)
    requires m.topic == "site/" + site + "/collector/" + collector + "/telemetry/v2/heartbeat"
    ensures Validate(m) ==
      if HeartbeatFits(m, site, collector) then
        HeartbeatEvent(m.payload.env.eventID.value, Key(site, collector), m.payload.env.observedAt.value,
                       m.payload.body.heartbeat)
      else Rejected
  {
    ParseInvertsTopic(HeartbeatV2, site, collector);
    NamesAre(collector);
    if m.payload.Document? && |site| <= 128 && |collector| <= 128 {
      EnvelopesAre(m.payload.env, m.payload.body, HeartbeatV2, site, collector);
      if m.payload.body.Heartbeat? { HeartbeatsAre(m.payload.body.heartbeat); }
    }
    hide ParseTopicV2, ValidEnvelope, ValidHeartbeat, HeartbeatBodyFits, EnvelopeFits, NamesOne, MatchesPattern,
      CheckIdentifier;
    FitsShort(m.payload, site);
  }

  /** A health body as it is stored: a missing alerts flag counts as alerting. */
  function Stored(h: HealthBody): HealthBody {
    h.(alertsEnabled := Some(h.alertsEnabled != Some(false)))
  }

  lemma StoredIs(h: HealthBody)
    ensures Normalize(h) == Stored(h)
  {
    if h.alertsEnabled.Some? {
      var flag := h.alertsEnabled.value;
      assert flag || h.alertsEnabled == Some(false);
    }
  }

  lemma ValidHealthMessage(m: Message, tp: TopicParts)
    requires ParseTopicV2(m.topic) == Some(tp) && tp.kind == HealthV2 && m.payload.Document?
    requires ValidEnvelope(m.payload.env, m.payload.body, tp)
    ensures m.payload.env.eventID.Some? && m.payload.env.observedAt.Some?
    ensures Validate(m) ==
      if m.payload.body.Health? && ValidHealth(m.payload.body.health) then
        HealthEvent(m.payload.env.eventID.value, Key(m.payload.env.siteID, m.payload.env.deviceID),
                    m.payload.env.observedAt.value, Stored(m.payload.body.health))
      else Rejected
  {
    if m.payload.body.Health? { StoredIs(m.payload.body.health); }
    hide ParseTopicV2, ValidHealth, Normalize, Stored, CheckIdentifier;
  }

  /** A health topic: the same; only a missing alerts flag is filled in. */
  lemma HealthAccepted(m: Message, site: string, device: string)
    requires MatchesPattern(site) && MatchesPattern(device)
    requires m.topic == "site/" + site + "/device/" + device + "/telemetry/v2/health"
    ensures Validate(m) ==
      if HealthFits(m, site, device) then
        HealthEvent(m.payload.env.eventID.value, Key(site, device), m.payload.env.observedAt.value,
                    Stored(m.payload.body.health))
      else Rejected
  {
    ParseInvertsTopic(HealthV2, site, device);
    if m.payload.Document? && |site| <= 128 && |device| <= 128 {
      EnvelopesAre(m.payload.env, m.payload.body, HealthV2, site, device);
      if m.payload.body.Health? { HealthIs(m.payload.body.health); }
      var tp := TopicParts(site, device, HealthV2);
      if ValidEnvelope(m.payload.env, m.payload.body, tp) { ValidHealthMessage(m, tp); }
    }
    hide ParseTopicV2, ValidEnvelope, ValidHealth, HealthBodyFits, EnvelopeFits, MatchesPattern, Stored, Normalize;
    FitsShort(m.payload, site);
  }

  /** Device and interface topics. */
  lemma ReadingsAccepted(m: Message, interfaces: bool, site: string, device: string)
    requires MatchesPattern(site) && MatchesPattern(device)
    requires m.topic ==
      if interfaces then "site/" + site + "/device/" + device + "/telemetry/v2/interface"
      else "site/" + site + "/device/" + device + "/telemetry/v2/device"
    ensures Validate(m) ==
      if ReadingsFit(m, if interfaces then "interface_telemetry" else "device_telemetry", site, device) then
        ReadingsEvent(m.payload.env.eventID.value, m.payload.env.observedAt.value)
      else Rejected
  {
    var k := if interfaces then InterfaceV2 else DeviceV2;
    ParseInvertsTopic(k, site, device);
    if m.payload.Document? && |site| <= 128 && |device| <= 128 {
      EnvelopesAre(m.payload.env, m.payload.body, k, site, device);
    }
    hide ParseTopicV2, ValidEnvelope, EnvelopeFits, MatchesPattern;
    FitsShort(m.payload, site);
  }

  // ---- What an accepted message does ----

  /** Nothing happens, and the broker may forget the message or not. */
  predicate Ignored(r: Handled, t: Tables, ack: bool) {
    r == Handled(ack, false, t)
  }

  /** A fitting heartbeat: inserted when neither its event nor its history row is there yet, and then shown unless
      the collector shows one that is as new; a seen event is acknowledged, and a failing database is not. */
  lemma HeartbeatTakesEffect(t: Tables, m: Message, site: string, collector: string)
    requires MatchesPattern(site) && MatchesPattern(collector) && HeartbeatFits(m, site, collector)
    requires m.topic == "site/" + site + "/collector/" + collector + "/telemetry/v2/heartbeat"
    ensures m.payload.env.eventID.Some? && m.payload.env.observedAt.Some?
    ensures var id, at, k := m.payload.env.eventID.value, m.payload.env.observedAt.value, Key(site, collector);
      var row, r := StatusRow(id, at, m.payload.body.heartbeat), Handle(t, m, false);
      var asNew := k in t.statusCurrent && t.statusCurrent[k].observedAt >= at;
      if id in t.ingested then Ignored(r, t, true)
      else if id in t.statusHistory then Ignored(r, t, false)
      else r == Handled(true, true, t.(ingested := t.ingested[id := at], statusHistory := t.statusHistory[id := row],
                                       statusCurrent := if asNew then t.statusCurrent else t.statusCurrent[k := row]))
    ensures Ignored(Handle(t, m, true), t, false)
  {
    HeartbeatAccepted(m, site, collector);
    FitsShort(m.payload, site);
    hide Validate, HeartbeatBodyFits, EnvelopeFits, MatchesPattern;
  }

  /** A fitting health event: the same, but it is shown unless the device shows a strictly newer one. */
  lemma HealthTakesEffect(t: Tables, m: Message, site: string, device: string)
    requires MatchesPattern(site) && MatchesPattern(device) && HealthFits(m, site, device)
    requires m.topic == "site/" + site + "/device/" + device + "/telemetry/v2/health"
    ensures m.payload.env.eventID.Some? && m.payload.env.observedAt.Some?
    ensures var id, at, k := m.payload.env.eventID.value, m.payload.env.observedAt.value, Key(site, device);
      var row, r := HealthRow(id, at, Stored(m.payload.body.health)), Handle(t, m, false);
      var newer := k in t.healthCurrent && t.healthCurrent[k].observedAt > at;
      if id in t.ingested then Ignored(r, t, true)
      else if id in t.healthHistory then Ignored(r, t, false)
      else r == Handled(true, true, t.(ingested := t.ingested[id := at], healthHistory := t.healthHistory[id := row],
                                       healthCurrent := if newer then t.healthCurrent else t.healthCurrent[k := row]))
    ensures Ignored(Handle(t, m, true), t, false)
  {
    HealthAccepted(m, site, device);
    FitsShort(m.payload, site);
    hide Validate, HealthBodyFits, EnvelopeFits, MatchesPattern, Stored;
  }

  /** Fitting readings are recorded as seen; whatever does not fit is acknowledged and changes nothing. */
  lemma ReadingsTakeEffect(t: Tables, m: Message, interfaces: bool, site: string, device: string, down: bool)
    requires MatchesPattern(site) && MatchesPattern(device)
    requires m.topic ==
      if interfaces then "site/" + site + "/device/" + device + "/telemetry/v2/interface"
      else "site/" + site + "/device/" + device + "/telemetry/v2/device"
    ensures var r := Handle(t, m, down);
      if !ReadingsFit(m, if interfaces then "interface_telemetry" else "device_telemetry", site, device) then
        Ignored(r, t, true)
      else if down then Ignored(r, t, false)
      else if m.payload.env.eventID.value in t.ingested then Ignored(r, t, true)
      else r == Handled(true, true,
                        t.(ingested := t.ingested[m.payload.env.eventID.value := m.payload.env.observedAt.value]))
  {
    ReadingsAccepted(m, interfaces, site, device);
    if m.payload.Document? { FitsShort(m.payload, site); }
    hide Validate, EnvelopeFits, MatchesPattern;
  }

  /** A message that does not fit its topic is acknowledged and changes nothing. */
  lemma UnfitIgnored(t: Tables, m: Message, site: string, owner: string, down: bool)
    requires MatchesPattern(site) && MatchesPattern(owner)
    requires
      || (m.topic == "site/" + site + "/collector/" + owner + "/telemetry/v2/heartbeat"
          && !HeartbeatFits(m, site, owner))
      || (m.topic == "site/" + site + "/device/" + owner + "/telemetry/v2/health" && !HealthFits(m, site, owner))
    ensures Ignored(Handle(t, m, down), t, true)
  {
    if m.topic == "site/" + site + "/collector/" + owner + "/telemetry/v2/heartbeat" && !HeartbeatFits(m, site, owner) {
      HeartbeatAccepted(m, site, owner);
    } else {
      HealthAccepted(m, site, owner);
    }
    hide Validate, HealthFits, HeartbeatFits, MatchesPattern;
  }
}
