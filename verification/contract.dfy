/** The wire contract between the collector and the ingestion service: topics, envelopes, payloads. */
module Contract {
  import opened Ids

  type Time = int
  type EventId = nat

  datatype Kind = DeviceV2 | InterfaceV2 | HealthV2 | HeartbeatV2

  function KindSegment(k: Kind): string {
    match k
    case DeviceV2 => "device"
    case InterfaceV2 => "interface"
    case HealthV2 => "health"
    case HeartbeatV2 => "heartbeat"
  }

  function OwnerSegment(k: Kind): string {
    if k == HeartbeatV2 then "collector" else "device"
  }

  /** The four topic printers; `owner` is the device, or the collector of a heartbeat. */
  function Topic(k: Kind, site: string, owner: string): string {
    match k
    case DeviceV2 => "site/" + site + "/device/" + owner + "/telemetry/v2/device"
    case InterfaceV2 => "site/" + site + "/device/" + owner + "/telemetry/v2/interface"
    case HealthV2 => "site/" + site + "/device/" + owner + "/telemetry/v2/health"
    case HeartbeatV2 => "site/" + site + "/collector/" + owner + "/telemetry/v2/heartbeat"
  }

  function Split(s: string, sep: char): (parts: seq<string>)
    ensures |parts| >= 1
  {
    if s == "" then [""]
    else
      var rest := Split(s[1..], sep);
      if s[0] == sep then [""] + rest else [[s[0]] + rest[0]] + rest[1..]
  }

  function Join(parts: seq<string>, sep: char): string
    requires |parts| >= 1
  {
    if |parts| == 1 then parts[0] else parts[0] + [sep] + Join(parts[1..], sep)
  }

  /** Splitting undoes joining when no part contains the separator; joining always undoes splitting. */
  lemma {:induction false} SplitJoin(parts: seq<string>, sep: char)
    requires |parts| >= 1 && forall i :: 0 <= i < |parts| ==> sep !in parts[i]
    ensures Split(Join(parts, sep), sep) == parts
    decreases |parts|
  {
    if |parts| == 1 {
      SplitPlain(parts[0], sep);
    } else {
      var rest := Join(parts[1..], sep);
      SplitJoin(parts[1..], sep);
      SplitAfter(parts[0], rest, sep);
      assert parts == [parts[0]] + parts[1..];
      assert Join(parts, sep) == parts[0] + [sep] + rest;
    }
  }

  lemma {:induction false} SplitPlain(s: string, sep: char)
    requires sep !in s
    ensures Split(s, sep) == [s]
  {
    if s != "" {
      SplitPlain(s[1..], sep);
      assert s == [s[0]] + s[1..];
    }
  }

  lemma {:induction false} SplitAfter(s: string, rest: string, sep: char)
    requires sep !in s
    ensures Split(s + [sep] + rest, sep) == [s] + Split(rest, sep)
  {
    var all := s + [sep] + rest;
    if s == "" {
      assert all[1..] == rest;
    } else {
      assert all[1..] == s[1..] + [sep] + rest;
      SplitAfter(s[1..], rest, sep);
      assert s == [s[0]] + s[1..];
    }
  }

  lemma {:induction false} JoinSplit(s: string, sep: char)
    ensures Join(Split(s, sep), sep) == s
  {
    if s != "" {
      JoinSplit(s[1..], sep);
      var rest := Split(s[1..], sep);
      assert s == [s[0]] + s[1..];
      if s[0] == sep {
        assert ([""] + rest)[1..] == rest;
        assert "" + [sep] + Join(rest, sep) == [sep] + Join(rest, sep);
      } else {
        var parts := [[s[0]] + rest[0]] + rest[1..];
        assert parts[1..] == rest[1..];
        if |rest| > 1 {
          assert ([s[0]] + rest[0]) + [sep] + Join(rest[1..], sep) == [s[0]] + (rest[0] + [sep] + Join(rest[1..], sep));
        }
      }
    }
  }

  // White space as the standard library trims it.
  predicate IsSpace(c: char) {
    c in "\t\n\r " || c as int in {11, 12, 0x85, 0xA0, 0x1680, 0x2028, 0x2029, 0x202F, 0x205F, 0x3000}
    || 0x2000 <= c as int <= 0x200A
  }

  function TrimLeft(s: string): string {
    if s != "" && IsSpace(s[0]) then TrimLeft(s[1..]) else s
  }

  function TrimRight(s: string): string {
    if s != "" && IsSpace(s[|s| - 1]) then TrimRight(s[..|s| - 1]) else s
  }

  function Trim(s: string): string {
    TrimRight(TrimLeft(s))
  }

  predicate AllSpace(s: string) {
    forall i :: 0 <= i < |s| ==> IsSpace(s[i])
  }

  /** The 25 white-space characters, by code point. */
  lemma SpacesByCode(c: char)
    ensures IsSpace(c) <==>
      c as int in {9, 10, 11, 12, 13, 32, 133, 160, 5760, 8192, 8193, 8194, 8195, 8196, 8197, 8198, 8199, 8200, 8201,
                   8202, 8232, 8233, 8239, 8287, 12288}
  {
  }

  lemma {:induction false} TrimLeftCuts(s: string)
    ensures |TrimLeft(s)| <= |s| && AllSpace(s[..|s| - |TrimLeft(s)|]) && s[|s| - |TrimLeft(s)|..] == TrimLeft(s)
    ensures TrimLeft(s) != "" ==> !IsSpace(TrimLeft(s)[0])
  {
    if s != "" && IsSpace(s[0]) {
      hide IsSpace;
      TrimLeftCuts(s[1..]);
      var n := |s| - |TrimLeft(s)|;
      assert s[..n] == [s[0]] + s[1..][..n - 1];
      assert s[n..] == s[1..][n - 1..];
    }
  }

  lemma {:induction false} TrimRightCuts(s: string)
    ensures |TrimRight(s)| <= |s| && AllSpace(s[|TrimRight(s)|..]) && s[..|TrimRight(s)|] == TrimRight(s)
    ensures TrimRight(s) != "" ==> !IsSpace(TrimRight(s)[|TrimRight(s)| - 1])
  {
    if s != "" && IsSpace(s[|s| - 1]) {
      hide IsSpace;
      TrimRightCuts(s[..|s| - 1]);
      var n := |TrimRight(s)|;
      assert s[n..] == s[..|s| - 1][n..] + [s[|s| - 1]];
    }
  }

  /** Trimming cuts the white space at both ends and nothing else. */
  lemma TrimExact(s: string)
    ensures exists a, b :: s == a + Trim(s) + b && AllSpace(a) && AllSpace(b)
    ensures var t := Trim(s); t != "" ==> !IsSpace(t[0]) && !IsSpace(t[|t| - 1])
  {
    TrimLeftCuts(s);
    TrimRightCuts(TrimLeft(s));
    hide IsSpace, TrimLeft, TrimRight;
    var l, t := TrimLeft(s), Trim(s);
    var a, b := s[..|s| - |l|], l[|t|..];
    assert s == a + t + b;
  }

  lemma NotBlank(s: string)
    ensures Trim(s) != "" <==> !AllSpace(s)
  {
    TrimExact(s);
    hide IsSpace, Trim;
    var a, b :| s == a + Trim(s) + b && AllSpace(a) && AllSpace(b);
    if Trim(s) != "" {
      assert s[|a|] == Trim(s)[0];
    }
  }

  predicate IsAlnum(c: char) {
    'A' <= c <= 'Z' || 'a' <= c <= 'z' || '0' <= c <= '9'
  }

  predicate IsIdentifierChar(c: char) {
    IsAlnum(c) || c == '.' || c == '_' || c == '-'
  }

  /** The identifier pattern both services use. */
  predicate MatchesPattern(s: string) {
    s != "" && IsAlnum(s[0]) && forall i :: 0 <= i < |s| ==> IsIdentifierChar(s[i])
  }

  const CAPITALS := "ABCDEFGHIJKLMNOPQRSTUVWXYZ"
  const SMALL := "abcdefghijklmnopqrstuvwxyz"
  const DIGITS := "0123456789"

  predicate Listed(c: char) {
    c in CAPITALS || c in SMALL || c in DIGITS
  }

  /** A letter or digit, then letters, digits, dots, underscores and hyphens. */
  lemma PatternByTable(s: string)
    ensures MatchesPattern(s) <==>
      && s != "" && Listed(s[0])
      && forall i :: 0 <= i < |s| ==> Listed(s[i]) || s[i] in "._-"
  {
    forall c ensures IsAlnum(c) <==> Listed(c) {
      AlnumByTable(c);
    }
    hide IsAlnum, Listed;
  }

  lemma LetterCodes()
    ensures |CAPITALS| == |SMALL| == 26 && |DIGITS| == 10
    ensures forall i :: 0 <= i < 26 ==> CAPITALS[i] as int == 65 + i
    ensures forall i :: 0 <= i < 26 ==> SMALL[i] as int == 97 + i
    ensures forall i :: 0 <= i < 10 ==> DIGITS[i] as int == 48 + i
  {
  }

  lemma AlnumByTable(c: char)
    ensures IsAlnum(c) <==> Listed(c)
  {
    LetterCodes();
    hide CAPITALS, SMALL, DIGITS;
    var n := c as int;
    if 'A' <= c <= 'Z' { assert CAPITALS[n - 65] == c; }
    if 'a' <= c <= 'z' { assert SMALL[n - 97] == c; }
    if '0' <= c <= '9' { assert DIGITS[n - 48] == c; }
  }

  const MAX_IDENTIFIER := 128

  predicate CheckIdentifier(v: string) {
    var t := Trim(v);
    t != "" && |t| <= MAX_IDENTIFIER && MatchesPattern(t)
  }

  lemma PatternTrimmed(s: string)
    requires MatchesPattern(s)
    ensures Trim(s) == s && '/' !in s
    ensures CheckIdentifier(s) <==> |s| <= MAX_IDENTIFIER
  {
    assert IsIdentifierChar(s[|s| - 1]);
  }

  datatype TopicParts = TopicParts(siteID: string, ownerID: string, kind: Kind)

  /** The topic parser of the ingestion service; None stands for its errors. */
  function ParseTopicV2(topic: string): Option<TopicParts> {
    var parts := Split(topic, '/');
    if |parts| == 7 && parts[0] == "site" && parts[2] == "device" && parts[4] == "telemetry" && parts[5] == "v2" then
      var site, device := Trim(parts[1]), Trim(parts[3]);
      if site == "" || device == "" || !CheckIdentifier(site) || !CheckIdentifier(device) then None
      else if parts[6] == "device" then Some(TopicParts(site, device, DeviceV2))
      else if parts[6] == "interface" then Some(TopicParts(site, device, InterfaceV2))
      else if parts[6] == "health" then Some(TopicParts(site, device, HealthV2))
      else None
    else if |parts| == 7 && parts[0] == "site" && parts[2] == "collector" && parts[4] == "telemetry" && parts[5] == "v2"
            && parts[6] == "heartbeat" then
      var site, collector := Trim(parts[1]), Trim(parts[3]);
      if site == "" || collector == "" || !CheckIdentifier(site) || !CheckIdentifier(collector) then None
      else Some(TopicParts(site, collector, HeartbeatV2))
    else None
  }

  function Segments(k: Kind, site: string, owner: string): seq<string> {
    ["site", site, OwnerSegment(k), owner, "telemetry", "v2", KindSegment(k)]
  }

  lemma JoinCons(p: string, rest: seq<string>, sep: char)
    requires |rest| >= 1
    ensures Join([p] + rest, sep) == p + [sep] + Join(rest, sep)
  {
    assert ([p] + rest)[1..] == rest;
  }

  lemma Assoc(a: string, b: string, c: string)
    ensures (a + b) + c == a + (b + c)
  {
  }

  /** The fixed tail of each topic, as printed and as joined. */
  lemma TopicTail(k: Kind)
    ensures ['/'] + Join(["telemetry", "v2", KindSegment(k)], '/') == "/telemetry/v2/" + KindSegment(k)
  {
    var last := KindSegment(k);
    JoinCons("v2", [last], '/');
    JoinCons("telemetry", ["v2", last], '/');
    assert ["telemetry"] + ["v2", last] == ["telemetry", "v2", last];
    assert ["v2"] + [last] == ["v2", last];
    assert Join([last], '/') == last;
    hide Join, KindSegment;
    Assoc("v2", ['/'], last);
    Assoc("telemetry" + ['/'], "v2" + ['/'], last);
    Assoc(['/'], ("telemetry" + ['/']) + ("v2" + ['/']), last);
    assert ['/'] + (("telemetry" + ['/']) + ("v2" + ['/'])) == "/telemetry/v2/";
  }

  lemma TopicHead(site: string, middle: string, owner: string, tail: seq<string>)
    requires |tail| >= 1
    ensures Join(["site", site, middle, owner] + tail, '/') ==
            "site/" + site + ("/" + middle + "/") + owner + (['/'] + Join(tail, '/'))
  {
    var t := Join(tail, '/');
    JoinCons(owner, tail, '/');
    JoinCons(middle, [owner] + tail, '/');
    JoinCons(site, [middle] + ([owner] + tail), '/');
    JoinCons("site", [site] + ([middle] + ([owner] + tail)), '/');
    hide Join;
    FourCons("site", site, middle, owner, tail);
    Regroup(site, middle, owner, t);
  }

  lemma FourCons(a: string, b: string, c: string, d: string, tail: seq<string>)
    ensures [a, b, c, d] + tail == [a] + ([b] + ([c] + ([d] + tail)))
  {
  }

  lemma Regroup(site: string, middle: string, owner: string, t: string)
    ensures "site" + ['/'] + (site + ['/'] + (middle + ['/'] + (owner + ['/'] + t))) ==
            "site/" + site + ("/" + middle + "/") + owner + (['/'] + t)
  {
    var l := "site" + ['/'] + (site + ['/'] + (middle + ['/'] + (owner + ['/'] + t)));
    var r := "site/" + site + ("/" + middle + "/") + owner + (['/'] + t);
    assert |l| == |r|;
    assert forall i :: 0 <= i < |l| ==> l[i] == r[i];
  }

  lemma OwnerLiteral(k: Kind)
    ensures "/" + OwnerSegment(k) + "/" == if k == HeartbeatV2 then "/collector/" else "/device/"
  {
    assert "/" + "collector" + "/" == "/collector/";
    assert "/" + "device" + "/" == "/device/";
  }

  function PrintedTail(k: Kind): string {
    match k
    case DeviceV2 => "/telemetry/v2/device"
    case InterfaceV2 => "/telemetry/v2/interface"
    case HealthV2 => "/telemetry/v2/health"
    case HeartbeatV2 => "/telemetry/v2/heartbeat"
  }

  lemma TailLiteral(k: Kind)
    ensures "/telemetry/v2/" + KindSegment(k) == PrintedTail(k)
  {
  }

  lemma TopicForm(k: Kind, site: string, owner: string)
    ensures Topic(k, site, owner) ==
            "site/" + site + (if k == HeartbeatV2 then "/collector/" else "/device/") + owner + PrintedTail(k)
  {
  }

  lemma TopicIsJoin(k: Kind, site: string, owner: string)
    ensures Topic(k, site, owner) == Join(Segments(k, site, owner), '/')
  {
    var tail := ["telemetry", "v2", KindSegment(k)];
    SegmentsForm(k, site, owner);
    hide *;
    TopicTail(k);
    TopicHead(site, OwnerSegment(k), owner, tail);
    OwnerLiteral(k);
    TailLiteral(k);
    TopicForm(k, site, owner);
  }

  lemma SegmentsForm(k: Kind, site: string, owner: string)
    ensures Segments(k, site, owner) == ["site", site, OwnerSegment(k), owner] + ["telemetry", "v2", KindSegment(k)]
  {
  }

  lemma SplitTopic(k: Kind, site: string, owner: string)
    requires '/' !in site && '/' !in owner
    ensures Split(Topic(k, site, owner), '/') == Segments(k, site, owner)
  {
    TopicIsJoin(k, site, owner);
    SplitJoin(Segments(k, site, owner), '/');
  }

  /** For identifiers of the shared pattern, the parser inverts every printer exactly when both are
      short enough; longer ones, which the collector accepts, are rejected. */
  lemma ParseInvertsTopic(k: Kind, site: string, owner: string)
    requires MatchesPattern(site) && MatchesPattern(owner)
    ensures ParseTopicV2(Topic(k, site, owner)) ==
            if |site| <= MAX_IDENTIFIER && |owner| <= MAX_IDENTIFIER then Some(TopicParts(site, owner, k)) else None
  {
    PatternTrimmed(site);
    PatternTrimmed(owner);
    SplitTopic(k, site, owner);
  }

  /** Whatever the parser accepts was printed from the parts it returns, up to blanks around them. */
  lemma TopicInvertsParse(topic: string)
    requires ParseTopicV2(topic).Some?
    ensures var p := ParseTopicV2(topic).value;
      && CheckIdentifier(p.siteID) && CheckIdentifier(p.ownerID)
      && exists site, owner :: Trim(site) == p.siteID && Trim(owner) == p.ownerID && topic == Topic(p.kind, site, owner)
  {
    var parts := Split(topic, '/');
    var p := ParseTopicV2(topic).value;
    JoinSplit(topic, '/');
    assert parts == [parts[0], parts[1], parts[2], parts[3], parts[4], parts[5], parts[6]];
    assert parts == Segments(p.kind, parts[1], parts[3]);
    TopicIsJoin(p.kind, parts[1], parts[3]);
  }

  // The JSON documents as records; None marks a missing or unreadable member.
  datatype Envelope = Envelope(
    schemaVersion: string,
    eventID: Option<EventId>,
    eventType: string,
    siteID: string,
    collectorID: string,
    deviceID: string,
    observedAt: Option<Time>,
    emittedAt: Option<Time>,
    configRevision: string)

  datatype HealthBody = HealthBody(
    state: string,
    reason: string,
    previousState: Option<string>,
    transition: string,
    failureCount: Option<int>,
    failureThreshold: Option<int>,
    temperatureC: Option<real>,
    temperatureWarningC: Option<real>,
    policyRevision: Option<string>,
    upstreamDeviceIDs: Option<seq<string>>,
    unavailableUpstream: Option<seq<string>>,
    rootCauses: Option<seq<string>>,
    alertsEnabled: Option<bool>)

  datatype HeartbeatBody = HeartbeatBody(
    hostname: string,
    version: string,
    gitCommit: string,
    buildTime: string,
    buildTimeReadable: bool,
    uptimeSeconds: Option<int>,
    sqliteQueueDepth: Option<int>,
    memoryUsageBytes: Option<int>,
    goroutineCount: Option<int>)

  // Device and interface bodies are opaque: only whether their own checks pass matters here.
  // Readings are `wellFormed` when they pass validation and name only metrics that the database knows: others are
  // acknowledged and dropped all the same.
  datatype Body =
    | Health(health: HealthBody)
    | Heartbeat(heartbeat: HeartbeatBody)
    | Readings(wellFormed: bool)
    | Missing

  datatype Payload = Document(env: Envelope, body: Body) | NotJson

  datatype Message = Message(topic: string, payload: Payload)

  function EventType(k: Kind): string {
    match k
    case DeviceV2 => "device_telemetry"
    case InterfaceV2 => "interface_telemetry"
    case HealthV2 => "health_state"
    case HeartbeatV2 => "collector_heartbeat"
  }

  predicate ValidEnvelope(env: Envelope, body: Body, tp: TopicParts) {
    && env.schemaVersion == "2.0"
    && env.eventID.Some?
    && CheckIdentifier(env.siteID)
    && CheckIdentifier(env.collectorID)
    && env.siteID == tp.siteID
    && env.observedAt.Some?
    && env.emittedAt.Some?
    && Trim(env.configRevision) != "" && |env.configRevision| <= MAX_IDENTIFIER
    && body != Missing
    && env.eventType == EventType(tp.kind)
    && (if tp.kind == HeartbeatV2 then env.deviceID == "" && env.collectorID == tp.ownerID
        else CheckIdentifier(env.deviceID) && env.deviceID == tp.ownerID)
  }

  predicate IsStateName(s: string) {
    s == "healthy" || s == "warning" || s == "critical" || s == "unknown"
  }

  predicate AllIdentifiers(ids: seq<string>) {
    forall i :: 0 <= i < |ids| ==> CheckIdentifier(ids[i])
  }

  predicate ValidHealth(h: HealthBody) {
    && IsStateName(h.state)
    && h.reason in {"reachable", "temperature_threshold", "direct_unreachable", "upstream_unreachable", "recovered"}
    && h.transition in {"initial", "entered", "recovered", "reasserted"}
    && (h.previousState.Some? ==> IsStateName(h.previousState.value))
    && h.failureCount.Some? && h.failureCount.value >= 0
    && h.failureThreshold.Some? && h.failureThreshold.value >= 1
    && h.upstreamDeviceIDs.Some? && h.unavailableUpstream.Some? && h.rootCauses.Some?
    && AllIdentifiers(h.upstreamDeviceIDs.value)
    && AllIdentifiers(h.unavailableUpstream.value)
    && AllIdentifiers(h.rootCauses.value)
  }

  predicate ValidHeartbeat(b: HeartbeatBody) {
    && Trim(b.hostname) != "" && Trim(b.version) != "" && Trim(b.gitCommit) != "" && Trim(b.buildTime) != ""
    && (b.buildTime == "unknown" || b.buildTimeReadable)
    && b.uptimeSeconds.Some? && b.uptimeSeconds.value >= 0
    && b.sqliteQueueDepth.Some? && b.sqliteQueueDepth.value >= 0
    && b.memoryUsageBytes.Some? && b.memoryUsageBytes.value >= 0
    && b.goroutineCount.Some? && b.goroutineCount.value >= 0
  }

  // What validation hands to the store. A device's or collector's key is its site and its own id.
  datatype Key = Key(siteID: string, id: string)

  datatype Parsed =
    | Rejected
    | HealthEvent(eventID: EventId, device: Key, observedAt: Time, health: HealthBody)
    | HeartbeatEvent(eventID: EventId, collector: Key, observedAt: Time, heartbeat: HeartbeatBody)
    | ReadingsEvent(eventID: EventId, observedAt: Time)

  /** Topic, envelope, then body; anything else is rejected. */
  function Validate(m: Message): Parsed {
    var tp := ParseTopicV2(m.topic);
    if tp.None? || m.payload.NotJson? then Rejected
    else if !ValidEnvelope(m.payload.env, m.payload.body, tp.value) then Rejected
    else
      var env, body := m.payload.env, m.payload.body;
      match tp.value.kind
      case HealthV2 =>
        if body.Health? && ValidHealth(body.health)
        then HealthEvent(env.eventID.value, Key(env.siteID, env.deviceID), env.observedAt.value, Normalize(body.health))
        else Rejected
      case HeartbeatV2 =>
        if body.Heartbeat? && ValidHeartbeat(body.heartbeat)
        then HeartbeatEvent(env.eventID.value, Key(env.siteID, env.collectorID), env.observedAt.value, body.heartbeat)
        else Rejected
      case _ =>
        if body.Readings? && body.wellFormed then ReadingsEvent(env.eventID.value, env.observedAt.value) else Rejected
  }

  /** A missing alerts flag means alerting. */
  function Normalize(h: HealthBody): HealthBody {
    h.(alertsEnabled := Some(h.alertsEnabled.GetOr(true)))
  }

  /** What acceptance guarantees: the topic was printed for the very site and device, or collector, that the
      envelope names, and every identifier is well formed. */
  lemma AcceptedMatchesTopic(m: Message)
    requires !Validate(m).Rejected?
    ensures m.payload.Document?
    ensures var e, env := Validate(m), m.payload.env;
      && env.eventID == Some(e.eventID) && CheckIdentifier(env.siteID) && CheckIdentifier(env.collectorID)
      && (e.HealthEvent? ==> HealthMatches(m, e))
      && (e.HeartbeatEvent? ==> HeartbeatMatches(m, e))
      && (e.ReadingsEvent? ==> ReadingsMatch(m))
  {
    TopicInvertsParse(m.topic);
    hide ParseTopicV2, CheckIdentifier, Topic, Trim, AllIdentifiers, IsStateName;
    var tp := ParseTopicV2(m.topic).value;
    assert PrintedFor(m.topic, tp.kind, tp.siteID, tp.ownerID);
  }

  ghost predicate HealthMatches(m: Message, e: Parsed)
    requires m.payload.Document? && e.HealthEvent?
  {
    var env := m.payload.env;
    && e.device == Key(env.siteID, env.deviceID) && Some(e.observedAt) == env.observedAt
    && PrintedFor(m.topic, HealthV2, env.siteID, env.deviceID)
    && CheckIdentifier(env.deviceID) && IsStateName(e.health.state) && e.health.alertsEnabled.Some?
    && AllIdentifiers(e.health.upstreamDeviceIDs.GetOr([])) && AllIdentifiers(e.health.rootCauses.GetOr([]))
  }

  ghost predicate HeartbeatMatches(m: Message, e: Parsed)
    requires m.payload.Document? && e.HeartbeatEvent?
  {
    var env := m.payload.env;
    && e.collector == Key(env.siteID, env.collectorID) && Some(e.observedAt) == env.observedAt && env.deviceID == ""
    && PrintedFor(m.topic, HeartbeatV2, env.siteID, env.collectorID)
  }

  ghost predicate ReadingsMatch(m: Message)
    requires m.payload.Document?
  {
    var env := m.payload.env;
    PrintedFor(m.topic, DeviceV2, env.siteID, env.deviceID)
      || PrintedFor(m.topic, InterfaceV2, env.siteID, env.deviceID)
  }

  /** Up to blanks around the two names. */
  ghost predicate PrintedFor(topic: string, k: Kind, site: string, owner: string) {
    exists s, o :: Trim(s) == site && Trim(o) == owner && topic == Topic(k, s, o)
  }
}
