/** The health ledger's rules, as functions over immutable ledgers. */
module Health {
  import opened Ids
  import opened Graphs
  import opened Config
  import opened EvaluationOrder

  // An instant; zero is the unset instant.
  type Time = int

  datatype State = Healthy | Warning | Critical | Unknown

  datatype Reason =
    | Reachable
    | TemperatureThreshold
    | DirectUnreachable
    | UpstreamUnreachable
    | RecoveredReason

  datatype Transition = Initial | Entered | Recovered | Reasserted

  datatype Settings = Settings(
    failureThreshold: int,
    temperatureWarningC: real,
    policyRevision: string,
    devices: seq<DeviceConfig>)
  {
    function Threshold(): int {
      if failureThreshold < 1 then 1 else failureThreshold
    }

    function DeviceIndex(): map<Id, DeviceConfig> {
      Index(devices)
    }

    ghost function Upstreams(): Graph {
      UpstreamGraph(DeviceIndex())
    }
  }

  datatype PollOutcome = PollOutcome(deviceID: Id, success: bool, observedAt: Time, temperatureC: Option<real>)

  datatype Event = Event(
    deviceID: Id,
    state: State,
    reason: Reason,
    previousState: Option<State>,
    transition: Transition,
    failureCount: int,
    failureThreshold: int,
    temperatureC: Option<real>,
    temperatureWarningC: Option<real>,
    policyRevision: string,
    upstreamDeviceIDs: seq<Id>,
    unavailableUpstream: seq<Id>,
    rootCauses: seq<Id>,
    alertsEnabled: bool,
    observedAt: Time)

  datatype DeviceHealth = DeviceHealth(
    hasState: bool,
    state: State,
    reason: Reason,
    failureCount: int,
    lastSuccessAt: Time,
    lastObservedAt: Time,
    lastOutcomeSuccess: bool,
    hasOutcome: bool,
    temperatureC: Option<real>,
    temperatureWarningC: Option<real>,
    upstreamDeviceIDs: seq<Id>,
    unavailableUpstream: seq<Id>,
    rootCauses: seq<Id>,
    alertsEnabledPublished: bool,
    hasAlertsEnabled: bool)
  {
    /** Committed as failed: critical itself or unknown behind failed upstreams. */
    predicate IsDown() {
      hasState && (state == Critical || state == Unknown)
    }
  }

  type Ledger = map<Id, DeviceHealth>

  function Unobserved(): DeviceHealth {
    DeviceHealth(false, Healthy, Reachable, 0, 0, 0, false, false, None, None, [], [], [], false, false)
  }

  function WithEntries(ledger: Ledger, ids: set<Id>): Ledger {
    map id | id in ledger.Keys + ids :: if id in ledger then ledger[id] else Unobserved()
  }

  function ApplyOutcome(entry: DeviceHealth, o: PollOutcome): DeviceHealth {
    var e := entry.(hasOutcome := true, lastOutcomeSuccess := o.success,
                    lastObservedAt := o.observedAt, temperatureC := o.temperatureC);
    if o.success then e.(failureCount := 0, lastSuccessAt := o.observedAt)
    else e.(failureCount := e.failureCount + 1)
  }

  /** An outcome for a device outside the ledger is dropped. */
  function Record(ledger: Ledger, o: PollOutcome): Ledger {
    if o.deviceID in ledger then ledger[o.deviceID := ApplyOutcome(ledger[o.deviceID], o)] else ledger
  }

  function RecordAll(ledger: Ledger, outcomes: seq<PollOutcome>): (l: Ledger)
    ensures l.Keys == ledger.Keys
  {
    if outcomes == [] then ledger
    else Record(RecordAll(ledger, outcomes[..|outcomes| - 1]), outcomes[|outcomes| - 1])
  }

  /** The failure evidence committed in a ledger: failed devices and the failed upstreams behind them. */
  function Evidence(ledger: Ledger): Graph {
    map id | id in ledger && ledger[id].IsDown() ::
      if ledger[id].state == Unknown then ledger[id].unavailableUpstream else []
  }

  predicate IsCritical(ledger: Ledger, c: Id) {
    c in ledger && ledger[c].hasState && ledger[c].state == Critical
  }

  /** The critical devices reached from `from` through unknown ones. */
  ghost function CriticalBehind(ledger: Ledger, from: seq<Id>): set<Id> {
    set c | c in ledger.Keys && IsCritical(ledger, c) && ReachedFrom(ledger, from, c)
  }

  ghost predicate ReachedFrom(ledger: Ledger, from: seq<Id>, c: Id) {
    exists u :: u in from && Reaches(Evidence(ledger), u, c)
  }

  datatype Verdict =
    | Undecided
    | Decided(state: State, reason: Reason, temperatureC: Option<real>, unavailable: seq<Id>, rootCauses: seq<Id>)

  datatype UpstreamStatus = Answering | Failed | Unsettled

  function StatusOf(ledger: Ledger, threshold: int, up: Id): UpstreamStatus {
    if up !in ledger || !ledger[up].hasOutcome then Unsettled
    else if ledger[up].lastOutcomeSuccess then Answering
    else if ledger[up].failureCount < threshold then Unsettled
    else if !ledger[up].IsDown() then Unsettled
    else Failed
  }

  const DIRECT_FAILURE := Decided(Critical, DirectUnreachable, None, [], [])

  /** A device past its threshold is critical unless every upstream has failed too. */
  ghost function FailureVerdict(ledger: Ledger, upstreams: seq<Id>, threshold: int): Verdict {
    if upstreams == [] then DIRECT_FAILURE
    else if exists u :: u in upstreams && StatusOf(ledger, threshold, u) == Answering then DIRECT_FAILURE
    else if exists u :: u in upstreams && StatusOf(ledger, threshold, u) == Unsettled then Undecided
    else Decided(Unknown, UpstreamUnreachable, None, upstreams, SortSet(CriticalBehind(ledger, upstreams)))
  }

  function SuccessVerdict(entry: DeviceHealth, warningC: real): Verdict {
    if entry.temperatureC.Some? && entry.temperatureC.value >= warningC
    then Decided(Warning, TemperatureThreshold, entry.temperatureC, [], [])
    else Decided(Healthy, Reachable, entry.temperatureC, [], [])
  }

  ghost function VerdictFor(ledger: Ledger, entry: DeviceHealth, upstreams: seq<Id>, warningC: real,
                            threshold: int): Verdict
  {
    if !entry.hasOutcome then Undecided
    else if entry.lastOutcomeSuccess then SuccessVerdict(entry, warningC)
    else if entry.failureCount < threshold then Undecided
    else FailureVerdict(ledger, upstreams, threshold)
  }

  function Rank(s: State): int {
    match s
    case Healthy => 4
    case Warning => 3
    case Unknown => 2
    case Critical => 1
  }

  predicate IsRecovery(previous: State, next: State) {
    previous != Healthy && Rank(next) > Rank(previous)
  }

  function ClassifyTransition(hasState: bool, previous: State, next: State): Transition {
    if !hasState then Initial
    else if IsRecovery(previous, next) then Recovered
    else Entered
  }

  function PolicyChanged(entry: DeviceHealth, alertsEnabled: bool): bool {
    entry.hasState && entry.hasAlertsEnabled && entry.alertsEnabledPublished != alertsEnabled
  }

  predicate Emits(entry: DeviceHealth, v: Verdict, alertsEnabled: bool)
    requires v.Decided?
  {
    !entry.hasState || entry.state != v.state || entry.reason != v.reason || PolicyChanged(entry, alertsEnabled)
  }

  function Committed(entry: DeviceHealth, v: Verdict, upstreams: seq<Id>, warningC: real,
                     alertsEnabled: bool): DeviceHealth
    requires v.Decided?
  {
    entry.(hasState := true, state := v.state, reason := v.reason,
           temperatureC := v.temperatureC, temperatureWarningC := Some(warningC),
           upstreamDeviceIDs := upstreams, unavailableUpstream := v.unavailable, rootCauses := v.rootCauses,
           alertsEnabledPublished := alertsEnabled, hasAlertsEnabled := true)
  }

  function EventFor(id: Id, entry: DeviceHealth, v: Verdict, upstreams: seq<Id>, warningC: real,
                    alertsEnabled: bool, threshold: int, policyRevision: string): Event
    requires v.Decided?
  {
    var classified := ClassifyTransition(entry.hasState, entry.state, v.state);
    var transition :=
      if PolicyChanged(entry, alertsEnabled) && entry.state == v.state && entry.reason == v.reason
      then Reasserted else classified;
    Event(id, v.state, if classified == Recovered then RecoveredReason else v.reason,
          if entry.hasState then Some(entry.state) else None, transition,
          entry.failureCount, threshold, v.temperatureC, Some(warningC), policyRevision,
          upstreams, v.unavailable, v.rootCauses, alertsEnabled,
          if entry.lastObservedAt == 0 then entry.lastSuccessAt else entry.lastObservedAt)
  }

  function WarningFor(cfg: Settings, d: DeviceConfig): real {
    d.temperatureWarningC.GetOr(cfg.temperatureWarningC)
  }

  function AlertsFor(d: DeviceConfig): bool {
    d.alertsEnabled.GetOr(true)
  }

  ghost function VerdictAt(cfg: Settings, ledger: Ledger, id: Id): Verdict
    requires id in cfg.DeviceIndex() && id in ledger
  {
    var d := cfg.DeviceIndex()[id];
    VerdictFor(ledger, ledger[id], Normalized(d.Upstreams()), WarningFor(cfg, d), cfg.Threshold())
  }

  /** The entry a verdict leaves behind; an undecided device keeps its committed evidence. */
  ghost function EntryAfter(cfg: Settings, id: Id, entry: DeviceHealth, v: Verdict): DeviceHealth
    requires id in cfg.DeviceIndex()
  {
    var d := cfg.DeviceIndex()[id];
    if v.Undecided? then entry
    else Committed(entry, v, Normalized(d.Upstreams()), WarningFor(cfg, d), AlertsFor(d))
  }

  ghost function EventsAfter(cfg: Settings, id: Id, entry: DeviceHealth, v: Verdict): seq<Event>
    requires id in cfg.DeviceIndex()
  {
    var d := cfg.DeviceIndex()[id];
    if v.Undecided? || !Emits(entry, v, AlertsFor(d)) then []
    else [EventFor(id, entry, v, Normalized(d.Upstreams()), WarningFor(cfg, d), AlertsFor(d),
                   cfg.Threshold(), cfg.policyRevision)]
  }

  datatype Evaluated = Evaluated(ledger: Ledger, events: seq<Event>)

  ghost function Settle(cfg: Settings, s: Evaluated, id: Id): Evaluated
    requires id in cfg.DeviceIndex() && id in s.ledger
  {
    var v := VerdictAt(cfg, s.ledger, id);
    Evaluated(s.ledger[id := EntryAfter(cfg, id, s.ledger[id], v)],
              s.events + EventsAfter(cfg, id, s.ledger[id], v))
  }

  predicate Known(cfg: Settings, ledger: Ledger, ids: seq<Id>) {
    forall id :: id in ids ==> id in cfg.DeviceIndex() && id in ledger
  }

  /** Evaluates the listed devices one after the other, each seeing its predecessors' results. */
  ghost function Evaluate(cfg: Settings, ledger: Ledger, order: seq<Id>): (r: Evaluated)
    requires Known(cfg, ledger, order)
    ensures r.ledger.Keys == ledger.Keys
  {
    if order == [] then Evaluated(ledger, [])
    else
      var n := |order| - 1;
      Settle(cfg, Evaluate(cfg, ledger, order[..n]), order[n])
  }

  function DeviceOf(e: Event): Id {
    e.deviceID
  }

  function Recorded(cfg: Settings, ledger: Ledger, outcomes: seq<PollOutcome>): Ledger {
    RecordAll(WithEntries(ledger, cfg.DeviceIndex().Keys), outcomes)
  }

  lemma OrderKnown(cfg: Settings, ledger: Ledger, outcomes: seq<PollOutcome>)
    ensures Known(cfg, Recorded(cfg, ledger, outcomes), KahnOrder(cfg.Upstreams()))
  {
    KahnOrderCorrect(cfg.Upstreams());
    assert forall id :: id in KahnOrder(cfg.Upstreams()) ==> id in Elems(KahnOrder(cfg.Upstreams()));
  }

  /** One completed poll cycle: record the outcomes, evaluate the inventory, sort the events. */
  ghost function Batch(cfg: Settings, ledger: Ledger, outcomes: seq<PollOutcome>): Evaluated {
    OrderKnown(cfg, ledger, outcomes);
    var r := Evaluate(cfg, Recorded(cfg, ledger, outcomes), KahnOrder(cfg.Upstreams()));
    Evaluated(r.ledger, SortBy(r.events, DeviceOf))
  }
}
