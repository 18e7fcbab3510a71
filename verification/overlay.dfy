/** Site-level reclassification of device statuses, and the counts it must conserve. */
module SiteOverlay {
  import opened Ids
  import opened Topology
  import opened SiteTopology
  import opened SiteEvaluation
  import Contract

  const UPSTREAM_SITE_UNREACHABLE := "upstream_site_unreachable"

  // Simple case folding; besides the letters, two signs fold to ASCII letters.
  function FoldChar(c: char): char {
    if c == '\U{017F}' then 's' else if c == '\U{212A}' then 'k' else LowerChar(c)
  }

  predicate EqualFold(a: string, b: string) {
    |a| == |b| && forall i :: 0 <= i < |a| ==> FoldChar(a[i]) == FoldChar(b[i])
  }

  function StatusFromOnline(online: bool): int {
    if online then STATUS_HEALTHY else STATUS_CRITICAL
  }

  /** Stale devices are trusted only as critical or unknown. */
  function HealthStatusCode(state: string, online: bool): int {
    var s := ToLower(Contract.Trim(state));
    if s == "critical" then STATUS_CRITICAL
    else if s == "unknown" then STATUS_UNKNOWN
    else if !online then StatusFromOnline(false)
    else if s == "warning" then STATUS_WARNING
    else STATUS_HEALTHY
  }

  function ProjectDeviceStatus(healthState: string, healthPresent: bool, reason: string, failureCount: int,
                               upstream: seq<Id>, unavailable: seq<Id>, rootCause: seq<Id>,
                               online: bool, alertsEnabled: bool): DeviceProjection
  {
    if healthPresent
    then DeviceProjection(HealthStatusCode(healthState, online), reason, Some(failureCount),
                          upstream, unavailable, rootCause, alertsEnabled)
    else DeviceProjection(StatusFromOnline(online), "", None, upstream, unavailable, rootCause, alertsEnabled)
  }

  predicate KnownStatus(p: DeviceProjection) {
    p.status in {STATUS_UNKNOWN, STATUS_HEALTHY, STATUS_WARNING, STATUS_CRITICAL}
  }

  predicate AllKnown(devices: seq<DeviceProjection>) {
    forall i :: 0 <= i < |devices| ==> KnownStatus(devices[i])
  }

  const ZERO := Counts(0, 0, 0, 0, 0)

  function Counted(c: Counts, status: int, unavailable: seq<Id>, alertsEnabled: bool): Counts {
    if !alertsEnabled then c
    else if status == STATUS_HEALTHY then c.(healthy := c.healthy + 1)
    else if status == STATUS_WARNING then c.(warning := c.warning + 1)
    else if status == STATUS_CRITICAL then c.(critical := c.critical + 1)
    else if status == STATUS_UNKNOWN then
      c.(unknown := c.unknown + 1, dependencyImpacted := c.dependencyImpacted + if unavailable != [] then 1 else 0)
    else c
  }

  class SiteHealthCounts {
    var healthy: int
    var warning: int
    var critical: int
    var unknown: int
    var dependencyImpacted: int

    function Value(): Counts
      reads this
    {
      Counts(healthy, warning, critical, unknown, dependencyImpacted)
    }

    constructor ()
      ensures Value() == ZERO
    {
      healthy, warning, critical, unknown, dependencyImpacted := 0, 0, 0, 0, 0;
    }

    method Accumulate(status: int, unavailableUpstream: seq<Id>, alertsEnabled: bool)
      modifies this
      ensures Value() == Counted(old(Value()), status, unavailableUpstream, alertsEnabled)
    {
      if !alertsEnabled { return; }
      if status == STATUS_HEALTHY { healthy := healthy + 1; }
      else if status == STATUS_WARNING { warning := warning + 1; }
      else if status == STATUS_CRITICAL { critical := critical + 1; }
      else if status == STATUS_UNKNOWN {
        unknown := unknown + 1;
        if |unavailableUpstream| > 0 { dependencyImpacted := dependencyImpacted + 1; }
      }
    }
  }

  /** Counts before the overlay. */
  function RawCounts(devices: seq<DeviceProjection>): Counts {
    if devices == [] then ZERO
    else
      var p := devices[|devices| - 1];
      Counted(RawCounts(devices[..|devices| - 1]), p.status, p.unavailableUpstreamIDs, p.alertsEnabled)
  }

  function WithStatus(devices: seq<DeviceProjection>, status: int): set<nat> {
    set i: nat | i < |devices| && devices[i].alertsEnabled && devices[i].status == status
  }

  /** Unknown behind some unavailable upstream. */
  function Impacting(devices: seq<DeviceProjection>): set<nat> {
    set i: nat | i < |devices| && devices[i].alertsEnabled && devices[i].status == STATUS_UNKNOWN
      && devices[i].unavailableUpstreamIDs != []
  }

  lemma StatusNext(devices: seq<DeviceProjection>, status: int)
    requires devices != []
    ensures var n, p := |devices| - 1, devices[|devices| - 1];
      var more := p.alertsEnabled && p.status == status;
      |WithStatus(devices, status)| == |WithStatus(devices[..n], status)| + if more then 1 else 0
  {
    var n, p := |devices| - 1, devices[|devices| - 1];
    var before := WithStatus(devices[..n], status);
    assert WithStatus(devices, status) == before + if p.alertsEnabled && p.status == status then {n} else {};
  }

  lemma ImpactingNext(devices: seq<DeviceProjection>)
    requires devices != []
    ensures var n, p := |devices| - 1, devices[|devices| - 1];
      var more := p.alertsEnabled && p.status == STATUS_UNKNOWN && p.unavailableUpstreamIDs != [];
      |Impacting(devices)| == |Impacting(devices[..n])| + if more then 1 else 0
  {
    var n, p := |devices| - 1, devices[|devices| - 1];
    var more := p.alertsEnabled && p.status == STATUS_UNKNOWN && p.unavailableUpstreamIDs != [];
    assert Impacting(devices) == Impacting(devices[..n]) + if more then {n} else {};
  }

  /** Accumulating a site's devices counts, for each status, the alert-enabled devices that have it. */
  lemma {:induction false} CountsAreExact(devices: seq<DeviceProjection>)
    ensures var c := RawCounts(devices);
      && c.healthy == |WithStatus(devices, STATUS_HEALTHY)| && c.warning == |WithStatus(devices, STATUS_WARNING)|
      && c.critical == |WithStatus(devices, STATUS_CRITICAL)| && c.unknown == |WithStatus(devices, STATUS_UNKNOWN)|
      && c.dependencyImpacted == |Impacting(devices)|
  {
    if devices != [] {
      CountsAreExact(devices[..|devices| - 1]);
      StatusNext(devices, STATUS_HEALTHY);
      StatusNext(devices, STATUS_WARNING);
      StatusNext(devices, STATUS_CRITICAL);
      StatusNext(devices, STATUS_UNKNOWN);
      ImpactingNext(devices);
      hide WithStatus, Impacting;
    }
  }

  predicate Marked(p: DeviceProjection) {
    EqualFold(p.statusReason, UPSTREAM_SITE_UNREACHABLE)
  }

  function CountedProjected(c: Counts, p: DeviceProjection): Counts {
    if !p.alertsEnabled then c
    else if Marked(p) then c.(unknown := c.unknown + 1, dependencyImpacted := c.dependencyImpacted + 1)
    else Counted(c, p.status, p.unavailableUpstreamIDs, p.alertsEnabled)
  }

  function Projected(devices: seq<DeviceProjection>): Counts {
    if devices == [] then ZERO
    else CountedProjected(Projected(devices[..|devices| - 1]), devices[|devices| - 1])
  }

  method ProjectedSiteHealth(devices: seq<DeviceProjection>) returns (counts: SiteHealthCounts)
    ensures fresh(counts) && counts.Value() == Projected(devices)
  {
    counts := new SiteHealthCounts();
    var i := 0;
    while i < |devices|
      invariant 0 <= i <= |devices| && fresh(counts) && counts.Value() == Projected(devices[..i])
    {
      SplitAt(devices, i);
      var p := devices[i];
      if p.alertsEnabled {
        if Marked(p) {
          counts.unknown := counts.unknown + 1;
          counts.dependencyImpacted := counts.dependencyImpacted + 1;
        } else {
          counts.Accumulate(p.status, p.unavailableUpstreamIDs, p.alertsEnabled);
        }
      }
      i := i + 1;
    }
    assert devices[..i] == devices;
  }

  function ApplySiteDependencyOverlay(state: SiteState, p: DeviceProjection): DeviceProjection {
    if !state.impacted || !IsDirectCritical(p) then p
    else p.(status := STATUS_UNKNOWN, statusReason := UPSTREAM_SITE_UNREACHABLE)
  }

  function OverlayAll(state: SiteState, devices: seq<DeviceProjection>): seq<DeviceProjection> {
    seq(|devices|, i requires 0 <= i < |devices| => ApplySiteDependencyOverlay(state, devices[i]))
  }

  function Total(c: Counts): int {
    c.healthy + c.warning + c.critical + c.unknown
  }

  function AlertEnabled(devices: seq<DeviceProjection>): nat {
    if devices == [] then 0
    else AlertEnabled(devices[..|devices| - 1]) + if devices[|devices| - 1].alertsEnabled then 1 else 0
  }

  function DirectCriticals(devices: seq<DeviceProjection>): nat {
    if devices == [] then 0
    else
      var p := devices[|devices| - 1];
      DirectCriticals(devices[..|devices| - 1]) + if p.alertsEnabled && IsDirectCritical(p) then 1 else 0
  }

  /** The counts a site may show after its direct failures were blamed on its upstreams. */
  predicate Reclassified(before: Counts, after: Counts, n: int) {
    && after.healthy == before.healthy && after.warning == before.warning
    && after.critical == before.critical - n && after.unknown == before.unknown + n
    && after.dependencyImpacted == before.dependencyImpacted + n
  }

  lemma OverlayPrefix(state: SiteState, devices: seq<DeviceProjection>, i: nat)
    requires i < |devices|
    ensures OverlayAll(state, devices)[..i] == OverlayAll(state, devices[..i])
    ensures OverlayAll(state, devices)[i] == ApplySiteDependencyOverlay(state, devices[i])
  {
    hide ApplySiteDependencyOverlay;
  }

  lemma ReasonEnds()
    ensures |UPSTREAM_SITE_UNREACHABLE| == 25
    ensures UPSTREAM_SITE_UNREACHABLE[0] == 'u' && UPSTREAM_SITE_UNREACHABLE[24] == 'e'
  {
  }

  lemma Untrimmed(s: string)
    requires s != "" && !Contract.IsSpace(s[0]) && !Contract.IsSpace(s[|s| - 1])
    ensures Contract.Trim(s) == s
  {
  }

  lemma MarkedUnmistakable(p: DeviceProjection)
    ensures Marked(p.(statusReason := UPSTREAM_SITE_UNREACHABLE))
    ensures !IsDirectFailureReason(UPSTREAM_SITE_UNREACHABLE)
  {
    ReasonEnds();
    var s := UPSTREAM_SITE_UNREACHABLE;
    hide UPSTREAM_SITE_UNREACHABLE;
    Untrimmed(s);
    hide Contract.Trim, ToLower;
    assert ToLower(s)[0] == 'u';
  }

  /** One device: at most one count moves. */
  lemma OverlayOne(state: SiteState, p: DeviceProjection, before: Counts, after: Counts, n: int)
    requires KnownStatus(p) && !Marked(p) && Reclassified(before, after, n)
    ensures var more := if state.impacted && p.alertsEnabled && IsDirectCritical(p) then 1 else 0;
      var b := Counted(before, p.status, p.unavailableUpstreamIDs, p.alertsEnabled);
      var a := CountedProjected(after, ApplySiteDependencyOverlay(state, p));
      Reclassified(b, a, n + more) && Total(b) == Total(before) + if p.alertsEnabled then 1 else 0
  {
    MarkedUnmistakable(p);
    hide IsDirectFailureReason, EqualFold;
  }

  /** The overlay conserves the counts: their sum is the number of alert-enabled devices before and after,
      and exactly the alert-enabled direct failures move from critical to unknown, none unless impacted. */
  lemma {:induction false} OverlayConserves(state: SiteState, devices: seq<DeviceProjection>)
    requires AllKnown(devices) && forall i :: 0 <= i < |devices| ==> !Marked(devices[i])
    ensures var before, after := RawCounts(devices), Projected(OverlayAll(state, devices));
      && Total(before) == AlertEnabled(devices) && Total(after) == AlertEnabled(devices)
      && Reclassified(before, after, if state.impacted then DirectCriticals(devices) else 0)
  {
    hide *;
    if devices == [] {
      NothingToOverlay(state);
    } else {
      var n := |devices| - 1;
      KnownPrefix(devices, n);
      OverlayConserves(state, devices[..n]);
      CountsUnfold(state, devices, n);
      var before, after := RawCounts(devices[..n]), Projected(OverlayAll(state, devices[..n]));
      OverlayOne(state, devices[n], before, after, if state.impacted then DirectCriticals(devices[..n]) else 0);
      TotalMoves(RawCounts(devices), Projected(OverlayAll(state, devices)),
        if state.impacted then DirectCriticals(devices) else 0);
    }
  }

  lemma NothingToOverlay(state: SiteState)
    ensures OverlayAll(state, []) == [] && RawCounts([]) == Projected([]) == ZERO
    ensures Total(ZERO) == AlertEnabled([]) == DirectCriticals([]) == 0 && Reclassified(ZERO, ZERO, 0)
  {
  }

  lemma TotalMoves(before: Counts, after: Counts, n: int)
    requires Reclassified(before, after, n)
    ensures Total(before) == Total(after)
  {
  }

  lemma KnownPrefix(devices: seq<DeviceProjection>, n: nat)
    requires n < |devices| && AllKnown(devices)
    ensures AllKnown(devices[..n]) && KnownStatus(devices[n])
  {
  }

  lemma CountsUnfold(state: SiteState, devices: seq<DeviceProjection>, n: nat)
    requires n == |devices| - 1
    ensures var p := devices[n];
      && RawCounts(devices) == Counted(RawCounts(devices[..n]), p.status, p.unavailableUpstreamIDs, p.alertsEnabled)
      && Projected(OverlayAll(state, devices)) ==
         CountedProjected(Projected(OverlayAll(state, devices[..n])), ApplySiteDependencyOverlay(state, p))
      && AlertEnabled(devices) == AlertEnabled(devices[..n]) + (if p.alertsEnabled then 1 else 0)
      && DirectCriticals(devices) ==
         DirectCriticals(devices[..n]) + if p.alertsEnabled && IsDirectCritical(p) then 1 else 0
  {
    hide Counted, CountedProjected, ApplySiteDependencyOverlay, IsDirectCritical;
    OverlayPrefix(state, devices, n);
  }

  /** A second overlay finds nothing left to change. */
  lemma OverlayIdempotent(state: SiteState, devices: seq<DeviceProjection>)
    ensures OverlayAll(state, OverlayAll(state, devices)) == OverlayAll(state, devices)
  {
    forall i | 0 <= i < |devices|
      ensures ApplySiteDependencyOverlay(state, ApplySiteDependencyOverlay(state, devices[i])) ==
        ApplySiteDependencyOverlay(state, devices[i])
    {
      MarkedUnmistakable(devices[i]);
      hide IsDirectFailureReason;
    }
    hide ApplySiteDependencyOverlay;
  }

  /** Projected statuses are always counted ones. */
  lemma ProjectionKnown(healthState: string, present: bool, reason: string, n: int, up: seq<Id>, un: seq<Id>,
                        rc: seq<Id>,
                        online: bool, alerts: bool)
    ensures KnownStatus(ProjectDeviceStatus(healthState, present, reason, n, up, un, rc, online, alerts))
  {
  }
}
