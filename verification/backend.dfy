/** How the backend reads what the collector sent: states, direct failures, and counts after the overlay. */
module Backend {
  import opened Ids
  import opened Health
  import opened HealthStream
  import opened Telemetry
  import opened Topology
  import opened SiteTopology
  import opened SiteOverlay
  import C = Contract

  /** The device status the backend projects from an event's row. */
  function ProjectionOf(e: Event, online: bool): DeviceProjection {
    ProjectDeviceStatus(StateName(e.state), true, ReasonName(e.reason), e.failureCount,
                        e.upstreamDeviceIDs, e.unavailableUpstream, e.rootCauses, online, e.alertsEnabled)
  }

  predicate Plain(s: string) {
    s != "" && forall i :: 0 <= i < |s| ==> 'a' <= s[i] <= 'z' || s[i] == '_'
  }

  lemma PlainKept(s: string)
    requires Plain(s)
    ensures C.Trim(s) == s && ToLower(s) == s
  {
    assert !C.IsSpace(s[0]) && !C.IsSpace(s[|s| - 1]);
    Untrimmed(s);
    hide C.Trim, C.IsSpace;
    assert forall i :: 0 <= i < |s| ==> LowerChar(s[i]) == s[i];
  }

  lemma StatesPlain(s: State)
    ensures Plain(StateName(s))
  {
  }

  lemma ReasonsPlain(r: Reason)
    ensures Plain(ReasonName(r))
  {
  }

  lemma StatesRead(s: State, online: bool)
    ensures HealthStatusCode(StateName(s), online) ==
      match s
      case Critical => STATUS_CRITICAL
      case Unknown => STATUS_UNKNOWN
      case Warning => if online then STATUS_WARNING else STATUS_CRITICAL
      case Healthy => if online then STATUS_HEALTHY else STATUS_CRITICAL
  {
    StatesPlain(s);
    hide ToLower, C.Trim, Plain;
    PlainKept(StateName(s));
  }

  lemma ReasonsRead(r: Reason)
    ensures IsDirectFailureReason(ReasonName(r)) <==> r == DirectUnreachable
    ensures !EqualFold(ReasonName(r), UPSTREAM_SITE_UNREACHABLE)
  {
    ReasonsPlain(r);
    PlainKept(ReasonName(r));
    hide ToLower, C.Trim, Plain;
    ReasonLengths(r);
    hide UPSTREAM_SITE_UNREACHABLE, ReasonName, EqualFold;
    ShorterUnmarked(ReasonName(r));
  }

  lemma ShorterUnmarked(s: string)
    requires |s| < 25
    ensures !EqualFold(s, UPSTREAM_SITE_UNREACHABLE)
  {
    ReasonEnds();
    hide UPSTREAM_SITE_UNREACHABLE;
  }

  lemma ReasonLengths(r: Reason)
    ensures |ReasonName(r)| < 25 && ReasonName(r) != "" && ReasonName(r) != "poll_failed"
    ensures ReasonName(r) == "direct_unreachable" <==> r == DirectUnreachable
  {
    var n := ReasonName(r);
    assert r != DirectUnreachable ==> n[0] != 'd';
    assert n[0] != 'p';
  }

  /** For every event a tracker run emits, read back whether or not its device is still seen: critical and
      unknown are believed, healthy and warning only while the device is seen and count as critical
      otherwise; it is a direct failure exactly when the collector called it critical, so a site overlay never
      excuses a device that merely went silent; and it is never found already marked by an overlay. */
  lemma BackendAgrees(steps: seq<TrackerStep>, e: Event, online: bool)
    requires steps != [] && e in EventsOf(Play(steps[..|steps| - 1]).ledger, steps[|steps| - 1])
    ensures var p := ProjectionOf(e, online);
      && (p.status == STATUS_UNKNOWN <==> e.state == Unknown)
      && (p.status == STATUS_CRITICAL <==> e.state == Critical || (!online && e.state != Unknown))
      && (p.status == STATUS_WARNING <==> online && e.state == Warning)
      && (p.status == STATUS_HEALTHY <==> online && e.state == Healthy)
      && (IsDirectCritical(p) <==> e.state == Critical)
      && KnownStatus(p) && !Marked(p)
      && p.failureCount == Some(e.failureCount) && p.alertsEnabled == e.alertsEnabled
      && p.upstreamDeviceIDs == e.upstreamDeviceIDs && p.unavailableUpstreamIDs == e.unavailableUpstream
      && p.rootCauseDeviceIDs == e.rootCauses
  {
    StreamReplaysToLedger(steps);
    var n := |steps| - 1;
    EventNarrated(Play(steps[..n]).view, EventsOf(Play(steps[..n]).ledger, steps[n]), e);
    CriticalIsDirect(e);
    StatesRead(e.state, online);
    ReasonsRead(e.reason);
    hide ToLower, C.Trim, EqualFold, IsDirectFailureReason, HealthStatusCode, StateName, ReasonName, Play, EventsOf;
  }

  predicate ReasonFits(e: Event) {
    e.reason == DirectUnreachable <==> e.state == Critical
  }

  lemma EventNarrated(view: View, events: seq<Event>, e: Event)
    requires NarratesAll(view, events) && e in events
    ensures ReasonFits(e)
  {
    var i :| 0 <= i < |events| && events[i] == e;
    assert Narrates(ObserveAll(view, events[..i]), events[i]);
    hide ObserveAll;
  }

  lemma CriticalIsDirect(e: Event)
    requires ReasonFits(e)
    ensures e.state == Critical ==> e.reason == DirectUnreachable
    ensures e.state != Critical ==> e.reason != DirectUnreachable
  {
  }
}
