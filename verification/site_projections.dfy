/** From the stored rows to what a site shows: evidence and topology are built from the same list of sites. */
module SiteProjections {
  import opened Ids
  import opened Graphs
  import opened SiteTopology
  import opened SiteCompletion
  import opened SiteEvaluation
  import opened SiteOverlay

  datatype SiteRow = SiteRow(id: string, name: Id, upstreamSiteIDs: seq<Id>, hubDeviceIDs: seq<Id>)

  // `online` is what the last-seen guard says at the time of the request.
  datatype DeviceRow = DeviceRow(
    siteID: string,
    inventoryDeviceID: Id,
    healthState: string,
    healthPresent: bool,
    healthReason: string,
    failureCount: int,
    upstreamIDs: seq<Id>,
    unavailableIDs: seq<Id>,
    rootCauseIDs: seq<Id>,
    online: bool,
    alertsEnabled: bool)

  datatype Bundle = Bundle(counts: Counts, state: SiteState)

  function ProjectDevice(d: DeviceRow): DeviceProjection {
    ProjectDeviceStatus(d.healthState, d.healthPresent, d.healthReason, d.failureCount, d.upstreamIDs,
                        d.unavailableIDs, d.rootCauseIDs, d.online, d.alertsEnabled)
  }

  function DevicesOf(devices: seq<DeviceRow>, site: string): seq<DeviceRow> {
    if devices == [] then []
    else
      var d := devices[|devices| - 1];
      DevicesOf(devices[..|devices| - 1], site) + if d.siteID == site then [d] else []
  }

  function Projections(devices: seq<DeviceRow>): (ps: seq<DeviceProjection>)
    ensures |ps| == |devices|
  {
    seq(|devices|, i requires 0 <= i < |devices| => ProjectDevice(devices[i]))
  }

  function EvidenceOf(devices: seq<DeviceRow>): SiteRawHealth {
    SiteRawHealth(
      seq(|devices|, i requires 0 <= i < |devices| =>
        SiteDevice(devices[i].inventoryDeviceID, ProjectDevice(devices[i]))),
      RawCounts(Projections(devices)))
  }

  /** By name; the last site of a name counts. */
  function TopologyIndex(sites: seq<SiteRow>): SiteIndex {
    if sites == [] then map[]
    else
      var s := sites[|sites| - 1];
      TopologyIndex(sites[..|sites| - 1])[s.name := SiteNode(s.name, s.upstreamSiteIDs, s.hubDeviceIDs)]
  }

  function RawIndex(sites: seq<SiteRow>, devices: seq<DeviceRow>): RawHealth {
    if sites == [] then map[]
    else
      var s := sites[|sites| - 1];
      RawIndex(sites[..|sites| - 1], devices)[s.name := EvidenceOf(DevicesOf(devices, s.id))]
  }

  /** What one site shows, given the state found for its name. */
  function Shown(devices: seq<DeviceRow>, site: SiteRow, state: SiteState): Bundle {
    Bundle(Projected(OverlayAll(state, Projections(DevicesOf(devices, site.id)))), state)
  }

  ghost predicate ShownOn(sites: seq<SiteRow>, devices: seq<DeviceRow>, completed: SiteIndex,
                          bundles: map<string, Bundle>)
  {
    var raw := RawIndex(sites, devices);
    && (forall id :: id in bundles <==> exists s :: s in sites && s.id == id)
    && forall i :: 0 <= i < |sites| && LastOfId(sites, i) ==>
      bundles[sites[i].id] == Shown(devices, sites[i], StateOf(raw, completed, sites[i].name))
  }

  predicate LastOfId(sites: seq<SiteRow>, i: nat) {
    i < |sites| && forall j :: i < j < |sites| ==> sites[j].id != sites[i].id
  }

  lemma {:induction false} SameNames(sites: seq<SiteRow>, devices: seq<DeviceRow>)
    ensures TopologyIndex(sites).Keys == RawIndex(sites, devices).Keys == Elems(NamesOf(sites))
  {
    if sites != [] {
      hide EvidenceOf, DevicesOf;
      SameNames(sites[..|sites| - 1], devices);
      ElemsAppend(NamesOf(sites[..|sites| - 1]), sites[|sites| - 1].name);
    }
  }

  function NamesOf(sites: seq<SiteRow>): seq<Id> {
    if sites == [] then [] else NamesOf(sites[..|sites| - 1]) + [sites[|sites| - 1].name]
  }

  lemma {:induction false} NamedIn(sites: seq<SiteRow>, i: nat)
    requires i < |sites|
    ensures sites[i].name in Elems(NamesOf(sites))
  {
    var n := |sites| - 1;
    ElemsAppend(NamesOf(sites[..n]), sites[n].name);
    if i < n { NamedIn(sites[..n], i); }
  }

  method DevicesAt(devices: seq<DeviceRow>, site: string) returns (out: seq<DeviceRow>)
    ensures out == DevicesOf(devices, site)
  {
    out := [];
    var i := 0;
    while i < |devices|
      invariant 0 <= i <= |devices| && out == DevicesOf(devices[..i], site)
    {
      SplitAt(devices, i);
      if devices[i].siteID == site { out := out + [devices[i]]; }
      i := i + 1;
    }
    assert devices[..i] == devices;
  }

  /** Collects one site's evidence device by device. */
  method Evidence(devices: seq<DeviceRow>) returns (raw: SiteRawHealth)
    ensures raw == EvidenceOf(devices)
  {
    var ds: seq<SiteDevice> := [];
    var counts := new SiteHealthCounts();
    var i := 0;
    while i < |devices|
      invariant 0 <= i <= |devices| && fresh(counts) && counts.Value() == RawCounts(Projections(devices[..i]))
      invariant ds == EvidenceOf(devices[..i]).devices
    {
      var p := ProjectDevice(devices[i]);
      NextProjection(devices, i);
      ds := ds + [SiteDevice(devices[i].inventoryDeviceID, p)];
      counts.Accumulate(p.status, p.unavailableUpstreamIDs, p.alertsEnabled);
      i := i + 1;
    }
    assert devices[..i] == devices;
    raw := SiteRawHealth(ds, counts.Value());
  }

  lemma NextProjection(devices: seq<DeviceRow>, i: nat)
    requires i < |devices|
    ensures Projections(devices[..i + 1]) == Projections(devices[..i]) + [ProjectDevice(devices[i])]
    ensures var p := ProjectDevice(devices[i]);
      RawCounts(Projections(devices[..i + 1])) ==
      Counted(RawCounts(Projections(devices[..i])), p.status, p.unavailableUpstreamIDs, p.alertsEnabled)
    ensures EvidenceOf(devices[..i + 1]).devices ==
      EvidenceOf(devices[..i]).devices + [SiteDevice(devices[i].inventoryDeviceID, ProjectDevice(devices[i]))]
  {
    hide ProjectDevice, Counted;
    var ps, p := Projections(devices[..i]), ProjectDevice(devices[i]);
    assert Projections(devices[..i + 1]) == ps + [p];
    assert (ps + [p])[..|ps|] == ps;
  }

  /** One site's devices after the overlay, counted. */
  method ShowSite(devices: seq<DeviceRow>, site: SiteRow, state: SiteState) returns (bundle: Bundle)
    ensures bundle == Shown(devices, site, state)
  {
    var own := DevicesAt(devices, site.id);
    var overlaid: seq<DeviceProjection> := [];
    var i := 0;
    while i < |own|
      invariant 0 <= i <= |own| && overlaid == OverlayAll(state, Projections(own))[..i]
    {
      overlaid := overlaid + [ApplySiteDependencyOverlay(state, ProjectDevice(own[i]))];
      i := i + 1;
    }
    assert OverlayAll(state, Projections(own))[..i] == OverlayAll(state, Projections(own));
    var counts := ProjectedSiteHealth(overlaid);
    bundle := Bundle(counts.Value(), state);
  }

  method BuildSiteProjections(sites: seq<SiteRow>, devices: seq<DeviceRow>) returns (bundles: map<string, Bundle>)
    requires EvaluationEnds(TopologyIndex(sites), RawIndex(sites, devices))
    ensures exists c :: Completes(TopologyIndex(sites), c) && ShownOn(sites, devices, c, bundles)
  {
    hide *;
    var index, raw := BuildIndexes(sites, devices);
    SameNames(sites, devices);
    var states := EvaluateSiteTopology(index, raw);
    ghost var c :| Completes(index, c) && EvaluatedOn(raw, c, states);
    CompletedKeys(index, c);
    bundles := ShowAll(sites, devices, raw, c, states);
  }

  lemma CompletedKeys(index: SiteIndex, c: SiteIndex)
    requires Completes(index, c)
    ensures c.Keys == index.Keys
  {
  }

  method BuildIndexes(sites: seq<SiteRow>, devices: seq<DeviceRow>) returns (index: SiteIndex, raw: RawHealth)
    ensures index == TopologyIndex(sites) && raw == RawIndex(sites, devices)
  {
    hide EvidenceOf, DevicesOf;
    index, raw := map[], map[];
    var i := 0;
    while i < |sites|
      invariant 0 <= i <= |sites| && index == TopologyIndex(sites[..i]) && raw == RawIndex(sites[..i], devices)
    {
      SplitAt(sites, i);
      var s := sites[i];
      index := index[s.name := SiteNode(s.name, s.upstreamSiteIDs, s.hubDeviceIDs)];
      var own := DevicesAt(devices, s.id);
      var evidence := Evidence(own);
      raw := raw[s.name := evidence];
      i := i + 1;
    }
    assert sites[..i] == sites;
  }

  method ShowAll(sites: seq<SiteRow>, devices: seq<DeviceRow>, ghost raw: RawHealth, ghost c: SiteIndex,
                 states: map<Id, SiteState>) returns (bundles: map<string, Bundle>)
    requires raw == RawIndex(sites, devices) && c.Keys == Elems(NamesOf(sites)) && EvaluatedOn(raw, c, states)
    ensures ShownOn(sites, devices, c, bundles)
  {
    hide RawIndex, StateOf, Shown, NamesOf;
    bundles := map[];
    var i := 0;
    while i < |sites|
      invariant 0 <= i <= |sites|
      invariant forall id :: id in bundles <==> exists j :: 0 <= j < i && sites[j].id == id
      invariant forall j :: 0 <= j < i && (forall k :: j < k < i ==> sites[k].id != sites[j].id) ==>
        bundles[sites[j].id] == Shown(devices, sites[j], StateOf(raw, c, sites[j].name))
    {
      NamedIn(sites, i);
      assert sites[i].name in states;
      var bundle := ShowSite(devices, sites[i], states[sites[i].name]);
      bundles := bundles[sites[i].id := bundle];
      i := i + 1;
    }
    forall id ensures id in bundles <==> exists s :: s in sites && s.id == id {
      if s :| s in sites && s.id == id {
        var j :| 0 <= j < |sites| && sites[j] == s;
      }
    }
  }

  lemma AllKnownStatuses(devices: seq<DeviceRow>)
    ensures AllKnown(Projections(devices))
  {
    hide ProjectDeviceStatus, KnownStatus;
    forall i | 0 <= i < |devices| ensures KnownStatus(ProjectDevice(devices[i])) {
      var d := devices[i];
      ProjectionKnown(d.healthState, d.healthPresent, d.healthReason, d.failureCount, d.upstreamIDs,
                      d.unavailableIDs, d.rootCauseIDs, d.online, d.alertsEnabled);
    }
  }

  /** For all rows: an impacted site always has a root cause, every one of them a listed site that is down
      while none of its own upstreams is, and the site shows each of its alert-enabled devices once, exactly the
      direct failures moved from critical to unknown. No reason may equal the overlay's own mark. */
  lemma ShownSitesExplained(sites: seq<SiteRow>, devices: seq<DeviceRow>, completed: SiteIndex, site: SiteRow)
    requires Completes(TopologyIndex(sites), completed)
    requires EvaluationEnds(TopologyIndex(sites), RawIndex(sites, devices))
    requires site in sites && forall i :: 0 <= i < |devices| ==> !Marked(ProjectDevice(devices[i]))
    ensures var raw := RawIndex(sites, devices);
      var state := StateOf(raw, completed, site.name);
      var ps := Projections(DevicesOf(devices, site.id));
      var shown := Shown(devices, site, state).counts;
      && (state.impacted ==> state.rootCauseSiteIDs != [])
      && (forall r :: r in state.rootCauseSiteIDs ==> r in Elems(NamesOf(sites)) && IsRootCause(raw, completed, r))
      && Total(shown) == AlertEnabled(ps)
      && Reclassified(RawCounts(ps), shown, if state.impacted then DirectCriticals(ps) else 0)
  {
    var raw, index := RawIndex(sites, devices), TopologyIndex(sites);
    var state := StateOf(raw, completed, site.name);
    var ps := Projections(DevicesOf(devices, site.id));
    AllKnownStatuses(DevicesOf(devices, site.id));
    NoneMarked(devices, site.id);
    hide *;
    SameNames(sites, devices);
    CompletedKeys(index, completed);
    CompletedEnds(index, raw, completed);
    var i :| 0 <= i < |sites| && sites[i] == site;
    NamedIn(sites, i);
    KeyEnds(raw, completed, site.name);
    EvidenceIndexed(raw, completed);
    Causes(raw, completed, site.name);
    OverlayConserves(state, ps);
    ShownCounts(devices, site, state);
  }

  lemma {:induction false} OwnAreDevices(devices: seq<DeviceRow>, id: string)
    ensures forall d :: d in DevicesOf(devices, id) ==> d in devices
  {
    if devices != [] {
      OwnAreDevices(devices[..|devices| - 1], id);
    }
  }

  lemma NoneMarked(devices: seq<DeviceRow>, id: string)
    requires forall i :: 0 <= i < |devices| ==> !Marked(ProjectDevice(devices[i]))
    ensures forall i :: 0 <= i < |DevicesOf(devices, id)| ==> !Marked(Projections(DevicesOf(devices, id))[i])
  {
    OwnAreDevices(devices, id);
    hide Marked, ProjectDevice, DevicesOf;
    var own := DevicesOf(devices, id);
    forall i | 0 <= i < |own| ensures !Marked(Projections(own)[i]) {
      assert own[i] in devices;
      var k :| 0 <= k < |devices| && devices[k] == own[i];
    }
  }

  lemma KeyEnds(raw: RawHealth, index: SiteIndex, name: Id)
    requires AllImpactsEnd(raw, index) && name in index
    ensures ImpactEnds(raw, index, name)
  {
    hide ImpactEnds;
  }

  lemma EvidenceIndexed(raw: RawHealth, index: SiteIndex)
    requires raw.Keys == index.Keys
    ensures RawKnown(raw, index)
  {
  }

  lemma Causes(raw: RawHealth, index: SiteIndex, name: Id)
    requires ImpactEnds(raw, index, name) && RawKnown(raw, index)
    ensures var state := StateOf(raw, index, name);
      && (state.impacted ==> state.rootCauseSiteIDs != [])
      && forall r :: r in state.rootCauseSiteIDs ==> r in index && IsRootCause(raw, index, r)
  {
    RootIsIndexed(raw, index);
    hide ImpactEnds, IsRootCause, RootCauses, Impacted;
    if StateOf(raw, index, name).impacted {
      ImpactedSitesHaveRootCauses(raw, index, name);
    }
  }

  lemma ShownCounts(devices: seq<DeviceRow>, site: SiteRow, state: SiteState)
    ensures Shown(devices, site, state).counts == Projected(OverlayAll(state, Projections(DevicesOf(devices, site.id))))
  {
  }
}
