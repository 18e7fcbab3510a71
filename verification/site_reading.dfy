/** What a site shows, told from the stored rows alone: which sites are down, which are impacted and why, and how
    many devices are shown with each status. */
module SiteReading {
  import opened Ids
  import opened Graphs
  import opened Topology
  import opened SiteTopology
  import opened SiteCompletion
  import opened SiteEvaluation
  import opened SiteOverlay
  import opened SiteProjections
  import Contract

  // ---- One device ----

  function Plain(s: string): string {
    ToLower(Contract.Trim(s))
  }

  /** An offline device counts as critical unless its health row says unknown. */
  predicate ReadsCritical(d: DeviceRow) {
    if d.healthPresent then Plain(d.healthState) == "critical" || (!d.online && Plain(d.healthState) != "unknown")
    else !d.online
  }

  predicate ReadsUnknown(d: DeviceRow) {
    d.healthPresent && Plain(d.healthState) == "unknown"
  }

  predicate ReadsWarning(d: DeviceRow) {
    d.healthPresent && d.online && Plain(d.healthState) == "warning"
  }

  predicate ReadsHealthy(d: DeviceRow) {
    d.online && (d.healthPresent ==> Plain(d.healthState) !in {"critical", "unknown", "warning"})
  }

  /** Critical by itself, as far as its reason says; no reason counts as a direct failure. */
  predicate FailedItself(d: DeviceRow) {
    ReadsCritical(d) && (d.healthPresent ==> Plain(d.healthReason) in {"direct_unreachable", "poll_failed", ""})
  }

  /** The reason is the overlay's own mark in some mix of cases. */
  predicate CarriesMark(d: DeviceRow) {
    && d.healthPresent && |d.healthReason| == |UPSTREAM_SITE_UNREACHABLE|
    && forall i :: 0 <= i < |d.healthReason| ==> SameLetter(d.healthReason[i], UPSTREAM_SITE_UNREACHABLE[i])
  }

  /** `c` is the lower-case letter or sign `l`, its capital, or the long s. */
  predicate SameLetter(c: char, l: char) {
    c == l || ('a' <= l <= 'z' && c as int + 32 == l as int) || (l == 's' && c == '\U{017F}')
  }

  /** A device's projection: one of four statuses, the reason and count of its health row when there is one. */
  lemma DeviceReads(d: DeviceRow)
    ensures var p := ProjectDevice(d);
      && (p.status == 0 <==> ReadsUnknown(d)) && (p.status == 1 <==> ReadsHealthy(d))
      && (p.status == 2 <==> ReadsWarning(d)) && (p.status == 3 <==> ReadsCritical(d))
      && (d.healthPresent ==> p.statusReason == d.healthReason && p.failureCount == Some(d.failureCount))
      && (!d.healthPresent ==> p.statusReason == "" && p.failureCount == None)
      && p.upstreamDeviceIDs == d.upstreamIDs && p.unavailableUpstreamIDs == d.unavailableIDs
      && p.rootCauseDeviceIDs == d.rootCauseIDs && p.alertsEnabled == d.alertsEnabled
  {
    hide Contract.Trim, ToLower;
  }

  lemma DirectlyReads(d: DeviceRow)
    ensures IsDirectCritical(ProjectDevice(d)) <==> FailedItself(d)
    ensures HasFailed(SiteDevice(d.inventoryDeviceID, ProjectDevice(d))) <==> FailedItself(d) || ReadsUnknown(d)
  {
    DeviceReads(d);
    NoReason();
    hide ProjectDevice, ReadsCritical, ReadsUnknown, Contract.Trim, ToLower;
  }

  lemma NoReason()
    ensures Plain("") == ""
  {
  }

  lemma MarkReads(d: DeviceRow)
    ensures Marked(ProjectDevice(d)) <==> CarriesMark(d)
  {
    DeviceReads(d);
    hide ProjectDevice, ReadsCritical, ReadsUnknown, ReadsHealthy, ReadsWarning;
    MarkLetters();
    var reason := ProjectDevice(d).statusReason;
    ReasonEnds();
    forall i | 0 <= i < |UPSTREAM_SITE_UNREACHABLE| && i < |reason|
      ensures FoldChar(reason[i]) == FoldChar(UPSTREAM_SITE_UNREACHABLE[i]) <==>
        SameLetter(reason[i], UPSTREAM_SITE_UNREACHABLE[i])
    {
      FoldsSame(reason[i], UPSTREAM_SITE_UNREACHABLE[i]);
    }
  }

  lemma MarkLetters()
    ensures forall i :: 0 <= i < |UPSTREAM_SITE_UNREACHABLE| ==>
      var l := UPSTREAM_SITE_UNREACHABLE[i]; (l == '_' || 'a' <= l <= 'z') && l != 'k'
  {
  }

  lemma FoldsSame(c: char, l: char)
    requires (l == '_' || 'a' <= l <= 'z') && l != 'k'
    ensures FoldChar(c) == FoldChar(l) <==> SameLetter(c, l)
  {
  }

  // ---- One site's devices ----

  /** The positions of a site's devices that satisfy `P`. */
  function Where(devices: seq<DeviceRow>, site: string, P: DeviceRow -> bool): set<nat> {
    set k: nat | k < |devices| && devices[k].siteID == site && P(devices[k])
  }

  lemma WhereNext(devices: seq<DeviceRow>, site: string, P: DeviceRow -> bool)
    requires devices != []
    ensures var n, d := |devices| - 1, devices[|devices| - 1];
      |Where(devices, site, P)| == |Where(devices[..n], site, P)| + if d.siteID == site && P(d) then 1 else 0
  {
    var n, d := |devices| - 1, devices[|devices| - 1];
    var here := d.siteID == site && P(d);
    var before := Where(devices[..n], site, P);
    forall k: nat ensures k in Where(devices, site, P) <==> k in before || (here && k == n) {
      if k < n { assert devices[..n][k] == devices[k]; }
    }
    assert Where(devices, site, P) == if here then before + {n} else before;
  }

  predicate Any(d: DeviceRow) {
    true
  }

  predicate FailedOrUnknown(d: DeviceRow) {
    FailedItself(d) || ReadsUnknown(d)
  }

  lemma {:induction false} OwnDevices(devices: seq<DeviceRow>, site: string, d: DeviceRow)
    ensures d in DevicesOf(devices, site) <==> d in devices && d.siteID == site
  {
    if devices != [] {
      var n := |devices| - 1;
      OwnDevices(devices[..n], site, d);
      assert devices == devices[..n] + [devices[n]];
    }
  }

  lemma EvidenceOne(own: seq<DeviceRow>, d: DeviceRow)
    ensures EvidenceOf(own + [d]).devices ==
      EvidenceOf(own).devices + [SiteDevice(d.inventoryDeviceID, ProjectDevice(d))]
    ensures Projections(own + [d]) == Projections(own) + [ProjectDevice(d)]
  {
    hide ProjectDevice;
  }

  /** The cascade test counts positions. */
  lemma {:induction false} FailuresAre(devices: seq<DeviceRow>, site: string)
    ensures var own := DevicesOf(devices, site);
      && |EvidenceOf(own).devices| == |Where(devices, site, Any)|
      && Failures(EvidenceOf(own).devices) == |Where(devices, site, FailedOrUnknown)|
  {
    hide EvidenceOf, HasFailed, FailedOrUnknown;
    if devices == [] {
      assert Where(devices, site, Any) == {} && Where(devices, site, FailedOrUnknown) == {};
      NoEvidence();
    } else {
      var n, d := |devices| - 1, devices[|devices| - 1];
      FailuresAre(devices[..n], site);
      WhereNext(devices, site, Any);
      WhereNext(devices, site, FailedOrUnknown);
      FailedReads(d);
      var before := EvidenceOf(DevicesOf(devices[..n], site)).devices;
      if d.siteID == site {
        EvidenceOne(DevicesOf(devices[..n], site), d);
        var more := before + [SiteDevice(d.inventoryDeviceID, ProjectDevice(d))];
        assert more[..|before|] == before;
      } else {
        assert DevicesOf(devices, site) == DevicesOf(devices[..n], site);
      }
    }
  }

  lemma FailedReads(d: DeviceRow)
    ensures HasFailed(SiteDevice(d.inventoryDeviceID, ProjectDevice(d))) <==> FailedOrUnknown(d)
  {
    DirectlyReads(d);
    hide ProjectDevice, FailedItself, ReadsUnknown, HasFailed;
  }

  lemma NoEvidence()
    ensures EvidenceOf([]).devices == [] && Projections([]) == []
  {
  }

  // ---- Sites that are down ----

  predicate LastOfName(sites: seq<SiteRow>, i: int) {
    0 <= i < |sites| && forall j :: i < j < |sites| ==> sites[j].name != sites[i].name
  }

  /** Without hubs a site is down when some device that may alert reads as critical; with hubs, when one of them
      failed by itself. */
  predicate DownRow(site: SiteRow, devices: seq<DeviceRow>) {
    if site.hubDeviceIDs == [] then
      exists d :: d in devices && d.siteID == site.id && d.alertsEnabled && ReadsCritical(d)
    else
      exists d :: d in devices && d.siteID == site.id && d.inventoryDeviceID in site.hubDeviceIDs && FailedItself(d)
  }

  /** The last row of the name decides; a name without a row is never down. */
  ghost predicate Down(sites: seq<SiteRow>, devices: seq<DeviceRow>, name: Id) {
    exists i :: LastOfName(sites, i) && sites[i].name == name && DownRow(sites[i], devices)
  }

  lemma {:induction false} IndexesLast(sites: seq<SiteRow>, devices: seq<DeviceRow>, i: int)
    requires LastOfName(sites, i)
    ensures var s := sites[i];
      && s.name in TopologyIndex(sites) && s.name in RawIndex(sites, devices)
      && TopologyIndex(sites)[s.name] == SiteNode(s.name, s.upstreamSiteIDs, s.hubDeviceIDs)
      && RawIndex(sites, devices)[s.name] == EvidenceOf(DevicesOf(devices, s.id))
  {
    hide EvidenceOf, DevicesOf;
    var n := |sites| - 1;
    if i < n {
      assert sites[n].name != sites[i].name;
      IndexesLast(sites[..n], devices, i);
    }
  }

  lemma {:induction false} IndexedHasLast(sites: seq<SiteRow>, devices: seq<DeviceRow>, name: Id)
    requires name in TopologyIndex(sites) || name in RawIndex(sites, devices)
    ensures exists i :: LastOfName(sites, i) && sites[i].name == name
  {
    hide EvidenceOf, DevicesOf;
    var n := |sites| - 1;
    if sites[n].name == name {
      assert LastOfName(sites, n);
    } else {
      IndexedHasLast(sites[..n], devices, name);
      var i :| LastOfName(sites[..n], i) && sites[..n][i].name == name;
      assert LastOfName(sites, i);
    }
  }

  lemma RowUnavailable(site: SiteRow, devices: seq<DeviceRow>, node: SiteNode)
    requires node.hubDeviceIDs == site.hubDeviceIDs
    ensures SiteUnavailable(EvidenceOf(DevicesOf(devices, site.id)), node) <==> DownRow(site, devices)
  {
    var own := DevicesOf(devices, site.id);
    forall d ensures d in own <==> d in devices && d.siteID == site.id {
      OwnDevices(devices, site.id, d);
    }
    hide DevicesOf, ReadsCritical, FailedItself, EvidenceOf, HubFailed;
    if site.hubDeviceIDs == [] {
      CriticalCounted(own);
    } else {
      HubsCounted(own, site.hubDeviceIDs);
    }
  }

  lemma HubsCounted(own: seq<DeviceRow>, hubs: seq<Id>)
    ensures HubFailed(EvidenceOf(own), hubs) <==>
      exists d :: d in own && d.inventoryDeviceID in hubs && FailedItself(d)
  {
    forall i | 0 <= i < |own| ensures IsDirectCritical(ProjectDevice(own[i])) <==> FailedItself(own[i]) {
      DirectlyReads(own[i]);
    }
    hide ProjectDevice, FailedItself, IsDirectCritical, RawCounts;
    var ds := EvidenceOf(own).devices;
    if d :| d in own && d.inventoryDeviceID in hubs && FailedItself(d) {
      var i :| 0 <= i < |own| && own[i] == d;
      assert ds[i].inventoryDeviceID in hubs && IsDirectCritical(ds[i].projection);
    }
    if i :| 0 <= i < |ds| && ds[i].inventoryDeviceID in hubs && IsDirectCritical(ds[i].projection) {
      assert own[i] in own && FailedItself(own[i]);
    }
  }

  lemma CriticalCounted(own: seq<DeviceRow>)
    ensures EvidenceOf(own).counts.critical > 0 <==> exists d :: d in own && d.alertsEnabled && ReadsCritical(d)
  {
    var ps := Projections(own);
    CountsAreExact(ps);
    forall i | 0 <= i < |own|
      ensures ps[i].alertsEnabled == own[i].alertsEnabled
      ensures ps[i].status == STATUS_CRITICAL <==> ReadsCritical(own[i])
    {
      DeviceReads(own[i]);
    }
    hide ProjectDevice, ReadsCritical, RawCounts, Impacting;
    var S := WithStatus(ps, STATUS_CRITICAL);
    if d :| d in own && d.alertsEnabled && ReadsCritical(d) {
      var i: nat :| i < |own| && own[i] == d;
      assert i in S;
    }
    if S != {} {
      var i :| i in S;
      assert own[i] in own && own[i].alertsEnabled && ReadsCritical(own[i]);
    }
  }

  /** What the evaluation takes for unavailable is what the rows say is down. */
  lemma UnavailableIsDown(sites: seq<SiteRow>, devices: seq<DeviceRow>, completed: SiteIndex, name: Id)
    requires Completes(TopologyIndex(sites), completed)
    ensures Unavailable(RawIndex(sites, devices), completed, name) <==> Down(sites, devices, name)
  {
    hide DevicesOf, EvidenceOf, DownRow, TopologyIndex, RawIndex, Chosen, SiteCompletion.Inferred;
    SameNames(sites, devices);
    var raw := RawIndex(sites, devices);
    if name in raw {
      IndexedHasLast(sites, devices, name);
      var i :| LastOfName(sites, i) && sites[i].name == name;
      IndexesLast(sites, devices, i);
      RowUnavailable(sites[i], devices, completed[name]);
    } else {
      forall i | LastOfName(sites, i) ensures sites[i].name != name {
        IndexesLast(sites, devices, i);
      }
    }
  }

  // ---- Upstreams by name ----

  /** A listed site whose lower-cased name is what stands before the first "-idf", followed by "-mdf". */
  ghost predicate DistributionOf(sites: seq<SiteRow>, name: Id, m: Id) {
    m in Elems(NamesOf(sites)) && exists stem :: Stem(name, stem) && stem != "" && ToLower(m) == stem + "-mdf"
  }

  /** The upstreams of a site without any of its own, told from its name; `core` is "" when no site is named so. */
  ghost predicate CompletedByName(sites: seq<SiteRow>, core: Id, name: Id, ups: seq<Id>) {
    if Holds(name, "core") then ups == []
    else if exists m :: DistributionOf(sites, name, m) then exists m :: DistributionOf(sites, name, m) && ups == [m]
    else if (Holds(name, "-idf") || Holds(name, "-mdf")) && core != "" then ups == [core]
    else ups == []
  }

  /** Every listed site keeps its own upstreams or gets some by name; all that get the core get the same one. */
  ghost predicate UpstreamsRead(sites: seq<SiteRow>, completed: SiteIndex, core: Id) {
    && (if core == "" then forall c :: c in Elems(NamesOf(sites)) ==> !Holds(c, "core")
        else core in Elems(NamesOf(sites)) && Holds(core, "core"))
    && forall i :: LastOfName(sites, i) ==>
         if sites[i].upstreamSiteIDs != [] then Upstreams(completed, sites[i].name) == sites[i].upstreamSiteIDs
         else CompletedByName(sites, core, sites[i].name, Upstreams(completed, sites[i].name))
  }

  lemma CoreReads(sites: seq<SiteRow>, devices: seq<DeviceRow>, core: Id)
    requires FoundCore(TopologyIndex(sites), core)
    ensures if core == "" then forall c :: c in Elems(NamesOf(sites)) ==> !Holds(c, "core")
      else core in Elems(NamesOf(sites)) && Holds(core, "core")
  {
    SameNames(sites, devices);
    NotCore("");
    forall c ensures Holds(c, "core") <==> IsCore(c) {
      HoldsIs(c, "core");
    }
    hide Holds, IsCore, TopologyIndex, NamesOf;
  }

  lemma DistributionIs(sites: seq<SiteRow>, devices: seq<DeviceRow>, name: Id, m: Id)
    requires Names(name, IDF)
    ensures DistributionOf(sites, name, m) <==> MdfMatch(TopologyIndex(sites), name, m)
  {
    SameNames(sites, devices);
    StemIs(name);
    hide Stem, TopologyIndex, NamesOf, IndexOf, Contains, ToLower;
    assert Stem(name, ToLower(name)[..IndexOf(ToLower(name), IDF)]);
  }

  lemma MdfReads(sites: seq<SiteRow>, devices: seq<DeviceRow>, naming: Naming, name: Id)
    requires Chosen(TopologyIndex(sites), naming) && Names(name, IDF)
    ensures var m := MatchingMdf(naming.byLower, name);
      if m != "" then DistributionOf(sites, name, m) else forall m :: !DistributionOf(sites, name, m)
  {
    hide *;
    MatchIsMdf(TopologyIndex(sites), naming, name);
    MatchIndexed(TopologyIndex(sites), name);
    forall m ensures DistributionOf(sites, name, m) <==> MdfMatch(TopologyIndex(sites), name, m) {
      DistributionIs(sites, devices, name, m);
    }
  }

  lemma MatchIndexed(index: SiteIndex, name: Id)
    requires Names(name, IDF)
    ensures forall m :: MdfMatch(index, name, m) ==> m in index
  {
    hide IndexOf, ToLower, Contains;
  }

  lemma NameCompletes(sites: seq<SiteRow>, devices: seq<DeviceRow>, naming: Naming, name: Id)
    requires Chosen(TopologyIndex(sites), naming)
    ensures CompletedByName(sites, naming.core, name, SiteCompletion.Inferred(naming, name))
  {
    HoldsIs(name, "core");
    HoldsIs(name, "-idf");
    HoldsIs(name, "-mdf");
    if Names(name, IDF) { MdfReads(sites, devices, naming, name); }
    forall m ensures DistributionOf(sites, name, m) ==> Holds(name, "-idf") {
      if stem :| Stem(name, stem) {
        if b :| ToLower(name) == stem + "-idf" + b {}
      }
    }
    hide Stem, Holds, DistributionOf, MatchingMdf, LowerMap, FoundCore, Names;
  }

  lemma UpstreamsAreRead(sites: seq<SiteRow>, devices: seq<DeviceRow>, completed: SiteIndex)
    requires Completes(TopologyIndex(sites), completed)
    ensures exists core :: UpstreamsRead(sites, completed, core)
  {
    hide TopologyIndex, Chosen, SiteCompletion.Inferred, CompletedByName, NamesOf;
    var naming :| Chosen(TopologyIndex(sites), naming) && completed == Completed(TopologyIndex(sites), naming);
    ChosenCore(TopologyIndex(sites), naming);
    CoreReads(sites, devices, naming.core);
    forall i | LastOfName(sites, i)
      ensures var row, ups := sites[i], Upstreams(completed, sites[i].name);
        if row.upstreamSiteIDs != [] then ups == row.upstreamSiteIDs
        else CompletedByName(sites, naming.core, row.name, ups)
    {
      IndexesLast(sites, devices, i);
      NameCompletes(sites, devices, naming, sites[i].name);
    }
    assert UpstreamsRead(sites, completed, naming.core);
  }

  lemma ChosenCore(index: SiteIndex, naming: Naming)
    requires Chosen(index, naming)
    ensures FoundCore(index, naming.core)
  {
  }

  // ---- A site's state ----

  /** Sites that are down, each depending on the next. */
  ghost predicate DownChain(sites: seq<SiteRow>, devices: seq<DeviceRow>, completed: SiteIndex, p: seq<Id>) {
    && p != [] && (forall k :: 0 <= k < |p| ==> Down(sites, devices, p[k]))
    && forall k :: 0 <= k < |p| - 1 ==> p[k + 1] in Upstreams(completed, p[k])
  }

  /** `r` is down, no site it depends on is, and sites that are down lead to it. */
  ghost predicate Blamed(sites: seq<SiteRow>, devices: seq<DeviceRow>, completed: SiteIndex, from: seq<Id>, r: Id) {
    && (forall u :: u in Upstreams(completed, r) ==> !Down(sites, devices, u))
    && exists p :: DownChain(sites, devices, completed, p) && p[0] in from && p[|p| - 1] == r
  }

  /** What the rows say about the site of row `i`, the last one of its name. */
  ghost predicate StateReads(sites: seq<SiteRow>, devices: seq<DeviceRow>, completed: SiteIndex, i: int,
                             state: SiteState)
    requires LastOfName(sites, i)
  {
    var ups, down := Upstreams(completed, sites[i].name), state.unavailableUpstreamSiteIDs;
    && state.upstreamSiteIDs == ups
    && (state.impacted <==>
          && ups != [] && (forall u :: u in ups ==> Down(sites, devices, u))
          && 2 * |Where(devices, sites[i].id, FailedOrUnknown)| > |Where(devices, sites[i].id, Any)|)
    && (forall j, k :: 0 <= j < k < |down| ==> !Less(down[k], down[j]))
    && (forall u :: multiset(down)[u] == if Down(sites, devices, u) then multiset(ups)[u] else 0)
    && (state.impacted ==> state.rootCauseSiteIDs != []) && Sorted(state.rootCauseSiteIDs)
    && forall r :: r in state.rootCauseSiteIDs <==> state.impacted && Blamed(sites, devices, completed, ups, r)
  }

  lemma DownIs(sites: seq<SiteRow>, devices: seq<DeviceRow>, completed: SiteIndex)
    requires Completes(TopologyIndex(sites), completed)
    ensures forall u :: Unavailable(RawIndex(sites, devices), completed, u) <==> Down(sites, devices, u)
  {
    forall u ensures Unavailable(RawIndex(sites, devices), completed, u) <==> Down(sites, devices, u) {
      UnavailableIsDown(sites, devices, completed, u);
    }
  }

  lemma {:induction false} DownOnes(raw: RawHealth, index: SiteIndex, ups: seq<Id>, u: Id)
    ensures multiset(DownUpstreams(raw, index, ups))[u] == if Unavailable(raw, index, u) then multiset(ups)[u] else 0
  {
    hide Unavailable;
    if ups != [] {
      var n := |ups| - 1;
      DownOnes(raw, index, ups[..n], u);
      assert ups == ups[..n] + [ups[n]];
    }
  }

  lemma DownSorted(raw: RawHealth, index: SiteIndex, ups: seq<Id>)
    ensures var down := SortIds(DownUpstreams(raw, index, ups));
      && (forall j, k :: 0 <= j < k < |down| ==> !Less(down[k], down[j]))
      && forall u :: multiset(down)[u] == if Unavailable(raw, index, u) then multiset(ups)[u] else 0
  {
    var found := DownUpstreams(raw, index, ups);
    SortByProps(found, (x: Id) => x);
    hide Unavailable, SortBy, DownUpstreams;
    forall u ensures multiset(found)[u] == if Unavailable(raw, index, u) then multiset(ups)[u] else 0 {
      DownOnes(raw, index, ups, u);
    }
  }

  /** What the chains below need of the evaluation. */
  ghost predicate ReadsAs(sites: seq<SiteRow>, devices: seq<DeviceRow>, completed: SiteIndex, raw: RawHealth) {
    && (forall u :: Unavailable(raw, completed, u) <==> Down(sites, devices, u))
    && forall u :: Unavailable(raw, completed, u) ==> u in completed
  }

  lemma PathIsChain(sites: seq<SiteRow>, devices: seq<DeviceRow>, completed: SiteIndex, raw: RawHealth, p: seq<Id>)
    requires ReadsAs(sites, devices, completed, raw) && p != [] && Down(sites, devices, p[|p| - 1])
    ensures IsPath(UnavailableGraph(raw, completed), p) <==> DownChain(sites, devices, completed, p)
  {
    hide Down, Unavailable, UnavailableGraph, Upstreams, ReadsAs;
    var g := UnavailableGraph(raw, completed);
    forall k | 0 <= k < |p| - 1
      ensures Edge(g, p[k], p[k + 1]) <==>
        Down(sites, devices, p[k]) && Down(sites, devices, p[k + 1]) && p[k + 1] in Upstreams(completed, p[k])
    {
      EdgeIsDown(sites, devices, completed, raw, p[k], p[k + 1]);
    }
    if IsPath(g, p) {
      forall k | 0 <= k < |p| ensures Down(sites, devices, p[k]) {
        assert k < |p| - 1 ==> Edge(g, p[k], p[k + 1]);
      }
      forall k | 0 <= k < |p| - 1 ensures p[k + 1] in Upstreams(completed, p[k]) {
        assert Edge(g, p[k], p[k + 1]);
      }
    }
    if DownChain(sites, devices, completed, p) {
      forall k | 0 <= k < |p| - 1 ensures Edge(g, p[k], p[k + 1]) {
        assert Down(sites, devices, p[k]) && Down(sites, devices, p[k + 1]);
      }
    }
  }

  lemma EdgeIsDown(sites: seq<SiteRow>, devices: seq<DeviceRow>, completed: SiteIndex, raw: RawHealth, a: Id, b: Id)
    requires ReadsAs(sites, devices, completed, raw)
    ensures Edge(UnavailableGraph(raw, completed), a, b) <==>
      Down(sites, devices, a) && Down(sites, devices, b) && b in Upstreams(completed, a)
  {
    hide Down, Unavailable;
    assert Unavailable(raw, completed, a) <==> Down(sites, devices, a);
    assert Unavailable(raw, completed, b) <==> Down(sites, devices, b);
  }

  /** Walks through unavailable sites to one without unavailable upstreams are chains of sites that are down. */
  lemma ChainsAre(sites: seq<SiteRow>, devices: seq<DeviceRow>, completed: SiteIndex, raw: RawHealth, from: seq<Id>,
                  r: Id)
    requires ReadsAs(sites, devices, completed, raw)
    ensures Blamed(sites, devices, completed, from, r) <==>
      IsRootCause(raw, completed, r) && CausedBy(raw, completed, from, r)
  {
    RootReads(sites, devices, completed, raw, r);
    hide Down, UnavailableGraph, ReadsAs, DownChain, IsRootCause;
    var g := UnavailableGraph(raw, completed);
    if IsRootCause(raw, completed, r) && CausedBy(raw, completed, from, r) {
      var u :| u in from && Reaches(g, u, r);
      var p :| IsPath(g, p) && p[0] == u && p[|p| - 1] == r;
      PathIsChain(sites, devices, completed, raw, p);
    }
    if Blamed(sites, devices, completed, from, r) {
      var p :| DownChain(sites, devices, completed, p) && p[0] in from && p[|p| - 1] == r;
      LastIsDown(sites, devices, completed, p);
      PathIsChain(sites, devices, completed, raw, p);
      assert Reaches(g, p[0], r);
    }
  }

  lemma LastIsDown(sites: seq<SiteRow>, devices: seq<DeviceRow>, completed: SiteIndex, p: seq<Id>)
    requires DownChain(sites, devices, completed, p)
    ensures p != [] && Down(sites, devices, p[|p| - 1])
  {
    hide Down;
  }

  lemma RootReads(sites: seq<SiteRow>, devices: seq<DeviceRow>, completed: SiteIndex, raw: RawHealth, r: Id)
    requires ReadsAs(sites, devices, completed, raw)
    ensures IsRootCause(raw, completed, r) <==>
      Down(sites, devices, r) && forall u :: u in Upstreams(completed, r) ==> !Down(sites, devices, u)
  {
    hide Down, Unavailable;
  }

  lemma UnavailableListed(raw: RawHealth, index: SiteIndex)
    requires raw.Keys == index.Keys
    ensures forall u :: Unavailable(raw, index, u) ==> u in index
  {
  }

  lemma RowsReadAs(sites: seq<SiteRow>, devices: seq<DeviceRow>, completed: SiteIndex)
    requires Completes(TopologyIndex(sites), completed)
    ensures ReadsAs(sites, devices, completed, RawIndex(sites, devices))
    ensures RawKnown(RawIndex(sites, devices), completed)
  {
    SameNames(sites, devices);
    CompletedKeys(TopologyIndex(sites), completed);
    UnavailableListed(RawIndex(sites, devices), completed);
    EvidenceIndexed(RawIndex(sites, devices), completed);
    hide *;
    DownIs(sites, devices, completed);
    ReadsAsWhen(sites, devices, completed, RawIndex(sites, devices));
  }

  lemma ReadsAsWhen(sites: seq<SiteRow>, devices: seq<DeviceRow>, completed: SiteIndex, raw: RawHealth)
    requires forall u :: Unavailable(raw, completed, u) <==> Down(sites, devices, u)
    requires forall u :: Unavailable(raw, completed, u) ==> u in completed
    ensures ReadsAs(sites, devices, completed, raw)
  {
    hide Down, Unavailable;
  }

  lemma ImpactReads(sites: seq<SiteRow>, devices: seq<DeviceRow>, completed: SiteIndex, i: int)
    requires LastOfName(sites, i) && ReadsAs(sites, devices, completed, RawIndex(sites, devices))
    ensures var ups := Upstreams(completed, sites[i].name);
      Impacted(RawIndex(sites, devices), completed, sites[i].name) <==>
        && ups != [] && (forall u :: u in ups ==> Down(sites, devices, u))
        && 2 * |Where(devices, sites[i].id, FailedOrUnknown)| > |Where(devices, sites[i].id, Any)|
  {
    IndexesLast(sites, devices, i);
    FailuresAre(devices, sites[i].id);
    hide Down, Unavailable, Where, EvidenceOf, RawIndex, DevicesOf, Failures, FailedOrUnknown, Any;
  }

  /** For all rows: the state evaluated for a site's name is what the rows say. */
  lemma StateFromRows(sites: seq<SiteRow>, devices: seq<DeviceRow>, completed: SiteIndex, i: int)
    requires Completes(TopologyIndex(sites), completed) && LastOfName(sites, i)
    requires EvaluationEnds(TopologyIndex(sites), RawIndex(sites, devices))
    ensures StateReads(sites, devices, completed, i, StateOf(RawIndex(sites, devices), completed, sites[i].name))
  {
    var raw, name := RawIndex(sites, devices), sites[i].name;
    hide *;
    RowsReadAs(sites, devices, completed);
    ImpactReads(sites, devices, completed, i);
    DownSorted(raw, completed, Upstreams(completed, name));
    IndexesLast(sites, devices, i);
    CompletedKeys(TopologyIndex(sites), completed);
    CompletedEnds(TopologyIndex(sites), raw, completed);
    KeyEnds(raw, completed, name);
    CausesRead(sites, devices, completed, raw, name);
    StateReadsWhen(sites, devices, completed, i);
  }

  lemma CausesRead(sites: seq<SiteRow>, devices: seq<DeviceRow>, completed: SiteIndex, raw: RawHealth, name: Id)
    requires ReadsAs(sites, devices, completed, raw) && RawKnown(raw, completed) && ImpactEnds(raw, completed, name)
    ensures var state := StateOf(raw, completed, name);
      && (state.impacted ==> state.rootCauseSiteIDs != []) && Sorted(state.rootCauseSiteIDs)
      && forall r :: r in state.rootCauseSiteIDs <==>
           state.impacted && Blamed(sites, devices, completed, Upstreams(completed, name), r)
  {
    var ups := Upstreams(completed, name);
    forall r ensures Blamed(sites, devices, completed, ups, r) <==>
        IsRootCause(raw, completed, r) && CausedBy(raw, completed, ups, r)
    {
      ChainsAre(sites, devices, completed, raw, ups, r);
    }
    hide ReadsAs, Blamed, ImpactEnds, IsRootCause, CausedBy, RootCauses, Impacted;
    if Impacted(raw, completed, name) {
      ImpactedSitesHaveRootCauses(raw, completed, name);
    }
  }

  lemma StateReadsWhen(sites: seq<SiteRow>, devices: seq<DeviceRow>, completed: SiteIndex, i: int)
    requires LastOfName(sites, i)
    requires ReadsAs(sites, devices, completed, RawIndex(sites, devices))
    requires var raw, name := RawIndex(sites, devices), sites[i].name;
      var ups, state := Upstreams(completed, name), StateOf(raw, completed, name);
      var down := SortIds(DownUpstreams(raw, completed, ups));
      && (Impacted(raw, completed, name) <==>
            && ups != [] && (forall u :: u in ups ==> Down(sites, devices, u))
            && 2 * |Where(devices, sites[i].id, FailedOrUnknown)| > |Where(devices, sites[i].id, Any)|)
      && (forall j, k :: 0 <= j < k < |down| ==> !Less(down[k], down[j]))
      && (forall u :: multiset(down)[u] == if Unavailable(raw, completed, u) then multiset(ups)[u] else 0)
      && (state.impacted ==> state.rootCauseSiteIDs != []) && Sorted(state.rootCauseSiteIDs)
      && forall r :: r in state.rootCauseSiteIDs <==> state.impacted && Blamed(sites, devices, completed, ups, r)
    ensures StateReads(sites, devices, completed, i, StateOf(RawIndex(sites, devices), completed, sites[i].name))
  {
    hide Down, Unavailable, Impacted, Upstreams, RootCauses, Blamed, Where, RawIndex, DownUpstreams, SortBy, Sorted;
  }

  // ---- The counts a site shows ----

  /** Shown as unknown because of another site: marked so, or a direct failure at an impacted site. */
  predicate BlamedOnSite(d: DeviceRow, impacted: bool) {
    CarriesMark(d) || (impacted && FailedItself(d))
  }

  function ShownStatus(d: DeviceRow, impacted: bool): int {
    if BlamedOnSite(d, impacted) || ReadsUnknown(d) then 0
    else if ReadsHealthy(d) then 1
    else if ReadsWarning(d) then 2
    else 3
  }

  function Showing(impacted: bool, status: int): DeviceRow -> bool {
    (d: DeviceRow) => d.alertsEnabled && ShownStatus(d, impacted) == status
  }

  /** Shown as unknown behind something else. */
  function ShowingDependent(impacted: bool): DeviceRow -> bool {
    (d: DeviceRow) => d.alertsEnabled && (BlamedOnSite(d, impacted) || (ReadsUnknown(d) && d.unavailableIDs != []))
  }

  /** Each count is a number of positions among the site's devices that may alert. */
  predicate CountsRead(devices: seq<DeviceRow>, site: string, impacted: bool, c: Counts) {
    && c.healthy == |Where(devices, site, Showing(impacted, 1))|
    && c.warning == |Where(devices, site, Showing(impacted, 2))|
    && c.critical == |Where(devices, site, Showing(impacted, 3))|
    && c.unknown == |Where(devices, site, Showing(impacted, 0))|
    && c.dependencyImpacted == |Where(devices, site, ShowingDependent(impacted))|
  }

  lemma OverlaidReads(state: SiteState, d: DeviceRow)
    ensures var q := ApplySiteDependencyOverlay(state, ProjectDevice(d));
      && (Marked(q) <==> BlamedOnSite(d, state.impacted))
      && q.alertsEnabled == d.alertsEnabled && q.unavailableUpstreamIDs == d.unavailableIDs
      && (!Marked(q) ==> q.status == ShownStatus(d, state.impacted) && (q.status == 0 <==> ReadsUnknown(d)))
  {
    var p := ProjectDevice(d);
    DeviceReads(d);
    DirectlyReads(d);
    MarkReads(d);
    StatusOnce(d);
    OverlayMarks(state, p);
    hide *;
    ShownStatusIs(d, state.impacted, p.status);
  }

  lemma OverlayMarks(state: SiteState, p: DeviceProjection)
    ensures var q := ApplySiteDependencyOverlay(state, p);
      && q.alertsEnabled == p.alertsEnabled && q.unavailableUpstreamIDs == p.unavailableUpstreamIDs
      && (Marked(q) <==> Marked(p) || (state.impacted && IsDirectCritical(p)))
      && (!Marked(q) ==> q == p)
  {
    MarkedUnmistakable(p);
    hide IsDirectCritical, EqualFold;
  }

  lemma ShownStatusIs(d: DeviceRow, impacted: bool, status: int)
    requires status == 0 <==> ReadsUnknown(d)
    requires status == 1 <==> ReadsHealthy(d)
    requires status == 2 <==> ReadsWarning(d)
    requires ReadsCritical(d) || ReadsUnknown(d) || ReadsHealthy(d) || ReadsWarning(d)
    requires status == 3 <==> ReadsCritical(d)
    ensures !BlamedOnSite(d, impacted) ==> ShownStatus(d, impacted) == status
    ensures BlamedOnSite(d, impacted) <==> CarriesMark(d) || (impacted && FailedItself(d))
  {
    hide ReadsCritical, ReadsUnknown, ReadsHealthy, ReadsWarning, FailedItself, CarriesMark;
  }

  lemma OneMoreShown(state: SiteState, c: Counts, d: DeviceRow)
    ensures var after := CountedProjected(c, ApplySiteDependencyOverlay(state, ProjectDevice(d)));
      && after.healthy == c.healthy + (if Showing(state.impacted, 1)(d) then 1 else 0)
      && after.warning == c.warning + (if Showing(state.impacted, 2)(d) then 1 else 0)
      && after.critical == c.critical + (if Showing(state.impacted, 3)(d) then 1 else 0)
      && after.unknown == c.unknown + (if Showing(state.impacted, 0)(d) then 1 else 0)
      && after.dependencyImpacted == c.dependencyImpacted + (if ShowingDependent(state.impacted)(d) then 1 else 0)
  {
    OverlaidReads(state, d);
    ShownWhenBlamed(d, state.impacted);
    hide ApplySiteDependencyOverlay, ShownStatus, BlamedOnSite, ReadsUnknown, Marked;
  }

  lemma ShownWhenBlamed(d: DeviceRow, impacted: bool)
    ensures BlamedOnSite(d, impacted) ==> ShownStatus(d, impacted) == 0
    ensures ShownStatus(d, impacted) in {0, 1, 2, 3}
  {
    hide BlamedOnSite, ReadsUnknown, ReadsHealthy, ReadsWarning;
  }

  lemma StatusOnce(d: DeviceRow)
    ensures ReadsCritical(d) || ReadsUnknown(d) || ReadsHealthy(d) || ReadsWarning(d)
    ensures FailedItself(d) ==> ReadsCritical(d)
  {
    hide Plain;
  }

  lemma {:induction false} CountsFromRows(devices: seq<DeviceRow>, site: string, state: SiteState)
    ensures CountsRead(devices, site, state.impacted,
      Projected(OverlayAll(state, Projections(DevicesOf(devices, site)))))
  {
    hide Showing, ShowingDependent, Where, CountedProjected, ApplySiteDependencyOverlay;
    if devices == [] {
      NoneShown(site, state);
    } else {
      var n, d := |devices| - 1, devices[|devices| - 1];
      CountsFromRows(devices[..n], site, state);
      var own := DevicesOf(devices[..n], site);
      EachNext(devices, site, state.impacted);
      if d.siteID == site {
        OneMoreShown(state, Projected(OverlayAll(state, Projections(own))), d);
        ShownUnfold(state, own, d);
      } else {
        assert DevicesOf(devices, site) == own;
      }
    }
  }

  lemma NoneShown(site: string, state: SiteState)
    ensures CountsRead([], site, state.impacted, Projected(OverlayAll(state, Projections(DevicesOf([], site)))))
  {
    hide Showing, ShowingDependent;
    forall P: DeviceRow -> bool ensures Where([], site, P) == {} {
    }
  }

  lemma EachNext(devices: seq<DeviceRow>, site: string, impacted: bool)
    requires devices != []
    ensures var n, d := |devices| - 1, devices[|devices| - 1];
      && (forall s :: |Where(devices, site, Showing(impacted, s))| ==
            |Where(devices[..n], site, Showing(impacted, s))|
              + if d.siteID == site && Showing(impacted, s)(d) then 1 else 0)
      && |Where(devices, site, ShowingDependent(impacted))| ==
         |Where(devices[..n], site, ShowingDependent(impacted))|
           + if d.siteID == site && ShowingDependent(impacted)(d) then 1 else 0
  {
    hide Showing, ShowingDependent, Where;
    var n, d := |devices| - 1, devices[|devices| - 1];
    forall s
      ensures |Where(devices, site, Showing(impacted, s))| ==
        |Where(devices[..n], site, Showing(impacted, s))| + if d.siteID == site && Showing(impacted, s)(d) then 1 else 0
    {
      WhereNext(devices, site, Showing(impacted, s));
    }
    WhereNext(devices, site, ShowingDependent(impacted));
  }

  lemma ShownUnfold(state: SiteState, own: seq<DeviceRow>, d: DeviceRow)
    ensures Projected(OverlayAll(state, Projections(own + [d]))) ==
      CountedProjected(Projected(OverlayAll(state, Projections(own))),
                       ApplySiteDependencyOverlay(state, ProjectDevice(d)))
  {
    EvidenceOne(own, d);
    var ps := Projections(own + [d]);
    CountsUnfold(state, ps, |own|);
    assert ps[..|own|] == Projections(own);
  }

  /** What the overlay makes of one device: a direct failure at an impacted site is shown as unknown because of the
      upstream site, anything else as it is. */
  lemma DeviceShown(state: SiteState, d: DeviceRow)
    ensures var p, q := ProjectDevice(d), ApplySiteDependencyOverlay(state, ProjectDevice(d));
      q == if state.impacted && FailedItself(d)
        then p.(status := 0, statusReason := "upstream_site_unreachable") else p
  {
    DirectlyReads(d);
    hide IsDirectCritical, ProjectDevice, FailedItself;
  }

  // ---- What BuildSiteProjections returns ----

  /** For all rows: a site's bundle holds the state its rows describe and counts each of its devices once, under
      the status shown. The row that counts is the last of its id; its evidence is that of the last of its name. */
  lemma BundlesFromRows(sites: seq<SiteRow>, devices: seq<DeviceRow>, completed: SiteIndex,
                        bundles: map<string, Bundle>, k: nat, i: int)
    requires Completes(TopologyIndex(sites), completed) && ShownOn(sites, devices, completed, bundles)
    requires EvaluationEnds(TopologyIndex(sites), RawIndex(sites, devices))
    requires LastOfId(sites, k) && LastOfName(sites, i) && sites[i].name == sites[k].name
    ensures sites[k].id in bundles
    ensures var bundle := bundles[sites[k].id];
      && StateReads(sites, devices, completed, i, bundle.state)
      && CountsRead(devices, sites[k].id, bundle.state.impacted, bundle.counts)
  {
    hide Completes, EvaluationEnds, StateReads, CountsRead, StateOf, TopologyIndex, RawIndex, DevicesOf, OverlayAll;
    assert sites[k] in sites;
    StateFromRows(sites, devices, completed, i);
    CountsFromRows(devices, sites[k].id, StateOf(RawIndex(sites, devices), completed, sites[k].name));
  }
}
