/** The managed inventory document: overlays on the static inventory, and edits checked before they are kept. */
module ManagedInventory {
  import opened Ids
  import opened Graphs
  import opened Config
  import Contract

  function Else<T>(own: Option<T>, otherwise: Option<T>): Option<T> {
    if own.Some? then own else otherwise
  }

  /** Copies the fields an overlay sets; identity fields of the static device stay. */
  function ApplyDeviceOverlay(base: DeviceConfig, overlay: DeviceConfig): DeviceConfig {
    base.(temperatureWarningC := Else(overlay.temperatureWarningC, base.temperatureWarningC),
          upstreamDeviceIDs := Else(overlay.upstreamDeviceIDs, base.upstreamDeviceIDs),
          role := if Contract.Trim(overlay.role) != "" then Contract.Trim(overlay.role) else base.role,
          alertsEnabled := Else(overlay.alertsEnabled, base.alertsEnabled),
          interfaceFilters :=
            if overlay.interfaceFilters != [] then overlay.interfaceFilters else base.interfaceFilters)
  }

  /** The position of an id's last static entry. */
  function StaticIndex(fixed: seq<DeviceConfig>): (index: map<Id, nat>)
    ensures forall id :: id in index ==> index[id] < |fixed| && fixed[index[id]].id == id
    ensures forall i :: 0 <= i < |fixed| ==> fixed[i].id in index
  {
    if fixed == [] then map[]
    else
      var n := |fixed| - 1;
      StaticIndex(fixed[..n])[fixed[n].id := n]
  }

  /** Static devices first, overlaid; then the managed devices of other ids. */
  function Merged(fixed: seq<DeviceConfig>, managed: seq<DeviceConfig>): (m: seq<DeviceConfig>)
    ensures |m| >= |fixed| && forall i :: 0 <= i < |fixed| ==> m[i].id == fixed[i].id
  {
    if managed == [] then fixed
    else
      var m, d := Merged(fixed, managed[..|managed| - 1]), managed[|managed| - 1];
      MergeOne(fixed, m, d)
  }

  function MergeOne(fixed: seq<DeviceConfig>, m: seq<DeviceConfig>, d: DeviceConfig): seq<DeviceConfig>
    requires |m| >= |fixed|
  {
    var index := StaticIndex(fixed);
    if d.id in index then m[index[d.id] := ApplyDeviceOverlay(m[index[d.id]], d)] else m + [d]
  }

  lemma MergedNext(fixed: seq<DeviceConfig>, managed: seq<DeviceConfig>, j: nat)
    requires j < |managed|
    ensures Merged(fixed, managed[..j + 1]) == MergeOne(fixed, Merged(fixed, managed[..j]), managed[j])
  {
    hide MergeOne;
    assert managed[..j + 1][..j] == managed[..j];
  }

  method MergeInventories(fixed: seq<DeviceConfig>, managed: seq<DeviceConfig>) returns (merged: seq<DeviceConfig>)
    ensures merged == Merged(fixed, managed)
  {
    var indexByID: map<Id, nat> := map[];
    merged := [];
    var i := 0;
    while i < |fixed|
      invariant 0 <= i <= |fixed| && merged == fixed[..i] && indexByID == StaticIndex(fixed[..i])
    {
      SplitAt(fixed, i);
      indexByID := indexByID[fixed[i].id := |merged|];
      merged := merged + [fixed[i]];
      i := i + 1;
    }
    assert fixed[..i] == fixed && managed[..0] == [];
    assert Merged(fixed, []) == fixed;
    var j := 0;
    while j < |managed|
      invariant 0 <= j <= |managed| && merged == Merged(fixed, managed[..j])
    {
      hide StaticIndex, ApplyDeviceOverlay, Merged;
      MergedNext(fixed, managed, j);
      var d := managed[j];
      if d.id in indexByID {
        merged := merged[indexByID[d.id] := ApplyDeviceOverlay(merged[indexByID[d.id]], d)];
      } else {
        merged := merged + [d];
      }
      j := j + 1;
    }
    assert managed[..j] == managed;
  }

  /** Managed entries never replace the identity of a static device: its id and address stay. */
  lemma {:induction false} StaticIdentityKept(fixed: seq<DeviceConfig>, managed: seq<DeviceConfig>, i: nat)
    requires i < |fixed|
    ensures Merged(fixed, managed)[i].id == fixed[i].id && Merged(fixed, managed)[i].host == fixed[i].host
  {
    if managed != [] {
      StaticIdentityKept(fixed, managed[..|managed| - 1], i);
      hide Contract.Trim;
    }
  }

  /** The last managed entry of an id that sets something; later entries of the id do not set it. */
  predicate SetLast(managed: seq<DeviceConfig>, id: Id, j: nat, sets: DeviceConfig -> bool) {
    && j < |managed| && managed[j].id == id && sets(managed[j])
    && forall k :: j < k < |managed| && managed[k].id == id ==> !sets(managed[k])
  }

  predicate NeverSet(managed: seq<DeviceConfig>, id: Id, sets: DeviceConfig -> bool) {
    forall k :: 0 <= k < |managed| && managed[k].id == id ==> !sets(managed[k])
  }

  const SETS_WARNING := (d: DeviceConfig) => d.temperatureWarningC.Some?
  const SETS_UPSTREAMS := (d: DeviceConfig) => d.upstreamDeviceIDs.Some?
  const SETS_ALERTS := (d: DeviceConfig) => d.alertsEnabled.Some?
  const SETS_ROLE := (d: DeviceConfig) => Contract.Trim(d.role) != ""
  const SETS_FILTERS := (d: DeviceConfig) => d.interfaceFilters != []

  predicate FieldsFit(managed: seq<DeviceConfig>, own: DeviceConfig, d: DeviceConfig, j: nat) {
    && (SetLast(managed, own.id, j, SETS_WARNING) ==> d.temperatureWarningC == managed[j].temperatureWarningC)
    && (SetLast(managed, own.id, j, SETS_UPSTREAMS) ==> d.upstreamDeviceIDs == managed[j].upstreamDeviceIDs)
    && (SetLast(managed, own.id, j, SETS_ALERTS) ==> d.alertsEnabled == managed[j].alertsEnabled)
    && (SetLast(managed, own.id, j, SETS_ROLE) ==> d.role == Contract.Trim(managed[j].role))
    && (SetLast(managed, own.id, j, SETS_FILTERS) ==> d.interfaceFilters == managed[j].interfaceFilters)
    && (NeverSet(managed, own.id, SETS_WARNING) ==> d.temperatureWarningC == own.temperatureWarningC)
    && (NeverSet(managed, own.id, SETS_UPSTREAMS) ==> d.upstreamDeviceIDs == own.upstreamDeviceIDs)
    && (NeverSet(managed, own.id, SETS_ALERTS) ==> d.alertsEnabled == own.alertsEnabled)
    && (NeverSet(managed, own.id, SETS_ROLE) ==> d.role == own.role)
    && (NeverSet(managed, own.id, SETS_FILTERS) ==> d.interfaceFilters == own.interfaceFilters)
  }

  /** Field by field, a static device has the value of the last managed entry that sets it, or its own. */
  lemma {:induction false} OverlaidFields(fixed: seq<DeviceConfig>, managed: seq<DeviceConfig>, i: nat, j: nat)
    requires i < |fixed| && StaticIndex(fixed)[fixed[i].id] == i
    ensures FieldsFit(managed, fixed[i], Merged(fixed, managed)[i], j)
  {
    if managed != [] {
      var n := |managed| - 1;
      hide FieldsFit, StaticIndex, ApplyDeviceOverlay;
      OverlaidFields(fixed, managed[..n], i, j);
      MergedAt(fixed, Merged(fixed, managed[..n]), managed[n], i);
      FieldsNext(managed, fixed[i], Merged(fixed, managed[..n])[i], j);
    }
  }

  lemma MergedAt(fixed: seq<DeviceConfig>, m: seq<DeviceConfig>, d: DeviceConfig, i: nat)
    requires |m| >= |fixed| && i < |fixed| && StaticIndex(fixed)[fixed[i].id] == i
    ensures MergeOne(fixed, m, d)[i] == if d.id == fixed[i].id then ApplyDeviceOverlay(m[i], d) else m[i]
  {
    hide StaticIndex, ApplyDeviceOverlay;
  }

  lemma FieldsNext(managed: seq<DeviceConfig>, own: DeviceConfig, d: DeviceConfig, j: nat)
    requires managed != [] && FieldsFit(managed[..|managed| - 1], own, d, j)
    ensures var last := managed[|managed| - 1];
      FieldsFit(managed, own, if last.id == own.id then ApplyDeviceOverlay(d, last) else d, j)
  {
    SetPrefix(managed, own.id, j, SETS_WARNING);
    SetPrefix(managed, own.id, j, SETS_UPSTREAMS);
    SetPrefix(managed, own.id, j, SETS_ALERTS);
    SetPrefix(managed, own.id, j, SETS_ROLE);
    SetPrefix(managed, own.id, j, SETS_FILTERS);
    assert j < |managed| - 1 ==> managed[..|managed| - 1][j] == managed[j];
    hide SetLast, NeverSet, Contract.Trim;
  }

  lemma SetPrefix(managed: seq<DeviceConfig>, id: Id, j: nat, sets: DeviceConfig -> bool)
    requires managed != []
    ensures var n := |managed| - 1;
      var last := managed[n].id == id && sets(managed[n]);
      && (SetLast(managed, id, j, sets) ==> if last then j == n else j < n && SetLast(managed[..n], id, j, sets))
      && (NeverSet(managed, id, sets) ==> !last && NeverSet(managed[..n], id, sets))
  {
  }

  // ---- Thinner inventories ----

  predicate ThinnerDevice(a: DeviceConfig, b: DeviceConfig) {
    a.id == b.id && (a.Upstreams() == b.Upstreams() || a.Upstreams() == [])
  }

  /** The same devices in the same places, some without their upstreams. */
  predicate Thinner(a: seq<DeviceConfig>, b: seq<DeviceConfig>) {
    |a| == |b| && forall i :: 0 <= i < |a| ==> ThinnerDevice(a[i], b[i])
  }

  lemma {:induction false} ThinnerIndex(a: seq<DeviceConfig>, b: seq<DeviceConfig>)
    requires Thinner(a, b)
    ensures Index(a).Keys == Index(b).Keys
    ensures forall id :: id in Index(a) ==> ThinnerDevice(Index(a)[id], Index(b)[id])
  {
    if a != [] {
      var n := |a| - 1;
      ThinnerIndex(a[..n], b[..n]);
      assert ThinnerDevice(a[n], b[n]);
    }
  }

  /** Dropping upstream lists keeps an inventory acceptable. */
  lemma ThinnerAcceptable(a: seq<DeviceConfig>, b: seq<DeviceConfig>)
    requires Thinner(a, b) && AcceptableDependencies(b)
    ensures AcceptableDependencies(a)
  {
    ThinnerIndex(a, b);
    forall d | d in a ensures UpstreamsWellFormed(Index(a).Keys, d) {
      var i :| 0 <= i < |a| && a[i] == d;
      assert b[i] in b && ThinnerDevice(a[i], b[i]);
      assert UpstreamsWellFormed(Index(b).Keys, b[i]);
    }
    var g, h := DependencyGraph(Index(b)), DependencyGraph(Index(a));
    forall x, y | Edge(h, x, y) ensures Edge(g, x, y) {
      assert ThinnerDevice(Index(a)[x], Index(b)[x]);
    }
    SubgraphAcyclic(g, h);
  }

  /** One managed entry in place of another: the same id, the same list, or an explicit empty one. */
  predicate ThinnerEntry(a: DeviceConfig, b: DeviceConfig) {
    a.id == b.id && (a.upstreamDeviceIDs == b.upstreamDeviceIDs || a.upstreamDeviceIDs == Some([]))
  }

  predicate ThinnerEntries(a: seq<DeviceConfig>, b: seq<DeviceConfig>) {
    |a| == |b| && forall i :: 0 <= i < |a| ==> ThinnerEntry(a[i], b[i])
  }

  lemma OverlayThinner(x: DeviceConfig, y: DeviceConfig, a: DeviceConfig, b: DeviceConfig)
    requires ThinnerDevice(x, y) && ThinnerEntry(a, b)
    ensures ThinnerDevice(ApplyDeviceOverlay(x, a), ApplyDeviceOverlay(y, b))
  {
    hide Contract.Trim;
  }

  lemma MergeOneThinner(fixed: seq<DeviceConfig>, m: seq<DeviceConfig>, n: seq<DeviceConfig>, a: DeviceConfig,
                        b: DeviceConfig)
    requires |n| >= |fixed| && Thinner(m, n) && ThinnerEntry(a, b)
    ensures Thinner(MergeOne(fixed, m, a), MergeOne(fixed, n, b))
  {
    hide StaticIndex, ApplyDeviceOverlay, ThinnerDevice, ThinnerEntry;
    var index := StaticIndex(fixed);
    EntryIds(a, b);
    if a.id in index {
      OverlayThinner(m[index[a.id]], n[index[a.id]], a, b);
    }
  }

  lemma EntryIds(a: DeviceConfig, b: DeviceConfig)
    requires ThinnerEntry(a, b)
    ensures a.id == b.id && ThinnerDevice(a, b)
  {
  }

  lemma {:induction false} MergedThinner(fixed: seq<DeviceConfig>, a: seq<DeviceConfig>, b: seq<DeviceConfig>)
    requires ThinnerEntries(a, b)
    ensures Thinner(Merged(fixed, a), Merged(fixed, b))
  {
    if a != [] {
      var n := |a| - 1;
      MergedThinner(fixed, a[..n], b[..n]);
      assert ThinnerEntry(a[n], b[n]);
      hide ThinnerEntry, MergeOne, Thinner;
      MergeOneThinner(fixed, Merged(fixed, a[..n]), Merged(fixed, b[..n]), a[n], b[n]);
    }
  }

  // ---- Edits ----

  /** The first entry of an id, or the length when there is none. */
  function FirstOf(devices: seq<DeviceConfig>, id: Id): (i: nat)
    ensures i <= |devices|
    ensures i < |devices| ==> devices[i].id == id
    ensures forall k :: 0 <= k < i ==> devices[k].id != id
  {
    if devices == [] then 0
    else
      var k := FirstOf(devices[..|devices| - 1], id);
      if k < |devices| - 1 then k else if devices[|devices| - 1].id == id then k else |devices|
  }

  // What a mutation sets on its entry.
  datatype Change = SetWarning(value: real) | SetUpstreams(list: Option<seq<Id>>) | SetAlerts(enabled: bool)

  function Changed(d: DeviceConfig, c: Change): DeviceConfig {
    match c
    case SetWarning(v) => d.(temperatureWarningC := Some(v))
    case SetUpstreams(list) => d.(upstreamDeviceIDs := list)
    case SetAlerts(b) => d.(alertsEnabled := Some(b))
  }

  function NewEntry(id: Id): DeviceConfig {
    DeviceConfig(id, "", "", None, None, None, [])
  }

  /** Changes the first entry of the id, or appends an entry holding only the change. */
  function Edited(devices: seq<DeviceConfig>, id: Id, c: Change): seq<DeviceConfig> {
    var i := FirstOf(devices, id);
    if i < |devices| then devices[i := Changed(devices[i], c)] else devices + [Changed(NewEntry(id), c)]
  }

  method Edit(devices: seq<DeviceConfig>, id: Id, c: Change) returns (out: seq<DeviceConfig>)
    ensures out == Edited(devices, id, c)
  {
    out := devices;
    var i := 0;
    while i < |devices|
      invariant 0 <= i <= |devices| && forall k :: 0 <= k < i ==> devices[k].id != id
    {
      if devices[i].id == id {
        assert i == FirstOf(devices, id);
        return devices[i := Changed(devices[i], c)];
      }
      i := i + 1;
    }
    out := devices + [Changed(NewEntry(id), c)];
  }

  /** How the document's codec reads an empty list back: kept apart from a missing one, or not. */
  datatype Codec = Faithful | EmptyIsPresent | EmptyIsMissing

  function ReadBack(codec: Codec, d: DeviceConfig): DeviceConfig {
    if d.Upstreams() != [] || codec == Faithful then d
    else d.(upstreamDeviceIDs := if codec == EmptyIsPresent then Some([]) else None)
  }

  function ReadBackAll(codec: Codec, devices: seq<DeviceConfig>): seq<DeviceConfig> {
    seq(|devices|, i requires 0 <= i < |devices| => ReadBack(codec, devices[i]))
  }

  /** A document as it comes from a file. */
  predicate AsRead(codec: Codec, devices: seq<DeviceConfig>) {
    ReadBackAll(codec, devices) == devices
  }

  lemma ReadBackTwice(codec: Codec, devices: seq<DeviceConfig>)
    ensures AsRead(codec, ReadBackAll(codec, devices))
  {
  }

  lemma AsReadAt(codec: Codec, devices: seq<DeviceConfig>, i: nat)
    requires AsRead(codec, devices) && i < |devices|
    ensures ReadBack(codec, devices[i]) == devices[i]
  {
    assert ReadBackAll(codec, devices)[i] == devices[i];
  }

  /** The list a pending check puts in place: it cannot tell an empty list from a missing one when the
      entry exists. */
  function PendingList(managed: seq<DeviceConfig>, id: Id, upstreams: seq<Id>): Option<seq<Id>> {
    if FirstOf(managed, id) < |managed| && upstreams == [] then None else Some(upstreams)
  }

  ghost predicate PendingAccepted(fixed: seq<DeviceConfig>, managed: seq<DeviceConfig>, id: Id, upstreams: seq<Id>) {
    var merged := Merged(fixed, Edited(managed, id, SetUpstreams(PendingList(managed, id, upstreams))));
    (exists d :: d in merged && d.id == id) && AcceptableDependencies(merged)
  }

  method ValidatePendingDependencyMutation(fixed: seq<DeviceConfig>, managed: seq<DeviceConfig>, id: Id,
                                           upstreams: seq<Id>)
    returns (ok: bool)
    ensures ok <==> PendingAccepted(fixed, managed, id, upstreams)
  {
    hide Merged, Edited, AcceptableDependencies;
    var edited := Edit(managed, id, SetUpstreams(PendingList(managed, id, upstreams)));
    var merged := MergeInventories(fixed, edited);
    var deviceExists := false;
    var i := 0;
    while i < |merged|
      invariant 0 <= i <= |merged|
      invariant deviceExists <==> exists k :: 0 <= k < i && merged[k].id == id
    {
      if merged[i].id == id { deviceExists := true; }
      i := i + 1;
    }
    assert deviceExists <==> exists d :: d in merged && d.id == id;
    if !deviceExists { return false; }
    var error := ValidateDependencies(merged);
    ok := error.None?;
  }

  /** What a mutation leaves on disk, as the next reader sees it. */
  function Persisted(codec: Codec, managed: seq<DeviceConfig>, id: Id, c: Change): seq<DeviceConfig> {
    ReadBackAll(codec, Edited(managed, id, c))
  }

  /** A new device without upstreams keeps an inventory acceptable. */
  lemma AppendAcceptable(m: seq<DeviceConfig>, d: DeviceConfig)
    requires AcceptableDependencies(m) && d.Upstreams() == [] && d.id !in Index(m)
    ensures AcceptableDependencies(m + [d])
  {
    var all := m + [d];
    assert all[..|m|] == m;
    assert Index(all) == Index(m)[d.id := d];
    forall e | e in all ensures UpstreamsWellFormed(Index(all).Keys, e) {
      if e in m { assert UpstreamsWellFormed(Index(m).Keys, e); }
    }
    var g, h := DependencyGraph(Index(m)), DependencyGraph(Index(all));
    IndexKeys(m);
    forall x, y | Edge(h, x, y) ensures Edge(g, x, y) {
      assert x != d.id;
      assert Index(m)[x] in m;
      assert UpstreamsWellFormed(Index(m).Keys, Index(m)[x]);
    }
    SubgraphAcyclic(g, h);
  }

  lemma {:induction false} MergedIds(fixed: seq<DeviceConfig>, managed: seq<DeviceConfig>, id: Id)
    ensures id in Index(Merged(fixed, managed)) ==> id in StaticIndex(fixed) || exists d :: d in managed && d.id == id
  {
    hide ApplyDeviceOverlay;
    var m := Merged(fixed, managed);
    if managed == [] {
      IndexKeys(m);
    } else {
      var n := |managed| - 1;
      MergedIds(fixed, managed[..n], id);
      MergeOneIds(fixed, Merged(fixed, managed[..n]), managed[n], id);
      assert managed == managed[..n] + [managed[n]];
    }
  }

  lemma MergeOneIds(fixed: seq<DeviceConfig>, m: seq<DeviceConfig>, d: DeviceConfig, id: Id)
    requires |m| >= |fixed|
    ensures id in Index(MergeOne(fixed, m, d)) ==> id in Index(m) || id == d.id
  {
    hide ApplyDeviceOverlay, StaticIndex;
    var r := MergeOne(fixed, m, d);
    IndexKeys(m);
    IndexKeys(r);
    if id in Index(r) {
      var e :| e in r && e.id == id;
      var i :| 0 <= i < |r| && r[i] == e;
      if i < |m| {
        assert m[i] in m;
        OverlayKeepsId(m[i], d);
      }
    }
  }

  lemma OverlayKeepsId(base: DeviceConfig, overlay: DeviceConfig)
    ensures ApplyDeviceOverlay(base, overlay).id == base.id
  {
  }

  /** An appended entry that sets no upstreams: at most it hides a static list. */
  lemma AppendedEntry(fixed: seq<DeviceConfig>, managed: seq<DeviceConfig>, d: DeviceConfig)
    requires AcceptableDependencies(Merged(fixed, managed)) && d.Upstreams() == []
    requires FirstOf(managed, d.id) == |managed|
    ensures AcceptableDependencies(Merged(fixed, managed + [d]))
  {
    var m := Merged(fixed, managed);
    assert (managed + [d])[..|managed|] == managed;
    assert Merged(fixed, managed + [d]) == MergeOne(fixed, m, d);
    hide AcceptableDependencies, Merged;
    if d.id in StaticIndex(fixed) {
      HidingOne(fixed, m, d);
      ThinnerAcceptable(MergeOne(fixed, m, d), m);
    } else {
      MergedIds(fixed, managed, d.id);
      AppendAcceptable(m, d);
    }
  }

  lemma HidingOne(fixed: seq<DeviceConfig>, m: seq<DeviceConfig>, d: DeviceConfig)
    requires |m| >= |fixed| && d.Upstreams() == [] && d.id in StaticIndex(fixed)
    ensures Thinner(MergeOne(fixed, m, d), m)
  {
    hide Contract.Trim, StaticIndex;
  }

  /** Threshold and alerting mutations never endanger the inventory. */
  lemma OtherMutationSafe(codec: Codec, fixed: seq<DeviceConfig>, managed: seq<DeviceConfig>, id: Id, c: Change)
    requires AsRead(codec, managed) && AcceptableDependencies(Merged(fixed, managed)) && !c.SetUpstreams?
    ensures AcceptableDependencies(Merged(fixed, Persisted(codec, managed, id, c)))
  {
    hide AcceptableDependencies, Merged;
    var i := FirstOf(managed, id);
    var w := Persisted(codec, managed, id, c);
    if i < |managed| {
      forall k | 0 <= k < |w| ensures ThinnerEntry(w[k], managed[k]) {
        AsReadAt(codec, managed, k);
      }
      MergedThinner(fixed, w, managed);
      ThinnerAcceptable(Merged(fixed, w), Merged(fixed, managed));
    } else {
      var d := ReadBack(codec, Changed(NewEntry(id), c));
      forall k | 0 <= k < |managed| ensures w[k] == managed[k] { AsReadAt(codec, managed, k); }
      assert w == managed + [d];
      AppendedEntry(fixed, managed, d);
    }
  }

  /** A dependency mutation that passed the pending check is safe once on disk, although the check and the
      file disagree about empty lists. */
  lemma DependencyMutationSafe(codec: Codec, fixed: seq<DeviceConfig>, managed: seq<DeviceConfig>, id: Id,
                               upstreams: seq<Id>)
    requires AsRead(codec, managed) && AcceptableDependencies(Merged(fixed, managed))
    requires PendingAccepted(fixed, managed, id, upstreams)
    ensures AcceptableDependencies(Merged(fixed, Persisted(codec, managed, id, SetUpstreams(Some(upstreams)))))
  {
    hide AcceptableDependencies, Merged;
    var i := FirstOf(managed, id);
    var w := Persisted(codec, managed, id, SetUpstreams(Some(upstreams)));
    var v := Edited(managed, id, SetUpstreams(PendingList(managed, id, upstreams)));
    if i == |managed| && upstreams == [] && codec == EmptyIsMissing {
      var d := ReadBack(codec, Changed(NewEntry(id), SetUpstreams(Some([]))));
      forall k | 0 <= k < |managed| ensures w[k] == managed[k] { AsReadAt(codec, managed, k); }
      assert w == managed + [d];
      AppendedEntry(fixed, managed, d);
    } else {
      forall k | 0 <= k < |w| ensures ThinnerEntry(w[k], v[k]) {
        if k < |managed| { AsReadAt(codec, managed, k); }
      }
      MergedThinner(fixed, w, v);
      ThinnerAcceptable(Merged(fixed, w), Merged(fixed, v));
    }
  }
}
