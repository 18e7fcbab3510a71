/** The control plane: prepared mutations, one-shot confirm tokens, commits to the managed document. */
module ControlPlane {
  import opened Ids
  import opened Graphs
  import opened Config
  import opened ManagedInventory

  type Time = int
  type Token = string

  const CONFIRM_TTL: Time := 60

  // A request parameter as decoded from JSON.
  datatype Value =
    | Absent
    | Null
    | Text(text: string)
    | Number(number: real)
    | Flag(flag: bool)
    | Texts(items: seq<string>)
    | Other

  datatype Params = Params(deviceID: Value, temperatureWarningC: Value, upstreamDeviceIDs: Value, alertsEnabled: Value)

  datatype Action = Thresholds | Dependencies | Alerting

  datatype Code = InvalidRequest | ValidationFailed | RevisionMismatch | ConfirmExpired

  datatype Result<T> = Ok(value: T) | Err(code: Code)

  function TextOf(v: Value): string {
    if v.Text? then v.text else ""
  }

  predicate IsMissing(v: Value) {
    v.Absent? || v.Null?
  }

  predicate ValidParams(action: Action, p: Params) {
    match action
    case Thresholds => p.temperatureWarningC.Number? && (IsMissing(p.deviceID) || TextOf(p.deviceID) != "")
    case Dependencies => TextOf(p.deviceID) != "" && (p.upstreamDeviceIDs.Texts? || p.upstreamDeviceIDs.Null?)
    case Alerting => TextOf(p.deviceID) != "" && p.alertsEnabled.Flag?
  }

  datatype PendingMutation = PendingMutation(revision: string, action: Action, expiresAt: Time, payload: Params)

  type Items = map<Token, PendingMutation>

  /** What taking a token yields; a known token is gone afterwards whatever comes of it. */
  function Taken(items: Items, token: Token, revision: string, action: Action, now: Time): Result<PendingMutation> {
    if token !in items then Err(ConfirmExpired)
    else if now > items[token].expiresAt then Err(ConfirmExpired)
    else if items[token].action != action then Err(InvalidRequest)
    else if items[token].revision != revision then Err(RevisionMismatch)
    else Ok(items[token])
  }

  class PendingStore {
    var items: Items

    constructor ()
      ensures items == map[]
    {
      items := map[];
    }

    method Put(token: Token, action: Action, revision: string, now: Time, payload: Params)
      modifies this
      ensures items == old(items)[token := PendingMutation(revision, action, now + CONFIRM_TTL, payload)]
    {
      items := items[token := PendingMutation(revision, action, now + CONFIRM_TTL, payload)];
    }

    method Take(token: Token, revision: string, action: Action, now: Time) returns (r: Result<PendingMutation>)
      modifies this
      ensures r == Taken(old(items), token, revision, action, now)
      ensures items == old(items) - {token}
    {
      if token !in items {
        assert items - {token} == items;
        return Err(ConfirmExpired);
      }
      var item := items[token];
      items := items - {token};
      if now > item.expiresAt { return Err(ConfirmExpired); }
      if item.action != action { return Err(InvalidRequest); }
      if item.revision != revision { return Err(RevisionMismatch); }
      r := Ok(item);
    }
  }

  /** A token put with a mutation yields exactly that mutation, once: in time, for the same action, and while
      the revision of its preparation is the one asked for; any other attempt uses it up for nothing. */
  lemma PutThenTake(items: Items, token: Token, put: PendingMutation, revision: string, action: Action, now: Time,
                    revision': string, action': Action, now': Time)
    ensures var stored := items[token := put];
      && Taken(stored, token, revision, action, now) ==
         (if now <= put.expiresAt && action == put.action && revision == put.revision then Ok(put)
          else if now <= put.expiresAt && action == put.action then Err(RevisionMismatch)
          else if now <= put.expiresAt then Err(InvalidRequest)
          else Err(ConfirmExpired))
      && Taken(stored - {token}, token, revision', action', now') == Err(ConfirmExpired)
      && forall other :: other != token ==>
           Taken(stored - {token}, other, revision', action', now') == Taken(items, other, revision', action', now')
  {
    var left := items[token := put] - {token};
    forall other | other != token
      ensures Taken(left, other, revision', action', now') == Taken(items, other, revision', action', now')
    {
      assert other in left <==> other in items;
    }
  }

  // The managed document: its policy and its devices.
  datatype Document = Document(warningC: Option<real>, devices: seq<DeviceConfig>)

  predicate Configured(active: seq<DeviceConfig>, id: Id) {
    exists k :: 0 <= k < |active| && active[k].id == id
  }

  // `writeFails` stands for a missing managed path, an unreadable document or a failed write.

  /** The mutation a payload asks for, when the active inventory and the pending check allow it. */
  ghost function Allowed(fixed: seq<DeviceConfig>, doc: Document, active: seq<DeviceConfig>, action: Action,
                         p: Params): Option<Change>
  {
    match action
    case Thresholds =>
      if p.temperatureWarningC.Number? && (TextOf(p.deviceID) == "" || Configured(active, TextOf(p.deviceID)))
      then Some(SetWarning(p.temperatureWarningC.number)) else None
    case Dependencies =>
      var ups := UpstreamList(p);
      if ups.Some? && Configured(active, TextOf(p.deviceID))
        && PendingAccepted(fixed, doc.devices, TextOf(p.deviceID), ups.value)
      then Some(SetUpstreams(ups)) else None
    case Alerting =>
      if p.alertsEnabled.Flag? && Configured(active, TextOf(p.deviceID))
      then Some(SetAlerts(p.alertsEnabled.flag)) else None
  }

  function UpstreamList(p: Params): Option<seq<Id>> {
    match p.upstreamDeviceIDs
    case Texts(items) => Some(items)
    case Null => Some([])
    case Absent => Some([])
    case _ => None
  }

  /** The document after a change, as the next reader sees it; without a device the policy changes. */
  function Written(codec: Codec, doc: Document, id: Id, c: Change): Document {
    if c.SetWarning? && id == "" then Document(Some(c.value), ReadBackAll(codec, doc.devices))
    else Document(doc.warningC, Persisted(codec, doc.devices, id, c))
  }

  ghost function Mutated(codec: Codec, fixed: seq<DeviceConfig>, doc: Document, active: seq<DeviceConfig>,
                         action: Action, p: Params, writeFails: bool): Result<Document>
  {
    var change := Allowed(fixed, doc, active, action, p);
    if change.None? || writeFails then Err(ValidationFailed)
    else Ok(Written(codec, doc, TextOf(p.deviceID), change.value))
  }

  // ---- What a successful mutation leaves on disk ----

  predicate FirstAt(devices: seq<DeviceConfig>, id: Id, i: int) {
    0 <= i < |devices| && devices[i].id == id && forall k :: 0 <= k < i ==> devices[k].id != id
  }

  /** A written list as it is read back; only an empty or a missing one depends on the codec. */
  predicate ListReads(codec: Codec, written: Option<seq<Id>>, read: Option<seq<Id>>) {
    if codec == Faithful || (written.Some? && |written.value| > 0) then read == written
    else if codec == EmptyIsPresent then read == Some([])
    else read == None
  }

  /** The payload's value is in its field, and every other field is as it was. */
  predicate EntryTakes(codec: Codec, action: Action, p: Params, was: DeviceConfig, e: DeviceConfig) {
    && e.id == was.id && e.host == was.host && e.role == was.role && e.interfaceFilters == was.interfaceFilters
    && (if action == Thresholds then
          p.temperatureWarningC.Number? && e.temperatureWarningC == Some(p.temperatureWarningC.number)
        else e.temperatureWarningC == was.temperatureWarningC)
    && (if action == Alerting then p.alertsEnabled.Flag? && e.alertsEnabled == Some(p.alertsEnabled.flag)
        else e.alertsEnabled == was.alertsEnabled)
    && (if action == Dependencies then
          if p.upstreamDeviceIDs.Texts? then ListReads(codec, Some(p.upstreamDeviceIDs.items), e.upstreamDeviceIDs)
          else IsMissing(p.upstreamDeviceIDs) && ListReads(codec, Some([]), e.upstreamDeviceIDs)
        else ListReads(codec, was.upstreamDeviceIDs, e.upstreamDeviceIDs))
  }

  predicate EntryStays(codec: Codec, was: DeviceConfig, e: DeviceConfig) {
    e == was.(upstreamDeviceIDs := e.upstreamDeviceIDs) && ListReads(codec, was.upstreamDeviceIDs, e.upstreamDeviceIDs)
  }

  /** The first entry of the device takes the payload's value, or a new last one holds nothing else; the rest stays. */
  ghost predicate EntriesTake(codec: Codec, action: Action, p: Params, id: Id, before: seq<DeviceConfig>,
                              after: seq<DeviceConfig>)
  {
    if exists i :: FirstAt(before, id, i) then
      && |after| == |before|
      && forall k :: 0 <= k < |before| ==>
           if FirstAt(before, id, k) then EntryTakes(codec, action, p, before[k], after[k])
           else EntryStays(codec, before[k], after[k])
    else
      && |after| == |before| + 1 && EntriesStay(codec, before, after[..|before|])
      && EntryTakes(codec, action, p, DeviceConfig(id, "", "", None, None, None, []), after[|before|])
  }

  predicate EntriesStay(codec: Codec, before: seq<DeviceConfig>, after: seq<DeviceConfig>) {
    |after| == |before| && forall k :: 0 <= k < |before| ==> EntryStays(codec, before[k], after[k])
  }

  /** Without a device only the policy changes, and with one only its entry. */
  ghost predicate WrittenAsAsked(codec: Codec, action: Action, p: Params, before: Document, after: Document) {
    var id := if p.deviceID.Text? then p.deviceID.text else "";
    if action == Thresholds && id == "" then
      && p.temperatureWarningC.Number? && after.warningC == Some(p.temperatureWarningC.number)
      && EntriesStay(codec, before.devices, after.devices)
    else after.warningC == before.warningC && EntriesTake(codec, action, p, id, before.devices, after.devices)
  }

  lemma ReadBackStays(codec: Codec, d: DeviceConfig)
    ensures EntryStays(codec, d, ReadBack(codec, d))
  {
  }

  lemma ChangeTakes(codec: Codec, action: Action, p: Params, d: DeviceConfig, c: Change)
    requires match action
      case Thresholds => p.temperatureWarningC.Number? && c == SetWarning(p.temperatureWarningC.number)
      case Dependencies => UpstreamList(p).Some? && c == SetUpstreams(UpstreamList(p))
      case Alerting => p.alertsEnabled.Flag? && c == SetAlerts(p.alertsEnabled.flag)
    ensures EntryTakes(codec, action, p, d, ReadBack(codec, Changed(d, c)))
  {
  }

  lemma FirstIs(devices: seq<DeviceConfig>, id: Id, i: int)
    ensures FirstAt(devices, id, i) <==> i == FirstOf(devices, id) < |devices|
  {
  }

  lemma PersistedTakes(codec: Codec, action: Action, p: Params, devices: seq<DeviceConfig>, id: Id, c: Change)
    requires forall d :: EntryTakes(codec, action, p, d, ReadBack(codec, Changed(d, c)))
    ensures EntriesTake(codec, action, p, id, devices, Persisted(codec, devices, id, c))
    ensures EntriesStay(codec, devices, ReadBackAll(codec, devices))
  {
    forall d ensures EntryStays(codec, d, ReadBack(codec, d)) {
      ReadBackStays(codec, d);
    }
    forall i ensures FirstAt(devices, id, i) <==> i == FirstOf(devices, id) < |devices| {
      FirstIs(devices, id, i);
    }
    hide EntryTakes, EntryStays, ReadBack, Changed, FirstOf, FirstAt;
    var i := FirstOf(devices, id);
    if i < |devices| {
      assert FirstAt(devices, id, i);
    } else {
      AppendedTakes(codec, action, p, devices, id, c);
    }
  }

  lemma AppendedTakes(codec: Codec, action: Action, p: Params, devices: seq<DeviceConfig>, id: Id, c: Change)
    requires forall d :: EntryTakes(codec, action, p, d, ReadBack(codec, Changed(d, c)))
    requires forall d :: EntryStays(codec, d, ReadBack(codec, d))
    requires FirstOf(devices, id) == |devices| && forall i :: !FirstAt(devices, id, i)
    ensures EntriesTake(codec, action, p, id, devices, Persisted(codec, devices, id, c))
  {
    hide EntryTakes, EntryStays, ReadBack, Changed, FirstOf, FirstAt;
    var out := Persisted(codec, devices, id, c);
    assert out == ReadBackAll(codec, devices + [Changed(NewEntry(id), c)]);
    assert EntriesStay(codec, devices, out[..|devices|]);
  }

  lemma MutatedAsAsked(codec: Codec, fixed: seq<DeviceConfig>, doc: Document, active: seq<DeviceConfig>,
                       action: Action, p: Params, writeFails: bool)
    ensures var r := Mutated(codec, fixed, doc, active, action, p, writeFails);
      r.Ok? ==> WrittenAsAsked(codec, action, p, doc, r.value)
  {
    var change := Allowed(fixed, doc, active, action, p);
    hide PendingAccepted, EntryTakes, ReadBack, Changed, Persisted, ReadBackAll, EntriesTake, EntriesStay;
    if change.Some? {
      forall d ensures EntryTakes(codec, action, p, d, ReadBack(codec, Changed(d, change.value))) {
        ChangeTakes(codec, action, p, d, change.value);
      }
      PersistedTakes(codec, action, p, doc.devices, TextOf(p.deviceID), change.value);
    }
  }

  class Server {
    const codec: Codec
    const fixed: seq<DeviceConfig>   // the static inventory
    const pending: PendingStore
    var doc: Document
    var active: seq<DeviceConfig>
    var revision: string

    constructor (codec: Codec, fixed: seq<DeviceConfig>, doc: Document, revision: string)
      ensures this.codec == codec && this.fixed == fixed && this.doc == doc && this.revision == revision
      ensures active == Merged(fixed, doc.devices) && fresh(pending) && pending.items == map[]
    {
      this.codec, this.fixed, this.doc, this.revision := codec, fixed, doc, revision;
      var merged := MergeInventories(fixed, doc.devices);
      active := merged;
      pending := new PendingStore();
    }

    method Prepare(action: Action, token: Token, now: Time, params: Params) returns (r: Result<Token>)
      modifies pending
      ensures r == if ValidParams(action, params) then Ok(token) else Err(ValidationFailed)
      ensures pending.items ==
        if r.Ok? then old(pending.items)[token := PendingMutation(revision, action, now + CONFIRM_TTL, params)]
        else old(pending.items)
    {
      if !ValidParams(action, params) { return Err(ValidationFailed); }
      pending.Put(token, action, revision, now, params);
      r := Ok(token);
    }

    /** The revision is checked before the token is taken, so a stale request does not use it up. */
    method Commit(action: Action, token: Token, rev: string, now: Time, writeFails: bool) returns (r: Result<Document>)
      modifies this`doc, pending
      ensures Commits(old(CommitState()), action, token, rev, now, writeFails) == Committed(pending.items, r)
      ensures doc == if r.Ok? then r.value else old(doc)
    {
      if token == "" || rev == "" { return Err(InvalidRequest); }
      if rev != revision { return Err(RevisionMismatch); }
      var item := pending.Take(token, rev, action, now);
      if item.Err? { return Err(item.code); }
      r := Apply(action, item.value.payload, writeFails);
    }

    method Apply(action: Action, p: Params, writeFails: bool) returns (r: Result<Document>)
      modifies this`doc
      ensures r == Mutated(codec, fixed, old(doc), active, action, p, writeFails)
      ensures r.Ok? ==> WrittenAsAsked(codec, action, p, old(doc), doc)
      ensures doc == if r.Ok? then r.value else old(doc)
    {
      MutatedAsAsked(codec, fixed, doc, active, action, p, writeFails);
      hide PendingAccepted, ReadBackAll, Edited, WrittenAsAsked;
      var id := TextOf(p.deviceID);
      var change: Change;
      match action {
        case Thresholds =>
          if !p.temperatureWarningC.Number? { return Err(ValidationFailed); }
          if id != "" {
            var known := DeviceInInventory(id);
            if !known { return Err(ValidationFailed); }
          }
          change := SetWarning(p.temperatureWarningC.number);
        case Dependencies =>
          var ups := UpstreamList(p);
          if ups.None? { return Err(ValidationFailed); }
          var known := DeviceInInventory(id);
          if !known { return Err(ValidationFailed); }
          var accepted := ValidatePendingDependencyMutation(fixed, doc.devices, id, ups.value);
          if !accepted { return Err(ValidationFailed); }
          change := SetUpstreams(ups);
        case Alerting =>
          if !p.alertsEnabled.Flag? { return Err(ValidationFailed); }
          var known := DeviceInInventory(id);
          if !known { return Err(ValidationFailed); }
          change := SetAlerts(p.alertsEnabled.flag);
      }
      if writeFails { return Err(ValidationFailed); }
      if change.SetWarning? && id == "" {
        doc := Document(Some(change.value), ReadBackAll(codec, doc.devices));
      } else {
        var edited := Edit(doc.devices, id, change);
        doc := Document(doc.warningC, ReadBackAll(codec, edited));
      }
      r := Ok(doc);
    }

    method DeviceInInventory(id: Id) returns (found: bool)
      ensures found <==> Configured(active, id)
    {
      var i := 0;
      while i < |active|
        invariant 0 <= i <= |active| && forall k :: 0 <= k < i ==> active[k].id != id
      {
        if active[i].id == id { return true; }
        i := i + 1;
      }
      found := false;
    }

    /** Loads, checks and activates; on any error the active configuration stays. */
    method Reload(newRevision: string, fails: bool) returns (ok: bool)
      modifies this`active, this`revision
      ensures ok <==> !fails && AcceptableDependencies(Merged(fixed, doc.devices))
      ensures active == if ok then Merged(fixed, doc.devices) else old(active)
      ensures revision == if ok then newRevision else old(revision)
    {
      var merged := MergeInventories(fixed, doc.devices);
      var error := ValidateDependencies(merged);
      if fails || error.Some? { return false; }
      active, revision := merged, newRevision;
      ok := true;
    }

    ghost function CommitState(): CommitInput
      reads this, pending
    {
      CommitInput(codec, fixed, doc, active, revision, pending.items)
    }
  }

  datatype CommitInput = CommitInput(
    codec: Codec, fixed: seq<DeviceConfig>, doc: Document, active: seq<DeviceConfig>, revision: string, items: Items)

  datatype Committed = Committed(items: Items, result: Result<Document>)

  ghost function Commits(s: CommitInput, action: Action, token: Token, rev: string, now: Time,
                         writeFails: bool): Committed
  {
    if token == "" || rev == "" then Committed(s.items, Err(InvalidRequest))
    else if rev != s.revision then Committed(s.items, Err(RevisionMismatch))
    else
      var item := Taken(s.items, token, rev, action, now);
      Committed(s.items - {token},
        if item.Err? then Err(item.code)
        else Mutated(s.codec, s.fixed, s.doc, s.active, action, item.value.payload, writeFails))
  }

  // ---- Sequential runs ----

  // What was prepared under a token, and what a commit applied.
  datatype Issue = Issue(action: Action, revision: string, at: Time, payload: Params)
  datatype Applied = Applied(token: Token, action: Action, revision: string, at: Time)

  datatype State = State(
    doc: Document,
    active: seq<DeviceConfig>,
    revision: string,
    items: Items,
    issued: map<Token, Issue>,
    applied: seq<Applied>)

  datatype Step =
    | Prepare(action: Action, token: Token, now: Time, params: Params)
    | Commit(action: Action, token: Token, rev: string, now: Time, writeFails: bool)
    | Reload(newRevision: string, fails: bool)

  // Random tokens do not repeat: preparing under a used one does not happen.
  ghost function Take(codec: Codec, fixed: seq<DeviceConfig>, s: State, step: Step): State {
    match step
    case Prepare(action, token, now, params) =>
      if ValidParams(action, params) && token !in s.issued then
        s.(items := s.items[token := PendingMutation(s.revision, action, now + CONFIRM_TTL, params)],
           issued := s.issued[token := Issue(action, s.revision, now, params)])
      else s
    case Commit(action, token, rev, now, writeFails) =>
      var input := CommitInput(codec, fixed, s.doc, s.active, s.revision, s.items);
      var c := Commits(input, action, token, rev, now, writeFails);
      if c.result.Ok?
      then s.(items := c.items, doc := c.result.value, applied := s.applied + [Applied(token, action, s.revision, now)])
      else s.(items := c.items)
    case Reload(newRevision, fails) =>
      if !fails && AcceptableDependencies(Merged(fixed, s.doc.devices))
      then s.(active := Merged(fixed, s.doc.devices), revision := newRevision)
      else s
  }

  function Started(fixed: seq<DeviceConfig>, doc: Document, revision: string): State {
    State(doc, Merged(fixed, doc.devices), revision, map[], map[], [])
  }

  ghost function Run(codec: Codec, fixed: seq<DeviceConfig>, doc: Document, revision: string, steps: seq<Step>): State {
    if steps == [] then Started(fixed, doc, revision)
    else Take(codec, fixed, Run(codec, fixed, doc, revision, steps[..|steps| - 1]), steps[|steps| - 1])
  }

  /** The document on disk, merged with the static inventory, passes the dependency check. */
  ghost predicate DocumentOk(codec: Codec, fixed: seq<DeviceConfig>, doc: Document) {
    AsRead(codec, doc.devices) && AcceptableDependencies(Merged(fixed, doc.devices))
  }

  lemma MutatedOk(codec: Codec, fixed: seq<DeviceConfig>, doc: Document, active: seq<DeviceConfig>,
                  action: Action, p: Params, writeFails: bool)
    requires DocumentOk(codec, fixed, doc)
    ensures var r := Mutated(codec, fixed, doc, active, action, p, writeFails);
      r.Ok? ==> DocumentOk(codec, fixed, r.value)
  {
    hide AcceptableDependencies, PendingAccepted, Merged, Edited, ReadBackAll, AsRead;
    var change := Allowed(fixed, doc, active, action, p);
    var id := TextOf(p.deviceID);
    if change.Some? {
      SameWhenRead(codec, doc.devices);
      ReadBackTwice(codec, Edited(doc.devices, id, change.value));
      if change.value.SetUpstreams? {
        DependencyMutationSafe(codec, fixed, doc.devices, id, UpstreamList(p).value);
      } else {
        OtherMutationSafe(codec, fixed, doc.devices, id, change.value);
      }
    }
  }

  lemma SameWhenRead(codec: Codec, devices: seq<DeviceConfig>)
    requires AsRead(codec, devices)
    ensures ReadBackAll(codec, devices) == devices
  {
  }

  lemma CommitOk(codec: Codec, fixed: seq<DeviceConfig>, s: State, step: Step)
    requires DocumentOk(codec, fixed, s.doc)
    ensures DocumentOk(codec, fixed, Take(codec, fixed, s, step).doc)
  {
    hide DocumentOk, Mutated, Merged, AcceptableDependencies;
    if step.Commit? {
      var item := Taken(s.items, step.token, step.rev, step.action, step.now);
      if item.Ok? {
        MutatedOk(codec, fixed, s.doc, s.active, step.action, item.value.payload, step.writeFails);
      }
    }
  }

  /** Over every sequential run the persisted document, merged with the static inventory, keeps an acyclic
      graph without dangling or repeated upstreams, so no reload ever fails its dependency check. */
  lemma {:induction false} PersistedStaysAcceptable(codec: Codec, fixed: seq<DeviceConfig>, doc: Document,
                                                    revision: string, steps: seq<Step>)
    requires DocumentOk(codec, fixed, doc)
    ensures var s := Run(codec, fixed, doc, revision, steps);
      DocumentOk(codec, fixed, s.doc) && AcceptableDependencies(s.active)
  {
    if steps == [] {
      hide AcceptableDependencies, Merged, AsRead;
    } else {
      var n := |steps| - 1;
      PersistedStaysAcceptable(codec, fixed, doc, revision, steps[..n]);
      hide DocumentOk, AcceptableDependencies, Take;
      StepOk(codec, fixed, Run(codec, fixed, doc, revision, steps[..n]), steps[n]);
    }
  }

  lemma StepOk(codec: Codec, fixed: seq<DeviceConfig>, s: State, step: Step)
    requires DocumentOk(codec, fixed, s.doc) && AcceptableDependencies(s.active)
    ensures var s' := Take(codec, fixed, s, step);
      DocumentOk(codec, fixed, s'.doc) && AcceptableDependencies(s'.active)
  {
    CommitOk(codec, fixed, s, step);
    hide DocumentOk, AcceptableDependencies, Merged, Commits;
  }

  /** A pending item is what was issued under its token. */
  predicate ItemIssued(item: PendingMutation, issued: map<Token, Issue>, token: Token) {
    token in issued &&
    var i := issued[token];
    item == PendingMutation(i.revision, i.action, i.at + CONFIRM_TTL, i.payload)
  }

  /** A commit happened under the action and revision of its token's issue, and in time. */
  predicate Justified(a: Applied, issued: map<Token, Issue>) {
    a.token in issued &&
    var i := issued[a.token];
    i.action == a.action && i.revision == a.revision && a.at <= i.at + CONFIRM_TTL
  }

  predicate TokensOk(s: State) {
    && (forall t :: t in s.items ==> ItemIssued(s.items[t], s.issued, t))
    && (forall k :: 0 <= k < |s.applied| ==> Justified(s.applied[k], s.issued) && s.applied[k].token !in s.items)
    && (forall j, k :: 0 <= j < k < |s.applied| ==> s.applied[j].token != s.applied[k].token)
  }

  lemma TokensStep(codec: Codec, fixed: seq<DeviceConfig>, s: State, step: Step)
    requires TokensOk(s)
    ensures TokensOk(Take(codec, fixed, s, step))
  {
    hide Mutated, Merged, AcceptableDependencies, ValidParams;
    var s' := Take(codec, fixed, s, step);
    match step
    case Prepare(_, token, _, _) =>
      forall k | 0 <= k < |s'.applied| ensures Justified(s'.applied[k], s'.issued) && s'.applied[k].token !in s'.items {
        assert Justified(s.applied[k], s.issued);
      }
    case Commit(_, token, _, _, _) =>
      assert token in s.items ==> ItemIssued(s.items[token], s.issued, token);
    case Reload(_, _) =>
  }

  /** Each token applies at most one mutation, the one prepared under it, with the matching action, before
      it expires, and only while the revision of its preparation is the active one. */
  lemma {:induction false} TokensAreOneShot(codec: Codec, fixed: seq<DeviceConfig>, doc: Document, revision: string,
                                            steps: seq<Step>)
    ensures var s := Run(codec, fixed, doc, revision, steps);
      && (forall j, k :: 0 <= j < k < |s.applied| ==> s.applied[j].token != s.applied[k].token)
      && (forall k :: 0 <= k < |s.applied| ==> Justified(s.applied[k], s.issued))
      && TokensOk(s)
  {
    if steps != [] {
      var n := |steps| - 1;
      TokensAreOneShot(codec, fixed, doc, revision, steps[..n]);
      hide Take;
      TokensStep(codec, fixed, Run(codec, fixed, doc, revision, steps[..n]), steps[n]);
    }
  }

  ghost predicate DoesAsIssued(codec: Codec, fixed: seq<DeviceConfig>, s: State, s': State, step: Step)
    requires step.Commit?
  {
    && step.token in s.issued && step.rev == s.revision
    && Ok(s'.doc) == Mutated(codec, fixed, s.doc, s.active, step.action, s.issued[step.token].payload, step.writeFails)
  }

  /** What a commit writes is the mutation prepared under its token, applied to the document it found. */
  lemma AppliedAsPrepared(codec: Codec, fixed: seq<DeviceConfig>, doc: Document, revision: string, steps: seq<Step>,
                          step: Step)
    requires step.Commit?
    ensures var s := Run(codec, fixed, doc, revision, steps);
      var s' := Take(codec, fixed, s, step);
      |s'.applied| > |s.applied| ==> DoesAsIssued(codec, fixed, s, s', step)
    ensures var s := Run(codec, fixed, doc, revision, steps);
      var s' := Take(codec, fixed, s, step);
      |s'.applied| == |s.applied| ==> s'.doc == s.doc
  {
    TokensAreOneShot(codec, fixed, doc, revision, steps);
    var s := Run(codec, fixed, doc, revision, steps);
    hide Mutated, Run;
    assert step.token in s.items ==> ItemIssued(s.items[step.token], s.issued, step.token);
  }
}
