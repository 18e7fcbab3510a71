/** When a mutation is applied, and what the active inventory shows of it after a reload. */
module AppliedMutations {
  import opened Ids
  import opened Config
  import opened ManagedInventory
  import opened ControlPlane

  // ---- When ----

  /** The document the pending check looks at: the list in the device's first entry, where none stands for an
      empty one, or in a new last entry. */
  ghost predicate Pending(managed: seq<DeviceConfig>, id: Id, upstreams: seq<Id>, trial: seq<DeviceConfig>) {
    if exists i :: FirstAt(managed, id, i) then
      && |trial| == |managed|
      && forall k :: 0 <= k < |managed| ==>
           if FirstAt(managed, id, k)
           then trial[k] == managed[k].(upstreamDeviceIDs := if upstreams == [] then None else Some(upstreams))
           else trial[k] == managed[k]
    else trial == managed + [DeviceConfig(id, "", "", None, Some(upstreams), None, [])]
  }

  lemma PendingIs(fixed: seq<DeviceConfig>, managed: seq<DeviceConfig>, id: Id, upstreams: seq<Id>)
    ensures PendingAccepted(fixed, managed, id, upstreams) <==>
      exists trial :: Pending(managed, id, upstreams, trial) && AcceptableDependencies(Merged(fixed, trial))
        && exists d :: d in Merged(fixed, trial) && d.id == id
  {
    var trial := Edited(managed, id, SetUpstreams(PendingList(managed, id, upstreams)));
    forall i ensures FirstAt(managed, id, i) <==> i == FirstOf(managed, id) < |managed| {
      FirstIs(managed, id, i);
    }
    hide FirstOf, FirstAt, AcceptableDependencies, Merged;
    assert FirstOf(managed, id) < |managed| ==> FirstAt(managed, id, FirstOf(managed, id));
    assert Pending(managed, id, upstreams, trial);
    forall other | Pending(managed, id, upstreams, other) ensures other == trial {
    }
  }

  /** A payload of the action's type. */
  predicate Decodes(action: Action, p: Params) {
    match action
    case Thresholds => p.temperatureWarningC.Number?
    case Dependencies => p.upstreamDeviceIDs.Texts? || IsMissing(p.upstreamDeviceIDs)
    case Alerting => p.alertsEnabled.Flag?
  }

  /** An apply succeeds exactly when the payload decodes, its device is active, unless only the policy is meant, a
      new list passes the pending check, and the write succeeds. */
  lemma AppliesExactly(codec: Codec, fixed: seq<DeviceConfig>, doc: Document, active: seq<DeviceConfig>,
                       action: Action, p: Params, writeFails: bool)
    ensures var id := if p.deviceID.Text? then p.deviceID.text else "";
      var r := Mutated(codec, fixed, doc, active, action, p, writeFails);
      && (r.Err? ==> r.code == ValidationFailed)
      && (r.Ok? <==>
            && !writeFails && Decodes(action, p)
            && ((exists d :: d in active && d.id == id) || (action == Thresholds && id == ""))
            && (action == Dependencies ==>
                  PendingAccepted(fixed, doc.devices, id,
                                  if p.upstreamDeviceIDs.Texts? then p.upstreamDeviceIDs.items else [])))
  {
    var id := if p.deviceID.Text? then p.deviceID.text else "";
    assert Configured(active, id) <==> exists d :: d in active && d.id == id;
    hide PendingAccepted, Configured, Written;
  }

  predicate NamesDevice(v: Value) {
    v.Text? && v.text != ""
  }

  /** What a request needs to be prepared: a payload that the apply decodes, spelled out, and a device; only a new
      threshold may do without one, as the policy's. */
  lemma PreparedDecodes(action: Action, p: Params)
    ensures ValidParams(action, p) <==>
      && Decodes(action, p) && (action == Dependencies ==> p.upstreamDeviceIDs != Absent)
      && (NamesDevice(p.deviceID) || (action == Thresholds && p.deviceID in {Absent, Null}))
  {
  }

  /** From any state, a prepared request and its commit under the same revision, within sixty seconds: the apply
      decides, on the document found then. A commit that is late or refused uses the token up for nothing, and one
      under another revision changes nothing. */
  lemma CommitFollowsPrepare(codec: Codec, fixed: seq<DeviceConfig>, s: State, action: Action, token: Token, now: Time,
                             p: Params, rev: string, now': Time, writeFails: bool)
    requires ValidParams(action, p) && token !in s.issued && token != "" && rev != ""
    ensures var prepared := Take(codec, fixed, s, Prepare(action, token, now, p));
      var end := Take(codec, fixed, prepared, Commit(action, token, rev, now', writeFails));
      var r := Mutated(codec, fixed, s.doc, s.active, action, p, writeFails);
      && (prepared.doc, prepared.active, prepared.revision, prepared.applied) ==
         (s.doc, s.active, s.revision, s.applied)
      && if rev != s.revision then end == prepared
         else
           && token !in end.items && end.active == s.active && end.revision == s.revision
           && if r.Ok? && now' - now <= 60 then
                end.doc == r.value && end.applied == s.applied + [Applied(token, action, s.revision, now')]
              else end.doc == s.doc && end.applied == s.applied
  {
    hide Mutated, ValidParams;
  }

  // ---- What is shown ----

  lemma {:induction false} IndexUpdate(m: seq<DeviceConfig>, i: nat, d: DeviceConfig)
    requires i < |m| && d.id == m[i].id
    ensures forall id :: id != d.id ==>
      (id in Index(m) <==> id in Index(m[i := d])) && (id in Index(m) ==> Index(m[i := d])[id] == Index(m)[id])
  {
    var n := |m| - 1;
    if i < n {
      assert m[i := d][..n] == m[..n][i := d];
      IndexUpdate(m[..n], i, d);
    } else {
      assert m[i := d][..n] == m[..n];
    }
  }

  /** A managed device without a static entry is active as its last entry says. */
  lemma {:induction false} ManagedShown(fixed: seq<DeviceConfig>, managed: seq<DeviceConfig>, i: nat)
    requires i < |managed| && forall k :: i < k < |managed| ==> managed[k].id != managed[i].id
    requires forall k :: 0 <= k < |fixed| ==> fixed[k].id != managed[i].id
    ensures managed[i].id in Index(Merged(fixed, managed))
    ensures Index(Merged(fixed, managed))[managed[i].id] == managed[i]
  {
    var n := |managed| - 1;
    var m, d, index := Merged(fixed, managed[..n]), managed[n], StaticIndex(fixed);
    IndexAppend(m, d);
    if i < n {
      ManagedShown(fixed, managed[..n], i);
      if d.id in index { OneOverlaid(m, index[d.id], d); }
    }
    hide StaticIndex, ApplyDeviceOverlay, Index;
  }

  lemma OneOverlaid(m: seq<DeviceConfig>, i: nat, d: DeviceConfig)
    requires i < |m| && m[i].id == d.id
    ensures forall id :: id != d.id ==>
      var after := Index(m[i := ApplyDeviceOverlay(m[i], d)]);
      (id in Index(m) <==> id in after) && (id in Index(m) ==> after[id] == Index(m)[id])
  {
    OverlayKeepsId(m[i], d);
    IndexUpdate(m, i, ApplyDeviceOverlay(m[i], d));
  }

  predicate NewBeyond(fixed: seq<DeviceConfig>, m: seq<DeviceConfig>) {
    forall j :: |fixed| <= j < |m| ==> NewTo(fixed, m[j].id)
  }

  predicate NewTo(fixed: seq<DeviceConfig>, id: Id) {
    forall k :: 0 <= k < |fixed| ==> fixed[k].id != id
  }

  lemma {:induction false} AppendedAreNew(fixed: seq<DeviceConfig>, managed: seq<DeviceConfig>)
    ensures NewBeyond(fixed, Merged(fixed, managed))
  {
    if managed != [] {
      AppendedAreNew(fixed, managed[..|managed| - 1]);
      hide ApplyDeviceOverlay;
    }
  }

  predicate LastStatic(fixed: seq<DeviceConfig>, id: Id, s: nat) {
    s < |fixed| && fixed[s].id == id && forall k :: s < k < |fixed| ==> fixed[k].id != id
  }

  lemma {:induction false} LastIndexed(fixed: seq<DeviceConfig>, id: Id, s: nat)
    requires LastStatic(fixed, id, s)
    ensures id in StaticIndex(fixed) && StaticIndex(fixed)[id] == s
  {
    var n := |fixed| - 1;
    if s < n {
      assert fixed[n].id != id;
      LastIndexed(fixed[..n], id, s);
    }
  }

  /** A static device is active as its last static entry, overlaid. */
  lemma StaticShown(fixed: seq<DeviceConfig>, managed: seq<DeviceConfig>, id: Id, s: nat)
    requires LastStatic(fixed, id, s)
    ensures id in Index(Merged(fixed, managed)) && Index(Merged(fixed, managed))[id] == Merged(fixed, managed)[s]
  {
    var m := Merged(fixed, managed);
    LastIndexed(fixed, id, s);
    AppendedAreNew(fixed, managed);
    hide Index;
    assert LastEntry(m, s) by {
      forall j | s < j < |m| ensures m[j].id != m[s].id {
        assert m[s].id == fixed[s].id;
        if j < |fixed| {
          assert m[j].id == fixed[j].id;
        } else {
          assert NewTo(fixed, m[j].id);
        }
      }
    }
    IndexLast(m, s);
  }

  /** No later managed entry hides what entry `i` sets: for a static device none sets the field again, for any other
      none has its id. */
  ghost predicate Prevails(fixed: seq<DeviceConfig>, managed: seq<DeviceConfig>, i: nat, sets: DeviceConfig -> bool) {
    && i < |managed|
    && if exists d :: d in fixed && d.id == managed[i].id then SetLast(managed, managed[i].id, i, sets)
       else forall k :: i < k < |managed| ==> managed[k].id != managed[i].id
  }

  /** What an entry sets, the active inventory shows after a reload, as long as it prevails. */
  lemma EntryShown(fixed: seq<DeviceConfig>, managed: seq<DeviceConfig>, i: nat)
    requires i < |managed|
    ensures var active, id := Index(Merged(fixed, managed)), managed[i].id;
      && (Prevails(fixed, managed, i, SETS_WARNING) ==>
            id in active && active[id].temperatureWarningC == managed[i].temperatureWarningC)
      && (Prevails(fixed, managed, i, SETS_ALERTS) ==>
            id in active && active[id].alertsEnabled == managed[i].alertsEnabled)
      && (Prevails(fixed, managed, i, SETS_UPSTREAMS) ==>
            id in active && active[id].upstreamDeviceIDs == managed[i].upstreamDeviceIDs)
  {
    hide Merged, Index, SetLast, NeverSet;
    var id := managed[i].id;
    if exists d :: d in fixed && d.id == id {
      var s := LastStaticOf(fixed, id);
      LastIndexed(fixed, id, s);
      StaticShown(fixed, managed, id, s);
      OverlaidFields(fixed, managed, s, i);
    } else if forall k :: i < k < |managed| ==> managed[k].id != id {
      ManagedShown(fixed, managed, i);
    }
  }

  lemma {:induction false} LastStaticOf(fixed: seq<DeviceConfig>, id: Id) returns (s: nat)
    requires exists d :: d in fixed && d.id == id
    ensures LastStatic(fixed, id, s)
  {
    var n := |fixed| - 1;
    if fixed[n].id == id {
      s := n;
    } else {
      assert fixed == fixed[..n] + [fixed[n]];
      s := LastStaticOf(fixed[..n], id);
    }
  }

  /** After a successful mutation and a reload, the active device has the value the payload asked for, as long as the
      entry prevails; an empty list that the codec drops asks for nothing. */
  lemma ReloadShowsApplied(codec: Codec, fixed: seq<DeviceConfig>, doc: Document, active: seq<DeviceConfig>,
                           action: Action, p: Params, after: Document, i: nat)
    requires Mutated(codec, fixed, doc, active, action, p, false) == Ok(after)
    requires p.deviceID.Text? && p.deviceID.text != ""
    requires FirstAt(doc.devices, p.deviceID.text, i)
      || (i == |doc.devices| && forall d :: d in doc.devices ==> d.id != p.deviceID.text)
    ensures var shown, id := Index(Merged(fixed, after.devices)), p.deviceID.text;
      match action
      case Thresholds =>
        Prevails(fixed, after.devices, i, SETS_WARNING) ==>
          id in shown && shown[id].temperatureWarningC == Some(p.temperatureWarningC.number)
      case Alerting =>
        Prevails(fixed, after.devices, i, SETS_ALERTS) ==>
          id in shown && shown[id].alertsEnabled == Some(p.alertsEnabled.flag)
      case Dependencies =>
        var list := if p.upstreamDeviceIDs.Texts? then p.upstreamDeviceIDs.items else [];
        Prevails(fixed, after.devices, i, SETS_UPSTREAMS) && (list != [] || codec != EmptyIsMissing) ==>
          id in shown && shown[id].Upstreams() == list
  {
    MutatedAsAsked(codec, fixed, doc, active, action, p, false);
    assert i < |after.devices| && EntryTaken(codec, action, p, after.devices[i]) by {
      hide EntryStays, Mutated;
      if !FirstAt(doc.devices, p.deviceID.text, i) {
        assert forall k :: 0 <= k < |doc.devices| ==> doc.devices[k] in doc.devices;
      }
    }
    hide *;
    EntryShown(fixed, after.devices, i);
  }

  predicate EntryTaken(codec: Codec, action: Action, p: Params, e: DeviceConfig) {
    && p.deviceID.Text? && e.id == p.deviceID.text
    && match action
       case Thresholds => p.temperatureWarningC.Number? && e.temperatureWarningC == Some(p.temperatureWarningC.number)
       case Alerting => p.alertsEnabled.Flag? && e.alertsEnabled == Some(p.alertsEnabled.flag)
       case Dependencies =>
         var list := if p.upstreamDeviceIDs.Texts? then p.upstreamDeviceIDs.items else [];
         list != [] || codec != EmptyIsMissing ==> e.Upstreams() == list
  }
}
