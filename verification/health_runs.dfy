/** What every run of poll cycles under one configuration keeps true of the ledger. */
module HealthRuns {
  import opened Ids
  import opened Graphs
  import opened Config
  import opened EvaluationOrder
  import opened Health
  import opened HealthTracker

  function ReasonOf(s: State): Reason {
    match s
    case Healthy => Reachable
    case Warning => TemperatureThreshold
    case Critical => DirectUnreachable
    case Unknown => UpstreamUnreachable
  }

  predicate IsUnknown(e: DeviceHealth) {
    e.hasState && e.state == Unknown
  }

  ghost function Ups(cfg: Settings, id: Id): seq<Id>
    requires id in cfg.DeviceIndex()
  {
    Normalized(cfg.DeviceIndex()[id].Upstreams())
  }

  /** What an entry says about its own outcomes. */
  predicate CountsOk(threshold: int, e: DeviceHealth) {
    && e.failureCount >= 0
    && (e.hasOutcome ==> (e.lastOutcomeSuccess <==> e.failureCount == 0))
    && (!e.hasOutcome ==> e.failureCount == 0)
    && (e.hasState ==> e.hasOutcome && e.reason == ReasonOf(e.state))
    && (e.IsDown() && !e.lastOutcomeSuccess ==> e.failureCount >= threshold)
  }

  /** An unknown device: every upstream has failed, and the root causes are exact. */
  ghost predicate UnknownOk(cfg: Settings, ledger: Ledger, id: Id)
    requires id in cfg.DeviceIndex() && id in ledger
  {
    var ups := Ups(cfg, id);
    && ups != []
    && ledger[id].unavailableUpstream == ups
    && (forall u :: u in ups ==> u in ledger && StatusOf(ledger, cfg.Threshold(), u) == Failed)
    && ledger[id].rootCauses == SortSet(CriticalBehind(ledger, ups))
    && CriticalBehind(ledger, ups) != {}
  }

  ghost predicate EntryOk(cfg: Settings, ledger: Ledger, id: Id)
    requires id in cfg.DeviceIndex() && id in ledger
  {
    var e := ledger[id];
    && CountsOk(cfg.Threshold(), e)
    && (e.hasOutcome && e.lastOutcomeSuccess ==> e.hasState && !e.IsDown())
    && (IsUnknown(e) ==> UnknownOk(cfg, ledger, id))
  }

  /** The ledger between cycles. */
  ghost predicate Consistent(cfg: Settings, ledger: Ledger) {
    && ledger.Keys <= cfg.DeviceIndex().Keys
    && forall id :: id in ledger ==> EntryOk(cfg, ledger, id)
  }

  /** The ledger within a cycle, after the outcomes were recorded and before evaluation. */
  ghost predicate EntryRecorded(cfg: Settings, ledger: Ledger, id: Id)
    requires id in cfg.DeviceIndex() && id in ledger
  {
    var e := ledger[id];
    && CountsOk(cfg.Threshold(), e)
    && (IsUnknown(e) ==> Ups(cfg, id) != [])
    && (IsUnknown(e) ==> forall u :: u in Ups(cfg, id) ==> u in ledger && ledger[u].IsDown() && ledger[u].hasOutcome)
  }

  predicate DistinctDevices(outcomes: seq<PollOutcome>) {
    forall i, j :: 0 <= i < j < |outcomes| ==> outcomes[i].deviceID != outcomes[j].deviceID
  }

  lemma {:induction false} RecordedNone(ledger: Ledger, outcomes: seq<PollOutcome>, id: Id)
    requires id in ledger && forall i :: 0 <= i < |outcomes| ==> outcomes[i].deviceID != id
    ensures RecordAll(ledger, outcomes)[id] == ledger[id]
  {
    if outcomes != [] {
      hide ApplyOutcome;
      RecordedNone(ledger, outcomes[..|outcomes| - 1], id);
    }
  }

  lemma {:induction false} RecordedAt(ledger: Ledger, outcomes: seq<PollOutcome>, id: Id, i: nat)
    requires id in ledger && DistinctDevices(outcomes) && i < |outcomes| && outcomes[i].deviceID == id
    ensures RecordAll(ledger, outcomes)[id] == ApplyOutcome(ledger[id], outcomes[i])
  {
    hide ApplyOutcome;
    var n := |outcomes| - 1;
    if i == n {
      RecordedNone(ledger, outcomes[..n], id);
    } else {
      RecordedAt(ledger, outcomes[..n], id, i);
    }
  }

  /** With one outcome per device, recording changes an entry at most once. */
  lemma RecordedOnce(ledger: Ledger, outcomes: seq<PollOutcome>, id: Id)
    requires id in ledger && DistinctDevices(outcomes)
    ensures forall o :: o in outcomes && o.deviceID == id ==>
      RecordAll(ledger, outcomes)[id] == ApplyOutcome(ledger[id], o)
    ensures (forall o :: o in outcomes ==> o.deviceID != id) ==> RecordAll(ledger, outcomes)[id] == ledger[id]
  {
    hide RecordAll, ApplyOutcome;
    forall o | o in outcomes && o.deviceID == id
      ensures RecordAll(ledger, outcomes)[id] == ApplyOutcome(ledger[id], o)
    {
      var i :| 0 <= i < |outcomes| && outcomes[i] == o;
      RecordedAt(ledger, outcomes, id, i);
    }
    if forall o :: o in outcomes ==> o.deviceID != id {
      assert forall i :: 0 <= i < |outcomes| ==> outcomes[i] in outcomes;
      RecordedNone(ledger, outcomes, id);
    }
  }

  lemma RecordedConsistent(cfg: Settings, ledger: Ledger, outcomes: seq<PollOutcome>, id: Id)
    requires Consistent(cfg, ledger) && DistinctDevices(outcomes) && id in cfg.DeviceIndex()
    ensures id in Recorded(cfg, ledger, outcomes) && EntryRecorded(cfg, Recorded(cfg, ledger, outcomes), id)
  {
    hide Normalized, CriticalBehind, Index, RecordAll, ApplyOutcome;
    var start := WithEntries(ledger, cfg.DeviceIndex().Keys);
    var base := Recorded(cfg, ledger, outcomes);
    assert id in ledger ==> EntryOk(cfg, ledger, id);
    RecordedCounts(cfg, start, outcomes, id);
    RecordAllKeepsEvidence(start, outcomes, id);
    if IsUnknown(base[id]) {
      assert UnknownOk(cfg, ledger, id);
      forall u | u in Ups(cfg, id) ensures u in base && base[u].IsDown() && base[u].hasOutcome {
        assert StatusOf(ledger, cfg.Threshold(), u) == Failed;
        RecordAllKeepsEvidence(start, outcomes, u);
        RecordedKeepsOutcome(start, outcomes, u);
      }
    }
  }

  /** Recording keeps an entry's own counts in step. */
  lemma RecordedCounts(cfg: Settings, start: Ledger, outcomes: seq<PollOutcome>, id: Id)
    requires id in start && DistinctDevices(outcomes) && CountsOk(cfg.Threshold(), start[id])
    requires start[id].hasOutcome && start[id].lastOutcomeSuccess ==> !start[id].IsDown()
    ensures CountsOk(cfg.Threshold(), RecordAll(start, outcomes)[id])
  {
    hide RecordAll, DistinctDevices;
    RecordedOnce(start, outcomes, id);
    if o :| o in outcomes && o.deviceID == id {
      assert RecordAll(start, outcomes)[id] == ApplyOutcome(start[id], o);
    }
  }

  lemma RecordedKeepsOutcome(start: Ledger, outcomes: seq<PollOutcome>, id: Id)
    requires id in start && DistinctDevices(outcomes) && start[id].hasOutcome
    ensures RecordAll(start, outcomes)[id].hasOutcome
  {
    hide RecordAll, DistinctDevices;
    RecordedOnce(start, outcomes, id);
    if o :| o in outcomes && o.deviceID == id {
      assert RecordAll(start, outcomes)[id] == ApplyOutcome(start[id], o);
    }
  }

  lemma BehindMember(ledger: Ledger, from: seq<Id>, u: Id)
    requires u in from
    ensures CriticalBehind(ledger, [u]) <= CriticalBehind(ledger, from)
  {
  }

  /** Every listed device is in `P` or unknown to the ledger. */
  ghost predicate Covered(l: Ledger, P: set<Id>, xs: seq<Id>) {
    forall u :: u in xs ==> u in P || u !in l
  }

  /** `P` is closed under the evidence its members carry, and the two ledgers agree on it. */
  ghost predicate AgreeOn(l: Ledger, m: Ledger, P: set<Id>) {
    && l.Keys == m.Keys
    && (forall a :: a in P && a in l ==> l[a] == m[a])
    && (forall a :: a in P && a in l && IsUnknown(l[a]) ==> Covered(l, P, l[a].unavailableUpstream))
  }

  /** Evidence reached from a closed set of devices depends on that set's entries only. */
  lemma BehindLocal(l: Ledger, m: Ledger, P: set<Id>, from: seq<Id>)
    requires AgreeOn(l, m, P) && Covered(l, P, from)
    ensures CriticalBehind(l, from) == CriticalBehind(m, from)
  {
    forall c ensures c in CriticalBehind(l, from) <==> c in CriticalBehind(m, from) {
      if c in CriticalBehind(l, from) { BehindTransfers(l, m, P, from, c); }
      if c in CriticalBehind(m, from) { BehindTransfers(m, l, P, from, c); }
    }
  }

  lemma BehindTransfers(l: Ledger, m: Ledger, P: set<Id>, from: seq<Id>, c: Id)
    requires AgreeOn(l, m, P) && Covered(l, P, from) && c in CriticalBehind(l, from)
    ensures c in CriticalBehind(m, from)
  {
    var u :| u in from && Reaches(Evidence(l), u, c);
    var p :| IsPath(Evidence(l), p) && p[0] == u && p[|p| - 1] == c;
    if |p| > 1 { assert Edge(Evidence(l), p[0], p[1]); }
    PathStays(l, m, P, p, |p| - 1);
    assert IsPath(Evidence(m), p);
    assert Reaches(Evidence(m), u, c);
  }

  lemma {:induction false} PathStays(l: Ledger, m: Ledger, P: set<Id>, p: seq<Id>, n: nat)
    requires IsPath(Evidence(l), p) && p[0] in P && n < |p| && AgreeOn(l, m, P)
    ensures forall i :: 0 <= i <= n ==> p[i] in P
    ensures forall i :: 0 <= i < n ==> Edge(Evidence(m), p[i], p[i + 1])
  {
    if n > 0 {
      PathStays(l, m, P, p, n - 1);
      var a, b := p[n - 1], p[n];
      assert Edge(Evidence(l), a, b);
      assert b in l[a].unavailableUpstream;
    }
  }

  /** Halfway through a cycle: `done` devices are settled, the others as recorded. */
  ghost predicate Midway(cfg: Settings, base: Ledger, r: Ledger, done: seq<Id>) {
    && r.Keys == base.Keys == cfg.DeviceIndex().Keys
    && UpstreamFirst(cfg.Upstreams(), done)
    && (forall id :: id in r && id !in done ==> r[id] == base[id])
    && (forall id :: id in r ==> SameOutcomes(r[id], base[id]))
    && (forall id :: id in r && base[id].IsDown() && !base[id].lastOutcomeSuccess ==> r[id].IsDown())
    && (forall id :: id in r && id in done ==> EntryOk(cfg, r, id))
  }

  predicate SameOutcomes(a: DeviceHealth, b: DeviceHealth) {
    a.hasOutcome == b.hasOutcome && a.lastOutcomeSuccess == b.lastOutcomeSuccess && a.failureCount == b.failureCount
  }

  /** The settled devices are closed under the evidence they carry. */
  lemma DoneClosed(cfg: Settings, base: Ledger, r: Ledger, done: seq<Id>, a: Id)
    requires Midway(cfg, base, r, done) && a in done && a in r && IsUnknown(r[a])
    ensures Covered(r, Elems(done), r[a].unavailableUpstream)
  {
    assert UnknownOk(cfg, r, a);
    UpsPlaced(cfg, done, a);
  }

  lemma UpsPlaced(cfg: Settings, done: seq<Id>, a: Id)
    requires UpstreamFirst(cfg.Upstreams(), done) && a in done && a in cfg.DeviceIndex()
    ensures forall u :: u in Ups(cfg, a) && u in cfg.DeviceIndex() ==> u in done && u in Elems(done)
  {
    var i :| 0 <= i < |done| && done[i] == a;
    forall u | u in Ups(cfg, a) && u in cfg.DeviceIndex() ensures u in done {
      assert Edge(cfg.Upstreams(), done[i], u);
    }
  }

  lemma DoneLocal(cfg: Settings, base: Ledger, r: Ledger, done: seq<Id>, id: Id, e: DeviceHealth, from: seq<Id>)
    requires Midway(cfg, base, r, done) && id !in done && id in r && Covered(r, Elems(done), from)
    ensures CriticalBehind(r, from) == CriticalBehind(r[id := e], from)
  {
    forall a | a in Elems(done) && a in r && IsUnknown(r[a])
      ensures Covered(r, Elems(done), r[a].unavailableUpstream)
    {
      DoneClosed(cfg, base, r, done, a);
    }
    BehindLocal(r, r[id := e], Elems(done), from);
  }

  /** Settling one more device does not disturb those already settled. */
  lemma OthersKept(cfg: Settings, base: Ledger, r: Ledger, done: seq<Id>, id: Id, e: DeviceHealth, j: Id)
    requires Midway(cfg, base, r, done) && id !in done && id in r && j in done && j in r
    ensures EntryOk(cfg, r[id := e], j)
  {
    var r' := r[id := e];
    if IsUnknown(r[j]) {
      assert UnknownOk(cfg, r, j);
      UpsPlaced(cfg, done, j);
      forall u | u in Ups(cfg, j) ensures u in r' && StatusOf(r', cfg.Threshold(), u) == Failed {
        assert u in done;
      }
      DoneLocal(cfg, base, r, done, id, e, Ups(cfg, j));
    }
  }

  /** Every failed upstream leads to some critical device. */
  lemma FailedHasCause(cfg: Settings, base: Ledger, r: Ledger, done: seq<Id>, from: seq<Id>, u: Id)
    requires Midway(cfg, base, r, done) && u in done && u in r && r[u].IsDown() && u in from
    ensures CriticalBehind(r, from) != {}
  {
    BehindOne(r, u);
    BehindMember(r, from, u);
    if r[u].state == Critical {
      assert u in CriticalBehind(r, [u]);
    } else {
      assert UnknownOk(cfg, r, u);
    }
  }

  /** An unknown device is never left undecided: its upstreams have all answered or all failed. */
  lemma UnknownDecides(cfg: Settings, base: Ledger, r: Ledger, done: seq<Id>, id: Id)
    requires Midway(cfg, base, r, done) && id !in done && id in r && UpstreamFirst(cfg.Upstreams(), done + [id])
    requires forall x :: x in base ==> EntryRecorded(cfg, base, x)
    requires IsUnknown(r[id])
    ensures VerdictAt(cfg, r, id).Decided?
  {
    assert r[id] == base[id];
    UpsPlaced(cfg, done + [id], id);
    forall u | u in Ups(cfg, id) ensures StatusOf(r, cfg.Threshold(), u) != Unsettled {
      assert u in base && base[u].IsDown() && base[u].hasOutcome;
      assert SameOutcomes(r[u], base[u]);
      assert EntryRecorded(cfg, base, u);
    }
  }

  lemma StillFailed(cfg: Settings, r: Ledger, id: Id, e: DeviceHealth, ups: seq<Id>)
    requires id !in ups && forall u :: u in ups ==> StatusOf(r, cfg.Threshold(), u) == Failed
    ensures forall u :: u in ups ==> u in r[id := e] && StatusOf(r[id := e], cfg.Threshold(), u) == Failed
  {
    forall u | u in ups ensures u in r[id := e] && StatusOf(r[id := e], cfg.Threshold(), u) == Failed {
      assert StatusOf(r, cfg.Threshold(), u) == Failed;
    }
  }

  /** A fresh unknown verdict records exactly the failed upstreams and their causes. */
  lemma FreshUnknown(cfg: Settings, base: Ledger, r: Ledger, done: seq<Id>, id: Id, e: DeviceHealth)
    requires Midway(cfg, base, r, done) && id !in done && id in r && UpstreamFirst(cfg.Upstreams(), done + [id])
    requires var ups := Ups(cfg, id);
      && ups != [] && e.unavailableUpstream == ups && e.rootCauses == SortSet(CriticalBehind(r, ups))
      && forall u :: u in ups ==> StatusOf(r, cfg.Threshold(), u) == Failed
    ensures UnknownOk(cfg, r[id := e], id)
  {
    var ups := Ups(cfg, id);
    UpsEarlier(cfg, done, id);
    assert ups[0] in ups && StatusOf(r, cfg.Threshold(), ups[0]) == Failed;
    StillFailed(cfg, r, id, e, ups);
    hide UpstreamFirst, CriticalBehind, Normalized, Midway, StatusOf;
    DoneLocal(cfg, base, r, done, id, e, ups);
    FailedHasCause(cfg, base, r, done, ups, ups[0]);
  }

  /** A verdict leaves the counts as they were and a state they justify. */
  lemma SettledCounts(cfg: Settings, r: Ledger, id: Id)
    requires id in cfg.DeviceIndex() && id in r && CountsOk(cfg.Threshold(), r[id])
    ensures var e := EntryAfter(cfg, id, r[id], VerdictAt(cfg, r, id));
      CountsOk(cfg.Threshold(), e) && (e.hasOutcome && e.lastOutcomeSuccess ==> e.hasState && !e.IsDown())
  {
    hide Normalized, CriticalBehind, StatusOf, Index;
  }

  lemma SettledOk(cfg: Settings, base: Ledger, r: Ledger, done: seq<Id>, id: Id)
    requires Midway(cfg, base, r, done) && id !in done && id in r && UpstreamFirst(cfg.Upstreams(), done + [id])
    requires forall x :: x in base ==> EntryRecorded(cfg, base, x)
    ensures EntryOk(cfg, Settle(cfg, Evaluated(r, []), id).ledger, id)
  {
    assert EntryRecorded(cfg, base, id) && r[id] == base[id];
    SettledCounts(cfg, r, id);
    hide UpstreamFirst, UnknownOk, CountsOk, VerdictFor, VerdictAt, EventsAfter, Midway, EntryRecorded;
    var v := VerdictAt(cfg, r, id);
    var e := EntryAfter(cfg, id, r[id], v);
    if IsUnknown(e) {
      if v.Undecided? {
        UnknownDecides(cfg, base, r, done, id);
      } else {
        VerdictUnknown(cfg, r, id);
        FreshUnknown(cfg, base, r, done, id, e);
      }
    }
  }

  lemma VerdictUnknown(cfg: Settings, r: Ledger, id: Id)
    requires id in cfg.DeviceIndex() && id in r && VerdictAt(cfg, r, id).Decided?
    requires VerdictAt(cfg, r, id).state == Unknown
    ensures var ups := Ups(cfg, id);
      && ups != [] && (forall u :: u in ups ==> StatusOf(r, cfg.Threshold(), u) == Failed)
      && VerdictAt(cfg, r, id) == Decided(Unknown, UpstreamUnreachable, None, ups, SortSet(CriticalBehind(r, ups)))
  {
    var ups := Ups(cfg, id);
    forall u | u in ups ensures StatusOf(r, cfg.Threshold(), u) == Failed {
      assert StatusOf(r, cfg.Threshold(), u) != Answering;
    }
  }

  lemma UpsEarlier(cfg: Settings, done: seq<Id>, id: Id)
    requires UpstreamFirst(cfg.Upstreams(), done + [id]) && id in cfg.DeviceIndex()
    ensures forall u :: u in Ups(cfg, id) && u in cfg.DeviceIndex() ==> u in done && u in Elems(done) && u != id
  {
    var all := done + [id];
    NoDupAppend(done, id);
    assert all[|done|] == id && all[..|done|] == done;
    forall u | u in Ups(cfg, id) && u in cfg.DeviceIndex() ensures u in done {
      assert Edge(cfg.Upstreams(), all[|done|], u);
    }
  }

  lemma MidwayStep(cfg: Settings, base: Ledger, r: Ledger, done: seq<Id>, id: Id)
    requires Midway(cfg, base, r, done) && id !in done && id in r && UpstreamFirst(cfg.Upstreams(), done + [id])
    requires forall x :: x in base ==> EntryRecorded(cfg, base, x)
    ensures Midway(cfg, base, Settle(cfg, Evaluated(r, []), id).ledger, done + [id])
  {
    var r' := Settle(cfg, Evaluated(r, []), id).ledger;
    SettledOk(cfg, base, r, done, id);
    SettledSame(cfg, r, id);
    assert r[id] == base[id];
    forall j | j in r' && j in done + [id] ensures EntryOk(cfg, r', j) {
      if j != id {
        OthersKept(cfg, base, r, done, id, r'[id], j);
      }
    }
    hide EntryOk, EntryAfter, VerdictAt, EventsAfter, UpstreamFirst, EntryRecorded, Index;
  }

  /** Evaluation changes neither the counts of an entry nor, while it fails, that it is down. */
  lemma SettledSame(cfg: Settings, r: Ledger, id: Id)
    requires id in cfg.DeviceIndex() && id in r
    ensures var e := Settle(cfg, Evaluated(r, []), id).ledger[id];
      SameOutcomes(e, r[id]) && (r[id].IsDown() && !r[id].lastOutcomeSuccess ==> e.IsDown())
  {
    hide Normalized, CriticalBehind, StatusOf, Index;
  }

  lemma MidwayStart(cfg: Settings, base: Ledger)
    requires base.Keys == cfg.DeviceIndex().Keys
    ensures Midway(cfg, base, base, [])
  {
  }

  lemma TopologicalKnown(cfg: Settings, base: Ledger, order: seq<Id>)
    requires IsTopological(cfg.Upstreams(), order) && base.Keys == cfg.DeviceIndex().Keys
    ensures Known(cfg, base, order)
  {
    assert forall id :: id in order ==> id in Elems(order);
    assert cfg.Upstreams().Keys == cfg.DeviceIndex().Keys;
  }

  lemma EvaluateStep(cfg: Settings, base: Ledger, order: seq<Id>, n: nat)
    requires 0 < n <= |order| && IsTopological(cfg.Upstreams(), order) && base.Keys == cfg.DeviceIndex().Keys
    ensures Known(cfg, base, order[..n]) && Known(cfg, base, order[..n - 1])
    ensures order[n - 1] in base && order[n - 1] in cfg.DeviceIndex() && order[n - 1] !in order[..n - 1]
    ensures Evaluate(cfg, base, order[..n]).ledger ==
            Settle(cfg, Evaluated(Evaluate(cfg, base, order[..n - 1]).ledger, []), order[n - 1]).ledger
    ensures UpstreamFirst(cfg.Upstreams(), order[..n - 1] + [order[n - 1]])
    ensures order[..n - 1] + [order[n - 1]] == order[..n]
  {
    TopologicalKnown(cfg, base, order);
    var done, id := order[..n - 1], order[n - 1];
    assert order[..n][..n - 1] == done && done + [id] == order[..n];
    PrefixUpstreamFirst(cfg.Upstreams(), order, n);
  }

  lemma MidwayEmpty(cfg: Settings, base: Ledger)
    requires base.Keys == cfg.DeviceIndex().Keys
    ensures Known(cfg, base, []) && Midway(cfg, base, Evaluate(cfg, base, []).ledger, [])
  {
    hide Midway;
    MidwayStart(cfg, base);
  }

  lemma {:induction false} EvaluateMidway(cfg: Settings, base: Ledger, order: seq<Id>, n: nat)
    requires n <= |order| && IsTopological(cfg.Upstreams(), order)
    requires base.Keys == cfg.DeviceIndex().Keys
    requires forall x :: x in base ==> EntryRecorded(cfg, base, x)
    ensures Known(cfg, base, order[..n])
    ensures Midway(cfg, base, Evaluate(cfg, base, order[..n]).ledger, order[..n])
  {
    hide *;
    if n == 0 {
      MidwayEmpty(cfg, base);
      assert order[..n] == [];
    } else {
      EvaluateStep(cfg, base, order, n);
      EvaluateMidway(cfg, base, order, n - 1);
      MidwayStep(cfg, base, Evaluate(cfg, base, order[..n - 1]).ledger, order[..n - 1], order[n - 1]);
    }
  }

  lemma MidwayDone(cfg: Settings, base: Ledger, r: Ledger, order: seq<Id>)
    requires Midway(cfg, base, r, order) && IsTopological(cfg.Upstreams(), order)
    ensures Consistent(cfg, r) && r.Keys == cfg.DeviceIndex().Keys
  {
    hide UpstreamFirst, EntryOk;
    assert forall id :: id in r ==> id in Elems(order);
  }

  lemma NotPlacedBefore(order: seq<Id>, i: nat)
    requires i < |order| && NoDup(order)
    ensures order[i] !in order[..i]
  {
  }

  lemma PrefixUpstreamFirst(g: Graph, order: seq<Id>, n: nat)
    requires UpstreamFirst(g, order) && n <= |order|
    ensures UpstreamFirst(g, order[..n])
  {
    forall i, u | 0 <= i < n && Edge(g, order[..n][i], u) ensures u in order[..n][..i] {
      assert order[..n][..i] == order[..i];
    }
  }

  /** Every cycle with at most one outcome per device keeps the ledger consistent. */
  lemma BatchConsistent(cfg: Settings, ledger: Ledger, outcomes: seq<PollOutcome>)
    requires !Cyclic(cfg.Upstreams()) && Consistent(cfg, ledger) && DistinctDevices(outcomes)
    ensures Consistent(cfg, Batch(cfg, ledger, outcomes).ledger)
    ensures Batch(cfg, ledger, outcomes).ledger.Keys == cfg.DeviceIndex().Keys
  {
    var base := Recorded(cfg, ledger, outcomes);
    var order := KahnOrder(cfg.Upstreams());
    KahnOrderCorrect(cfg.Upstreams());
    assert base.Keys == cfg.DeviceIndex().Keys;
    hide EntryRecorded, UpstreamFirst, Midway, Consistent, Evaluate, KahnOrder, Cyclic, DistinctDevices;
    forall x | x in base ensures EntryRecorded(cfg, base, x) {
      RecordedConsistent(cfg, ledger, outcomes, x);
    }
    EvaluateMidway(cfg, base, order, |order|);
    assert order[..|order|] == order;
    MidwayDone(cfg, base, Evaluate(cfg, base, order).ledger, order);
  }

  /** The ledger after a run of cycles that starts with an empty tracker. */
  ghost function RunLedger(cfg: Settings, batches: seq<seq<PollOutcome>>): Ledger {
    if batches == [] then map[]
    else
      var n := |batches| - 1;
      Batch(cfg, RunLedger(cfg, batches[..n]), batches[n]).ledger
  }

  lemma {:induction false} RunConsistent(cfg: Settings, batches: seq<seq<PollOutcome>>)
    requires !Cyclic(cfg.Upstreams())
    requires forall b :: b in batches ==> DistinctDevices(b)
    ensures Consistent(cfg, RunLedger(cfg, batches))
  {
    if batches != [] {
      var n := |batches| - 1;
      RunConsistent(cfg, batches[..n]);
      BatchConsistent(cfg, RunLedger(cfg, batches[..n]), batches[n]);
    }
  }
}
