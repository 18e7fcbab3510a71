/** Equal event times are real: the tracker itself emits them, and after a failed transaction the table then
    contradicts the ledger. With strictly newest last events it never does. */
module TrackerTies {
  import opened Ids
  import opened Graphs
  import opened Config
  import opened EvaluationOrder
  import opened Health
  import opened HealthTracker
  import opened HealthRuns
  import opened HealthHistory
  import opened HealthVerdicts
  import opened HealthStream
  import opened HealthConfluence
  import opened ReloadHazard
  import opened Telemetry
  import opened Delivery
  import opened Convergence
  import opened PublishedRuns
  import opened Ties
  import opened EndToEnd
  import C = Contract
  import Ingestion

  // ---- Strictly newest last events ----

  /** This is the device's last event, and strictly newer than its others. */
  predicate LastAndNewest(events: seq<Event>, i: nat) {
    && i < |events|
    && forall j :: 0 <= j < |events| && j != i && events[j].deviceID == events[i].deviceID ==>
         j < i && events[j].observedAt < events[i].observedAt
  }

  lemma {:induction false} ReplayOfLast(view: View, events: seq<Event>, i: nat)
    requires i < |events| && forall j :: i < j < |events| ==> events[j].deviceID != events[i].deviceID
    ensures events[i].deviceID in ObserveAll(view, events)
    ensures ObserveAll(view, events)[events[i].deviceID] == Seen(events[i].state, events[i].alertsEnabled)
  {
    if i < |events| - 1 {
      ReplayOfLast(view, events[..|events| - 1], i);
    }
  }

  /** The event's message, wherever it stands among others, is newest in its device. */
  lemma NewestInHistory(ms: seq<C.Message>, site: string, events: seq<Event>, os: seq<Origin>, ids: seq<C.EventId>,
                        i: nat) returns (p: nat)
    requires |os| == |events| == |ids| && AllAcceptable(site, events, os) && LastAndNewest(events, i)
    requires DistinctEventIds(ms) && OnlyHealth(ms) == StreamMessages(events, os, ids)
    ensures p < |ms| && ms[p] == HealthMessage(os[i], events[i], ids[i]) && IsHealth(ms[p]) && IsNewest(ms, p)
  {
    var stream := StreamMessages(events, os, ids);
    StreamMessageAt(events, os, ids, i);
    OnlyHealthMembers(ms);
    assert stream[i] in OnlyHealth(ms);
    p :| 0 <= p < |ms| && ms[p] == stream[i];
    hide C.Validate, HealthMessage, StreamMessages, OnlyHealth, Acceptable;
    forall q | 0 <= q < |ms| && q != p && SameDevice(ms[q], ms[p]) ensures TimeOf(ms[q]) < TimeOf(ms[p]) {
      assert ms[q] in OnlyHealth(ms);
      var k :| 0 <= k < |stream| && stream[k] == ms[q];
      StreamMessageAt(events, os, ids, k);
      AcceptableMessage(site, events[k], os[k], ids[k]);
      AcceptableMessage(site, events[i], os[i], ids[i]);
      assert k != i;
    }
  }

  /** Every tracker run, published in full through any delivery run, whatever fails, is repeated or pruned:
      once all is settled, a live device whose last event is strictly newer than its others shows the
      ledger's state and alerts flag. */
  lemma LedgerReachesTableDespiteFailures(max: int, delivery: seq<Step>, steps: seq<TrackerStep>,
                                          site: string, os: seq<Origin>, ids: seq<C.EventId>, id: Id, i: nat)
    requires AllLoaded(steps)
    requires |os| == |AllEvents(steps)| == |ids| && OriginsOk(site, AllEvents(steps), os)
    requires Settled(Run(max, delivery)) && DistinctEventIds(Run(max, delivery).c.enqueued)
    requires OnlyHealth(Run(max, delivery).c.enqueued) == StreamMessages(AllEvents(steps), os, ids)
    requires LastAndNewest(AllEvents(steps), i) && AllEvents(steps)[i].deviceID == id
    requires id in Play(steps).ledger && Play(steps).ledger[id].hasState
    ensures var e := Play(steps).ledger[id];
      Shows(Run(max, delivery).r.tables.healthCurrent, site, id, Seen(e.state, e.alertsEnabledPublished))
  {
    hide *;
    var events, ms := AllEvents(steps), Run(max, delivery).c.enqueued;
    LastInBounds(events, i);
    AllEventsNamed(steps);
    OriginsAcceptable(site, events, os);
    AcceptableAt(site, events, os, i);
    var p := NewestInHistory(ms, site, events, os, ids, i);
    ConvergesToNewest(max, delivery);
    StreamReplaysToLedger(steps);
    ViewWithinReplay(steps);
    LiveInReplay(steps, id);
    ReplayOfLast(map[], events, i);
    AcceptableMessage(site, events[i], os[i], ids[i]);
    ShownBody(Run(max, delivery).r.tables.healthCurrent, site, events[i], ms[p]);
  }

  lemma LastInBounds(events: seq<Event>, i: nat)
    requires LastAndNewest(events, i)
    ensures i < |events| && forall j :: i < j < |events| ==> events[j].deviceID != events[i].deviceID
  {
  }

  lemma AcceptableAt(site: string, events: seq<Event>, os: seq<Origin>, i: nat)
    requires |os| == |events| && AllAcceptable(site, events, os) && i < |events|
    ensures Acceptable(site, events[i], os[i])
  {
  }

  lemma ShownBody(rows: map<C.Key, Ingestion.HealthRow>, site: string, e: Event, m: C.Message)
    requires IsHealth(m) && KeyOf(m) == C.Key(site, e.deviceID) && RowOf(m).health == BodyOf(e)
    requires KeyOf(m) in rows && rows[KeyOf(m)] == RowOf(m)
    ensures Shows(rows, site, e.deviceID, Seen(e.state, e.alertsEnabled))
  {
    hide C.Validate, StateName;
  }

  // ---- Ties of the tracker ----

  /** `d` depends on `u`, and one failure is enough. */
  ghost predicate Pair(cfg: Settings, u: Id, d: Id) {
    && u != d && u != "" && d != "" && cfg.DeviceIndex().Keys == {u, d} && cfg.Threshold() == 1
    && cfg.DeviceIndex()[u].Upstreams() == [] && cfg.DeviceIndex()[d].Upstreams() == [u]
  }

  lemma PairGraph(cfg: Settings, u: Id, d: Id)
    requires Pair(cfg, u, d)
    ensures Ups(cfg, u) == [] && Ups(cfg, d) == [u] && !Cyclic(cfg.Upstreams())
  {
    SingleNormalized(u);
    hide Normalized;
    RankedIsAcyclic(cfg.Upstreams(), map[u := 0, d := 1]);
  }

  /** Only `u` is polled, and answers. */
  predicate OnlyAnswer(outcomes: seq<PollOutcome>, u: Id) {
    |outcomes| == 1 && outcomes[0].deviceID == u && outcomes[0].success
  }

  lemma FirstCycle(cfg: Settings, o1: seq<PollOutcome>, u: Id, d: Id)
    requires Pair(cfg, u, d) && Fails(o1, u) && Fails(o1, d)
    ensures var l := RunLedger(cfg, [o1]);
      d in l && IsUnknown(l[d])
  {
    PairGraph(cfg, u, d);
    assert [o1][..0] == [];
    FailingRun(cfg, [o1], u);
    FailingRun(cfg, [o1], d);
    var l, empty := RunLedger(cfg, [o1]), RunLedger(cfg, []);
    hide RunLedger, Cyclic, Normalized, StateFits, Fails;
    FitsAlone(cfg, l, EntryBefore(empty, u), u);
    FitsBehind(cfg, l, EntryBefore(empty, d), d, u);
  }

  lemma SecondHistory(o1: seq<PollOutcome>, o2: seq<PollOutcome>, u: Id, d: Id)
    requires u != d && Fails(o1, u) && Fails(o1, d) && OnlyAnswer(o2, u)
    ensures History([o1, o2], u) == [false, true] && History([o1, o2], d) == [false]
    ensures TrailingFailures([false]) == 1 && DistinctDevices(o2)
  {
    HistoryOfTwo(o1, o2, u);
    HistoryOfTwo(o1, o2, d);
    var i :| 0 <= i < |o1| && o1[i].deviceID == u && !o1[i].success;
    var j :| 0 <= j < |o1| && o1[j].deviceID == d && !o1[j].success;
    VerdictsOfOne(o1, u, i);
    VerdictsOfOne(o1, d, j);
    VerdictsOfOne(o2, u, 0);
    VerdictsOfOne(o2, d, 0);
    hide Verdicts, History;
  }

  lemma HistoryOfTwo(o1: seq<PollOutcome>, o2: seq<PollOutcome>, id: Id)
    ensures History([o1, o2], id) == Verdicts(o1, id) + Verdicts(o2, id)
  {
    assert [o1, o2][..1] == [o1] && [o1][..0] == [];
    hide Verdicts;
    assert History([o1], id) == Verdicts(o1, id);
  }

  lemma SecondCycle(cfg: Settings, o1: seq<PollOutcome>, o2: seq<PollOutcome>, u: Id, d: Id)
    requires Pair(cfg, u, d) && Fails(o1, u) && Fails(o1, d) && OnlyAnswer(o2, u)
    ensures var l := RunLedger(cfg, [o1, o2]);
      d in l && IsCriticalEntry(l[d])
  {
    PairGraph(cfg, u, d);
    SecondHistory(o1, o2, u, d);
    assert forall b :: b in [o1, o2] ==> b == o1 || b == o2;
    StateIsDetermined(cfg, [o1, o2], d);
    StateIsDetermined(cfg, [o1, o2], u);
    FailureCountIsTrailingRun(cfg, [o1, o2], d);
    FailureCountIsTrailingRun(cfg, [o1, o2], u);
    var l := RunLedger(cfg, [o1, o2]);
    hide RunLedger, Cyclic, Normalized, History;
    assert u in [u] && Answers(l, u);
  }

  function TieSteps(cfg: Settings, o1: seq<PollOutcome>, o2: seq<PollOutcome>): seq<TrackerStep> {
    [Cycle(cfg, o1), Cycle(cfg, o2)]
  }

  lemma TiePlays(cfg: Settings, o1: seq<PollOutcome>, o2: seq<PollOutcome>)
    ensures TieSteps(cfg, o1, o2)[..1] == [Cycle(cfg, o1)] && [Cycle(cfg, o1)][..0] == []
    ensures Play([]).ledger == map[] && Play([Cycle(cfg, o1)]).ledger == RunLedger(cfg, [o1])
    ensures Play(TieSteps(cfg, o1, o2)).ledger == RunLedger(cfg, [o1, o2])
    ensures RunLedger(cfg, [o1]) == Batch(cfg, map[], o1).ledger
    ensures RunLedger(cfg, [o1, o2]) == Batch(cfg, RunLedger(cfg, [o1]), o2).ledger
  {
    assert [o1, o2][..1] == [o1] && [o1][..0] == [];
    PlayCycles(cfg, [o1]);
    PlayCycles(cfg, [o1, o2]);
    assert Cycles(cfg, [o1]) == [Cycle(cfg, o1)];
    assert Cycles(cfg, [o1, o2]) == TieSteps(cfg, o1, o2);
    hide Batch, Play;
  }

  /** A cycle that changes a device's state tells so, with the time of the device's last poll. */
  lemma ChangeIsTold(cfg: Settings, ledger: Ledger, view: View, outcomes: seq<PollOutcome>, id: Id) returns (e: Event)
    requires Agrees(ledger, view)
    requires id in Batch(cfg, ledger, outcomes).ledger && Batch(cfg, ledger, outcomes).ledger[id].hasState
    requires id in ledger && ledger[id].hasState ==> ledger[id].state != Batch(cfg, ledger, outcomes).ledger[id].state
    ensures var r := Batch(cfg, ledger, outcomes);
      e in r.events && e.deviceID == id && e.state == r.ledger[id].state
      && (r.ledger[id].lastObservedAt != 0 ==> e.observedAt == r.ledger[id].lastObservedAt)
  {
    var r := Batch(cfg, ledger, outcomes);
    CycleNarrated(cfg, ledger, view, outcomes);
    EventsMirrorLedger(cfg, ledger, outcomes);
    hide Batch, Narrates, NarratesAll, StrictlyByDevice;
    DistinctByLess(r.events);
    ObserveDistinct(view, r.events, id);
    assert AgreesAt(r.ledger[id], ObserveAll(view, r.events), id);
    assert id in ledger && ledger[id].hasState ==> AgreesAt(ledger[id], view, id);
    e :| e in r.events && e.deviceID == id;
  }

  lemma DistinctByLess(events: seq<Event>)
    requires forall i, j :: 0 <= i < j < |events| ==> Less(events[i].deviceID, events[j].deviceID)
    ensures DistinctEvents(events)
  {
    forall i, j | 0 <= i < j < |events| ensures events[i].deviceID != events[j].deviceID {
      LessIrreflexive(events[i].deviceID);
    }
  }

  lemma PolledTime(cfg: Settings, ledger: Ledger, outcomes: seq<PollOutcome>, id: Id, i: nat)
    requires id in cfg.DeviceIndex() && DistinctDevices(outcomes) && i < |outcomes| && outcomes[i].deviceID == id
    ensures var l := Batch(cfg, ledger, outcomes).ledger;
      id in l && l[id].lastObservedAt == outcomes[i].observedAt
  {
    CycleTimed(cfg, ledger, outcomes);
    RecordedAt(WithEntries(ledger, cfg.DeviceIndex().Keys), outcomes, id, i);
    hide Batch, RecordAll, Index;
    assert SamePoll(Batch(cfg, ledger, outcomes).ledger[id], Recorded(cfg, ledger, outcomes)[id]);
  }

  lemma UnpolledTime(cfg: Settings, ledger: Ledger, outcomes: seq<PollOutcome>, id: Id)
    requires id in ledger && forall i :: 0 <= i < |outcomes| ==> outcomes[i].deviceID != id
    ensures var l := Batch(cfg, ledger, outcomes).ledger;
      id in l && l[id].lastObservedAt == ledger[id].lastObservedAt
  {
    CycleTimed(cfg, ledger, outcomes);
    RecordedNone(WithEntries(ledger, cfg.DeviceIndex().Keys), outcomes, id);
    hide Batch, RecordAll, Index;
    assert SamePoll(Batch(cfg, ledger, outcomes).ledger[id], Recorded(cfg, ledger, outcomes)[id]);
  }

  /** The time noted for `d` is that of its one poll, in both cycles. */
  lemma TieTimes(cfg: Settings, o1: seq<PollOutcome>, o2: seq<PollOutcome>, u: Id, d: Id, i: nat)
    requires Pair(cfg, u, d) && Fails(o1, d) && OnlyAnswer(o2, u) && i < |o1| && o1[i].deviceID == d
    ensures var l1, l2 := Batch(cfg, map[], o1).ledger, Batch(cfg, Batch(cfg, map[], o1).ledger, o2).ledger;
      && d in l1 && d in l2 && l1[d].lastObservedAt == o1[i].observedAt == l2[d].lastObservedAt
  {
    hide Batch;
    PolledTime(cfg, map[], o1, d, i);
    UnpolledTime(cfg, Batch(cfg, map[], o1).ledger, o2, d);
  }

  /** A device that is not polled while its upstream comes back gets a second event, with the time of the
      first: unknown, then critical. Nothing later is emitted for it in this run. */
  lemma UnpolledDeviceTies(cfg: Settings, o1: seq<PollOutcome>, o2: seq<PollOutcome>, u: Id, d: Id, i: nat)
      returns (first: Event, second: Event)
    requires Pair(cfg, u, d) && Fails(o1, u) && Fails(o1, d) && OnlyAnswer(o2, u)
    requires i < |o1| && o1[i].deviceID == d && o1[i].observedAt > 0
    ensures first in EventsOf(map[], Cycle(cfg, o1)) && second in EventsOf(RunLedger(cfg, [o1]), Cycle(cfg, o2))
    ensures first.deviceID == d == second.deviceID && first.observedAt == second.observedAt == o1[i].observedAt
    ensures first.state == Unknown && second.state == Critical
    ensures Play(TieSteps(cfg, o1, o2)).ledger == RunLedger(cfg, [o1, o2])
    ensures d in RunLedger(cfg, [o1, o2]) && IsCriticalEntry(RunLedger(cfg, [o1, o2])[d])
  {
    TiePlays(cfg, o1, o2);
    FirstCycle(cfg, o1, u, d);
    SecondCycle(cfg, o1, o2, u, d);
    TieTimes(cfg, o1, o2, u, d, i);
    StreamReplaysToLedger([]);
    StreamReplaysToLedger([Cycle(cfg, o1)]);
    hide Batch, RunLedger, Play, Pair, Fails, OnlyAnswer;
    first := ChangeIsTold(cfg, map[], Play([]).view, o1, d);
    second := ChangeIsTold(cfg, RunLedger(cfg, [o1]), Play([Cycle(cfg, o1)]).view, o2, d);
  }

  lemma TieEvents(cfg: Settings, o1: seq<PollOutcome>, o2: seq<PollOutcome>)
    ensures AllEvents(TieSteps(cfg, o1, o2)) ==
      EventsOf(map[], Cycle(cfg, o1)) + EventsOf(RunLedger(cfg, [o1]), Cycle(cfg, o2))
  {
    TiePlays(cfg, o1, o2);
    hide Batch, RunLedger, Play, EventsOf;
    var ev := EventsOf(map[], Cycle(cfg, o1));
    assert AllEvents([Cycle(cfg, o1)]) == [] + ev == ev;
  }

  /** What `first` and `second` are among all events of the run: the device's only ones. */
  lemma OnlyTwo(cfg: Settings, o1: seq<PollOutcome>, o2: seq<PollOutcome>, d: Id, first: Event, second: Event)
      returns (i: nat, j: nat)
    requires first in EventsOf(map[], Cycle(cfg, o1)) && second in EventsOf(RunLedger(cfg, [o1]), Cycle(cfg, o2))
    requires first.deviceID == d == second.deviceID
    ensures var events := AllEvents(TieSteps(cfg, o1, o2));
      && j < i < |events| && events[j] == first && events[i] == second
      && forall k :: 0 <= k < |events| && events[k].deviceID == d ==> k == i || k == j
  {
    TieEvents(cfg, o1, o2);
    EventsMirrorLedger(cfg, map[], o1);
    EventsMirrorLedger(cfg, RunLedger(cfg, [o1]), o2);
    var a, b := EventsOf(map[], Cycle(cfg, o1)), EventsOf(RunLedger(cfg, [o1]), Cycle(cfg, o2));
    hide Batch, RunLedger, Mirrors, AllEvents;
    DistinctByLess(a);
    DistinctByLess(b);
    j :| 0 <= j < |a| && a[j] == first;
    var m :| 0 <= m < |b| && b[m] == second;
    i := |a| + m;
    forall k | 0 <= k < |a + b| && (a + b)[k].deviceID == d ensures k == i || k == j {
      if k < |a| { assert a[k].deviceID == a[j].deviceID; } else { assert b[k - |a|].deviceID == b[m].deviceID; }
    }
  }

  /** Published in full, these events meet a delivery run that settles with the table showing the device as
      unknown while the ledger has it critical. */
  lemma TieReachesTable(cfg: Settings, o1: seq<PollOutcome>, o2: seq<PollOutcome>, u: Id, d: Id, i: nat,
                        site: string, os: seq<Origin>, ids: seq<C.EventId>) returns (delivery: seq<Step>)
    requires Pair(cfg, u, d) && Fails(o1, u) && Fails(o1, d) && OnlyAnswer(o2, u) && Loaded(cfg)
    requires i < |o1| && o1[i].deviceID == d && o1[i].observedAt > 0
    requires var events := AllEvents(TieSteps(cfg, o1, o2));
      && |os| == |events| == |ids| && OriginsOk(site, events, os)
      && DistinctEventIds(StreamMessages(events, os, ids))
    ensures var s := Run(0, delivery);
      && Settled(s) && s.c.enqueued == StreamMessages(AllEvents(TieSteps(cfg, o1, o2)), os, ids)
      && C.Key(site, d) in s.r.tables.healthCurrent
      && s.r.tables.healthCurrent[C.Key(site, d)].health.state == StateName(Unknown)
    ensures var l := Play(TieSteps(cfg, o1, o2)).ledger;
      d in l && IsCriticalEntry(l[d])
  {
    var first, second := UnpolledDeviceTies(cfg, o1, o2, u, d, i);
    var m, j := OnlyTwo(cfg, o1, o2, d, first, second);
    var events := AllEvents(TieSteps(cfg, o1, o2));
    TieLoaded(cfg, o1, o2);
    hide *;
    AllEventsNamed(TieSteps(cfg, o1, o2));
    OriginsAcceptable(site, events, os);
    delivery := TableShows(site, events, os, ids, m, j);
  }

  lemma TieLoaded(cfg: Settings, o1: seq<PollOutcome>, o2: seq<PollOutcome>)
    requires Loaded(cfg)
    ensures AllLoaded(TieSteps(cfg, o1, o2))
  {
  }

  lemma TableShows(site: string, events: seq<Event>, os: seq<Origin>, ids: seq<C.EventId>, i: nat, j: nat)
      returns (delivery: seq<Step>)
    requires |os| == |events| == |ids| && AllAcceptable(site, events, os) && j < i < |events|
    requires events[i].deviceID == events[j].deviceID && events[i].observedAt <= events[j].observedAt
    requires forall k :: 0 <= k < |events| && events[k].deviceID == events[j].deviceID ==> k == i || k == j
    requires DistinctEventIds(StreamMessages(events, os, ids))
    ensures var s, k := Run(0, delivery), C.Key(site, events[j].deviceID);
      && Settled(s) && s.c.enqueued == StreamMessages(events, os, ids)
      && k in s.r.tables.healthCurrent && s.r.tables.healthCurrent[k].health.state == StateName(events[j].state)
  {
    var ms := StreamMessages(events, os, ids);
    StreamMessageAt(events, os, ids, j);
    delivery := RetrySteps(ms, j);
    hide *;
    AcceptableAt(site, events, os, j);
    AcceptableMessage(site, events[j], os[j], ids[j]);
    forall q | 0 <= q < |ms|
      ensures ms[q].topic != "" && (SameDevice(ms[q], ms[j]) ==> TimeOf(ms[q]) <= TimeOf(ms[j]))
    {
      StreamMessageAt(events, os, ids, q);
      AcceptableAt(site, events, os, q);
      AcceptableMessage(site, events[q], os[q], ids[q]);
      TopicNamed(site, events[q].deviceID);
      SameKeys(ms[q], ms[j]);
    }
    AllTopical(ms);
    RetryShowsRetried(ms, j);
    BodyState(events[j]);
  }

  lemma SameKeys(a: C.Message, b: C.Message)
    ensures SameDevice(a, b) <==> IsHealth(a) && IsHealth(b) && KeyOf(a) == KeyOf(b)
  {
  }

  lemma AllTopical(ms: seq<C.Message>)
    requires forall q :: 0 <= q < |ms| ==> ms[q].topic != ""
    ensures Topical(ms)
  {
  }

  lemma TopicNamed(site: string, id: Id)
    ensures C.Topic(C.HealthV2, site, id) != ""
  {
  }

  lemma BodyState(e: Event)
    ensures BodyOf(e).state == StateName(e.state)
  {
  }
}
