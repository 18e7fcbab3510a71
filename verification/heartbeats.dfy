/** What the collector status table holds once everything that was accepted has been delivered. */
module Heartbeats {
  import opened Ids
  import opened Contract
  import opened Ingestion
  import opened Outbox
  import opened Delivery
  import opened Convergence

  predicate IsHeartbeat(m: Message) {
    Validate(m).HeartbeatEvent?
  }

  predicate SameCollector(a: Message, b: Message) {
    IsHeartbeat(a) && IsHeartbeat(b) && Validate(a).collector == Validate(b).collector
  }

  function BeatOf(m: Message): StatusRow
    requires IsHeartbeat(m)
  {
    StatusRow(Validate(m).eventID, Validate(m).observedAt, Validate(m).heartbeat)
  }

  function BeatTime(m: Message): Time
    requires IsHeartbeat(m)
  {
    Validate(m).observedAt
  }

  predicate BeatFrom(ms: seq<Message>, k: Key, row: StatusRow, i: nat) {
    i < |ms| && IsHeartbeat(ms[i]) && Validate(ms[i]).collector == k && BeatOf(ms[i]) == row
  }

  ghost predicate AllFrom(ms: seq<Message>, t: Tables) {
    forall k :: k in t.statusCurrent ==> exists i: nat :: BeatFrom(ms, k, t.statusCurrent[k], i)
  }

  predicate BeatCovered(t: Tables, m: Message)
    requires IsHeartbeat(m)
  {
    var k := Validate(m).collector;
    k in t.statusCurrent && BeatTime(m) <= t.statusCurrent[k].observedAt
  }

  predicate BeatsCovered(ms: seq<Message>, r: Receiver) {
    forall i :: 0 <= i < |ms| && IsHeartbeat(ms[i]) && TookEffect(r, ms[i]) ==> BeatCovered(r.tables, ms[i])
  }

  ghost predicate StatusOk(s: System) {
    AllFrom(s.c.enqueued, s.r.tables) && (DistinctEventIds(s.c.enqueued) ==> BeatsCovered(s.c.enqueued, s.r))
  }

  lemma HandleStatus(t: Tables, m: Message, down: bool)
    ensures var h := Handle(t, m, down);
      h.tables.statusCurrent ==
        if h.inserted && IsHeartbeat(m) then UpsertStatus(t.statusCurrent, Validate(m).collector, BeatOf(m))
        else t.statusCurrent
  {
    hide Validate, UpsertStatus;
  }

  lemma UpsertBeats(ms: seq<Message>, r: Receiver, r': Receiver, n: nat, inserted: bool)
    requires AllFrom(ms, r.tables) && n < |ms|
    requires r'.tables.statusCurrent ==
      if inserted && IsHeartbeat(ms[n])
      then UpsertStatus(r.tables.statusCurrent, Validate(ms[n]).collector, BeatOf(ms[n]))
      else r.tables.statusCurrent
    ensures AllFrom(ms, r'.tables)
  {
    hide Validate;
    var t, t' := r.tables, r'.tables;
    forall k | k in t'.statusCurrent ensures exists i: nat :: BeatFrom(ms, k, t'.statusCurrent[k], i) {
      if k in t.statusCurrent && t'.statusCurrent[k] == t.statusCurrent[k] {
      } else {
        assert BeatFrom(ms, k, t'.statusCurrent[k], n);
      }
    }
  }

  lemma UpsertBeatsCovered(ms: seq<Message>, r: Receiver, r': Receiver, n: nat, inserted: bool)
    requires DistinctEventIds(ms) && BeatsCovered(ms, r) && n < |ms|
    requires r'.tables.statusCurrent ==
      if inserted && IsHeartbeat(ms[n])
      then UpsertStatus(r.tables.statusCurrent, Validate(ms[n]).collector, BeatOf(ms[n]))
      else r.tables.statusCurrent
    requires inserted ==> !Validate(ms[n]).Rejected?
    requires r'.effects == if inserted then r.effects + multiset{EventIdOf(ms[n])} else r.effects
    ensures BeatsCovered(ms, r')
  {
    hide Validate;
    forall i | 0 <= i < |ms| && IsHeartbeat(ms[i]) && TookEffect(r', ms[i]) ensures BeatCovered(r'.tables, ms[i]) {
      if i != n || !inserted {
        assert TookEffect(r, ms[i]);
      }
    }
  }

  lemma BeatsGrow(s: System, c': Collector)
    requires StatusOk(s) && EffectsKnown(s.c.enqueued, s.r) && s.c.enqueued <= c'.enqueued
    ensures StatusOk(System(c', s.r))
  {
    hide Validate;
    var ms, ms' := s.c.enqueued, c'.enqueued;
    forall k | k in s.r.tables.statusCurrent ensures exists i: nat :: BeatFrom(ms', k, s.r.tables.statusCurrent[k], i) {
      var i: nat :| BeatFrom(ms, k, s.r.tables.statusCurrent[k], i);
      assert BeatFrom(ms', k, s.r.tables.statusCurrent[k], i);
    }
    if DistinctEventIds(ms') {
      DistinctPrefix(ms, ms');
      BeatsCoveredGrow(ms, ms', s.r);
    }
  }

  lemma BeatsCoveredGrow(ms: seq<Message>, ms': seq<Message>, r: Receiver)
    requires ms <= ms' && DistinctEventIds(ms') && BeatsCovered(ms, r) && EffectsKnown(ms, r)
    ensures BeatsCovered(ms', r)
  {
    hide Validate;
    forall i | 0 <= i < |ms'| && IsHeartbeat(ms'[i]) && TookEffect(r, ms'[i]) ensures BeatCovered(r.tables, ms'[i]) {
      assert EventIdOf(ms'[i]) in r.effects;
      var j: nat :| HasEvent(ms, j, EventIdOf(ms'[i]));
      assert ms'[j] == ms[j];
      assert i == j;
    }
  }

  lemma DeliverKeepsStatus(s: System, p: nat, down: bool, ackLost: bool)
    requires SystemOk(s) && StatusOk(s) && Deliverable(s.c, s.r, p)
    ensures StatusOk(System(s.c, Receive(s.r, p, s.c.arrived[p].message, down, ackLost)))
  {
    ArrivalIsAccepted(s.c, p);
    var n, ms := s.c.arrived[p].id, s.c.enqueued;
    var h := Handle(s.r.tables, ms[n], down);
    var r' := Receive(s.r, p, ms[n], down, ackLost);
    HandleFacts(s.r.tables, ms[n], down);
    HandleStatus(s.r.tables, ms[n], down);
    hide Validate, Handle, UpsertStatus, BeatsCovered, AllFrom, SystemOk, Deliverable, DistinctEventIds;
    UpsertBeats(ms, s.r, r', n, h.inserted);
    if DistinctEventIds(ms) {
      UpsertBeatsCovered(ms, s.r, r', n, h.inserted);
    }
  }

  lemma PruneKeepsStatus(s: System, step: Step)
    requires StatusOk(s) && step.Prune?
    ensures StatusOk(System(s.c, ReceiverStep(s.c, s.r, step)))
  {
    hide Validate;
    var r' := ReceiverStep(s.c, s.r, step);
    if DistinctEventIds(s.c.enqueued) {
      var ms := s.c.enqueued;
      forall i | 0 <= i < |ms| && IsHeartbeat(ms[i]) && TookEffect(r', ms[i]) ensures BeatCovered(r'.tables, ms[i]) {
        assert TookEffect(s.r, ms[i]);
      }
    }
  }

  lemma StatusStep(s: System, step: Step)
    requires SystemOk(s) && HistoryOk(s) && StatusOk(s)
    ensures StatusOk(Take(s, step))
  {
    hide *;
    TakeParts(s, step);
    HistoryStep(s, step);
    var mid := System(s.c, ReceiverStep(s.c, s.r, step));
    match step {
      case Deliver(p, down, ackLost) =>
        if Deliverable(s.c, s.r, p) {
          DeliverKeepsStatus(s, p, down, ackLost);
          DeliverKeepsHistory(s, p, down, ackLost);
        }
      case Prune(_, _, _) =>
        PruneKeepsStatus(s, step);
        PruneKeepsHistory(s, step);
      case _ =>
    }
    KnownOf(mid);
    ArrivedGrows(s.c, step);
    BeatsGrow(mid, CollectorStep(s.c, step));
  }

  lemma KnownOf(s: System)
    requires HistoryOk(s)
    ensures EffectsKnown(s.c.enqueued, s.r)
  {
  }

  lemma {:induction false} RunStatus(max: int, steps: seq<Step>)
    ensures StatusOk(Run(max, steps))
  {
    if steps == [] {
      hide Validate;
    } else {
      var n := |steps| - 1;
      RunStatus(max, steps[..n]);
      RunOk(max, steps[..n]);
      RunHistory(max, steps[..n]);
      hide StatusOk, SystemOk, HistoryOk, Take;
      StatusStep(Run(max, steps[..n]), steps[n]);
    }
  }

  predicate NewestBeat(ms: seq<Message>, i: nat)
    requires i < |ms| && IsHeartbeat(ms[i])
  {
    forall j :: 0 <= j < |ms| && j != i && SameCollector(ms[j], ms[i]) ==> BeatTime(ms[j]) < BeatTime(ms[i])
  }

  lemma NewestBeatWins(s: System, i: nat)
    requires SystemOk(s) && StatusOk(s) && Settled(s) && DistinctEventIds(s.c.enqueued)
    requires i < |s.c.enqueued| && IsHeartbeat(s.c.enqueued[i])
    ensures var ms, current := s.c.enqueued, s.r.tables.statusCurrent;
      var k := Validate(ms[i]).collector;
      && k in current && BeatTime(ms[i]) <= current[k].observedAt
      && (NewestBeat(ms, i) ==> current[k] == BeatOf(ms[i]))
  {
    hide Validate, SystemOk, Settled;
    var ms, k := s.c.enqueued, Validate(s.c.enqueued[i]).collector;
    SettledEffected(s, i);
    assert BeatCovered(s.r.tables, ms[i]);
    var row := s.r.tables.statusCurrent[k];
    var j: nat :| BeatFrom(ms, k, row, j);
    assert SameCollector(ms[j], ms[i]);
    assert BeatTime(ms[j]) == row.observedAt;
  }

  /** Whatever is delivered in whatever order, repeated, failed, lost on the way or pruned: once all is settled,
      each collector that sent a heartbeat shows one of its own, none older than any it sent, and exactly the
      newest when that is strictly newer than its others. */
  lemma StatusConverges(max: int, steps: seq<Step>)
    requires Settled(Run(max, steps)) && DistinctEventIds(Run(max, steps).c.enqueued)
    ensures var s := Run(max, steps);
      var ms, current := s.c.enqueued, s.r.tables.statusCurrent;
      && (forall k :: k in current ==> exists i: nat :: BeatFrom(ms, k, current[k], i))
      && forall i :: 0 <= i < |ms| && IsHeartbeat(ms[i]) ==> BeatShown(ms, current, i)
  {
    var s := Run(max, steps);
    RunOk(max, steps);
    RunStatus(max, steps);
    hide Run, Settled, SystemOk, Validate, DistinctEventIds, BeatsCovered;
    forall i | 0 <= i < |s.c.enqueued| && IsHeartbeat(s.c.enqueued[i])
      ensures BeatShown(s.c.enqueued, s.r.tables.statusCurrent, i)
    {
      NewestBeatWins(s, i);
    }
  }

  predicate BeatShown(ms: seq<Message>, current: map<Key, StatusRow>, i: nat)
    requires i < |ms| && IsHeartbeat(ms[i])
  {
    var k := Validate(ms[i]).collector;
    && k in current && BeatTime(ms[i]) <= current[k].observedAt
    && (NewestBeat(ms, i) ==> current[k] == BeatOf(ms[i]))
  }
}
