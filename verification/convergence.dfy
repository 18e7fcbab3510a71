/** What the current-health table holds once everything that was accepted has been delivered. */
module Convergence {
  import opened Ids
  import opened Contract
  import opened Ingestion
  import opened Outbox
  import opened Delivery

  predicate IsHealth(m: Message) {
    Validate(m).HealthEvent?
  }

  predicate ForDevice(m: Message, k: Key) {
    Validate(m).HealthEvent? && Validate(m).device == k
  }

  function RowOf(m: Message): HealthRow
    requires IsHealth(m)
  {
    HealthRow(Validate(m).eventID, Validate(m).observedAt, Validate(m).health)
  }

  function TimeOf(m: Message): Time
    requires IsHealth(m)
  {
    Validate(m).observedAt
  }

  function KeyOf(m: Message): Key
    requires IsHealth(m)
  {
    Validate(m).device
  }

  /** The last accepted health event of each device. */
  function LastRows(ms: seq<Message>): map<Key, HealthRow> {
    if ms == [] then map[]
    else
      var init, m := LastRows(ms[..|ms| - 1]), ms[|ms| - 1];
      if IsHealth(m) then init[KeyOf(m) := RowOf(m)] else init
  }

  /** Accepted messages that pass validation carry distinct event ids. */
  predicate DistinctEventIds(ms: seq<Message>) {
    forall i, j :: 0 <= i < j < |ms| && !Validate(ms[i]).Rejected? && !Validate(ms[j]).Rejected? ==>
      EventIdOf(ms[i]) != EventIdOf(ms[j])
  }

  predicate SameDevice(a: Message, b: Message) {
    IsHealth(a) && IsHealth(b) && KeyOf(a) == KeyOf(b)
  }

  predicate TimesNeverDecrease(ms: seq<Message>) {
    forall i, j :: 0 <= i < j < |ms| && SameDevice(ms[i], ms[j]) ==> TimeOf(ms[i]) <= TimeOf(ms[j])
  }

  predicate TimesDistinct(ms: seq<Message>) {
    forall i, j :: 0 <= i < j < |ms| && SameDevice(ms[i], ms[j]) ==> TimeOf(ms[i]) != TimeOf(ms[j])
  }

  /** A device's health events share one topic, as the collector's printer makes them. */
  predicate OneTopicPerDevice(ms: seq<Message>) {
    forall i, j :: 0 <= i < j < |ms| && SameDevice(ms[i], ms[j]) ==> ms[i].topic == ms[j].topic
  }

  /** Nothing is pending, and every arrival was delivered and acknowledged. */
  predicate Settled(s: System) {
    s.c.outbox == [] && s.r.unacked == {} && forall p: nat :: p < |s.c.arrived| ==> p in s.r.delivered
  }

  // ---- In every run: the table holds a newest among the events that took effect ----

  predicate RowFrom(ms: seq<Message>, k: Key, row: HealthRow, i: nat) {
    i < |ms| && ForDevice(ms[i], k) && RowOf(ms[i]) == row
  }

  ghost predicate FromAccepted(ms: seq<Message>, t: Tables) {
    forall k :: k in t.healthCurrent ==> exists i: nat :: RowFrom(ms, k, t.healthCurrent[k], i)
  }

  predicate CoveredBy(t: Tables, m: Message)
    requires IsHealth(m)
  {
    KeyOf(m) in t.healthCurrent && TimeOf(m) <= t.healthCurrent[KeyOf(m)].observedAt
  }

  predicate TookEffect(r: Receiver, m: Message) {
    !Validate(m).Rejected? && r.effects[EventIdOf(m)] > 0
  }

  predicate Covers(ms: seq<Message>, r: Receiver) {
    forall i :: 0 <= i < |ms| && IsHealth(ms[i]) && TookEffect(r, ms[i]) ==> CoveredBy(r.tables, ms[i])
  }

  ghost predicate CurrentOk(s: System) {
    FromAccepted(s.c.enqueued, s.r.tables) && (DistinctEventIds(s.c.enqueued) ==> Covers(s.c.enqueued, s.r))
  }

  /** What one message does to the current-health table. */
  lemma HandleCurrent(t: Tables, m: Message, down: bool)
    ensures var h := Handle(t, m, down);
      h.tables.healthCurrent ==
        if h.inserted && IsHealth(m) then UpsertHealth(t.healthCurrent, KeyOf(m), RowOf(m)) else t.healthCurrent
  {
    hide Validate, UpsertHealth;
  }

  lemma EnqueuedGrows(s: System, step: Step)
    ensures s.c.enqueued <= Take(s, step).c.enqueued
  {
    hide *;
    TakeParts(s, step);
    ArrivedGrows(s.c, step);
  }

  lemma RowFromGrows(ms: seq<Message>, ms': seq<Message>, k: Key, row: HealthRow)
    requires ms <= ms' && exists i: nat :: RowFrom(ms, k, row, i)
    ensures exists i: nat :: RowFrom(ms', k, row, i)
  {
    hide Validate;
    var i: nat :| RowFrom(ms, k, row, i);
    assert ms'[i] == ms[i];
    assert RowFrom(ms', k, row, i);
  }

  /** Growing the history: new messages have not taken effect, for their ids are new. */
  ghost predicate EffectsKnown(ms: seq<Message>, r: Receiver) {
    forall e :: e in r.effects ==> exists i: nat :: HasEvent(ms, i, e)
  }

  predicate HasEvent(ms: seq<Message>, i: nat, e: EventId) {
    i < |ms| && !Validate(ms[i]).Rejected? && EventIdOf(ms[i]) == e
  }

  lemma CoversGrows(ms: seq<Message>, ms': seq<Message>, r: Receiver)
    requires ms <= ms' && DistinctEventIds(ms') && Covers(ms, r) && EffectsKnown(ms, r)
    ensures Covers(ms', r)
  {
    hide Validate;
    forall i | 0 <= i < |ms'| && IsHealth(ms'[i]) && TookEffect(r, ms'[i]) ensures CoveredBy(r.tables, ms'[i]) {
      assert EventIdOf(ms'[i]) in r.effects;
      var j: nat :| HasEvent(ms, j, EventIdOf(ms'[i]));
      assert ms'[j] == ms[j];
      assert i == j;
    }
  }

  lemma EffectsKnownGrows(ms: seq<Message>, ms': seq<Message>, r: Receiver)
    requires ms <= ms' && EffectsKnown(ms, r)
    ensures EffectsKnown(ms', r)
  {
    hide Validate;
    forall e | e in r.effects ensures exists i: nat :: HasEvent(ms', i, e) {
      var i: nat :| HasEvent(ms, i, e);
      assert ms'[i] == ms[i];
      assert HasEvent(ms', i, e);
    }
  }

  ghost predicate HistoryOk(s: System) {
    CurrentOk(s) && EffectsKnown(s.c.enqueued, s.r)
  }

  lemma UpsertCovers(ms: seq<Message>, r: Receiver, r': Receiver, n: nat, inserted: bool)
    requires DistinctEventIds(ms) && Covers(ms, r) && n < |ms|
    requires r'.tables.healthCurrent ==
      if inserted && IsHealth(ms[n]) then UpsertHealth(r.tables.healthCurrent, KeyOf(ms[n]), RowOf(ms[n]))
      else r.tables.healthCurrent
    requires inserted ==> !Validate(ms[n]).Rejected?
    requires r'.effects == if inserted then r.effects + multiset{EventIdOf(ms[n])} else r.effects
    ensures Covers(ms, r')
  {
    hide Validate;
    forall i | 0 <= i < |ms| && IsHealth(ms[i]) && TookEffect(r', ms[i]) ensures CoveredBy(r'.tables, ms[i]) {
      if i != n || !inserted {
        assert TookEffect(r, ms[i]);
      }
    }
  }

  lemma UpsertFrom(ms: seq<Message>, t: Tables, t': Tables, n: nat)
    requires FromAccepted(ms, t) && n < |ms|
    requires t'.healthCurrent ==
      if IsHealth(ms[n]) then UpsertHealth(t.healthCurrent, KeyOf(ms[n]), RowOf(ms[n])) else t.healthCurrent
    ensures FromAccepted(ms, t')
  {
    hide Validate;
    forall k | k in t'.healthCurrent ensures exists i: nat :: RowFrom(ms, k, t'.healthCurrent[k], i) {
      if k in t.healthCurrent && t'.healthCurrent[k] == t.healthCurrent[k] {
      } else {
        assert RowFrom(ms, k, t'.healthCurrent[k], n);
      }
    }
  }

  lemma EffectsKnownStep(ms: seq<Message>, r: Receiver, r': Receiver, n: nat)
    requires EffectsKnown(ms, r) && n < |ms| && !Validate(ms[n]).Rejected?
    requires r'.effects == r.effects + multiset{EventIdOf(ms[n])}
    ensures EffectsKnown(ms, r')
  {
    hide Validate;
    forall e | e in r'.effects ensures exists i: nat :: HasEvent(ms, i, e) {
      if e !in r.effects {
        assert e == EventIdOf(ms[n]);
        assert HasEvent(ms, n, e);
      }
    }
  }

  /** An arrival at a delivered position is the accepted message its row id names. */
  lemma ArrivalIsAccepted(c: Collector, p: nat)
    requires CollectorOk(c) && p < |c.arrived|
    ensures c.arrived[p].id < |c.enqueued| && c.arrived[p].message == c.enqueued[c.arrived[p].id]
  {
    assert IsGenuine(c.enqueued, c.arrived[p]);
  }

  lemma DeliverKeepsHistory(s: System, p: nat, down: bool, ackLost: bool)
    requires SystemOk(s) && HistoryOk(s) && Deliverable(s.c, s.r, p)
    ensures HistoryOk(System(s.c, Receive(s.r, p, s.c.arrived[p].message, down, ackLost)))
  {
    ArrivalIsAccepted(s.c, p);
    var n, ms := s.c.arrived[p].id, s.c.enqueued;
    var h := Handle(s.r.tables, ms[n], down);
    var r' := Receive(s.r, p, ms[n], down, ackLost);
    HandleFacts(s.r.tables, ms[n], down);
    HandleCurrent(s.r.tables, ms[n], down);
    hide Validate, Handle, UpsertHealth, Covers, FromAccepted, EffectsKnown, SystemOk, Deliverable, DistinctEventIds;
    if h.inserted {
      UpsertFrom(ms, s.r.tables, r'.tables, n);
      EffectsKnownStep(ms, s.r, r', n);
    }
    if DistinctEventIds(ms) {
      UpsertCovers(ms, s.r, r', n, h.inserted);
    }
  }

  lemma PruneKeepsHistory(s: System, step: Step)
    requires HistoryOk(s) && step.Prune?
    ensures HistoryOk(System(s.c, ReceiverStep(s.c, s.r, step)))
  {
    hide Validate;
    var r' := ReceiverStep(s.c, s.r, step);
    if DistinctEventIds(s.c.enqueued) {
      var ms := s.c.enqueued;
      forall i | 0 <= i < |ms| && IsHealth(ms[i]) && TookEffect(r', ms[i]) ensures CoveredBy(r'.tables, ms[i]) {
        assert TookEffect(s.r, ms[i]);
      }
    }
  }

  lemma HistoryGrows(s: System, c': Collector)
    requires HistoryOk(s) && s.c.enqueued <= c'.enqueued
    ensures HistoryOk(System(c', s.r))
  {
    hide Validate, Covers, EffectsKnown, RowFrom;
    EffectsKnownGrows(s.c.enqueued, c'.enqueued, s.r);
    forall k | k in s.r.tables.healthCurrent
      ensures exists i: nat :: RowFrom(c'.enqueued, k, s.r.tables.healthCurrent[k], i)
    {
      RowFromGrows(s.c.enqueued, c'.enqueued, k, s.r.tables.healthCurrent[k]);
    }
    if DistinctEventIds(c'.enqueued) {
      DistinctPrefix(s.c.enqueued, c'.enqueued);
      CoversGrows(s.c.enqueued, c'.enqueued, s.r);
    }
  }

  lemma DistinctPrefix(ms: seq<Message>, ms': seq<Message>)
    requires ms <= ms' && DistinctEventIds(ms')
    ensures DistinctEventIds(ms)
  {
    hide Validate;
    assert forall i :: 0 <= i < |ms| ==> ms'[i] == ms[i];
  }

  lemma HistoryStep(s: System, step: Step)
    requires SystemOk(s) && HistoryOk(s)
    ensures HistoryOk(Take(s, step))
  {
    hide *;
    TakeParts(s, step);
    var mid := System(s.c, ReceiverStep(s.c, s.r, step));
    match step {
      case Deliver(p, down, ackLost) => if Deliverable(s.c, s.r, p) { DeliverKeepsHistory(s, p, down, ackLost); }
      case Prune(_, _, _) => PruneKeepsHistory(s, step);
      case _ =>
    }
    ArrivedGrows(s.c, step);
    HistoryGrows(mid, CollectorStep(s.c, step));
  }

  lemma {:induction false} RunHistory(max: int, steps: seq<Step>)
    ensures HistoryOk(Run(max, steps))
  {
    if steps == [] {
      hide Validate;
    } else {
      RunHistory(max, steps[..|steps| - 1]);
      RunOk(max, steps[..|steps| - 1]);
      HistoryStep(Run(max, steps[..|steps| - 1]), steps[|steps| - 1]);
    }
  }

  lemma SettledEffected(s: System, i: nat)
    requires SystemOk(s) && Settled(s) && i < |s.c.enqueued|
    ensures Effected(s.r, s.c.enqueued[i])
  {
    hide Validate;
    NoLossAt(s, i);
  }

  /** The table and the last accepted events have the same devices once everything took effect. */
  lemma SettledKeys(s: System, k: Key)
    requires SystemOk(s) && HistoryOk(s) && Settled(s) && DistinctEventIds(s.c.enqueued)
    ensures k in s.r.tables.healthCurrent <==> k in LastRows(s.c.enqueued)
  {
    hide Validate, SystemOk, Settled;
    var ms, current := s.c.enqueued, s.r.tables.healthCurrent;
    if k in current {
      var i: nat :| RowFrom(ms, k, current[k], i);
      LastRowsHas(ms, i);
    }
    if k in LastRows(ms) {
      var i := LastIndex(ms, k);
      SettledEffected(s, i);
      assert CoveredBy(s.r.tables, ms[i]);
    }
  }

  lemma {:induction false} LastRowsHas(ms: seq<Message>, i: nat)
    requires i < |ms| && IsHealth(ms[i])
    ensures KeyOf(ms[i]) in LastRows(ms)
  {
    hide Validate;
    if i < |ms| - 1 {
      LastRowsHas(ms[..|ms| - 1], i);
    }
  }

  /** The position of a device's last accepted health event. */
  lemma {:induction false} LastIndex(ms: seq<Message>, k: Key) returns (i: nat)
    requires k in LastRows(ms)
    ensures i < |ms| && ForDevice(ms[i], k) && LastRows(ms)[k] == RowOf(ms[i])
    ensures forall j :: i < j < |ms| ==> !ForDevice(ms[j], k)
  {
    hide Validate;
    var n := |ms| - 1;
    if ForDevice(ms[n], k) {
      i := n;
    } else {
      i := LastIndex(ms[..n], k);
      forall j | i < j < |ms| ensures !ForDevice(ms[j], k) {
        if j < n { assert !ForDevice(ms[..n][j], k); }
      }
    }
  }

  /** Every delivery order, repetition, failure, crash and pruning leads to the same table: a device whose
      newest accepted event is newer than all its others shows that event. */
  lemma ConvergesToNewest(max: int, steps: seq<Step>)
    requires var s := Run(max, steps);
      Settled(s) && DistinctEventIds(s.c.enqueued)
    ensures var s := Run(max, steps);
      var ms, current := s.c.enqueued, s.r.tables.healthCurrent;
      && current.Keys == LastRows(ms).Keys
      && forall i :: 0 <= i < |ms| && IsHealth(ms[i]) && IsNewest(ms, i) ==>
        KeyOf(ms[i]) in current && current[KeyOf(ms[i])] == RowOf(ms[i])
  {
    var s := Run(max, steps);
    var ms, current := s.c.enqueued, s.r.tables.healthCurrent;
    RunOk(max, steps);
    RunHistory(max, steps);
    hide *;
    forall k ensures k in current <==> k in LastRows(ms) {
      SettledKeys(s, k);
    }
    forall i | 0 <= i < |ms| && IsHealth(ms[i]) && IsNewest(ms, i)
      ensures KeyOf(ms[i]) in current && current[KeyOf(ms[i])] == RowOf(ms[i])
    {
      NewestWins(s, i);
    }
  }

  predicate IsNewest(ms: seq<Message>, i: nat)
    requires i < |ms| && IsHealth(ms[i])
  {
    forall j :: 0 <= j < |ms| && j != i && SameDevice(ms[j], ms[i]) ==> TimeOf(ms[j]) < TimeOf(ms[i])
  }

  lemma NewestWins(s: System, i: nat)
    requires SystemOk(s) && HistoryOk(s) && Settled(s)
    requires DistinctEventIds(s.c.enqueued)
    requires i < |s.c.enqueued| && IsHealth(s.c.enqueued[i]) && IsNewest(s.c.enqueued, i)
    ensures var k := KeyOf(s.c.enqueued[i]);
      k in s.r.tables.healthCurrent && s.r.tables.healthCurrent[k] == RowOf(s.c.enqueued[i])
  {
    hide Validate, SystemOk, Settled;
    var ms, k := s.c.enqueued, KeyOf(s.c.enqueued[i]);
    SettledEffected(s, i);
    assert CoveredBy(s.r.tables, ms[i]);
    var row := s.r.tables.healthCurrent[k];
    var j: nat :| RowFrom(ms, k, row, j);
    assert SameDevice(ms[j], ms[i]) && SameDevice(ms[i], ms[j]);
    assert TimeOf(ms[j]) == row.observedAt;
  }

  /** The same when times increase: the newest event is the last one accepted. */
  lemma ConvergesToLastWhenIncreasing(max: int, steps: seq<Step>)
    requires var s := Run(max, steps);
      Settled(s) && DistinctEventIds(s.c.enqueued) && TimesDistinct(s.c.enqueued) && TimesNeverDecrease(s.c.enqueued)
    ensures var s := Run(max, steps);
      s.r.tables.healthCurrent == LastRows(s.c.enqueued)
  {
    var s := Run(max, steps);
    var ms, current := s.c.enqueued, s.r.tables.healthCurrent;
    ConvergesToNewest(max, steps);
    hide *;
    forall k | k in current ensures current[k] == LastRows(ms)[k] {
      var i := LastIndex(ms, k);
      LastIsNewest(ms, i, k);
    }
  }

  lemma LastIsNewest(ms: seq<Message>, i: nat, k: Key)
    requires TimesNeverDecrease(ms) && TimesDistinct(ms) && i < |ms| && ForDevice(ms[i], k)
    requires forall j :: i < j < |ms| ==> !ForDevice(ms[j], k)
    ensures IsHealth(ms[i]) && IsNewest(ms, i) && KeyOf(ms[i]) == k
  {
    hide Validate;
    forall j | 0 <= j < |ms| && j != i && SameDevice(ms[j], ms[i]) ensures TimeOf(ms[j]) < TimeOf(ms[i]) {
      assert ForDevice(ms[j], k);
      assert j < i;
    }
  }

  // ---- Runs without failed transactions and without pruning: order alone decides ----

  predicate Smooth(steps: seq<Step>) {
    forall i :: 0 <= i < |steps| ==> !steps[i].Prune? && (steps[i].Deliver? ==> !steps[i].down)
  }

  /** The table shows the last event that took effect. */
  predicate SupersededBy(ms: seq<Message>, r: Receiver, i: nat)
    requires i < |ms| && IsHealth(ms[i])
  {
    exists j :: i <= j < |ms| && ShownAs(ms, r, KeyOf(ms[i]), j)
  }

  predicate ShownAs(ms: seq<Message>, r: Receiver, k: Key, j: nat)
    requires j < |ms|
  {
    ForDevice(ms[j], k) && TookEffect(r, ms[j])
      && k in r.tables.healthCurrent && r.tables.healthCurrent[k] == RowOf(ms[j])
  }

  predicate LastShown(ms: seq<Message>, r: Receiver) {
    forall i :: 0 <= i < |ms| && IsHealth(ms[i]) && TookEffect(r, ms[i]) ==> SupersededBy(ms, r, i)
  }

  ghost predicate AllShown(ms: seq<Message>, r: Receiver) {
    forall k :: k in r.tables.healthCurrent ==> IsShown(ms, r, k)
  }

  ghost predicate IsShown(ms: seq<Message>, r: Receiver, k: Key) {
    exists j: nat :: j < |ms| && ShownAs(ms, r, k, j)
  }

  /** Without failures, history rows only exist for retained events, and every delivery takes effect. */
  predicate HistoryRetained(t: Tables) {
    t.healthHistory.Keys <= t.ingested.Keys && t.statusHistory.Keys <= t.ingested.Keys
  }

  predicate DeliveredEffected(c: Collector, r: Receiver) {
    forall p: nat :: p in r.delivered && p < |c.arrived| ==> Effected(r, c.arrived[p].message)
  }

  predicate WasDelivered(c: Collector, r: Receiver, i: nat) {
    exists p: nat :: p < |c.arrived| && p in r.delivered && c.arrived[p].id == i
  }

  predicate EffectsDelivered(c: Collector, r: Receiver) {
    forall i :: 0 <= i < |c.enqueued| && TookEffect(r, c.enqueued[i]) ==> WasDelivered(c, r, i)
  }

  ghost predicate SmoothOk(s: System) {
    && s.r.forgotten == multiset{}
    && HistoryRetained(s.r.tables)
    && DeliveredEffected(s.c, s.r)
    && EffectsDelivered(s.c, s.r)
    && LastShown(s.c.enqueued, s.r)
    && AllShown(s.c.enqueued, s.r)
  }

  ghost predicate OrderedHistory(ms: seq<Message>) {
    DistinctEventIds(ms) && TimesNeverDecrease(ms) && OneTopicPerDevice(ms)
  }

  lemma OrderedPrefix(ms: seq<Message>, ms': seq<Message>)
    requires ms <= ms' && OrderedHistory(ms')
    ensures OrderedHistory(ms)
  {
    hide Validate;
    assert forall i :: 0 <= i < |ms| ==> ms'[i] == ms[i];
  }

  /** A message not yet in effect is later than every event of its device that is. */
  lemma NewEffectIsLast(s: System, p: nat, j: nat)
    requires SystemOk(s) && SmoothOk(s) && OrderedHistory(s.c.enqueued) && Deliverable(s.c, s.r, p)
    requires var n := s.c.arrived[p].id;
      n < j < |s.c.enqueued| && SameDevice(s.c.enqueued[n], s.c.enqueued[j]) && TookEffect(s.r, s.c.enqueued[j])
    ensures TookEffect(s.r, s.c.enqueued[s.c.arrived[p].id])
  {
    hide Validate;
    var c, ms, n := s.c, s.c.enqueued, s.c.arrived[p].id;
    assert WasDelivered(c, s.r, j);
    var q: nat :| q < |c.arrived| && q in s.r.delivered && c.arrived[q].id == j;
    assert Preceded(c.arrived[..q], j) && HasId(c.arrived[..q], n);
    var q' :| 0 <= q' < q && c.arrived[..q][q'].id == n;
    ArrivalIsAccepted(c, q);
    ArrivalIsAccepted(c, q');
    assert TopicPrefix(c, s.r, q);
    assert q' in s.r.delivered;
    assert Effected(s.r, c.arrived[q'].message);
  }

  lemma HandleSmooth(t: Tables, m: Message)
    requires HistoryRetained(t)
    ensures var h := Handle(t, m, false);
      && h.ack && HistoryRetained(h.tables)
      && (!Validate(m).Rejected? ==> EventIdOf(m) in h.tables.ingested)
  {
    hide Validate, UpsertHealth, UpsertStatus;
  }

  // The parts of a delivery that the next lemmas share.
  ghost predicate Delivers(s: System, p: nat, r': Receiver, inserted: bool) {
    && Deliverable(s.c, s.r, p) && p < |s.c.arrived| && s.c.arrived[p].id < |s.c.enqueued|
    && (var m := s.c.enqueued[s.c.arrived[p].id];
        && r'.delivered == s.r.delivered + {p} && r'.forgotten == s.r.forgotten
        && (inserted ==> !Validate(m).Rejected? && EventIdOf(m) !in s.r.tables.ingested)
        && (!Validate(m).Rejected? ==> EventIdOf(m) in r'.tables.ingested)
        && r'.effects == (if inserted then s.r.effects + multiset{EventIdOf(m)} else s.r.effects)
        && HistoryRetained(r'.tables)
        && r'.tables.healthCurrent == (if inserted && IsHealth(m)
             then UpsertHealth(s.r.tables.healthCurrent, KeyOf(m), RowOf(m)) else s.r.tables.healthCurrent))
  }

  lemma ReceiveDelivers(s: System, p: nat, ackLost: bool)
    requires SystemOk(s) && HistoryRetained(s.r.tables) && Deliverable(s.c, s.r, p)
    ensures var m := s.c.arrived[p].message;
      Delivers(s, p, Receive(s.r, p, m, false, ackLost), Handle(s.r.tables, m, false).inserted)
  {
    var m := s.c.arrived[p].message;
    ArrivalIsAccepted(s.c, p);
    HandleFacts(s.r.tables, m, false);
    HandleCurrent(s.r.tables, m, false);
    HandleSmooth(s.r.tables, m);
    hide Validate, Handle, UpsertHealth, SystemOk, HistoryRetained, Deliverable;
  }

  lemma DeliveredStaysEffected(s: System, p: nat, r': Receiver, inserted: bool)
    requires SystemOk(s) && ReceiverOk(s.c, r') && DeliveredEffected(s.c, s.r) && Delivers(s, p, r', inserted)
    ensures DeliveredEffected(s.c, r')
  {
    ArrivalIsAccepted(s.c, p);
    hide Validate, UpsertHealth, Deliverable;
    forall q: nat | q in r'.delivered && q < |s.c.arrived| ensures Effected(r', s.c.arrived[q].message) {
      if q == p {
        if !Validate(s.c.arrived[p].message).Rejected? {
          assert AccountedFor(r', EventIdOf(s.c.arrived[p].message));
        }
      } else {
        assert Effected(s.r, s.c.arrived[q].message);
      }
    }
  }

  /** Only the delivered message can be new among those in effect. */
  lemma OnlyNewEffect(s: System, p: nat, r': Receiver, inserted: bool, i: nat)
    requires Delivers(s, p, r', inserted) && DistinctEventIds(s.c.enqueued)
    requires i < |s.c.enqueued| && TookEffect(r', s.c.enqueued[i])
    ensures TookEffect(s.r, s.c.enqueued[i]) || (inserted && i == s.c.arrived[p].id)
  {
    hide Validate, UpsertHealth, Deliverable, HistoryRetained;
    var ms, n := s.c.enqueued, s.c.arrived[p].id;
    if inserted && i != n {
      assert EventIdOf(ms[i]) != EventIdOf(ms[n]);
    }
  }

  lemma EffectsStayDelivered(s: System, p: nat, r': Receiver, inserted: bool)
    requires EffectsDelivered(s.c, s.r) && Delivers(s, p, r', inserted) && DistinctEventIds(s.c.enqueued)
    ensures EffectsDelivered(s.c, r')
  {
    hide Validate, UpsertHealth, DistinctEventIds;
    forall i | 0 <= i < |s.c.enqueued| && TookEffect(r', s.c.enqueued[i]) ensures WasDelivered(s.c, r', i) {
      OnlyNewEffect(s, p, r', inserted, i);
      if TookEffect(s.r, s.c.enqueued[i]) {
        var q: nat :| q < |s.c.arrived| && q in s.r.delivered && s.c.arrived[q].id == i;
        assert q in r'.delivered;
      } else {
        assert p in r'.delivered;
      }
    }
  }

  /** A newly effective health event replaces its device's row. */
  lemma NewEffectShown(s: System, p: nat, r': Receiver)
    requires SystemOk(s) && SmoothOk(s) && OrderedHistory(s.c.enqueued) && Delivers(s, p, r', true)
    requires IsHealth(s.c.enqueued[s.c.arrived[p].id])
    ensures var n := s.c.arrived[p].id;
      ShownAs(s.c.enqueued, r', KeyOf(s.c.enqueued[n]), n) && !TookEffect(s.r, s.c.enqueued[n])
  {
    var ms, n := s.c.enqueued, s.c.arrived[p].id;
    NotYetEffected(s, p, r');
    if KeyOf(ms[n]) in s.r.tables.healthCurrent {
      ShownIsOlder(s, p);
    }
    hide Validate, Deliverable, SystemOk, SmoothOk, OrderedHistory, HistoryRetained;
  }

  lemma NotYetEffected(s: System, p: nat, r': Receiver)
    requires SystemOk(s) && SmoothOk(s) && Delivers(s, p, r', true)
    ensures !TookEffect(s.r, s.c.enqueued[s.c.arrived[p].id])
  {
    hide Validate, Deliverable, CollectorOk, HistoryRetained, DeliveredEffected, EffectsDelivered, LastShown, AllShown;
    assert AccountedFor(s.r, EventIdOf(s.c.enqueued[s.c.arrived[p].id]));
  }

  /** The row a device shows is no newer than an event that has not taken effect yet. */
  lemma ShownIsOlder(s: System, p: nat)
    requires SystemOk(s) && SmoothOk(s) && OrderedHistory(s.c.enqueued) && Deliverable(s.c, s.r, p)
    requires p < |s.c.arrived| && s.c.arrived[p].id < |s.c.enqueued| && IsHealth(s.c.enqueued[s.c.arrived[p].id])
    requires KeyOf(s.c.enqueued[s.c.arrived[p].id]) in s.r.tables.healthCurrent
    requires !TookEffect(s.r, s.c.enqueued[s.c.arrived[p].id])
    ensures var m := s.c.enqueued[s.c.arrived[p].id];
      s.r.tables.healthCurrent[KeyOf(m)].observedAt <= TimeOf(m)
  {
    hide Validate, Deliverable, SystemOk, HistoryRetained, DeliveredEffected, EffectsDelivered, LastShown,
      DistinctEventIds, OneTopicPerDevice;
    var ms, n := s.c.enqueued, s.c.arrived[p].id;
    var k := KeyOf(ms[n]);
    assert IsShown(ms, s.r, k);
    var j: nat :| j < |ms| && ShownAs(ms, s.r, k, j);
    assert SameDevice(ms[n], ms[j]) && SameDevice(ms[j], ms[n]);
    if n < j {
      NewEffectIsLast(s, p, j);
    }
    assert TimeOf(ms[j]) == s.r.tables.healthCurrent[k].observedAt;
  }

  lemma ShownKept(s: System, p: nat, r': Receiver, inserted: bool, k: Key, j: nat)
    requires Delivers(s, p, r', inserted) && j < |s.c.enqueued| && ShownAs(s.c.enqueued, s.r, k, j)
    requires inserted ==> !ForDevice(s.c.enqueued[s.c.arrived[p].id], k)
    ensures ShownAs(s.c.enqueued, r', k, j)
  {
    hide Validate, Deliverable;
  }

  lemma LastShownKept(s: System, p: nat, r': Receiver, inserted: bool)
    requires SystemOk(s) && SmoothOk(s) && OrderedHistory(s.c.enqueued) && Delivers(s, p, r', inserted)
    ensures LastShown(s.c.enqueued, r')
  {
    hide Validate, Deliverable, SystemOk, EffectsDelivered, DeliveredEffected, HistoryRetained;
    hide TookEffect, DistinctEventIds, TimesNeverDecrease, OneTopicPerDevice, ShownAs;
    var ms, n := s.c.enqueued, s.c.arrived[p].id;
    forall i | 0 <= i < |ms| && IsHealth(ms[i]) && TookEffect(r', ms[i]) ensures SupersededBy(ms, r', i) {
      OneSuperseded(s, p, r', inserted, i);
    }
  }

  lemma OneSuperseded(s: System, p: nat, r': Receiver, inserted: bool, i: nat)
    requires SystemOk(s) && SmoothOk(s) && OrderedHistory(s.c.enqueued) && Delivers(s, p, r', inserted)
    requires i < |s.c.enqueued| && IsHealth(s.c.enqueued[i]) && TookEffect(r', s.c.enqueued[i])
    ensures SupersededBy(s.c.enqueued, r', i)
  {
    hide Validate, Deliverable, SystemOk, EffectsDelivered, DeliveredEffected, HistoryRetained, UpsertHealth;
    hide TookEffect, DistinctEventIds, TimesNeverDecrease, OneTopicPerDevice, ShownAs, AllShown;
    var ms, n := s.c.enqueued, s.c.arrived[p].id;
    var k := KeyOf(ms[i]);
    OnlyNewEffect(s, p, r', inserted, i);
    if inserted && ForDevice(ms[n], k) {
      NewEffectShown(s, p, r');
      if i > n {
        NewEffectIsLast(s, p, i);
      }
      assert ShownAs(ms, r', k, n);
    } else {
      assert SupersededBy(ms, s.r, i);
      var j :| i <= j < |ms| && ShownAs(ms, s.r, k, j);
      ShownKept(s, p, r', inserted, k, j);
    }
  }

  lemma AllShownKept(s: System, p: nat, r': Receiver, inserted: bool)
    requires SystemOk(s) && SmoothOk(s) && OrderedHistory(s.c.enqueued) && Delivers(s, p, r', inserted)
    ensures AllShown(s.c.enqueued, r')
  {
    hide Validate, Deliverable, SystemOk, EffectsDelivered, DeliveredEffected, HistoryRetained;
    hide TookEffect, DistinctEventIds, TimesNeverDecrease, OneTopicPerDevice, ShownAs, LastShown;
    var ms, n := s.c.enqueued, s.c.arrived[p].id;
    forall k | k in r'.tables.healthCurrent ensures IsShown(ms, r', k) {
      if inserted && ForDevice(ms[n], k) {
        NewEffectShown(s, p, r');
        assert ShownAs(ms, r', k, n);
      } else {
        assert IsShown(ms, s.r, k);
        var j: nat :| j < |ms| && ShownAs(ms, s.r, k, j);
        ShownKept(s, p, r', inserted, k, j);
      }
    }
  }

  lemma DeliverKeepsSmooth(s: System, p: nat, ackLost: bool)
    requires SystemOk(s) && SmoothOk(s) && OrderedHistory(s.c.enqueued) && Deliverable(s.c, s.r, p)
    ensures SmoothOk(System(s.c, Receive(s.r, p, s.c.arrived[p].message, false, ackLost)))
  {
    hide *;
    TakeParts(s, Deliver(p, false, ackLost));
    SmoothParts(s.c, s.r);
    SystemParts(s.c, s.r);
    OrderedDistinct(s.c.enqueued);
    var m := s.c.arrived[p].message;
    var r', inserted := Receive(s.r, p, m, false, ackLost), Handle(s.r.tables, m, false).inserted;
    ReceiveDelivers(s, p, ackLost);
    ReceiveKeeps(s.c, s.r, p, false, ackLost);
    DeliveredStaysEffected(s, p, r', inserted);
    EffectsStayDelivered(s, p, r', inserted);
    LastShownKept(s, p, r', inserted);
    AllShownKept(s, p, r', inserted);
    DeliversRetains(s, p, r', inserted);
    SmoothParts(s.c, r');
  }

  lemma SmoothParts(c: Collector, r: Receiver)
    ensures var shown := LastShown(c.enqueued, r) && AllShown(c.enqueued, r);
      var effects := DeliveredEffected(c, r) && EffectsDelivered(c, r);
      SmoothOk(System(c, r)) <==> r.forgotten == multiset{} && HistoryRetained(r.tables) && effects && shown
  {
    hide HistoryRetained, DeliveredEffected, EffectsDelivered, LastShown, AllShown;
  }

  lemma OrderedDistinct(ms: seq<Message>)
    requires OrderedHistory(ms)
    ensures DistinctEventIds(ms)
  {
    hide DistinctEventIds;
  }

  lemma DeliversRetains(s: System, p: nat, r': Receiver, inserted: bool)
    requires Delivers(s, p, r', inserted)
    ensures r'.forgotten == s.r.forgotten && HistoryRetained(r'.tables)
  {
    hide Validate, Deliverable, HistoryRetained;
  }

  /** New messages and arrivals change nothing for what already took effect. */
  lemma CollectorKeepsSmooth(s: System, c': Collector)
    requires SystemOk(s) && SmoothOk(s) && HistoryOk(s) && DistinctEventIds(c'.enqueued)
    requires s.c.enqueued <= c'.enqueued && s.c.arrived <= c'.arrived
    ensures SmoothOk(System(c', s.r))
  {
    hide Validate, SystemOk, HistoryRetained;
    hide TookEffect, ShownAs, SupersededBy, WasDelivered, IsShown;
    var ms, ms' := s.c.enqueued, c'.enqueued;
    DeliveredGrows(s, c');
    forall i | 0 <= i < |ms'| && TookEffect(s.r, ms'[i])
      ensures i < |ms| && WasDelivered(c', s.r, i)
    {
      EffectIsOld(s, c', i);
      assert TookEffect(s.r, ms[i]);
      WasDeliveredGrows(s, c', i);
    }
    forall i | 0 <= i < |ms'| && IsHealth(ms'[i]) && TookEffect(s.r, ms'[i]) ensures SupersededBy(ms', s.r, i) {
      assert TookEffect(s.r, ms[i]) && SupersededBy(ms, s.r, i);
      SupersededGrows(ms, ms', s.r, i);
    }
    forall k | k in s.r.tables.healthCurrent ensures IsShown(ms', s.r, k) {
      assert IsShown(ms, s.r, k);
      ShownGrows(ms, ms', s.r, k);
    }
  }

  lemma DeliveredGrows(s: System, c': Collector)
    requires SystemOk(s) && DeliveredEffected(s.c, s.r) && s.c.arrived <= c'.arrived
    ensures DeliveredEffected(c', s.r)
  {
    hide Validate, Effected;
    forall p: nat | p in s.r.delivered && p < |c'.arrived| ensures Effected(s.r, c'.arrived[p].message) {
      assert c'.arrived[p] == s.c.arrived[p];
      assert Effected(s.r, s.c.arrived[p].message);
    }
  }

  lemma EffectIsOld(s: System, c': Collector, i: nat)
    requires HistoryOk(s) && DistinctEventIds(c'.enqueued) && s.c.enqueued <= c'.enqueued
    requires i < |c'.enqueued| && TookEffect(s.r, c'.enqueued[i])
    ensures i < |s.c.enqueued|
  {
    hide Validate, CurrentOk;
    var e := EventIdOf(c'.enqueued[i]);
    assert e in s.r.effects;
    var j: nat :| HasEvent(s.c.enqueued, j, e);
    assert c'.enqueued[j] == s.c.enqueued[j];
  }

  lemma WasDeliveredGrows(s: System, c': Collector, i: nat)
    requires WasDelivered(s.c, s.r, i) && s.c.arrived <= c'.arrived
    ensures WasDelivered(c', s.r, i)
  {
    var p: nat :| p < |s.c.arrived| && p in s.r.delivered && s.c.arrived[p].id == i;
    assert c'.arrived[p].id == i;
  }

  lemma SupersededGrows(ms: seq<Message>, ms': seq<Message>, r: Receiver, i: nat)
    requires ms <= ms' && i < |ms| && IsHealth(ms[i]) && SupersededBy(ms, r, i)
    ensures IsHealth(ms'[i]) && SupersededBy(ms', r, i)
  {
    hide Validate, TookEffect;
    var j :| i <= j < |ms| && ShownAs(ms, r, KeyOf(ms[i]), j);
    assert ms'[j] == ms[j] && ms'[i] == ms[i];
    assert ShownAs(ms', r, KeyOf(ms'[i]), j);
  }

  lemma ShownGrows(ms: seq<Message>, ms': seq<Message>, r: Receiver, k: Key)
    requires ms <= ms' && IsShown(ms, r, k)
    ensures IsShown(ms', r, k)
  {
    hide Validate, TookEffect;
    var j: nat :| j < |ms| && ShownAs(ms, r, k, j);
    assert ms'[j] == ms[j];
    assert ShownAs(ms', r, k, j);
  }

  lemma SmoothStep(s: System, step: Step)
    requires SystemOk(s) && SmoothOk(s) && HistoryOk(s) && OrderedHistory(Take(s, step).c.enqueued)
    requires !step.Prune? && (step.Deliver? ==> !step.down)
    ensures SmoothOk(Take(s, step))
  {
    hide *;
    TakeParts(s, step);
    SystemParts(s.c, s.r);
    var mid := System(s.c, ReceiverStep(s.c, s.r, step));
    ArrivedGrows(s.c, step);
    OrderedPrefix(s.c.enqueued, CollectorStep(s.c, step).enqueued);
    if step.Deliver? && Deliverable(s.c, s.r, step.p) {
      DeliverKeepsSmooth(s, step.p, step.ackLost);
    }
    assert SystemOk(mid) by {
      ReceiverStepKeeps(s.c, s.r, step);
      SystemParts(s.c, mid.r);
    }
    assert HistoryOk(mid) by {
      if step.Deliver? && Deliverable(s.c, s.r, step.p) { DeliverKeepsHistory(s, step.p, step.down, step.ackLost); }
    }
    OrderedDistinct(Take(s, step).c.enqueued);
    CollectorKeepsSmooth(mid, CollectorStep(s.c, step));
  }

  lemma {:induction false} RunSmooth(max: int, steps: seq<Step>)
    requires Smooth(steps) && OrderedHistory(Run(max, steps).c.enqueued)
    ensures SmoothOk(Run(max, steps))
  {
    if steps == [] {
      hide Validate;
    } else {
      var n := |steps| - 1;
      SmoothPrefix(steps);
      EnqueuedGrows(Run(max, steps[..n]), steps[n]);
      OrderedPrefix(Run(max, steps[..n]).c.enqueued, Run(max, steps).c.enqueued);
      RunSmooth(max, steps[..n]);
      RunOk(max, steps[..n]);
      RunHistory(max, steps[..n]);
      SmoothStep(Run(max, steps[..n]), steps[n]);
    }
  }

  lemma SmoothPrefix(steps: seq<Step>)
    requires steps != [] && Smooth(steps)
    ensures Smooth(steps[..|steps| - 1])
  {
  }

  /** When no transaction fails and nothing is pruned, times that merely never decrease suffice: whatever
      flushers overlapped, messages were repeated, acknowledgements lost or processes restarted, the table
      ends with exactly the last accepted health event of each device. */
  lemma ConvergesToLast(max: int, steps: seq<Step>)
    requires Smooth(steps) && Settled(Run(max, steps)) && OrderedHistory(Run(max, steps).c.enqueued)
    ensures var s := Run(max, steps);
      s.r.tables.healthCurrent == LastRows(s.c.enqueued)
  {
    hide *;
    RunOk(max, steps);
    RunHistory(max, steps);
    RunSmooth(max, steps);
    SettledShowsLast(Run(max, steps));
  }

  lemma SettledShowsLast(s: System)
    requires SystemOk(s) && HistoryOk(s) && SmoothOk(s) && Settled(s) && OrderedHistory(s.c.enqueued)
    ensures s.r.tables.healthCurrent == LastRows(s.c.enqueued)
  {
    hide *;
    var ms, current := s.c.enqueued, s.r.tables.healthCurrent;
    OrderedDistinct(ms);
    forall k ensures k in current <==> k in LastRows(ms) {
      SettledKeys(s, k);
    }
    forall k | k in current ensures current[k] == LastRows(ms)[k] {
      LastIsShown(s, k);
    }
  }

  lemma LastIsShown(s: System, k: Key)
    requires SystemOk(s) && SmoothOk(s) && Settled(s) && k in s.r.tables.healthCurrent && k in LastRows(s.c.enqueued)
    ensures s.r.tables.healthCurrent[k] == LastRows(s.c.enqueued)[k]
  {
    hide Validate, SystemOk, Settled, LastRows, HistoryRetained, DeliveredEffected, EffectsDelivered, AllShown, RowOf;
    var ms := s.c.enqueued;
    var i := LastIndex(ms, k);
    SettledEffected(s, i);
    LastEffectShown(ms, s.r, i);
    var j :| i <= j < |ms| && ShownAs(ms, s.r, KeyOf(ms[i]), j);
  }

  lemma LastEffectShown(ms: seq<Message>, r: Receiver, i: nat)
    requires LastShown(ms, r) && i < |ms| && IsHealth(ms[i]) && Effected(r, ms[i])
    ensures SupersededBy(ms, r, i)
  {
    hide Validate, SupersededBy;
    assert TookEffect(r, ms[i]);
  }
}
