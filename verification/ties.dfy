/** When the last event of each device wins although transactions fail: exactly when it is strictly newest. */
module Ties {
  import opened Ids
  import opened Contract
  import opened Ingestion
  import opened Outbox
  import opened Delivery
  import opened Convergence
  import opened PublishedRuns

  /** All settled runs that accepted this history show each device's last event. */
  ghost predicate AlwaysShowsLast(ms: seq<Message>) {
    forall max, steps :: ShowsLast(max, steps, ms)
  }

  ghost predicate ShowsLast(max: int, steps: seq<Step>, ms: seq<Message>) {
    var s := Run(max, steps);
    Settled(s) && s.c.enqueued == ms ==> s.r.tables.healthCurrent == LastRows(ms)
  }

  predicate IsLast(ms: seq<Message>, i: nat) {
    i < |ms| && IsHealth(ms[i]) && forall j :: i < j < |ms| ==> !SameDevice(ms[i], ms[j])
  }

  predicate LastsAreNewest(ms: seq<Message>) {
    forall i :: 0 <= i < |ms| && IsLast(ms, i) ==> IsNewest(ms, i)
  }

  /** The run against an event `j`: everything is published in order, the transaction of `j` fails when it is
      first delivered, all others succeed, and then `j` is delivered again. */
  function Deliveries(n: nat, j: nat): seq<Step> {
    if n == 0 then [] else Deliveries(n - 1, j) + [Deliver(n - 1, n - 1 == j, false)]
  }

  function RetrySteps(ms: seq<Message>, j: nat): seq<Step> {
    Published(ms) + Deliveries(|ms|, j) + [Deliver(j, false, false)]
  }

  ghost predicate OnlyOthers(ms: seq<Message>, t: Tables, n: nat, j: nat)
    requires n <= |ms|
  {
    forall e :: e in t.ingested ==>
      exists q :: 0 <= q < n && q != j && !Validate(ms[q]).Rejected? && EventIdOf(ms[q]) == e
  }

  /** After the first `n` deliveries. */
  ghost predicate Midway(ms: seq<Message>, r: Receiver, n: nat, j: nat)
    requires n <= |ms|
  {
    && (forall p :: p in r.delivered <==> 0 <= p < n)
    && r.unacked == (if j < n then {j} else {})
    && HistoryRetained(r.tables) && OnlyOthers(ms, r.tables, n, j)
  }

  lemma OthersGrow(ms: seq<Message>, t: Tables, t': Tables, n: nat, j: nat)
    requires n < |ms| && OnlyOthers(ms, t, n, j)
    requires forall e :: e in t'.ingested ==>
      e in t.ingested || (n != j && !Validate(ms[n]).Rejected? && e == EventIdOf(ms[n]))
    ensures OnlyOthers(ms, t', n + 1, j)
  {
    hide Validate;
  }

  lemma NextOffered(ms: seq<Message>, r: Receiver, n: nat, j: nat)
    requires n < |ms| && Midway(ms, r, n, j)
    ensures Deliverable(Shipped(ms), r, n)
  {
    hide Validate, OnlyOthers, HistoryRetained;
  }

  lemma MidwayStep(ms: seq<Message>, r: Receiver, n: nat, j: nat)
    requires n < |ms| && Midway(ms, r, n, j) && j < |ms| && IsHealth(ms[j])
    ensures Midway(ms, Receive(r, n, ms[n], n == j, false), n + 1, j)
  {
    hide *;
    MidwayParts(ms, r, n, j);
    HandleFacts(r.tables, ms[n], n == j);
    ReceiveParts(r, n, ms[n], n == j, false);
    if n == j {
      FailedHealth(r.tables, ms[j]);
    } else {
      HandleSmooth(r.tables, ms[n]);
    }
    OthersGrow(ms, r.tables, Handle(r.tables, ms[n], n == j).tables, n, j);
    MidwayNext(ms, r, Receive(r, n, ms[n], n == j, false), n, j);
  }

  lemma MidwayParts(ms: seq<Message>, r: Receiver, n: nat, j: nat)
    requires n <= |ms| && Midway(ms, r, n, j)
    ensures HistoryRetained(r.tables) && OnlyOthers(ms, r.tables, n, j) && r.unacked == (if j < n then {j} else {})
  {
    hide HistoryRetained, OnlyOthers;
  }

  lemma MidwayNext(ms: seq<Message>, r: Receiver, r': Receiver, n: nat, j: nat)
    requires n < |ms| && Midway(ms, r, n, j) && r'.delivered == r.delivered + {n}
    requires r'.unacked == if n == j then r.unacked + {n} else r.unacked - {n}
    requires HistoryRetained(r'.tables) && OnlyOthers(ms, r'.tables, n + 1, j)
    ensures Midway(ms, r', n + 1, j)
  {
    hide HistoryRetained, OnlyOthers;
  }

  lemma ReceiveParts(r: Receiver, p: nat, m: Message, down: bool, ackLost: bool)
    ensures var r', h := Receive(r, p, m, down, ackLost), Handle(r.tables, m, down);
      && r'.delivered == r.delivered + {p} && r'.tables == h.tables
      && r'.unacked == if h.ack && !ackLost then r.unacked - {p} else r.unacked + {p}
  {
    hide Validate, Handle;
  }

  lemma FailedHealth(t: Tables, m: Message)
    requires IsHealth(m)
    ensures Handle(t, m, true) == Handled(false, false, t)
  {
    hide Validate;
  }

  lemma {:induction false} DeliveriesRun(ms: seq<Message>, n: nat, j: nat) returns (r: Receiver)
    requires Topical(ms) && j < |ms| && IsHealth(ms[j]) && n <= |ms|
    ensures Run(0, Published(ms) + Deliveries(n, j)) == System(Shipped(ms), r) && Midway(ms, r, n, j)
  {
    hide Validate, Run, Published, Receive, Deliverable, Shipped;
    if n == 0 {
      PublishedRun(ms);
      r := Start(0).r;
      assert Published(ms) + [] == Published(ms);
    } else {
      var r0 := DeliveriesRun(ms, n - 1, j);
      hide Midway;
      NextOffered(ms, r0, n - 1, j);
      MidwayStep(ms, r0, n - 1, j);
      var before := Published(ms) + Deliveries(n - 1, j);
      DeliverNext(ms, before, r0, n - 1, n - 1 == j, false);
      assert before + [Deliver(n - 1, n - 1 == j, false)] == Published(ms) + Deliveries(n, j);
      r := Receive(r0, n - 1, ms[n - 1], n - 1 == j, false);
    }
  }

  /** The redelivery takes effect, after everything else. */
  lemma Redelivered(ms: seq<Message>, r: Receiver, j: nat)
    requires DistinctEventIds(ms) && j < |ms| && IsHealth(ms[j]) && Midway(ms, r, |ms|, j)
    ensures Deliverable(Shipped(ms), r, j)
    ensures var r' := Receive(r, j, ms[j], false, false);
      && r'.unacked == {} && r'.delivered == r.delivered
      && r'.tables.healthCurrent == UpsertHealth(r.tables.healthCurrent, KeyOf(ms[j]), RowOf(ms[j]))
  {
    HandleSmooth(r.tables, ms[j]);
    HandleFacts(r.tables, ms[j], false);
    HandleCurrent(r.tables, ms[j], false);
    hide Validate, Handle, UpsertHealth, HistoryRetained;
    assert EventIdOf(ms[j]) !in r.tables.ingested;
    assert j in r.delivered;
  }

  lemma RetryRun(ms: seq<Message>, j: nat) returns (s: System, r: Receiver)
    requires Topical(ms) && DistinctEventIds(ms) && j < |ms| && IsHealth(ms[j])
    ensures s == Run(0, RetrySteps(ms, j)) && Settled(s) && s.c.enqueued == ms
    ensures Run(0, Published(ms) + Deliveries(|ms|, j)) == System(Shipped(ms), r)
    ensures s.r.tables.healthCurrent == UpsertHealth(r.tables.healthCurrent, KeyOf(ms[j]), RowOf(ms[j]))
  {
    r := DeliveriesRun(ms, |ms|, j);
    Redelivered(ms, r, j);
    hide Run, Validate, Receive, Published, UpsertHealth, Deliverable, HistoryRetained, OnlyOthers;
    DeliverNext(ms, Published(ms) + Deliveries(|ms|, j), r, j, false, false);
    s := Run(0, RetrySteps(ms, j));
  }

  /** Redelivered last, an event that none of its device exceeds in time is the one shown. */
  lemma RetryShowsRetried(ms: seq<Message>, j: nat)
    requires Topical(ms) && DistinctEventIds(ms) && j < |ms| && IsHealth(ms[j])
    requires forall q :: 0 <= q < |ms| && SameDevice(ms[q], ms[j]) ==> TimeOf(ms[q]) <= TimeOf(ms[j])
    ensures var s := Run(0, RetrySteps(ms, j));
      && Settled(s) && s.c.enqueued == ms
      && KeyOf(ms[j]) in s.r.tables.healthCurrent && s.r.tables.healthCurrent[KeyOf(ms[j])] == RowOf(ms[j])
  {
    hide *;
    var s, r := RetryRun(ms, j);
    RunHistory(0, Published(ms) + Deliveries(|ms|, j));
    ShippedHistory(ms, r);
    RetriedShown(ms, r.tables, j);
  }

  lemma ShippedHistory(ms: seq<Message>, r: Receiver)
    requires HistoryOk(System(Shipped(ms), r))
    ensures FromAccepted(ms, r.tables)
  {
    hide FromAccepted, Validate, EffectsKnown, Covers, DistinctEventIds;
  }

  lemma RetriedShown(ms: seq<Message>, t: Tables, j: nat)
    requires FromAccepted(ms, t) && j < |ms| && IsHealth(ms[j])
    requires forall q :: 0 <= q < |ms| && SameDevice(ms[q], ms[j]) ==> TimeOf(ms[q]) <= TimeOf(ms[j])
    ensures var k := KeyOf(ms[j]);
      var after := UpsertHealth(t.healthCurrent, k, RowOf(ms[j]));
      k in after && after[k] == RowOf(ms[j])
  {
    hide Validate;
    var k, current := KeyOf(ms[j]), t.healthCurrent;
    if k in current {
      var q: nat :| RowFrom(ms, k, current[k], q);
      assert SameDevice(ms[q], ms[j]);
      assert current[k].observedAt == TimeOf(ms[q]);
    }
  }

  /** The redelivered event, or one newer than it, is shown. */
  lemma UpsertHidesOlder(current: map<Key, HealthRow>, k: Key, row: HealthRow, other: HealthRow)
    requires other.observedAt <= row.observedAt && other.eventID != row.eventID
    ensures k in UpsertHealth(current, k, row) && UpsertHealth(current, k, row)[k] != other
  {
  }

  lemma {:induction false} LastRowOf(ms: seq<Message>, i: nat)
    requires IsLast(ms, i)
    ensures KeyOf(ms[i]) in LastRows(ms) && LastRows(ms)[KeyOf(ms[i])] == RowOf(ms[i])
  {
    hide Validate;
    var n := |ms| - 1;
    if i < n {
      assert !SameDevice(ms[i], ms[n]);
      assert IsLast(ms[..n], i);
      LastRowOf(ms[..n], i);
    }
  }

  /** A last event that some other event of its device equals or exceeds in time is lost in some run in which
      nothing is lost on the way: the other one, redelivered after a failed transaction, replaces it. */
  lemma TieLosesLast(ms: seq<Message>, i: nat, j: nat)
    requires Topical(ms) && DistinctEventIds(ms) && IsLast(ms, i) && j < |ms| && j != i
    requires SameDevice(ms[j], ms[i]) && TimeOf(ms[i]) <= TimeOf(ms[j])
    ensures var s := Run(0, RetrySteps(ms, j));
      && Settled(s) && s.c.enqueued == ms
      && KeyOf(ms[i]) in s.r.tables.healthCurrent && s.r.tables.healthCurrent[KeyOf(ms[i])] != RowOf(ms[i])
      && s.r.tables.healthCurrent != LastRows(ms)
  {
    var s, r := RetryRun(ms, j);
    LastRowOf(ms, i);
    RowParts(ms, i, j);
    hide Run, Validate, UpsertHealth, LastRows, RetrySteps, IsLast, Settled, RowOf;
    UpsertHidesOlder(r.tables.healthCurrent, KeyOf(ms[j]), RowOf(ms[j]), RowOf(ms[i]));
  }

  lemma RowParts(ms: seq<Message>, i: nat, j: nat)
    requires DistinctEventIds(ms) && i < |ms| && j < |ms| && j != i && SameDevice(ms[j], ms[i])
    ensures RowOf(ms[i]).observedAt == TimeOf(ms[i]) && RowOf(ms[j]).observedAt == TimeOf(ms[j])
    ensures RowOf(ms[i]).eventID != RowOf(ms[j]).eventID
  {
    hide Validate;
    assert EventIdOf(ms[i]) != EventIdOf(ms[j]);
  }

  lemma NewestShowsLast(max: int, steps: seq<Step>, ms: seq<Message>)
    requires DistinctEventIds(ms) && LastsAreNewest(ms)
    ensures ShowsLast(max, steps, ms)
  {
    var s := Run(max, steps);
    if Settled(s) && s.c.enqueued == ms {
      ConvergesToNewest(max, steps);
      var current := s.r.tables.healthCurrent;
      hide Run, Settled, Validate, DistinctEventIds;
      forall k | k in current ensures current[k] == LastRows(ms)[k] {
        var i := LastIndex(ms, k);
        assert IsLast(ms, i);
        assert IsNewest(ms, i);
      }
    }
  }

  /** For every history: each device ends up showing its last event in all settled runs, whatever fails, is
      repeated, pruned or lost on the way, exactly when that event is strictly newer than all others of its
      device. */
  lemma LastWinsIffNewest(ms: seq<Message>)
    requires Topical(ms) && DistinctEventIds(ms)
    ensures AlwaysShowsLast(ms) <==> LastsAreNewest(ms)
  {
    hide Run, Settled, Validate, LastRows, DistinctEventIds, Topical, RetrySteps;
    if LastsAreNewest(ms) {
      forall max, steps ensures ShowsLast(max, steps, ms) {
        NewestShowsLast(max, steps, ms);
      }
    } else {
      var i :| 0 <= i < |ms| && IsLast(ms, i) && !IsNewest(ms, i);
      var j :| 0 <= j < |ms| && j != i && SameDevice(ms[j], ms[i]) && !(TimeOf(ms[j]) < TimeOf(ms[i]));
      TieLosesLast(ms, i, j);
      assert !ShowsLast(0, RetrySteps(ms, j), ms);
    }
  }
}
