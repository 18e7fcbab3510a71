/** The delivery protocol can always finish: whatever happened so far, some continuation empties the outbox and gets
    every message through, except those the database refuses. */
module Drainable {
  import opened Ids
  import opened Contract
  import opened Ingestion
  import opened Outbox
  import opened Delivery
  import opened OutboxRuns
  import opened PublishedRuns

  /** The outbox empties; nothing new is accepted and nothing is delivered meanwhile. */
  lemma OutboxDrains(max: int, steps: seq<Step>) returns (more: seq<Step>)
    ensures Unpruned(more)
    ensures var s, end := Run(max, steps), Run(max, steps + more);
      end.c.outbox == [] && end.c.enqueued == s.c.enqueued && end.r == s.r
  {
    var s := Run(max, steps);
    hide Run, Sent, Contents, Least;
    if s.c.outbox == [] {
      more := [];
      assert steps + more == steps;
    } else {
      var n := |s.c.outbox|;
      OneMore(max, steps, Spawn);
      FlushIsARun(max, steps + [Spawn], |s.c.flushers|, n, n, false);
      var rest :| Unpruned(rest) && FlushedTo(Run(max, steps + [Spawn]), Run(max, steps + [Spawn] + rest), n, false);
      more := [Spawn] + rest;
      assert steps + more == steps + [Spawn] + rest;
    }
  }

  predicate DeliveredUpTo(s: System, n: nat) {
    forall p: nat :: p < n && p < |s.c.arrived| ==> p in s.r.delivered
  }

  lemma DeliverOne(max: int, steps: seq<Step>, p: nat)
    requires Deliverable(Run(max, steps).c, Run(max, steps).r, p)
    ensures var s, end := Run(max, steps), Run(max, steps + [Deliver(p, false, false)]);
      && p < |s.c.arrived| && end.c == s.c
      && end.r == Receive(s.r, p, s.c.arrived[p].message, false, false)
  {
    hide Run, Receive, Deliverable;
    RunNext(max, steps, Deliver(p, false, false));
    TakeParts(Run(max, steps), Deliver(p, false, false));
    CollectorWaits(Run(max, steps).c, p);
  }

  lemma CollectorWaits(c: Collector, p: nat)
    ensures CollectorStep(c, Deliver(p, false, false)) == c
  {
  }

  lemma NextInOrder(s: System, n: nat)
    requires n < |s.c.arrived| && DeliveredUpTo(s, n) && n !in s.r.delivered
    ensures Deliverable(s.c, s.r, n)
  {
  }

  lemma OneMoreDelivered(s: System, end: System, n: nat)
    requires DeliveredUpTo(s, n) && end.c == s.c && end.r.delivered == s.r.delivered + {n}
    ensures DeliveredUpTo(end, n + 1)
  {
  }

  lemma DeliverNew(max: int, steps: seq<Step>, n: nat)
    requires n < |Run(max, steps).c.arrived| && DeliveredUpTo(Run(max, steps), n) && n !in Run(max, steps).r.delivered
    ensures var s, end := Run(max, steps), Run(max, steps + [Deliver(n, false, false)]);
      end.c == s.c && DeliveredUpTo(end, n + 1)
  {
    hide *;
    var s := Run(max, steps);
    NextInOrder(s, n);
    DeliverOne(max, steps, n);
    ReceiveDelivers(s.r, n, s.c.arrived[n].message);
    OneMoreDelivered(s, Run(max, steps + [Deliver(n, false, false)]), n);
  }

  lemma {:induction false} AllDelivered(max: int, steps: seq<Step>, n: nat) returns (more: seq<Step>)
    requires n <= |Run(max, steps).c.arrived| && DeliveredUpTo(Run(max, steps), n)
    ensures Unpruned(more)
    ensures var s, end := Run(max, steps), Run(max, steps + more);
      end.c == s.c && DeliveredUpTo(end, |s.c.arrived|)
    decreases |Run(max, steps).c.arrived| - n
  {
    hide Run;
    if n == |Run(max, steps).c.arrived| {
      more := [];
      assert steps + more == steps;
    } else if n in Run(max, steps).r.delivered {
      more := AllDelivered(max, steps, n + 1);
    } else {
      DeliverNew(max, steps, n);
      var x := [Deliver(n, false, false)];
      var rest := AllDelivered(max, steps + x, n + 1);
      more := x + rest;
      assert steps + more == steps + x + rest;
    }
  }

  lemma ReceiveDelivers(r: Receiver, p: nat, m: Message)
    ensures var r' := Receive(r, p, m, false, false);
      && r'.delivered == r.delivered + {p}
      && (Handle(r.tables, m, false).ack ==> r'.unacked == r.unacked - {p})
  {
    hide Validate, Handle;
  }

  /** The database would not take this delivery now. */
  predicate Refused(s: System, p: nat)
    requires p < |s.c.arrived|
  {
    !Handle(s.r.tables, s.c.arrived[p].message, false).ack
  }

  predicate OnlyRefusedLeft(s: System) {
    forall p: nat :: p in s.r.unacked && p < |s.c.arrived| ==> Refused(s, p)
  }

  lemma {:induction false} AllAcknowledged(max: int, steps: seq<Step>) returns (more: seq<Step>)
    requires DeliveredUpTo(Run(max, steps), |Run(max, steps).c.arrived|)
    ensures Unpruned(more)
    ensures var s, end := Run(max, steps), Run(max, steps + more);
      end.c == s.c && DeliveredUpTo(end, |s.c.arrived|) && OnlyRefusedLeft(end)
    decreases |Run(max, steps).r.unacked|
  {
    var s := Run(max, steps);
    hide Run, Receive, Handle;
    if OnlyRefusedLeft(s) {
      more := [];
      assert steps + more == steps;
    } else {
      var p: nat :| p in s.r.unacked && p < |s.c.arrived| && !Refused(s, p);
      DeliverOne(max, steps, p);
      ReceiveDelivers(s.r, p, s.c.arrived[p].message);
      Fewer(s.r.unacked, p);
      var x := [Deliver(p, false, false)];
      var rest := AllAcknowledged(max, steps + x);
      more := x + rest;
      assert steps + more == steps + x + rest;
    }
  }

  lemma Fewer(S: set<nat>, p: nat)
    requires p in S
    ensures |S - {p}| < |S|
  {
  }

  /** A message the database refuses: its event has a history row but no deduplication row. */
  predicate KeptOut(t: Tables, m: Message) {
    && !Validate(m).Rejected? && Validate(m).eventID !in t.ingested
    && (Validate(m).HealthEvent? ==> Validate(m).eventID in t.healthHistory)
    && (Validate(m).HeartbeatEvent? ==> Validate(m).eventID in t.statusHistory)
    && !Validate(m).ReadingsEvent?
  }

  lemma RefusedIsKeptOut(s: System, p: nat)
    requires p < |s.c.arrived| && Refused(s, p)
    ensures KeptOut(s.r.tables, s.c.arrived[p].message)
  {
    hide Validate;
  }

  /** Nothing more is accepted meanwhile, nothing is pending, and every message accepted so far was rejected, took
      effect or is kept out by its own history row. */
  ghost predicate Finished(s: System, end: System) {
    && end.c.enqueued == s.c.enqueued && end.c.outbox == []
    && forall k :: 0 <= k < |s.c.enqueued| ==>
         Effected(end.r, s.c.enqueued[k]) || KeptOut(end.r.tables, s.c.enqueued[k])
  }

  lemma FinishedAt(max: int, steps: seq<Step>, k: nat)
    requires var s := Run(max, steps);
      s.c.outbox == [] && DeliveredUpTo(s, |s.c.arrived|) && OnlyRefusedLeft(s) && k < |s.c.enqueued|
    ensures var s := Run(max, steps); Effected(s.r, s.c.enqueued[k]) || KeptOut(s.r.tables, s.c.enqueued[k])
  {
    var s := Run(max, steps);
    NoLoss(max, steps, k);
    RunOk(max, steps);
    CollectorParts(s.c);
    hide Run, SystemOk, Effected, KeptOut, Refused;
    if AtBroker(s, k) {
      var p: nat :| p < |s.c.arrived| && s.c.arrived[p].id == k && (p !in s.r.delivered || p in s.r.unacked);
      assert IsGenuine(s.c.enqueued, s.c.arrived[p]);
      RefusedIsKeptOut(s, p);
    }
  }

  lemma CollectorParts(c: Collector)
    ensures CollectorOk(c) ==> Genuine(c.enqueued, c.arrived)
  {
  }

  /** Every history row still has its deduplication row. */
  predicate HistorySeen(t: Tables) {
    (forall e :: e in t.healthHistory ==> e in t.ingested) && (forall e :: e in t.statusHistory ==> e in t.ingested)
  }

  lemma HandleSeen(t: Tables, m: Message, down: bool)
    requires HistorySeen(t)
    ensures HistorySeen(Handle(t, m, down).tables)
  {
    hide Validate, UpsertHealth, UpsertStatus;
  }

  lemma {:induction false} UnprunedSeen(max: int, steps: seq<Step>)
    requires Unpruned(steps)
    ensures HistorySeen(Run(max, steps).r.tables)
  {
    if steps != [] {
      var n := |steps| - 1;
      UnprunedSeen(max, steps[..n]);
      var s := Run(max, steps[..n]);
      hide CollectorStep, Validate, Handle, HistorySeen, Deliverable;
      TakeParts(s, steps[n]);
      if steps[n].Deliver? && Deliverable(s.c, s.r, steps[n].p) {
        HandleSeen(s.r.tables, s.c.arrived[steps[n].p].message, steps[n].down);
      }
    }
  }

  lemma FinishedWhen(max: int, steps: seq<Step>, s: System)
    requires var end := Run(max, steps);
      && end.c.outbox == [] && end.c.enqueued == s.c.enqueued && DeliveredUpTo(end, |end.c.arrived|)
      && OnlyRefusedLeft(end)
    ensures Finished(s, Run(max, steps))
  {
    hide Run, Effected, KeptOut, DeliveredUpTo, OnlyRefusedLeft;
    var end := Run(max, steps);
    forall k | 0 <= k < |s.c.enqueued|
      ensures Effected(end.r, s.c.enqueued[k]) || KeptOut(end.r.tables, s.c.enqueued[k])
    {
      FinishedAt(max, steps, k);
    }
  }

  lemma Finishes(max: int, steps: seq<Step>) returns (more: seq<Step>)
    ensures Unpruned(more) && Finished(Run(max, steps), Run(max, steps + more))
  {
    hide Run, Effected, KeptOut, OnlyRefusedLeft, Finished;
    var a := OutboxDrains(max, steps);
    var b := AllDelivered(max, steps + a, 0);
    var c := AllAcknowledged(max, steps + a + b);
    more := a + b + c;
    assert steps + a + b + c == steps + more;
    FinishedWhen(max, steps + more, Run(max, steps));
  }

  /** The same, with every accepted message rejected or effective. */
  ghost predicate ThroughTo(s: System, end: System) {
    Finished(s, end) && forall k :: 0 <= k < |s.c.enqueued| ==> Effected(end.r, s.c.enqueued[k])
  }

  /** Over every run, whatever flushers overlap and whatever failed: it can be continued to an end at which nothing
      is lost or pending; and when no deduplication row was ever pruned, every accepted message has then been
      rejected or taken effect. */
  lemma CanAlwaysFinish(max: int, steps: seq<Step>)
    ensures exists more :: Unpruned(more) && Finished(Run(max, steps), Run(max, steps + more))
    ensures Unpruned(steps) ==> exists more :: Unpruned(more) && ThroughTo(Run(max, steps), Run(max, steps + more))
  {
    var more := Finishes(max, steps);
    if Unpruned(steps) {
      UnprunedSeen(max, steps + more);
      hide Run, Effected, KeptOut, HistorySeen, Unpruned;
      var s, end := Run(max, steps), Run(max, steps + more);
      forall k | 0 <= k < |s.c.enqueued| ensures Effected(end.r, s.c.enqueued[k]) {
        SeenNotKeptOut(end.r.tables, s.c.enqueued[k]);
      }
      assert ThroughTo(s, end);
    }
  }

  lemma SeenNotKeptOut(t: Tables, m: Message)
    requires HistorySeen(t)
    ensures !KeptOut(t, m)
  {
    hide Validate;
  }
}
