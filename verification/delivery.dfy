/** From the outbox to the tables, as one state machine: any number of overlapping flushers, a broker that
    delivers at least once and keeps each topic in order, an ingestion service that may fail at any point. */
module Delivery {
  import opened Ids
  import opened Contract
  import opened Ingestion
  import opened Outbox

  // Where one flusher stands inside its flush. The first row of its batch is the one it works on.
  datatype Flusher =
    | Idle
    | Ready(batch: seq<Row>)      // about to look at the context and publish
    | Sending(batch: seq<Row>)    // waiting for the publish to be acknowledged
    | Deleting(batch: seq<Row>)   // acknowledged, row still in the table

  // The collector's half. `enqueued` is the history of all accepted messages; positions are row ids.
  // `wire` holds what was handed to the transport, `arrived` what the broker received, in order.
  datatype Collector = Collector(
    enqueued: seq<Message>,
    outbox: seq<Row>,
    depth: int,
    max: int,
    flushers: seq<Flusher>,
    wire: set<Row>,
    arrived: seq<Row>)

  // The receiving half. Positions are those of the broker's arrivals: delivered at least once, and
  // delivered but not yet known to be acknowledged. `effects` counts the insertions of each event,
  // `forgotten` the times its deduplication row was pruned.
  datatype Receiver = Receiver(
    delivered: set<nat>,
    unacked: set<nat>,
    tables: Tables,
    effects: multiset<EventId>,
    forgotten: multiset<EventId>)

  datatype System = System(c: Collector, r: Receiver)

  datatype Step =
    | Enqueue(events: seq<PendingEvent>, fails: bool)
    | Spawn                                        // one more flusher, such as a drain at shutdown
    | Restart(flushers: nat)                       // crash: in-memory state is lost, the table is not
    | Peek(f: nat, limit: nat)
    | Send(f: nat)
    | Arrive(row: Row)                             // possibly late, possibly again
    | Confirm(f: nat)
    | Abort(f: nat)                                // context done, or an error from publish or delete
    | DeleteRow(f: nat)
    | Deliver(p: nat, down: bool, ackLost: bool)   // a first delivery or a repeated one
    | Prune(ingested: set<EventId>, health: set<EventId>, status: set<EventId>)

  predicate InOrder(c: Collector, r: Receiver, p: nat)
    requires p < |c.arrived|
  {
    forall q :: 0 <= q < p && c.arrived[q].message.topic == c.arrived[p].message.topic ==> q in r.delivered
  }

  /** The broker offers a position anew when its topic's earlier ones were offered, and again while it
      lacks an acknowledgement. */
  predicate Deliverable(c: Collector, r: Receiver, p: nat) {
    p < |c.arrived| && (p in r.unacked || (p !in r.delivered && InOrder(c, r, p)))
  }

  function AfterDelete(c: Collector, id: nat): Collector {
    var left := Without(c.outbox, id);
    if |left| == |c.outbox| then c
    else c.(outbox := left, depth := if c.depth - 1 < 0 then 0 else c.depth - 1)
  }

  function Rest(batch: seq<Row>): Flusher
    requires batch != []
  {
    if |batch| == 1 then Idle else Ready(batch[1..])
  }

  predicate Fits(c: Collector, n: nat) {
    c.max <= 0 || c.depth + n <= c.max
  }

  /** One step of the collector; a step that is not possible changes nothing. */
  function CollectorStep(c: Collector, s: Step): Collector {
    match s
    case Enqueue(events, fails) =>
      if !fails && AllComplete(events) && Fits(c, |events|)
      then var ms := MessagesOf(events);
        c.(enqueued := c.enqueued + ms, outbox := Appended(c.outbox, |c.enqueued|, ms), depth := c.depth + |events|)
      else c
    case Spawn => c.(flushers := c.flushers + [Idle])
    case Restart(n) => c.(flushers := seq(n, _ => Idle), depth := |c.outbox|)
    case Peek(f, limit) =>
      if f < |c.flushers| && c.flushers[f].Idle? && limit > 0 && c.outbox != []
      then c.(flushers := c.flushers[f := Ready(c.outbox[..Least(limit, |c.outbox|)])])
      else c
    case Send(f) =>
      if f < |c.flushers| && c.flushers[f].Ready? && c.flushers[f].batch != []
      then c.(flushers := c.flushers[f := Sending(c.flushers[f].batch)], wire := c.wire + {c.flushers[f].batch[0]})
      else c
    case Arrive(row) => if row in c.wire then c.(arrived := c.arrived + [row]) else c
    case Confirm(f) =>
      if f < |c.flushers| && c.flushers[f].Sending? && c.flushers[f].batch != [] && c.flushers[f].batch[0] in c.arrived
      then c.(flushers := c.flushers[f := Deleting(c.flushers[f].batch)])
      else c
    case Abort(f) => if f < |c.flushers| then c.(flushers := c.flushers[f := Idle]) else c
    case DeleteRow(f) =>
      if f < |c.flushers| && c.flushers[f].Deleting? && c.flushers[f].batch != []
      then AfterDelete(c, c.flushers[f].batch[0].id).(flushers := c.flushers[f := Rest(c.flushers[f].batch)])
      else c
    case _ => c
  }

  function EventIdOf(m: Message): EventId
    requires !Validate(m).Rejected?
  {
    Validate(m).eventID
  }

  /** Handing one message to the ingestion service. */
  function Receive(r: Receiver, p: nat, m: Message, down: bool, ackLost: bool): Receiver {
    var h := Handle(r.tables, m, down);
    r.(delivered := r.delivered + {p},
       unacked := if h.ack && !ackLost then r.unacked - {p} else r.unacked + {p},
       tables := h.tables,
       effects := if h.inserted && !Validate(m).Rejected? then r.effects + multiset{EventIdOf(m)} else r.effects)
  }

  function Drop<K, V>(m: map<K, V>, gone: set<K>): map<K, V> {
    map k | k in m && k !in gone :: m[k]
  }

  function ReceiverStep(c: Collector, r: Receiver, s: Step): Receiver {
    match s
    case Deliver(p, down, ackLost) =>
      if Deliverable(c, r, p) then Receive(r, p, c.arrived[p].message, down, ackLost) else r
    case Prune(ingested, health, status) =>
      r.(tables := r.tables.(ingested := r.tables.ingested - ingested,
                             healthHistory := Drop(r.tables.healthHistory, health),
                             statusHistory := Drop(r.tables.statusHistory, status)),
         forgotten := r.forgotten + multiset(r.tables.ingested.Keys * ingested))
    case _ => r
  }

  function Take(s: System, step: Step): System {
    System(CollectorStep(s.c, step), ReceiverStep(s.c, s.r, step))
  }

  function Start(max: int): System {
    System(Collector([], [], 0, max, [], {}, []), Receiver({}, {}, EMPTY_TABLES, multiset{}, multiset{}))
  }

  /** The state after a whole run. */
  function Run(max: int, steps: seq<Step>): System {
    if steps == [] then Start(max) else Take(Run(max, steps[..|steps| - 1]), steps[|steps| - 1])
  }

  // ---- The collector's invariant ----

  predicate IsGenuine(enqueued: seq<Message>, r: Row) {
    r.id < |enqueued| && r.message == enqueued[r.id]
  }

  predicate Genuine(enqueued: seq<Message>, rows: seq<Row>) {
    forall i :: 0 <= i < |rows| ==> IsGenuine(enqueued, rows[i])
  }

  /** Every smaller id has reached the broker. */
  predicate Preceded(arrived: seq<Row>, id: nat) {
    forall k: nat :: k < id ==> HasId(arrived, k)
  }

  /** Every smaller id has reached the broker or is ahead in the same batch. */
  predicate PrecededIn(arrived: seq<Row>, batch: seq<Row>, i: nat)
    requires i < |batch|
  {
    forall k: nat :: k < batch[i].id ==> HasId(arrived, k) || HasId(batch[..i], k)
  }

  predicate BatchOk(enqueued: seq<Message>, arrived: seq<Row>, batch: seq<Row>) {
    Genuine(enqueued, batch) && forall i :: 0 <= i < |batch| ==> PrecededIn(arrived, batch, i)
  }

  predicate FlusherOk(c: Collector, f: Flusher) {
    match f
    case Idle => true
    case Ready(b) => b != [] && BatchOk(c.enqueued, c.arrived, b)
    case Sending(b) => b != [] && BatchOk(c.enqueued, c.arrived, b)
    case Deleting(b) => b != [] && BatchOk(c.enqueued, c.arrived, b) && HasId(c.arrived, b[0].id)
  }

  predicate FlushersOk(c: Collector) {
    forall f :: 0 <= f < |c.flushers| ==> FlusherOk(c, c.flushers[f])
  }

  /** What is no longer pending has reached the broker. */
  predicate PendingOrArrived(c: Collector) {
    forall k: nat :: k < |c.enqueued| && !HasId(c.outbox, k) ==> HasId(c.arrived, k)
  }

  predicate WireOk(c: Collector) {
    forall r :: r in c.wire ==> IsGenuine(c.enqueued, r) && Preceded(c.arrived, r.id)
  }

  /** First deliveries are in order: before row `k` first reaches the broker, all smaller ids have. */
  predicate FirstInOrder(arrived: seq<Row>) {
    forall p :: 0 <= p < |arrived| ==> Preceded(arrived[..p], arrived[p].id)
  }

  predicate OutboxOk(c: Collector) {
    Increasing(c.outbox) && Genuine(c.enqueued, c.outbox) && c.depth == |c.outbox|
  }

  predicate CollectorOk(c: Collector) {
    && OutboxOk(c)
    && FlushersOk(c)
    && PendingOrArrived(c)
    && WireOk(c)
    && Genuine(c.enqueued, c.arrived)
    && FirstInOrder(c.arrived)
    && (c.max > 0 ==> c.depth <= c.max)
  }

  lemma HasIdAppend(rows: seq<Row>, more: seq<Row>, k: nat)
    ensures HasId(rows + more, k) <==> HasId(rows, k) || HasId(more, k)
  {
    var all := rows + more;
    if HasId(rows, k) {
      var i :| 0 <= i < |rows| && rows[i].id == k;
      assert all[i].id == k;
    }
    if HasId(more, k) {
      var i :| 0 <= i < |more| && more[i].id == k;
      assert all[|rows| + i].id == k;
    }
    if HasId(all, k) {
      var i :| 0 <= i < |all| && all[i].id == k;
      assert i >= |rows| ==> more[i - |rows|].id == k;
    }
  }

  lemma GenuineGrows(enqueued: seq<Message>, ms: seq<Message>, rows: seq<Row>)
    requires Genuine(enqueued, rows)
    ensures Genuine(enqueued + ms, rows)
  {
    forall i | 0 <= i < |rows| ensures IsGenuine(enqueued + ms, rows[i]) {
      assert IsGenuine(enqueued, rows[i]);
    }
  }

  lemma PrecededGrows(arrived: seq<Row>, row: Row, id: nat)
    requires Preceded(arrived, id)
    ensures Preceded(arrived + [row], id)
  {
    forall k: nat | k < id ensures HasId(arrived + [row], k) {
      HasIdAppend(arrived, [row], k);
    }
  }

  lemma BatchGrows(enqueued: seq<Message>, arrived: seq<Row>, ms: seq<Message>, row: Row, batch: seq<Row>)
    requires BatchOk(enqueued, arrived, batch)
    ensures BatchOk(enqueued + ms, arrived, batch) && BatchOk(enqueued, arrived + [row], batch)
  {
    GenuineGrows(enqueued, ms, batch);
    forall i | 0 <= i < |batch| ensures PrecededIn(arrived + [row], batch, i) {
      assert PrecededIn(arrived, batch, i);
      forall k: nat | k < batch[i].id ensures HasId(arrived + [row], k) || HasId(batch[..i], k) {
        HasIdAppend(arrived, [row], k);
      }
    }
  }

  lemma FlusherGrows(c: Collector, ms: seq<Message>, row: Row, f: Flusher)
    requires FlusherOk(c, f)
    ensures FlusherOk(c.(enqueued := c.enqueued + ms), f) && FlusherOk(c.(arrived := c.arrived + [row]), f)
  {
    if !f.Idle? {
      hide BatchOk;
      BatchGrows(c.enqueued, c.arrived, ms, row, f.batch);
      HasIdAppend(c.arrived, [row], f.batch[0].id);
    }
  }

  lemma EnqueueKeeps(c: Collector, events: seq<PendingEvent>, fails: bool)
    requires CollectorOk(c)
    ensures CollectorOk(CollectorStep(c, Enqueue(events, fails)))
  {
    if !fails && AllComplete(events) && Fits(c, |events|) {
      var ms := MessagesOf(events);
      var c' := CollectorStep(c, Enqueue(events, fails));
      AppendedKeeps(c.enqueued, c.outbox, ms);
      hide Appended, MessagesOf;
      forall f | 0 <= f < |c.flushers| ensures FlusherOk(c', c.flushers[f]) {
        FlusherEnqueue(c, c', ms, c.flushers[f]);
      }
      WireGrows(c, c', ms);
      GenuineGrows(c.enqueued, ms, c.arrived);
      PendingGrows(c, c', ms);
    }
  }

  lemma FlusherEnqueue(c: Collector, c': Collector, ms: seq<Message>, f: Flusher)
    requires FlusherOk(c, f) && c'.enqueued == c.enqueued + ms && c'.arrived == c.arrived
    ensures FlusherOk(c', f)
  {
    if !f.Idle? {
      BatchGrows(c.enqueued, c.arrived, ms, f.batch[0], f.batch);
    }
  }

  lemma WireGrows(c: Collector, c': Collector, ms: seq<Message>)
    requires WireOk(c) && c'.enqueued == c.enqueued + ms && c'.wire == c.wire && c'.arrived == c.arrived
    ensures WireOk(c')
  {
    forall r | r in c'.wire ensures IsGenuine(c'.enqueued, r) && Preceded(c'.arrived, r.id) {
      assert IsGenuine(c.enqueued, r);
    }
  }

  lemma AppendedKeeps(enqueued: seq<Message>, rows: seq<Row>, ms: seq<Message>)
    requires Increasing(rows) && Genuine(enqueued, rows)
    ensures var all := Appended(rows, |enqueued|, ms);
      && Increasing(all) && Genuine(enqueued + ms, all) && |all| == |rows| + |ms|
      && (forall k: nat :: |enqueued| <= k < |enqueued| + |ms| ==> HasId(all, k))
      && (forall k: nat :: HasId(rows, k) ==> HasId(all, k))
  {
    var all := Appended(rows, |enqueued|, ms);
    forall i | 0 <= i < |all| ensures IsGenuine(enqueued + ms, all[i]) {
      if i < |rows| { assert IsGenuine(enqueued, rows[i]); }
    }
    forall r | r in rows ensures r.id < |enqueued| {
      var i :| 0 <= i < |rows| && rows[i] == r;
      assert IsGenuine(enqueued, rows[i]);
    }
    AppendedIncreasing(rows, |enqueued|, ms);
    forall k: nat | |enqueued| <= k < |enqueued| + |ms| ensures HasId(all, k) {
      assert all[|rows| + k - |enqueued|].id == k;
    }
    forall k: nat | HasId(rows, k) ensures HasId(all, k) {
      var i :| 0 <= i < |rows| && rows[i].id == k;
      assert all[i].id == k;
    }
  }

  lemma PendingGrows(c: Collector, c': Collector, ms: seq<Message>)
    requires PendingOrArrived(c) && c'.enqueued == c.enqueued + ms && c'.arrived == c.arrived
    requires forall k: nat :: |c.enqueued| <= k < |c'.enqueued| ==> HasId(c'.outbox, k)
    requires forall k: nat :: HasId(c.outbox, k) ==> HasId(c'.outbox, k)
    ensures PendingOrArrived(c')
  {
  }

  lemma PeekKeeps(c: Collector, f: nat, limit: nat)
    requires CollectorOk(c)
    ensures CollectorOk(CollectorStep(c, Peek(f, limit)))
  {
    if f < |c.flushers| && c.flushers[f].Idle? && limit > 0 && c.outbox != [] {
      var batch := c.outbox[..Least(limit, |c.outbox|)];
      forall i | 0 <= i < |batch| ensures PrecededIn(c.arrived, batch, i) {
        PeekedPreceded(c, batch, i);
      }
      assert Genuine(c.enqueued, batch);
      OneFlusher(c, f, Ready(batch));
    }
  }

  lemma PeekedPreceded(c: Collector, batch: seq<Row>, i: nat)
    requires OutboxOk(c) && PendingOrArrived(c) && i < |batch| && batch <= c.outbox
    ensures PrecededIn(c.arrived, batch, i)
  {
    assert IsGenuine(c.enqueued, c.outbox[i]);
    forall k: nat | k < batch[i].id ensures HasId(c.arrived, k) || HasId(batch[..i], k) {
      if !HasId(c.arrived, k) {
        assert HasId(c.outbox, k);
        var j :| 0 <= j < |c.outbox| && c.outbox[j].id == k;
        assert j < i;
        assert batch[..i][j].id == k;
      }
    }
  }

  /** Changing one flusher to an acceptable state keeps the rest. */
  lemma OneFlusher(c: Collector, f: nat, to: Flusher)
    requires CollectorOk(c) && f < |c.flushers| && FlusherOk(c, to)
    ensures CollectorOk(c.(flushers := c.flushers[f := to]))
  {
    var c' := c.(flushers := c.flushers[f := to]);
    hide BatchOk, OutboxOk, WireOk, PendingOrArrived, FirstInOrder, Genuine;
    TableKept(c, c');
    forall g | 0 <= g < |c'.flushers| ensures FlusherOk(c', c'.flushers[g]) {
      assert g != f ==> FlusherOk(c, c.flushers[g]);
      SameFlusher(c, c', c'.flushers[g]);
    }
  }

  lemma TableKept(c: Collector, c': Collector)
    requires OutboxOk(c) && c'.enqueued == c.enqueued && c'.outbox == c.outbox && c'.depth == c.depth
    ensures OutboxOk(c')
    ensures PendingOrArrived(c) && c'.arrived == c.arrived ==> PendingOrArrived(c')
    ensures WireOk(c) && c'.arrived == c.arrived && c'.wire == c.wire ==> WireOk(c')
  {
  }

  lemma SameFlusher(c: Collector, c': Collector, f: Flusher)
    requires FlusherOk(c, f) && c'.enqueued == c.enqueued && c'.arrived == c.arrived
    ensures FlusherOk(c', f)
  {
  }

  lemma SendKeeps(c: Collector, f: nat)
    requires CollectorOk(c)
    ensures CollectorOk(CollectorStep(c, Send(f)))
  {
    if f < |c.flushers| && c.flushers[f].Ready? && c.flushers[f].batch != [] {
      var b := c.flushers[f].batch;
      assert FlusherOk(c, c.flushers[f]);
      HeadPreceded(c, b);
      hide BatchOk, OutboxOk, PendingOrArrived, FirstInOrder, Genuine;
      OneFlusher(c, f, Sending(b));
      var c' := c.(flushers := c.flushers[f := Sending(b)]);
      assert CollectorOk(c'.(wire := c.wire + {b[0]})) by {
        TableKept(c', c'.(wire := c.wire + {b[0]}));
        forall g | 0 <= g < |c'.flushers| ensures FlusherOk(c'.(wire := c.wire + {b[0]}), c'.flushers[g]) {
          assert FlusherOk(c', c'.flushers[g]);
        }
      }
    }
  }

  lemma HeadPreceded(c: Collector, b: seq<Row>)
    requires b != [] && BatchOk(c.enqueued, c.arrived, b)
    ensures IsGenuine(c.enqueued, b[0]) && Preceded(c.arrived, b[0].id)
  {
    assert PrecededIn(c.arrived, b, 0);
    assert forall k: nat :: !HasId(b[..0], k);
  }

  lemma ArriveKeeps(c: Collector, row: Row)
    requires CollectorOk(c)
    ensures CollectorOk(CollectorStep(c, Arrive(row)))
  {
    if row in c.wire {
      var c' := c.(arrived := c.arrived + [row]);
      hide BatchOk, OutboxOk, Genuine, FirstInOrder, Preceded, IsGenuine;
      TableKept(c, c');
      forall g | 0 <= g < |c'.flushers| ensures FlusherOk(c', c'.flushers[g]) {
        assert FlusherOk(c, c.flushers[g]);
        FlusherGrows(c, [], row, c.flushers[g]);
      }
      forall k: nat | k < |c'.enqueued| && !HasId(c'.outbox, k) ensures HasId(c'.arrived, k) {
        HasIdAppend(c.arrived, [row], k);
      }
      forall r | r in c'.wire ensures IsGenuine(c'.enqueued, r) && Preceded(c'.arrived, r.id) {
        PrecededGrows(c.arrived, row, r.id);
      }
      GenuineAppend(c.enqueued, c.arrived, row);
      FirstAppend(c.arrived, row);
    }
  }

  lemma GenuineAppend(enqueued: seq<Message>, rows: seq<Row>, row: Row)
    requires Genuine(enqueued, rows) && IsGenuine(enqueued, row)
    ensures Genuine(enqueued, rows + [row])
  {
  }

  lemma FirstAppend(arrived: seq<Row>, row: Row)
    requires FirstInOrder(arrived) && Preceded(arrived, row.id)
    ensures FirstInOrder(arrived + [row])
  {
    hide Preceded;
    var all := arrived + [row];
    forall p | 0 <= p < |all| ensures Preceded(all[..p], all[p].id) {
      if p < |arrived| {
        assert all[..p] == arrived[..p];
        assert Preceded(arrived[..p], arrived[p].id);
      } else {
        assert all[..p] == arrived;
      }
    }
  }

  lemma InHasId(rows: seq<Row>, r: Row)
    requires r in rows
    ensures HasId(rows, r.id)
  {
  }

  lemma ConfirmKeeps(c: Collector, f: nat)
    requires CollectorOk(c)
    ensures CollectorOk(CollectorStep(c, Confirm(f)))
  {
    if f < |c.flushers| && c.flushers[f].Sending? && c.flushers[f].batch != [] && c.flushers[f].batch[0] in c.arrived {
      InHasId(c.arrived, c.flushers[f].batch[0]);
      assert FlusherOk(c, c.flushers[f]);
      OneFlusher(c, f, Deleting(c.flushers[f].batch));
    }
  }

  lemma DeleteKeeps(c: Collector, f: nat)
    requires CollectorOk(c)
    ensures CollectorOk(CollectorStep(c, DeleteRow(f)))
  {
    if f < |c.flushers| && c.flushers[f].Deleting? && c.flushers[f].batch != [] {
      var b := c.flushers[f].batch;
      assert FlusherOk(c, c.flushers[f]);
      RestOk(c, b);
      OneFlusher(c, f, Rest(b));
      OutboxDelete(c.(flushers := c.flushers[f := Rest(b)]), b[0].id);
      hide Rest, Without;
      assert AfterDelete(c, b[0].id).(flushers := c.flushers[f := Rest(b)]) ==
             AfterDelete(c.(flushers := c.flushers[f := Rest(b)]), b[0].id);
    }
  }

  lemma RestOk(c: Collector, b: seq<Row>)
    requires b != [] && BatchOk(c.enqueued, c.arrived, b) && HasId(c.arrived, b[0].id)
    ensures FlusherOk(c, Rest(b))
  {
    if |b| > 1 {
      var rest := b[1..];
      forall i | 0 <= i < |rest| ensures PrecededIn(c.arrived, rest, i) {
        assert PrecededIn(c.arrived, b, i + 1);
        assert b[..i + 1] == [b[0]] + rest[..i];
        forall k: nat | k < rest[i].id ensures HasId(c.arrived, k) || HasId(rest[..i], k) {
          HasIdAppend([b[0]], rest[..i], k);
        }
      }
      assert Genuine(c.enqueued, rest);
    }
  }

  lemma OutboxDelete(c: Collector, id: nat)
    requires CollectorOk(c) && HasId(c.arrived, id)
    ensures CollectorOk(AfterDelete(c, id))
    ensures AfterDelete(c, id).depth == |Without(c.outbox, id)|
  {
    var left := Without(c.outbox, id);
    WithoutContents(c.outbox, id);
    if |left| != |c.outbox| {
      var c' := AfterDelete(c, id);
      assert Genuine(c.enqueued, left) by {
        forall i | 0 <= i < |left| ensures IsGenuine(c.enqueued, left[i]) {
          assert left[i] in c.outbox;
          var j :| 0 <= j < |c.outbox| && c.outbox[j] == left[i];
          assert IsGenuine(c.enqueued, c.outbox[j]);
        }
      }
      hide Without, BatchOk, Preceded, IsGenuine, FirstInOrder;
      forall k: nat | HasId(c.outbox, k) && k != id ensures HasId(left, k) {
        var j :| 0 <= j < |c.outbox| && c.outbox[j].id == k;
        InHasId(left, c.outbox[j]);
      }
      forall g | 0 <= g < |c'.flushers| ensures FlusherOk(c', c'.flushers[g]) {
        assert FlusherOk(c, c.flushers[g]);
      }
    }
  }

  lemma RestartKeeps(c: Collector, n: nat)
    requires CollectorOk(c)
    ensures CollectorOk(CollectorStep(c, Restart(n))) && CollectorOk(CollectorStep(c, Spawn))
  {
    hide BatchOk, Preceded, IsGenuine, FirstInOrder, Genuine;
    var c' := c.(flushers := c.flushers + [Idle]);
    forall g | 0 <= g < |c'.flushers| ensures FlusherOk(c', c'.flushers[g]) {
      assert g < |c.flushers| ==> FlusherOk(c, c.flushers[g]);
    }
  }

  lemma CollectorStepKeeps(c: Collector, s: Step)
    requires CollectorOk(c)
    ensures CollectorOk(CollectorStep(c, s))
  {
    hide CollectorOk;
    match s
    case Enqueue(events, fails) => EnqueueKeeps(c, events, fails);
    case Spawn => RestartKeeps(c, 0);
    case Restart(n) => RestartKeeps(c, n);
    case Peek(f, limit) => PeekKeeps(c, f, limit);
    case Send(f) => SendKeeps(c, f);
    case Arrive(row) => ArriveKeeps(c, row);
    case Confirm(f) => ConfirmKeeps(c, f);
    case Abort(f) => if f < |c.flushers| { assert FlusherOk(c, Idle); OneFlusher(c, f, Idle); }
    case DeleteRow(f) => DeleteKeeps(c, f);
    case _ =>
  }

  // ---- The receiver's invariant ----

  predicate PositionsOk(c: Collector, r: Receiver) {
    r.unacked <= r.delivered && forall p :: p in r.delivered ==> p < |c.arrived|
  }

  predicate Effected(r: Receiver, m: Message) {
    Validate(m).Rejected? || r.effects[EventIdOf(m)] > 0
  }

  /** What the broker may forget was rejected or took effect. */
  predicate AcknowledgedEffected(c: Collector, r: Receiver) {
    forall p: nat :: p in r.delivered && p !in r.unacked && p < |c.arrived| ==> Effected(r, c.arrived[p].message)
  }

  predicate AccountedFor(r: Receiver, e: EventId) {
    r.effects[e] == r.forgotten[e] + if e in r.tables.ingested then 1 else 0
  }

  /** Between two effects of one event its deduplication row was pruned. */
  ghost predicate Accounted(r: Receiver) {
    forall e :: AccountedFor(r, e)
  }

  predicate TopicPrefix(c: Collector, r: Receiver, p: nat) {
    p < |c.arrived| && InOrder(c, r, p)
  }

  /** First deliveries keep each topic's order. */
  predicate TopicsInOrder(c: Collector, r: Receiver) {
    forall p :: p in r.delivered ==> TopicPrefix(c, r, p)
  }

  ghost predicate ReceiverOk(c: Collector, r: Receiver) {
    PositionsOk(c, r) && AcknowledgedEffected(c, r) && Accounted(r) && TopicsInOrder(c, r)
  }

  lemma HandleFacts(t: Tables, m: Message, down: bool)
    ensures var h := Handle(t, m, down);
      && (Validate(m).Rejected? ==> h == Handled(true, false, t))
      && (!h.inserted ==> h.tables == t)
      && (h.inserted ==> h.ack && !Validate(m).Rejected?)
      && (h.inserted ==> EventIdOf(m) !in t.ingested && h.tables.ingested.Keys == t.ingested.Keys + {EventIdOf(m)})
      && (h.ack && !h.inserted && !Validate(m).Rejected? ==> EventIdOf(m) in t.ingested)
  {
    hide Validate;
  }

  lemma DeliverableParts(c: Collector, r: Receiver, p: nat)
    requires Deliverable(c, r, p)
    ensures p < |c.arrived| && (p in r.unacked || (p !in r.delivered && InOrder(c, r, p)))
  {
  }

  lemma ReceiveAccounts(r: Receiver, r': Receiver, m: Message, inserted: bool)
    requires Accounted(r) && r'.forgotten == r.forgotten
    requires inserted ==> !Validate(m).Rejected? && EventIdOf(m) !in r.tables.ingested
    requires r'.tables.ingested.Keys == r.tables.ingested.Keys + if inserted then {EventIdOf(m)} else {}
    requires r'.effects == if inserted then r.effects + multiset{EventIdOf(m)} else r.effects
    ensures Accounted(r')
  {
    hide Validate, EventIdOf;
    forall e ensures AccountedFor(r', e) {
      assert AccountedFor(r, e);
    }
  }

  lemma ReceiveKeeps(c: Collector, r: Receiver, p: nat, down: bool, ackLost: bool)
    requires ReceiverOk(c, r) && Deliverable(c, r, p)
    ensures ReceiverOk(c, Receive(r, p, c.arrived[p].message, down, ackLost))
  {
    DeliverableParts(c, r, p);
    var m := c.arrived[p].message;
    var r' := Receive(r, p, m, down, ackLost);
    HandleFacts(r.tables, m, down);
    hide Validate, Handle, EventIdOf, Deliverable, InOrder, AcknowledgedEffected, Accounted, TopicsInOrder, Effected;
    var h := Handle(r.tables, m, down);
    ReceiveAccounts(r, r', m, h.inserted);
    AcknowledgedGrow(c, r, r', p, h.ack);
    TopicsGrow(c, r, r', p);
  }

  lemma AcknowledgedGrow(c: Collector, r: Receiver, r': Receiver, p: nat, ack: bool)
    requires AcknowledgedEffected(c, r) && Accounted(r') && p < |c.arrived|
    requires r'.delivered == r.delivered + {p}
    requires r'.unacked == r.unacked + {p} || (ack && r'.unacked == r.unacked - {p})
    requires forall e :: r'.effects[e] >= r.effects[e]
    requires var m := c.arrived[p].message;
      ack && !Validate(m).Rejected? ==> EventIdOf(m) in r'.tables.ingested
    ensures AcknowledgedEffected(c, r')
  {
    hide Validate, EventIdOf;
    forall q: nat | q in r'.delivered && q !in r'.unacked && q < |c.arrived|
      ensures Effected(r', c.arrived[q].message)
    {
      var m := c.arrived[q].message;
      if q == p {
        assert !Validate(m).Rejected? ==> AccountedFor(r', EventIdOf(m));
      } else {
        assert Effected(r, m);
      }
    }
  }

  lemma TopicsGrow(c: Collector, r: Receiver, r': Receiver, p: nat)
    requires PositionsOk(c, r) && TopicsInOrder(c, r) && p < |c.arrived| && r'.delivered == r.delivered + {p}
    requires p in r.unacked || (p !in r.delivered && InOrder(c, r, p))
    ensures TopicsInOrder(c, r')
  {
    forall q | q in r'.delivered ensures TopicPrefix(c, r', q) {
      assert q != p ==> TopicPrefix(c, r, q);
      assert q == p && p in r.unacked ==> TopicPrefix(c, r, p);
    }
  }

  lemma PruneKeeps(c: Collector, r: Receiver, s: Step)
    requires ReceiverOk(c, r) && s.Prune?
    ensures ReceiverOk(c, ReceiverStep(c, r, s))
  {
    hide Validate;
    var r' := ReceiverStep(c, r, s);
    var gone := r.tables.ingested.Keys * s.ingested;
    forall e ensures AccountedFor(r', e) {
      assert AccountedFor(r, e);
      assert multiset(gone)[e] == if e in gone then 1 else 0;
    }
    forall p: nat | p in r'.delivered && p !in r'.unacked && p < |c.arrived|
      ensures Effected(r', c.arrived[p].message)
    {
      assert Effected(r, c.arrived[p].message);
    }
    forall p | p in r'.delivered ensures TopicPrefix(c, r', p) {
      assert TopicPrefix(c, r, p);
    }
  }

  /** The collector only ever appends to the broker's arrivals. */
  lemma ArrivedGrows(c: Collector, s: Step)
    ensures c.arrived <= CollectorStep(c, s).arrived && c.enqueued <= CollectorStep(c, s).enqueued
  {
    hide Without, MessagesOf, Appended;
  }

  lemma ReceiverOkGrows(c: Collector, c': Collector, r: Receiver)
    requires ReceiverOk(c, r) && c.arrived <= c'.arrived
    ensures ReceiverOk(c', r)
  {
    hide Validate;
    assert forall p :: 0 <= p < |c.arrived| ==> c'.arrived[p] == c.arrived[p];
    forall p: nat | p in r.delivered && p !in r.unacked && p < |c'.arrived| ensures Effected(r, c'.arrived[p].message) {
      assert Effected(r, c.arrived[p].message);
    }
    forall p | p in r.delivered ensures TopicPrefix(c', r, p) {
      assert TopicPrefix(c, r, p);
    }
  }

  ghost predicate SystemOk(s: System) {
    CollectorOk(s.c) && ReceiverOk(s.c, s.r)
  }

  lemma StepKeeps(s: System, step: Step)
    requires SystemOk(s)
    ensures SystemOk(Take(s, step))
  {
    hide *;
    var c', r' := CollectorStep(s.c, step), ReceiverStep(s.c, s.r, step);
    SystemParts(s.c, s.r);
    CollectorStepKeeps(s.c, step);
    ReceiverStepKeeps(s.c, s.r, step);
    ArrivedGrows(s.c, step);
    ReceiverOkGrows(s.c, c', r');
    TakeParts(s, step);
    SystemParts(c', r');
  }

  lemma SystemParts(c: Collector, r: Receiver)
    ensures SystemOk(System(c, r)) <==> CollectorOk(c) && ReceiverOk(c, r)
  {
    hide CollectorOk, ReceiverOk;
  }

  /** One step, half by half; the receiver only moves on deliveries and prunings. */
  lemma TakeParts(s: System, step: Step)
    ensures Take(s, step) == System(CollectorStep(s.c, step), ReceiverStep(s.c, s.r, step))
    ensures step.Deliver? && Deliverable(s.c, s.r, step.p) ==>
      ReceiverStep(s.c, s.r, step) == Receive(s.r, step.p, s.c.arrived[step.p].message, step.down, step.ackLost)
    ensures step.Deliver? && !Deliverable(s.c, s.r, step.p) ==> ReceiverStep(s.c, s.r, step) == s.r
    ensures !step.Deliver? && !step.Prune? ==> ReceiverStep(s.c, s.r, step) == s.r
    ensures step.Deliver? && Deliverable(s.c, s.r, step.p) ==> step.p < |s.c.arrived|
  {
    hide CollectorStep, Receive, InOrder;
  }

  lemma ReceiverStepKeeps(c: Collector, r: Receiver, s: Step)
    requires ReceiverOk(c, r)
    ensures ReceiverOk(c, ReceiverStep(c, r, s))
  {
    hide ReceiverOk, Receive, InOrder;
    match s
    case Deliver(p, down, ackLost) => if Deliverable(c, r, p) { ReceiveKeeps(c, r, p, down, ackLost); }
    case Prune(_, _, _) => PruneKeeps(c, r, s);
    case _ =>
  }

  lemma {:induction false} RunOk(max: int, steps: seq<Step>)
    ensures SystemOk(Run(max, steps))
  {
    if steps != [] {
      RunOk(max, steps[..|steps| - 1]);
      StepKeeps(Run(max, steps[..|steps| - 1]), steps[|steps| - 1]);
    }
  }

  // ---- Main results ----

  /** Whatever flushers overlap: a row id handed to the transport, and a row id first reaching the broker,
      come after every smaller id reached it. */
  lemma FirstDeliveriesInOrder(max: int, steps: seq<Step>)
    ensures var c := Run(max, steps).c;
      && (forall r :: r in c.wire ==> Preceded(c.arrived, r.id))
      && (forall p :: 0 <= p < |c.arrived| ==> Preceded(c.arrived[..p], c.arrived[p].id))
  {
    RunOk(max, steps);
  }

  /** The counter is the row count and respects a positive bound. */
  lemma DepthIsRowCount(max: int, steps: seq<Step>)
    ensures var c := Run(max, steps).c;
      c.depth == |c.outbox| && Increasing(c.outbox) && Genuine(c.enqueued, c.outbox)
    ensures var c := Run(max, steps).c;
      max > 0 ==> |c.outbox| <= max
  {
    RunOk(max, steps);
    MaxConstant(max, steps);
  }

  lemma {:induction false} MaxConstant(max: int, steps: seq<Step>)
    ensures Run(max, steps).c.max == max
  {
    if steps != [] {
      MaxConstant(max, steps[..|steps| - 1]);
      hide Without, MessagesOf, Appended;
    }
  }

  predicate AtBroker(s: System, k: nat) {
    exists p: nat :: p < |s.c.arrived| && s.c.arrived[p].id == k && (p !in s.r.delivered || p in s.r.unacked)
  }

  /** No accepted message is lost: it is pending, held by the broker, rejected, or it took effect. */
  lemma NoLoss(max: int, steps: seq<Step>, k: nat)
    requires k < |Run(max, steps).c.enqueued|
    ensures var s := Run(max, steps);
      Row(k, s.c.enqueued[k]) in s.c.outbox || AtBroker(s, k) || Effected(s.r, s.c.enqueued[k])
  {
    var s := Run(max, steps);
    RunOk(max, steps);
    NoLossAt(s, k);
  }

  lemma NoLossAt(s: System, k: nat)
    requires SystemOk(s) && k < |s.c.enqueued|
    ensures Row(k, s.c.enqueued[k]) in s.c.outbox || AtBroker(s, k) || Effected(s.r, s.c.enqueued[k])
  {
    hide Validate;
    if HasId(s.c.outbox, k) {
      var i :| 0 <= i < |s.c.outbox| && s.c.outbox[i].id == k;
      assert IsGenuine(s.c.enqueued, s.c.outbox[i]);
    } else {
      assert HasId(s.c.arrived, k);
      var p :| 0 <= p < |s.c.arrived| && s.c.arrived[p].id == k;
      assert IsGenuine(s.c.enqueued, s.c.arrived[p]);
      if p in s.r.delivered && p !in s.r.unacked {
        assert Effected(s.r, s.c.arrived[p].message);
      }
    }
  }

  /** An event takes effect once more only after its deduplication row was pruned. */
  lemma OneEffect(max: int, steps: seq<Step>, e: EventId)
    ensures var r := Run(max, steps).r;
      && r.effects[e] == r.forgotten[e] + (if e in r.tables.ingested then 1 else 0)
      && (r.forgotten[e] == 0 ==> r.effects[e] <= 1)
  {
    RunOk(max, steps);
    assert AccountedFor(Run(max, steps).r, e);
  }
}
