/** The plainest run: a whole history is accepted, published in order and removed from the table. */
module PublishedRuns {
  import opened Ids
  import opened Contract
  import opened Ingestion
  import opened Outbox
  import opened Delivery

  lemma RunNext(max: int, steps: seq<Step>, step: Step)
    ensures Run(max, steps + [step]) == Take(Run(max, steps), step)
  {
    assert (steps + [step])[..|steps|] == steps;
  }

  function EventOf(m: Message): PendingEvent {
    PendingEvent(m.topic, Some(m.payload))
  }

  function EventsFor(ms: seq<Message>): seq<PendingEvent> {
    seq(|ms|, i requires 0 <= i < |ms| => EventOf(ms[i]))
  }

  function RowsFor(ms: seq<Message>): seq<Row> {
    seq(|ms|, i requires 0 <= i < |ms| => Row(i, ms[i]))
  }

  /** Histories that the outbox accepts. */
  predicate Topical(ms: seq<Message>) {
    forall i :: 0 <= i < |ms| ==> ms[i].topic != ""
  }

  // One collector step with a single flusher, state by state.
  lemma OneStep(c: Collector, b: seq<Row>)
    requires b != []
    ensures CollectorStep(c.(flushers := [Ready(b)]), Send(0)) == c.(flushers := [Sending(b)], wire := c.wire + {b[0]})
    ensures b[0] in c.wire ==> CollectorStep(c, Arrive(b[0])) == c.(arrived := c.arrived + [b[0]])
    ensures b[0] in c.arrived ==>
      CollectorStep(c.(flushers := [Sending(b)]), Confirm(0)) == c.(flushers := [Deleting(b)])
  {
  }

  lemma DeleteStep(c: Collector, b: seq<Row>)
    requires b != [] && Increasing(c.outbox) && b == c.outbox && c.depth == |c.outbox|
    ensures CollectorStep(c.(flushers := [Deleting(b)]), DeleteRow(0)) ==
      c.(outbox := b[1..], depth := c.depth - 1, flushers := [Rest(b)])
  {
    WithoutHead(b);
    hide Without, Rest;
  }

  function FlushSteps(r: Row): seq<Step> {
    [Send(0), Arrive(r), Confirm(0), DeleteRow(0)]
  }

  function FlushedHead(c: Collector, b: seq<Row>): Collector
    requires b != []
  {
    c.(outbox := b[1..], depth := c.depth - 1, flushers := [Rest(b)],
       wire := c.wire + {b[0]}, arrived := c.arrived + [b[0]])
  }

  /** A single flusher is about to publish the whole table. */
  predicate FlushReady(c: Collector, b: seq<Row>) {
    b != [] && Increasing(b) && c.outbox == b && c.depth == |b| && c.flushers == [Ready(b)]
  }

  /** Publishing and deleting the oldest row, in a run. */
  lemma FlushRun(max: int, steps: seq<Step>, s: System, b: seq<Row>)
    requires FlushReady(s.c, b) && Run(max, steps) == s
    ensures Run(max, steps + FlushSteps(b[0])) == System(FlushedHead(s.c, b), s.r)
  {
    var c, r := s.c, b[0];
    var c1 := c.(flushers := [Sending(b)], wire := c.wire + {r});
    var c2 := c1.(arrived := c.arrived + [r]);
    var c3 := c2.(flushers := [Deleting(b)]);
    assert c == c.(flushers := [Ready(b)]);
    OneStep(c, b);
    OneStep(c1, b);
    OneStep(c2, b);
    DeleteStep(c2, b);
    hide CollectorStep, Run, Rest;
    FourMore(max, steps, Send(0), Arrive(r), Confirm(0), DeleteRow(0));
    TakeParts(s, Send(0));
    TakeParts(System(c1, s.r), Arrive(r));
    assert c2 == c2.(flushers := [Sending(b)]);
    TakeParts(System(c2, s.r), Confirm(0));
    TakeParts(System(c3, s.r), DeleteRow(0));
  }

  lemma FourMore(max: int, steps: seq<Step>, a: Step, b: Step, c: Step, d: Step)
    ensures Run(max, steps + [a, b, c, d]) == Take(Take(Take(Take(Run(max, steps), a), b), c), d)
  {
    hide Run, Take;
    RunNext(max, steps, a);
    RunNext(max, steps + [a], b);
    RunNext(max, steps + [a] + [b], c);
    RunNext(max, steps + [a] + [b] + [c], d);
    assert steps + [a] + [b] + [c] + [d] == steps + [a, b, c, d];
  }

  function FlushAll(b: seq<Row>): seq<Step> {
    if b == [] then [] else FlushSteps(b[0]) + FlushAll(b[1..])
  }

  lemma FlushedReady(c: Collector, b: seq<Row>)
    requires FlushReady(c, b) && |b| > 1
    ensures FlushReady(FlushedHead(c, b), b[1..])
  {
  }

  function Flushed(c: Collector, b: seq<Row>): Collector {
    c.(outbox := [], depth := 0, flushers := [Idle], wire := c.wire + Elems(b), arrived := c.arrived + b)
  }

  lemma FlushedNext(c: Collector, b: seq<Row>)
    requires FlushReady(c, b)
    ensures |b| == 1 ==> FlushedHead(c, b) == Flushed(c, b)
    ensures |b| > 1 ==> Flushed(FlushedHead(c, b), b[1..]) == Flushed(c, b)
  {
    assert b == [b[0]] + b[1..];
    assert Elems(b) == {b[0]} + Elems(b[1..]);
    if |b| > 1 {
      assert c.arrived + [b[0]] + b[1..] == c.arrived + b;
      assert c.wire + {b[0]} + Elems(b[1..]) == c.wire + Elems(b);
    } else {
      assert b == [b[0]];
    }
  }

  lemma FlushAllNext(steps: seq<Step>, b: seq<Row>)
    requires b != []
    ensures |b| == 1 ==> steps + FlushAll(b) == steps + FlushSteps(b[0])
    ensures steps + FlushAll(b) == steps + FlushSteps(b[0]) + FlushAll(b[1..])
  {
    FlushAllUnfold(b);
    hide *;
    Regroup(steps, FlushSteps(b[0]), FlushAll(b[1..]));
  }

  lemma FlushAllUnfold(b: seq<Row>)
    requires b != []
    ensures FlushAll(b) == FlushSteps(b[0]) + FlushAll(b[1..]) && (|b| == 1 ==> FlushAll(b[1..]) == [])
  {
    hide FlushSteps;
  }

  lemma Regroup<T>(a: seq<T>, b: seq<T>, c: seq<T>)
    ensures a + (b + c) == a + b + c && (c == [] ==> a + (b + c) == a + b)
  {
  }

  lemma {:induction false} FlushAllRun(max: int, steps: seq<Step>, s: System, b: seq<Row>)
    requires FlushReady(s.c, b) && Run(max, steps) == s
    ensures Run(max, steps + FlushAll(b)) == System(Flushed(s.c, b), s.r)
    decreases |b|
  {
    assert b != [];
    hide *;
    FlushRun(max, steps, s, b);
    FlushedNext(s.c, b);
    FlushAllNext(steps, b);
    if |b| > 1 {
      FlushedReady(s.c, b);
      FlushAllRun(max, steps + FlushSteps(b[0]), System(FlushedHead(s.c, b), s.r), b[1..]);
    }
  }

  function LoadSteps(ms: seq<Message>): seq<Step> {
    [Enqueue(EventsFor(ms), false), Spawn, Peek(0, |ms|)]
  }

  function LoadedCollector(ms: seq<Message>, flushers: seq<Flusher>): Collector {
    Collector(ms, RowsFor(ms), |ms|, 0, flushers, {}, [])
  }

  lemma LoadParts(ms: seq<Message>)
    requires Topical(ms) && ms != []
    ensures CollectorStep(Start(0).c, Enqueue(EventsFor(ms), false)) == LoadedCollector(ms, [])
    ensures CollectorStep(LoadedCollector(ms, []), Spawn) == LoadedCollector(ms, [Idle])
    ensures CollectorStep(LoadedCollector(ms, [Idle]), Peek(0, |ms|)) == LoadedCollector(ms, [Ready(RowsFor(ms))])
  {
    assert AllComplete(EventsFor(ms));
    assert MessagesOf(EventsFor(ms)) == ms;
    assert Appended([], 0, ms) == RowsFor(ms);
    assert RowsFor(ms)[..|ms|] == RowsFor(ms);
  }

  lemma LoadRun(ms: seq<Message>)
    requires Topical(ms) && ms != []
    ensures Run(0, LoadSteps(ms)) == System(LoadedCollector(ms, [Ready(RowsFor(ms))]), Start(0).r)
  {
    LoadParts(ms);
    var e, r := Enqueue(EventsFor(ms), false), Start(0).r;
    EmptyRun();
    hide CollectorStep, Run, RowsFor, EventsFor;
    RunNext(0, [], e);
    RunNext(0, [e], Spawn);
    RunNext(0, [e, Spawn], Peek(0, |ms|));
    assert [] + [e] == [e] && [e] + [Spawn] == [e, Spawn] && [e, Spawn] + [Peek(0, |ms|)] == LoadSteps(ms);
    TakeParts(Start(0), e);
    TakeParts(System(LoadedCollector(ms, []), r), Spawn);
    TakeParts(System(LoadedCollector(ms, [Idle]), r), Peek(0, |ms|));
  }

  lemma EmptyRun()
    ensures Run(0, []) == Start(0)
  {
  }

  function Published(ms: seq<Message>): seq<Step> {
    LoadSteps(ms) + FlushAll(RowsFor(ms))
  }

  /** Everything is at the broker and nothing is pending. */
  function Shipped(ms: seq<Message>): Collector {
    Collector(ms, [], 0, 0, [Idle], Elems(RowsFor(ms)), RowsFor(ms))
  }

  lemma PublishedRun(ms: seq<Message>)
    requires Topical(ms) && ms != []
    ensures Run(0, Published(ms)) == System(Shipped(ms), Start(0).r)
  {
    LoadRun(ms);
    var b := RowsFor(ms);
    var s := System(LoadedCollector(ms, [Ready(b)]), Start(0).r);
    assert FlushReady(s.c, b);
    hide Run, RowsFor, LoadSteps, FlushAll, FlushReady;
    FlushAllRun(0, LoadSteps(ms), s, b);
    assert [] + b == b && {} + Elems(b) == Elems(b);
  }

  /** One delivery after everything was published. */
  lemma DeliverNext(ms: seq<Message>, steps: seq<Step>, r: Receiver, p: nat, down: bool, ackLost: bool)
    requires Run(0, steps) == System(Shipped(ms), r) && Deliverable(Shipped(ms), r, p)
    ensures p < |ms|
    ensures Run(0, steps + [Deliver(p, down, ackLost)]) == System(Shipped(ms), Receive(r, p, ms[p], down, ackLost))
  {
    hide Run, Receive;
    RunNext(0, steps, Deliver(p, down, ackLost));
    TakeParts(System(Shipped(ms), r), Deliver(p, down, ackLost));
  }
}
