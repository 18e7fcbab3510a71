/** What the outbox classes do, as runs of the delivery protocol: whatever one call may do, the state machine can do
    in steps. */
module OutboxRuns {
  import opened Ids
  import opened Contract
  import opened Outbox
  import opened Delivery
  import opened PublishedRuns

  predicate Unpruned(steps: seq<Step>) {
    forall i :: 0 <= i < |steps| ==> !steps[i].Prune?
  }

  lemma UnprunedBoth(a: seq<Step>, b: seq<Step>)
    requires Unpruned(a) && Unpruned(b)
    ensures Unpruned(a + b)
  {
  }

  /** The collector after a flusher sent the `n` oldest rows and deleted them. */
  function After(c: Collector, f: nat, n: nat, flusher: Flusher): Collector
    requires f < |c.flushers| && n <= |c.outbox|
  {
    c.(outbox := c.outbox[n..], depth := |c.outbox| - n, arrived := c.arrived + c.outbox[..n],
       wire := c.wire + Elems(c.outbox[..n]), flushers := c.flushers[f := flusher])
  }

  predicate Working(c: Collector, f: nat, b: seq<Row>) {
    && f < |c.flushers| && c.flushers[f] == Ready(b) && b != [] && b <= c.outbox
    && Increasing(c.outbox) && c.depth == |c.outbox|
  }

  function LeftOf(b: seq<Row>, n: nat): Flusher
    requires n <= |b|
  {
    if n == |b| then Idle else Ready(b[n..])
  }

  lemma RowSteps(c: Collector, f: nat, b: seq<Row>, s1: Collector, s2: Collector, s3: Collector)
    requires Working(c, f, b)
    requires s1 == CollectorStep(c, Send(f)) && s2 == CollectorStep(s1, Arrive(b[0]))
    requires s3 == CollectorStep(s2, Confirm(f))
    ensures CollectorStep(s3, DeleteRow(f)) == After(c, f, 1, LeftOf(b, 1))
    ensures CollectorStep(s1, Abort(f)) == c.(wire := c.wire + {b[0]}, flushers := c.flushers[f := Idle])
    ensures CollectorStep(s2, Abort(f)) ==
      c.(wire := c.wire + {b[0]}, arrived := c.arrived + [b[0]], flushers := c.flushers[f := Idle])
  {
    WithoutHead(c.outbox);
    hide Without, Increasing;
    assert b[0] == c.outbox[0];
    assert s1.flushers == c.flushers[f := Sending(b)];
    assert s2.flushers == s1.flushers && b[0] in s2.arrived;
    assert s3.flushers == c.flushers[f := Deleting(b)];
    assert c.outbox[..1] == [b[0]] && Elems([b[0]]) == {b[0]};
    var end := CollectorStep(s3, DeleteRow(f));
    assert end.flushers == c.flushers[f := LeftOf(b, 1)];
  }

  lemma OneMore(max: int, steps: seq<Step>, step: Step)
    requires !step.Deliver? && !step.Prune?
    ensures Run(max, steps + [step]) == System(CollectorStep(Run(max, steps).c, step), Run(max, steps).r)
  {
    hide Run, CollectorStep;
    RunNext(max, steps, step);
    TakeParts(Run(max, steps), step);
  }

  /** One row, as published and deleted, or as given up before or after it reached the broker. */
  lemma RowRuns(max: int, steps: seq<Step>, f: nat, b: seq<Row>)
    requires Working(Run(max, steps).c, f, b)
    ensures var s, sent := Run(max, steps), [Send(f), Arrive(b[0])];
      && Run(max, steps + sent + [Confirm(f), DeleteRow(f)]) == System(After(s.c, f, 1, LeftOf(b, 1)), s.r)
      && Run(max, steps + sent + [Abort(f)]) ==
         System(s.c.(wire := s.c.wire + {b[0]}, arrived := s.c.arrived + [b[0]],
                     flushers := s.c.flushers[f := Idle]), s.r)
  {
    var s, x1, x2 := Run(max, steps), steps + [Send(f)], steps + [Send(f), Arrive(b[0])];
    var s1 := CollectorStep(s.c, Send(f));
    var s2 := CollectorStep(s1, Arrive(b[0]));
    var s3 := CollectorStep(s2, Confirm(f));
    RowSteps(s.c, f, b, s1, s2, s3);
    hide Run, CollectorStep, Working, After;
    assert x2 == x1 + [Arrive(b[0])] && x2 + [Confirm(f), DeleteRow(f)] == x2 + [Confirm(f)] + [DeleteRow(f)];
    OneMore(max, steps, Send(f));
    OneMore(max, x1, Arrive(b[0]));
    OneMore(max, x2, Abort(f));
    OneMore(max, x2, Confirm(f));
    OneMore(max, x2 + [Confirm(f)], DeleteRow(f));
  }

  lemma StillWorking(c: Collector, f: nat, b: seq<Row>, n: nat)
    requires Working(c, f, b) && 0 < n <= |b|
    ensures var c' := After(c, f, 1, LeftOf(b, 1));
      && (|b| > 1 ==> Working(c', f, b[1..]))
      && After(c', f, n - 1, LeftOf(b[1..], n - 1)) == After(c, f, n, LeftOf(b, n))
  {
    var rows := c.outbox;
    assert rows[1..][..n - 1] == rows[1..n] && rows[..n] == rows[..1] + rows[1..n];
    assert rows[1..][n - 1..] == rows[n..];
    assert Elems(rows[..n]) == Elems(rows[..1]) + Elems(rows[1..n]);
    assert c.arrived + rows[..1] + rows[1..n] == c.arrived + rows[..n];
    assert n < |b| ==> b[1..][n - 1..] == b[n..];
    var flushers := c.flushers[f := LeftOf(b, 1)];
    assert flushers[f := LeftOf(b[1..], n - 1)] == c.flushers[f := LeftOf(b, n)];
    assert |b| > 1 ==> forall k :: 0 <= k < |b| - 1 ==> b[1..][k] == rows[1..][k];
  }

  lemma {:induction false} RowsRun(max: int, steps: seq<Step>, f: nat, b: seq<Row>, n: nat) returns (more: seq<Step>)
    requires Working(Run(max, steps).c, f, b) && n <= |b|
    ensures Unpruned(more)
    ensures n <= |Run(max, steps).c.outbox| && f < |Run(max, steps).c.flushers|
    ensures var s := Run(max, steps);
      Run(max, steps + more) == System(After(s.c, f, n, LeftOf(b, n)), s.r)
    decreases n
  {
    hide *;
    var s := Run(max, steps);
    BatchFits(s.c, f, b);
    if n == 0 {
      more := [];
      assert Unpruned(more) by { NoPrune(f, b[0]); }
      assert steps + more == steps;
      NothingYet(s.c, f, b);
    } else {
      RowRuns(max, steps, f, b);
      StillWorking(s.c, f, b, n);
      var x := [Send(f), Arrive(b[0])] + [Confirm(f), DeleteRow(f)];
      assert steps + [Send(f), Arrive(b[0])] + [Confirm(f), DeleteRow(f)] == steps + x;
      NoPrune(f, b[0]);
      if n == 1 {
        more := x;
      } else {
        var rest := RowsRun(max, steps + x, f, b[1..], n - 1);
        UnprunedBoth(x, rest);
        more := x + rest;
        assert steps + x + rest == steps + more;
      }
    }
  }

  lemma NoPrune(f: nat, row: Row)
    ensures Unpruned([]) && Unpruned([Abort(f)]) && Unpruned([Send(f), Arrive(row)] + [Abort(f)])
    ensures Unpruned([Send(f), Arrive(row)] + [Confirm(f), DeleteRow(f)])
    ensures forall limit :: Unpruned([Peek(f, limit)])
  {
  }

  lemma NothingYet(c: Collector, f: nat, b: seq<Row>)
    requires Working(c, f, b)
    ensures After(c, f, 0, LeftOf(b, 0)) == c
  {
    assert c.outbox[..0] == [] && c.outbox[0..] == c.outbox && b[0..] == b;
    assert c.arrived + [] == c.arrived && c.wire + {} == c.wire;
    assert c.flushers[f := c.flushers[f]] == c.flushers;
  }

  lemma BatchFits(c: Collector, f: nat, b: seq<Row>)
    requires Working(c, f, b)
    ensures 1 <= |b| <= |c.outbox| && f < |c.flushers|
  {
  }

  /** What `BufferedPublisher.FlushOnce` promises of one call: `n` rows are gone, and they, or one row more, reached the
      broker in order. The flusher has nothing in hand afterwards. */
  ghost predicate FlushedTo(s: System, end: System, n: nat, oneMore: bool)
    requires n + (if oneMore then 1 else 0) <= |s.c.outbox|
  {
    && end.r == s.r && end.c.enqueued == s.c.enqueued && end.c.flushers == s.c.flushers
    && end.c.outbox == s.c.outbox[n..] && end.c.depth == |end.c.outbox|
    && Sent(Contents(s.c.arrived), s.c.outbox, if oneMore then n + 1 else n, Contents(end.c.arrived))
  }

  lemma PeekRuns(max: int, steps: seq<Step>, f: nat, batchSize: nat)
    requires var c := Run(max, steps).c; f < |c.flushers| && c.flushers[f] == Idle && c.outbox != [] && batchSize > 0
    ensures var s := Run(max, steps);
      var b := s.c.outbox[..Least(batchSize, |s.c.outbox|)];
      && Run(max, steps + [Peek(f, batchSize)]) == System(s.c.(flushers := s.c.flushers[f := Ready(b)]), s.r)
      && Working(s.c.(flushers := s.c.flushers[f := Ready(b)]), f, b)
  {
    OneMore(max, steps, Peek(f, batchSize));
    DepthIsRowCount(max, steps);
    hide Run, Increasing;
  }

  lemma ContentsGrow(before: seq<Row>, rows: seq<Row>, n: nat)
    requires n <= |rows|
    ensures Sent(Contents(before), rows, n, Contents(before + rows[..n]))
    ensures n < |rows| ==> Sent(Contents(before), rows, n + 1, Contents(before + rows[..n] + [rows[n]]))
  {
    assert Contents(before + rows[..n]) == Contents(before) + Contents(rows[..n]);
    if n < |rows| {
      assert rows[..n + 1] == rows[..n] + [rows[n]];
      assert Contents(before + rows[..n] + [rows[n]]) == Contents(before) + Contents(rows[..n + 1]);
    }
  }

  lemma GivesUp(max: int, steps: seq<Step>, f: nat, b: seq<Row>, oneMore: bool) returns (more: seq<Step>)
    requires Working(Run(max, steps).c, f, b)
    ensures Unpruned(more)
    ensures var s, end := Run(max, steps), Run(max, steps + more);
      && end.r == s.r && end.c.enqueued == s.c.enqueued && end.c.flushers == s.c.flushers[f := Idle]
      && end.c.outbox == s.c.outbox && end.c.depth == s.c.depth
      && end.c.arrived == if oneMore then s.c.arrived + [b[0]] else s.c.arrived
  {
    if oneMore {
      RowRuns(max, steps, f, b);
      hide Run;
      more := [Send(f), Arrive(b[0])] + [Abort(f)];
      assert steps + [Send(f), Arrive(b[0])] + [Abort(f)] == steps + more;
    } else {
      OneMore(max, steps, Abort(f));
      hide Run;
      more := [Abort(f)];
    }
  }

  lemma GivenUp(c: Collector, c': Collector, f: nat, b: seq<Row>, n: nat)
    requires Working(c, f, b) && n < |b| && c' == After(c, f, n, LeftOf(b, n))
    ensures Working(c', f, b[n..]) && b[n..][0] == c.outbox[n]
  {
    assert forall k :: 0 <= k < |b| - n ==> b[n..][k] == c.outbox[n..][k];
  }

  /** The flusher has taken its batch and goes on to such an end. */
  lemma FlushGoesOn(max: int, steps: seq<Step>, s: System, f: nat, b: seq<Row>, n: nat, oneMore: bool)
    returns (more: seq<Step>)
    requires f < |s.c.flushers| && s.c.flushers[f] == Idle && b <= s.c.outbox && n + (if oneMore then 1 else 0) <= |b|
    requires Run(max, steps) == System(s.c.(flushers := s.c.flushers[f := Ready(b)]), s.r)
    requires Working(Run(max, steps).c, f, b)
    ensures Unpruned(more) && FlushedTo(s, Run(max, steps + more), n, oneMore)
  {
    var c := Run(max, steps).c;
    hide Run, Working, Sent, Contents, After, LeftOf;
    more := RowsRun(max, steps, f, b, n);
    ContentsGrow(s.c.arrived, s.c.outbox, n);
    IdleAgain(s.c, c, f, n, b);
    if n < |b| {
      GivenUp(c, After(c, f, n, LeftOf(b, n)), f, b, n);
      var last := GivesUp(max, steps + more, f, b[n..], oneMore);
      assert steps + more + last == steps + (more + last);
      UnprunedBoth(more, last);
      more := more + last;
    }
  }

  /** From every reachable state, every end that one call of `FlushOnce` allows, with or without an error, is the end of
      a run of the protocol's steps by one idle flusher. */
  lemma FlushIsARun(max: int, steps: seq<Step>, f: nat, batchSize: nat, n: nat, oneMore: bool)
    requires var c := Run(max, steps).c; f < |c.flushers| && c.flushers[f] == Idle && c.outbox != [] && batchSize > 0
    requires n + (if oneMore then 1 else 0) <= Least(batchSize, |Run(max, steps).c.outbox|)
    ensures exists more :: Unpruned(more) && FlushedTo(Run(max, steps), Run(max, steps + more), n, oneMore)
  {
    hide *;
    var s := Run(max, steps);
    var b := s.c.outbox[..Least(batchSize, |s.c.outbox|)];
    PeekRuns(max, steps, f, batchSize);
    var more := FlushGoesOn(max, steps + [Peek(f, batchSize)], s, f, b, n, oneMore);
    assert steps + [Peek(f, batchSize)] + more == steps + ([Peek(f, batchSize)] + more);
    NoPrune(f, s.c.outbox[0]);
    UnprunedBoth([Peek(f, batchSize)], more);
  }

  lemma IdleAgain(c: Collector, c': Collector, f: nat, n: nat, b: seq<Row>)
    requires f < |c.flushers| && c.flushers[f] == Idle && n <= |b| && b <= c.outbox
    requires c' == c.(flushers := c.flushers[f := Ready(b)])
    ensures var end := After(c', f, n, LeftOf(b, n));
      && end.enqueued == c.enqueued && end.outbox == c.outbox[n..] && end.depth == |c.outbox| - n
      && end.arrived == c.arrived + c.outbox[..n] && f < |end.flushers| && end.flushers[f := Idle] == c.flushers
      && (n == |b| ==> end.flushers == c.flushers)
  {
  }

  /** A crash loses the flushers' batches and nothing else: the table, what was accepted and what is on its way or at
      the broker stay, and the counter is recounted from the table. */
  lemma CrashKeepsTable(max: int, steps: seq<Step>, n: nat)
    ensures var s, end := Run(max, steps), Run(max, steps + [Restart(n)]);
      && end.r == s.r && end.c.enqueued == s.c.enqueued && end.c.outbox == s.c.outbox && end.c.wire == s.c.wire
      && end.c.arrived == s.c.arrived && end.c.max == s.c.max && end.c.depth == |s.c.outbox|
      && |end.c.flushers| == n && forall f :: 0 <= f < n ==> end.c.flushers[f] == Idle
  {
    OneMore(max, steps, Restart(n));
    hide Run;
  }

  /** A batch is accepted exactly when it is complete, the insertion succeeds and the table, with it, stays within a
      positive bound; then it is appended in order, and otherwise nothing changes. */
  lemma EnqueueIsAStep(max: int, steps: seq<Step>, events: seq<PendingEvent>, fails: bool)
    ensures var s, end := Run(max, steps), Run(max, steps + [Enqueue(events, fails)]);
      if !fails && AllComplete(events) && (max <= 0 || |s.c.outbox| + |events| <= max) then
        && end.c.enqueued == s.c.enqueued + MessagesOf(events)
        && end.c.outbox == Appended(s.c.outbox, |s.c.enqueued|, MessagesOf(events))
        && end.c.depth == |s.c.outbox| + |events| && end.r == s.r
      else end == s
  {
    OneMore(max, steps, Enqueue(events, fails));
    DepthIsRowCount(max, steps);
    MaxConstant(max, steps);
    hide Run, Appended, MessagesOf, AllComplete;
  }
}
