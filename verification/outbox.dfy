/** The durable outbox: a table of pending messages in insertion order, flushed oldest first. */
module Outbox {
  import opened Ids
  import opened Contract

  // A row of the table; ids are handed out in increasing order and never reused.
  datatype Row = Row(id: nat, message: Message)

  // A message before insertion; an empty payload is None.
  datatype PendingEvent = PendingEvent(topic: string, payload: Option<Payload>)

  datatype EnqueueError = ContextDone | TopicRequired | PayloadRequired | BufferFull | DatabaseError

  predicate Increasing(rows: seq<Row>) {
    forall i, j :: 0 <= i < j < |rows| ==> rows[i].id < rows[j].id
  }

  function Appended(rows: seq<Row>, nextId: nat, messages: seq<Message>): seq<Row> {
    rows + seq(|messages|, i requires 0 <= i < |messages| => Row(nextId + i, messages[i]))
  }

  function Without(rows: seq<Row>, id: nat): seq<Row> {
    if rows == [] then []
    else
      var init, last := rows[..|rows| - 1], rows[|rows| - 1];
      if last.id == id then Without(init, id) else Without(init, id) + [last]
  }

  predicate HasId(rows: seq<Row>, id: nat) {
    exists i :: 0 <= i < |rows| && rows[i].id == id
  }

  lemma {:induction false} WithoutAbsent(rows: seq<Row>, id: nat)
    requires !HasId(rows, id)
    ensures Without(rows, id) == rows
  {
    if rows != [] {
      var n := |rows| - 1;
      assert rows[n].id != id;
      WithoutAbsent(rows[..n], id);
      assert rows == rows[..n] + [rows[n]];
    }
  }

  /** Ids are unique, so a delete takes out one row and closes the gap. */
  lemma {:induction false} WithoutAt(rows: seq<Row>, i: nat)
    requires Increasing(rows) && i < |rows|
    ensures Without(rows, rows[i].id) == rows[..i] + rows[i + 1..]
  {
    var n := |rows| - 1;
    if i == n {
      WithoutAbsent(rows[..n], rows[i].id);
      assert rows[n + 1..] == [];
    } else {
      WithoutAt(rows[..n], i);
      assert rows[..n][..i] == rows[..i] && rows[..n][i + 1..] + [rows[n]] == rows[i + 1..];
      assert rows[..i] + rows[i + 1..n] + [rows[n]] == rows[..i] + rows[i + 1..];
    }
  }

  lemma WithoutContents(rows: seq<Row>, id: nat)
    requires Increasing(rows)
    ensures Increasing(Without(rows, id))
    ensures forall r :: r in Without(rows, id) <==> r in rows && r.id != id
    ensures |Without(rows, id)| == |rows| - if HasId(rows, id) then 1 else 0
  {
    if HasId(rows, id) {
      var i :| 0 <= i < |rows| && rows[i].id == id;
      WithoutAt(rows, i);
      CutContents(rows, i);
    } else {
      WithoutAbsent(rows, id);
    }
  }

  lemma CutContents(rows: seq<Row>, i: nat)
    requires Increasing(rows) && i < |rows|
    ensures Increasing(rows[..i] + rows[i + 1..])
    ensures forall r :: r in rows[..i] + rows[i + 1..] <==> r in rows && r.id != rows[i].id
  {
    var cut := rows[..i] + rows[i + 1..];
    CutAt(rows, i);
    forall r | r in rows && r.id != rows[i].id ensures r in cut {
      var j :| 0 <= j < |rows| && rows[j] == r;
      assert r in rows[..i] || r in rows[i + 1..];
    }
    forall r | r in cut ensures r in rows && r.id != rows[i].id {
      var k :| 0 <= k < |cut| && cut[k] == r;
    }
  }

  lemma CutAt(rows: seq<Row>, i: nat)
    requires Increasing(rows) && i < |rows|
    ensures var cut := rows[..i] + rows[i + 1..];
      && Increasing(cut)
      && forall k :: 0 <= k < |cut| ==> cut[k] in rows && cut[k].id != rows[i].id
  {
  }

  /** Deleting the oldest row leaves the rest. */
  lemma WithoutHead(rows: seq<Row>)
    requires rows != [] && Increasing(rows)
    ensures Without(rows, rows[0].id) == rows[1..] && Increasing(rows[1..])
  {
    hide Without;
    WithoutAt(rows, 0);
    assert rows[..0] == [];
    NothingFirst(rows[1..]);
  }

  lemma NothingFirst(rows: seq<Row>)
    ensures [] + rows == rows
  {
  }

  predicate Complete(e: PendingEvent) {
    e.topic != "" && e.payload.Some?
  }

  predicate AllComplete(events: seq<PendingEvent>) {
    forall i :: 0 <= i < |events| ==> Complete(events[i])
  }

  predicate FirstIncomplete(events: seq<PendingEvent>, i: int) {
    0 <= i < |events| && !Complete(events[i]) && AllComplete(events[..i])
  }

  function MessagesOf(events: seq<PendingEvent>): seq<Message>
    requires AllComplete(events)
  {
    seq(|events|, i requires 0 <= i < |events| && AllComplete(events) =>
      Message(events[i].topic, events[i].payload.value))
  }

  lemma AppendedNext(rows: seq<Row>, nextId: nat, messages: seq<Message>, m: Message)
    ensures Appended(rows, nextId, messages + [m]) == Appended(rows, nextId, messages) + [Row(nextId + |messages|, m)]
  {
  }

  lemma MessagesNext(events: seq<PendingEvent>, i: nat)
    requires i < |events| && AllComplete(events)
    ensures AllComplete(events[..i]) && AllComplete(events[..i + 1])
    ensures MessagesOf(events[..i + 1]) == MessagesOf(events[..i]) + [Message(events[i].topic, events[i].payload.value)]
  {
  }

  class Store {
    var rows: seq<Row>
    var nextId: nat
    var depth: int
    const max: int   // no bound when not positive
    var wake: bool

    ghost predicate Valid()
      reads this
    {
      && Increasing(rows)
      && (forall r :: r in rows ==> r.id < nextId)
      && depth == |rows|
    }

    /** Opens an existing table; the depth counter starts from its row count. */
    constructor (rows: seq<Row>, nextId: nat, max: int)
      requires Increasing(rows) && forall r :: r in rows ==> r.id < nextId
      ensures Valid() && this.rows == rows && this.nextId == nextId && this.max == max
    {
      this.rows, this.nextId, this.max := rows, nextId, max;
      depth, wake := |rows|, false;
    }

    method Enqueue(contextDone: bool, e: PendingEvent, insertFails: bool) returns (err: Option<EnqueueError>)
      requires Valid()
      modifies this
      ensures Valid()
      ensures err.None? ==> Complete(e) && wake && nextId == old(nextId) + 1
      ensures err.None? ==> rows == Appended(old(rows), old(nextId), [Message(e.topic, e.payload.value)])
      ensures err.Some? ==> unchanged(this)
      ensures max > 0 && old(depth) <= max ==> depth <= max
      ensures var full := max > 0 && old(depth) >= max;
        && (err == Some(ContextDone) <==> contextDone)
        && (err == Some(TopicRequired) <==> !contextDone && e.topic == "")
        && (err == Some(PayloadRequired) <==> !contextDone && e.topic != "" && e.payload.None?)
        && (err == Some(BufferFull) <==> !contextDone && Complete(e) && full)
        && (err == Some(DatabaseError) <==> !contextDone && Complete(e) && !full && insertFails)
    {
      if contextDone { return Some(ContextDone); }
      if e.topic == "" { return Some(TopicRequired); }
      if e.payload.None? { return Some(PayloadRequired); }
      if max > 0 && depth >= max { return Some(BufferFull); }
      if insertFails { return Some(DatabaseError); }
      AppendedIncreasing(rows, nextId, [Message(e.topic, e.payload.value)]);
      rows := rows + [Row(nextId, Message(e.topic, e.payload.value))];
      nextId := nextId + 1;
      depth := depth + 1;
      wake := true;
      err := None;
    }

    /** All events or none: the rows of a failed transaction never appear. `failAt` is the insert that
        fails, or the commit when it equals the number of events; no failure when negative. */
    method EnqueueBatch(contextDone: bool, events: seq<PendingEvent>, failAt: int) returns (err: Option<EnqueueError>)
      requires Valid()
      modifies this
      ensures Valid()
      ensures err.None? ==> AllComplete(events) && nextId == old(nextId) + |events|
      ensures err.None? ==> rows == Appended(old(rows), old(nextId), MessagesOf(events))
      ensures err.None? && events != [] ==> wake
      ensures err.Some? ==> unchanged(this)
      ensures max > 0 && old(depth) <= max ==> depth <= max
      ensures var full := events != [] && max > 0 && old(depth) + |events| > max;
        && (err == Some(ContextDone) <==> contextDone)
        && (err == Some(BufferFull) <==> !contextDone && AllComplete(events) && full)
        && (err == Some(DatabaseError) <==>
              !contextDone && AllComplete(events) && !full && events != [] && 0 <= failAt <= |events|)
        && (forall i :: FirstIncomplete(events, i) && !contextDone ==>
              err == Some(if events[i].topic == "" then TopicRequired else PayloadRequired))
    {
      if contextDone { return Some(ContextDone); }
      if events == [] {
        assert Appended(rows, nextId, MessagesOf(events)) == rows;
        return None;
      }
      var i := 0;
      while i < |events|
        invariant 0 <= i <= |events| && unchanged(this)
        invariant forall k :: 0 <= k < i ==> Complete(events[k])
      {
        if events[i].topic == "" { return Some(TopicRequired); }
        if events[i].payload.None? { return Some(PayloadRequired); }
        i := i + 1;
      }
      var n := |events|;
      if max > 0 && depth + n > max { return Some(BufferFull); }
      var tx, next := Insert(events, failAt);
      if tx.None? || failAt == n { return Some(DatabaseError); }
      AppendedIncreasing(rows, nextId, MessagesOf(events));
      rows, nextId := tx.value, next;
      depth := depth + n;
      wake := true;
      err := None;
    }

    /** The inserts of one transaction, on a copy. */
    method Insert(events: seq<PendingEvent>, failAt: int) returns (tx: Option<seq<Row>>, next: nat)
      requires AllComplete(events)
      ensures tx.Some? ==> tx.value == Appended(rows, nextId, MessagesOf(events)) && next == nextId + |events|
      ensures tx.None? <==> 0 <= failAt < |events|
    {
      hide Appended, MessagesOf, AllComplete;
      var copy := rows;
      next := nextId;
      AppendedNone(rows, nextId, events);
      var i := 0;
      while i < |events|
        invariant 0 <= i <= |events| && next == nextId + i && AllComplete(events[..i])
        invariant copy == Appended(rows, nextId, MessagesOf(events[..i])) && |MessagesOf(events[..i])| == i
        invariant !(0 <= failAt < i)
      {
        if i == failAt { return None, next; }
        MessagesNext(events, i);
        CompleteAt(events, i);
        AppendedNext(rows, nextId, MessagesOf(events[..i]), Message(events[i].topic, events[i].payload.value));
        copy := copy + [Row(next, Message(events[i].topic, events[i].payload.value))];
        next := next + 1;
        i := i + 1;
      }
      assert events[..i] == events;
      tx := Some(copy);
    }

    method PeekOldest(limit: int, queryFails: bool) returns (out: Option<seq<Row>>)
      requires Valid()
      ensures out.Some? ==> out.value <= rows
      ensures out.Some? ==> |out.value| == (if limit <= 0 then 0 else if limit < |rows| then limit else |rows|)
      ensures out.None? <==> queryFails && limit > 0
    {
      if limit <= 0 { return Some([]); }
      if queryFails { return None; }
      out := Some(if limit < |rows| then rows[..limit] else rows);
    }

    /** Removing an absent row changes nothing; the counter follows the table exactly, so its clamp
        at zero is never taken. */
    method Delete(id: nat, deleteFails: bool) returns (ok: bool)
      requires Valid()
      modifies this
      ensures Valid() && nextId == old(nextId)
      ensures ok == !deleteFails
      ensures rows == if ok then Without(old(rows), id) else old(rows)
      ensures depth <= old(depth)
    {
      if deleteFails { return false; }
      WithoutContents(rows, id);
      var affected := |rows| - |Without(rows, id)|;
      if affected == 0 {
        WithoutAbsent(rows, id);
        return true;
      }
      rows := Without(rows, id);
      depth := depth - 1;
      assert depth >= 0;
      ok := true;
    }
  }

  lemma AppendedNone(rows: seq<Row>, nextId: nat, events: seq<PendingEvent>)
    ensures AllComplete(events[..0]) && |MessagesOf(events[..0])| == 0
    ensures Appended(rows, nextId, MessagesOf(events[..0])) == rows
  {
    assert MessagesOf(events[..0]) == [];
    assert rows + [] == rows;
  }

  lemma CompleteAt(events: seq<PendingEvent>, i: nat)
    requires i < |events| && AllComplete(events)
    ensures events[i].payload.Some?
  {
  }

  lemma AppendedIncreasing(rows: seq<Row>, nextId: nat, messages: seq<Message>)
    requires Increasing(rows) && forall r :: r in rows ==> r.id < nextId
    ensures Increasing(Appended(rows, nextId, messages))
    ensures forall r :: r in Appended(rows, nextId, messages) ==> r.id < nextId + |messages|
  {
    var all := Appended(rows, nextId, messages);
    forall i, j | 0 <= i < j < |all| ensures all[i].id < all[j].id {
      if i < |rows| { assert rows[i] in rows; }
    }
    forall r | r in all ensures r.id < nextId + |messages| {
      var i :| 0 <= i < |all| && all[i] == r;
      if i < |rows| { assert rows[i] in rows; }
    }
  }

  // What one publish call meets on the wire.
  datatype Publication = Acknowledged | Unanswered | Unsent

  // What one row of a flush meets: the context may be done, then the publish, then the delete.
  datatype RowAttempt = Stopped | Attempt(publication: Publication, deleteFails: bool)

  // One round of a drain: whether there is or comes a connection, then the flush.
  datatype Round = Round(connects: bool, queryFails: bool, attempts: seq<RowAttempt>)

  class Broker {
    var arrived: seq<Message>

    constructor ()
      ensures arrived == []
    {
      arrived := [];
    }

    /** A message may reach the broker although the call reports an error. */
    method Publish(m: Message, p: Publication) returns (ok: bool)
      modifies this
      ensures ok == (p == Acknowledged)
      ensures arrived == if p == Unsent then old(arrived) else old(arrived) + [m]
    {
      if p != Unsent { arrived := arrived + [m]; }
      ok := p == Acknowledged;
    }
  }

  function Contents(rows: seq<Row>): seq<Message> {
    seq(|rows|, i requires 0 <= i < |rows| => rows[i].message)
  }

  /** Acknowledged, and then deleted. */
  predicate Clean(a: RowAttempt) {
    a.Attempt? && a.publication == Acknowledged && !a.deleteFails
  }

  function Least(a: int, b: int): (m: int)
    ensures m <= a && m <= b && (m == a || m == b)
  {
    if a < b then a else b
  }

  predicate CleanUpTo(attempts: seq<RowAttempt>, n: nat) {
    n <= |attempts| && forall k :: 0 <= k < n ==> Clean(attempts[k])
  }

  lemma CleanNext(attempts: seq<RowAttempt>, n: nat)
    ensures CleanUpTo(attempts, 0)
    ensures CleanUpTo(attempts, n) && n < |attempts| && Clean(attempts[n]) ==> CleanUpTo(attempts, n + 1)
  {
  }

  /** A round that flushes a whole batch. */
  predicate Smooth(r: Round, batchSize: int) {
    batchSize > 0 && r.connects && !r.queryFails && CleanUpTo(r.attempts, batchSize)
  }

  predicate AllSmooth(rounds: seq<Round>, batchSize: int) {
    forall i :: 0 <= i < |rounds| ==> Smooth(rounds[i], batchSize)
  }

  /** At least as many rows are gone as that many whole batches hold, or all of them. */
  predicate Gone(k: nat, batches: nat, batchSize: int, total: nat) {
    k >= batches * batchSize || k >= total
  }

  lemma GoneNext(k: nat, n: nat, batches: nat, batchSize: int, total: nat)
    requires Gone(k, batches, batchSize, total) && k <= total && batchSize > 0
    ensures n == Least(batchSize, total - k) ==> Gone(k + n, batches + 1, batchSize, total)
  {
    assert (batches + 1) * batchSize == batches * batchSize + batchSize;
  }

  lemma NoneGone(batchSize: int, total: nat)
    ensures Gone(0, 0, batchSize, total)
  {
  }

  lemma NotGone(k: nat, batches: nat, batchSize: int, total: nat)
    requires Gone(k, batches, batchSize, total) && k < total
    ensures batches * batchSize < total
  {
  }

  lemma SmoothRound(rounds: seq<Round>, i: nat, batchSize: int)
    requires AllSmooth(rounds, batchSize) && i < |rounds|
    ensures rounds[i].connects && !rounds[i].queryFails && CleanUpTo(rounds[i].attempts, batchSize)
    ensures batchSize > 0 && |rounds[i].attempts| >= batchSize
    ensures forall n :: 0 <= n < batchSize ==> Clean(rounds[i].attempts[n])
  {
    assert Smooth(rounds[i], batchSize);
    hide Clean;
  }

  class BufferedPublisher {
    const store: Store
    const broker: Broker
    const batchSize: int

    constructor (store: Store, broker: Broker, batchSize: int)
      ensures this.store == store && this.broker == broker
      ensures this.batchSize == (if batchSize <= 0 then 50 else batchSize) && this.batchSize > 0
    {
      this.store, this.broker := store, broker;
      this.batchSize := if batchSize <= 0 then 50 else batchSize;
    }

    /** Publish, then delete once acknowledged. */
    method FlushRow(row: Row, a: RowAttempt) returns (ok: bool)
      requires store.Valid() && store.rows != [] && row == store.rows[0]
      modifies store, broker
      ensures store.Valid() && store.nextId == old(store.nextId)
      ensures store.rows == if ok then old(store.rows)[1..] else old(store.rows)
      ensures ok <==> Clean(a)
      ensures a.Stopped? || a.publication == Unsent ==> broker.arrived == old(broker.arrived)
      ensures a.Attempt? && a.publication != Unsent ==> broker.arrived == old(broker.arrived) + [row.message]
    {
      if a.Stopped? { return false; }
      var sent := broker.Publish(row.message, a.publication);
      if !sent { return false; }
      WithoutHead(store.rows);
      ok := store.Delete(row.id, a.deleteFails);
    }

    /** One flush: the oldest rows are published in order, each deleted only after its publish was
        acknowledged. `published` rows are gone from the table; at most one further message reached
        the broker without leaving it, and then the flush reports an error. */
    method FlushOnce(queryFails: bool, attempts: seq<RowAttempt>) returns (ok: bool, published: nat)
      requires store.Valid() && batchSize > 0
      modifies store, broker
      ensures store.Valid() && store.nextId == old(store.nextId)
      ensures published <= Least(batchSize, |old(store.rows)|) && store.rows == old(store.rows)[published..]
      ensures ok <==> !queryFails && published == Least(batchSize, |old(store.rows)|)
      ensures !ok && !queryFails ==> published >= |attempts| || !Clean(attempts[published])
      ensures CleanUpTo(attempts, published)
      ensures ok ==> Sent(old(broker.arrived), old(store.rows), published, broker.arrived)
      ensures SentUpTo(old(broker.arrived), old(store.rows), published, broker.arrived)
    {
      hide *;
      published := 0;
      ghost var all, before := store.rows, broker.arrived;
      SentNothing(before, all);
      CleanNext(attempts, 0);
      var peeked := store.PeekOldest(batchSize, queryFails);
      if peeked.None? { return false, 0; }
      var rows := peeked.value;
      PeekedPrefix(all, rows, batchSize);
      while published < |rows|
        invariant 0 <= published <= |rows| <= |all| && |rows| == Least(batchSize, |all|)
        invariant store.Valid() && store.rows == all[published..] && store.nextId == old(store.nextId)
        invariant Sent(before, all, published, broker.arrived) && SentUpTo(before, all, published, broker.arrived)
        invariant CleanUpTo(attempts, published)
      {
        if published >= |attempts| { return false, published; }
        assert rows[published] == all[published] == store.rows[0];
        ghost var arrived := broker.arrived;
        var done := FlushRow(rows[published], attempts[published]);
        SentOne(before, all, published, arrived, broker.arrived, attempts[published]);
        if !done { return false, published; }
        CleanNext(attempts, published);
        published := published + 1;
      }
      ok := true;
    }

    /** Flushes until the table is empty, or a wait for the connection, a query or a row fails, or the context,
        here the list of rounds, runs out; enough smooth rounds always succeed. On success every pending message
        reached the broker exactly once and in order; otherwise the oldest did, and at most one that is still
        pending. */
    method Drain(rounds: seq<Round>) returns (ok: bool)
      requires store.Valid() && batchSize > 0
      modifies store, broker
      ensures store.Valid()
      ensures ok ==> store.rows == [] && broker.arrived == old(broker.arrived) + Contents(old(store.rows))
      ensures exists k ::
        && 0 <= k <= |old(store.rows)| && store.rows == old(store.rows)[k..]
        && SentUpTo(old(broker.arrived), old(store.rows), k, broker.arrived)
      ensures AllSmooth(rounds, batchSize) && |rounds| * batchSize >= |old(store.rows)| ==> ok
    {
      hide *;
      ghost var all, before := store.rows, broker.arrived;
      ghost var k := 0;
      SentNothing(before, all);
      Counted();
      NoneGone(batchSize, |all|);
      var round := 0;
      while store.depth > 0
        invariant 0 <= round <= |rounds| && 0 <= k <= |all| && store.Valid()
        invariant store.rows == all[k..] && store.depth == |store.rows|
        invariant Sent(before, all, k, broker.arrived) && SentUpTo(before, all, k, broker.arrived)
        invariant AllSmooth(rounds, batchSize) ==> Gone(k, round, batchSize, |all|)
        decreases |rounds| - round
      {
        if AllSmooth(rounds, batchSize) {
          NotGone(k, round, batchSize, |all|);
          if round < |rounds| { SmoothRound(rounds, round, batchSize); }
        }
        if round == |rounds| || !rounds[round].connects { return false; }
        ghost var arrived := broker.arrived;
        var flushed, n := FlushOnce(rounds[round].queryFails, rounds[round].attempts);
        assert all[k..][n..] == all[k + n..];
        Counted();
        SentUpToMore(before, all, k, n, arrived, broker.arrived);
        if !flushed {
          assert store.rows == all[k + n..];
          return false;
        }
        SentMore(before, all, k, n, arrived, broker.arrived);
        if AllSmooth(rounds, batchSize) { GoneNext(k, n, round, batchSize, |all|); }
        k := k + n;
        round := round + 1;
      }
      SentAll(before, all, broker.arrived);
      ok := true;
    }

    lemma Counted()
      requires store.Valid()
      ensures store.depth == |store.rows|
    {
    }
  }


  /** The broker gained exactly the first `n` of these rows, in order. */
  predicate Sent(before: seq<Message>, rows: seq<Row>, n: nat, after: seq<Message>)
    requires n <= |rows|
  {
    after == before + Contents(rows[..n])
  }

  /** The same, or one row further: the row whose publish or delete was not confirmed. */
  predicate SentUpTo(before: seq<Message>, rows: seq<Row>, n: nat, after: seq<Message>)
    requires n <= |rows|
  {
    Sent(before, rows, n, after) || (n < |rows| && Sent(before, rows, n + 1, after))
  }

  lemma SentNothing(before: seq<Message>, rows: seq<Row>)
    ensures Sent(before, rows, 0, before) && SentUpTo(before, rows, 0, before)
    ensures rows[0..] == rows
  {
    assert Contents(rows[..0]) == [];
    assert before + [] == before;
  }

  lemma PeekedPrefix(all: seq<Row>, rows: seq<Row>, limit: int)
    requires limit > 0 && rows <= all
    requires |rows| == if limit <= 0 then 0 else if limit < |all| then limit else |all|
    ensures |rows| == Least(limit, |all|)
  {
  }

  lemma SentOne(before: seq<Message>, all: seq<Row>, n: nat, arrived: seq<Message>, after: seq<Message>, a: RowAttempt)
    requires n < |all| && Sent(before, all, n, arrived)
    requires a.Stopped? || a.publication == Unsent ==> after == arrived
    requires a.Attempt? && a.publication != Unsent ==> after == arrived + [all[n].message]
    ensures SentUpTo(before, all, n, after)
    ensures Clean(a) ==> Sent(before, all, n + 1, after) && SentUpTo(before, all, n + 1, after)
    ensures all[n..][1..] == all[n + 1..]
  {
    assert Contents(all[..n + 1]) == Contents(all[..n]) + [all[n].message];
    assert before + Contents(all[..n]) + [all[n].message] == before + (Contents(all[..n]) + [all[n].message]);
  }

  lemma SentMore(before: seq<Message>, all: seq<Row>, k: nat, n: nat, arrived: seq<Message>, after: seq<Message>)
    requires k <= |all| && n <= |all[k..]| && Sent(before, all, k, arrived) && Sent(arrived, all[k..], n, after)
    ensures Sent(before, all, k + n, after)
  {
    var a, b, c := Contents(all[..k]), Contents(all[k..][..n]), Contents(all[..k + n]);
    assert |a + b| == |c|;
    forall i | 0 <= i < |c| ensures (a + b)[i] == c[i] {
      if i >= k { assert all[k..][..n][i - k] == all[i]; }
    }
    assert a + b == c;
    assert before + a + b == before + (a + b);
  }

  lemma SentUpToMore(before: seq<Message>, all: seq<Row>, k: nat, n: nat, arrived: seq<Message>, after: seq<Message>)
    requires k <= |all| && n <= |all[k..]| && Sent(before, all, k, arrived) && SentUpTo(arrived, all[k..], n, after)
    ensures SentUpTo(before, all, k + n, after)
  {
    hide Sent;
    if Sent(arrived, all[k..], n, after) {
      SentMore(before, all, k, n, arrived, after);
    } else {
      SentMore(before, all, k, n + 1, arrived, after);
    }
  }

  lemma SentAll(before: seq<Message>, all: seq<Row>, after: seq<Message>)
    ensures Sent(before, all, |all|, after) ==> after == before + Contents(all)
  {
    assert all[..|all|] == all;
  }
}
