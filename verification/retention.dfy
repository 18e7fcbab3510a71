/** Retention: each pass prunes the history tables and then the deduplication table by one cutoff, while
    deliveries go on in between; which messages that leaves refused by the database. */
module Retention {
  import opened Ids
  import opened Contract
  import opened Ingestion
  import Outbox
  import opened Delivery
  import opened Convergence
  import opened PublishedRuns

  // The tables of a pass that matter here, in its order.
  datatype Table = HealthRows | StatusRows | DedupRows

  datatype Pass = Resting | Pruning(table: Table, cutoff: Time)

  datatype Move =
    | Usual(step: Step)              // any step of the delivery protocol but pruning
    | Begin(cutoff: Time)
    | Batch(rows: set<EventId>)      // deletes some of the older rows of the table at hand
    | Finish                         // the batch that leaves no older row, and on to the next table
    | Stop                           // an error, or the context is done

  datatype Retaining = Retaining(s: System, pass: Pass)

  function OlderIn(t: Tables, table: Table, cutoff: Time): set<EventId> {
    match table
    case HealthRows => set e | e in t.healthHistory && t.healthHistory[e].observedAt < cutoff
    case StatusRows => set e | e in t.statusHistory && t.statusHistory[e].observedAt < cutoff
    case DedupRows => set e | e in t.ingested && t.ingested[e] < cutoff
  }

  function PruneStep(table: Table, rows: set<EventId>): Step {
    match table
    case HealthRows => Prune({}, rows, {})
    case StatusRows => Prune({}, {}, rows)
    case DedupRows => Prune(rows, {}, {})
  }

  function AsStep(x: Retaining, m: Move): Option<Step> {
    match m
    case Usual(step) => if step.Prune? then None else Some(step)
    case Batch(rows) =>
      if x.pass.Resting? then None
      else Some(PruneStep(x.pass.table, rows * OlderIn(x.s.r.tables, x.pass.table, x.pass.cutoff)))
    case Finish =>
      if x.pass.Resting? then None
      else Some(PruneStep(x.pass.table, OlderIn(x.s.r.tables, x.pass.table, x.pass.cutoff)))
    case _ => None
  }

  function NextPass(pass: Pass, m: Move): Pass {
    match m
    case Begin(cutoff) => if pass.Resting? then Pruning(HealthRows, cutoff) else pass
    case Finish =>
      if pass.Resting? || pass.table == DedupRows then Resting
      else pass.(table := if pass.table == HealthRows then StatusRows else DedupRows)
    case Stop => Resting
    case _ => pass
  }

  function Do(x: Retaining, m: Move): Retaining {
    var step := AsStep(x, m);
    Retaining(if step.Some? then Take(x.s, step.value) else x.s, NextPass(x.pass, m))
  }

  function DoAll(x: Retaining, moves: seq<Move>): Retaining {
    if moves == [] then x else Do(DoAll(x, moves[..|moves| - 1]), moves[|moves| - 1])
  }

  function Opening(max: int): Retaining {
    Retaining(Start(max), Resting)
  }

  /** The delivery steps that a run with retention amounts to. */
  function StepsOf(max: int, moves: seq<Move>): seq<Step> {
    if moves == [] then []
    else
      var n := |moves| - 1;
      var step := AsStep(DoAll(Opening(max), moves[..n]), moves[n]);
      StepsOf(max, moves[..n]) + if step.Some? then [step.value] else []
  }

  /** Runs with retention are runs of the delivery protocol, so everything proved about those holds. */
  lemma {:induction false} RetainingRuns(max: int, moves: seq<Move>)
    ensures DoAll(Opening(max), moves).s == Run(max, StepsOf(max, moves))
  {
    if moves != [] {
      var n := |moves| - 1;
      RetainingRuns(max, moves[..n]);
      var step := AsStep(DoAll(Opening(max), moves[..n]), moves[n]);
      var before := StepsOf(max, moves[..n]);
      hide Take, AsStep, NextPass, Run;
      if step.Some? {
        RunNext(max, before, step.value);
      } else {
        assert before + [] == before;
      }
    }
  }

  /** A pass that stopped leaves no trace: the next one starts over with the first table, under its own cutoff. */
  lemma StoppedStartsOver(x: Retaining, cutoff: Time)
    ensures Do(Do(x, Stop), Begin(cutoff)) == Retaining(x.s, Pruning(HealthRows, cutoff))
  {
  }

  // ---- What deliveries in time keep ----

  /** Every history row has its deduplication row, with the same time. */
  predicate TimesKept(t: Tables) {
    && (forall e :: e in t.healthHistory ==> e in t.ingested && t.ingested[e] == t.healthHistory[e].observedAt)
    && (forall e :: e in t.statusHistory ==> e in t.ingested && t.ingested[e] == t.statusHistory[e].observedAt)
  }

  predicate Cleared(t: Tables, table: Table, cutoff: Time) {
    OlderIn(t, table, cutoff) == {}
  }

  /** The tables a pass is through with hold no older row. */
  predicate RetentionOk(t: Tables, pass: Pass) {
    && TimesKept(t)
    && (pass.Pruning? && pass.table != HealthRows ==> Cleared(t, HealthRows, pass.cutoff))
    && (pass.Pruning? && pass.table == DedupRows ==> Cleared(t, StatusRows, pass.cutoff))
  }

  /** The pass is through with the event's history table, and the event is older than its cutoff. */
  predicate Late(pass: Pass, e: Parsed) {
    && pass.Pruning?
    && match e
       case HealthEvent(_, _, at, _) => pass.table != HealthRows && at < pass.cutoff
       case HeartbeatEvent(_, _, at, _) => pass.table == DedupRows && at < pass.cutoff
       case _ => false
  }

  /** This message would be inserted too late. */
  predicate ComesLate(x: Retaining, m: Message) {
    !Validate(m).Rejected? && EventIdOf(m) !in x.s.r.tables.ingested && Late(x.pass, Validate(m))
  }

  predicate InTime(x: Retaining, m: Move) {
    m.Usual? && m.step.Deliver? && Deliverable(x.s.c, x.s.r, m.step.p) && !m.step.down ==>
      !ComesLate(x, x.s.c.arrived[m.step.p].message)
  }

  predicate AllInTime(max: int, moves: seq<Move>) {
    moves == [] ||
    (AllInTime(max, moves[..|moves| - 1]) && InTime(DoAll(Opening(max), moves[..|moves| - 1]), moves[|moves| - 1]))
  }

  lemma HandleInTime(t: Tables, pass: Pass, m: Message, down: bool)
    requires RetentionOk(t, pass)
    requires !down && !Validate(m).Rejected? && EventIdOf(m) !in t.ingested ==> !Late(pass, Validate(m))
    ensures RetentionOk(Handle(t, m, down).tables, pass)
  {
    HandleKeepsTimes(t, m, down);
    if pass.Pruning? { HandleKeepsCleared(t, pass, m, down); }
    hide Validate, Handle, TimesKept, Cleared;
  }

  lemma HandleKeepsTimes(t: Tables, m: Message, down: bool)
    requires TimesKept(t)
    ensures TimesKept(Handle(t, m, down).tables)
  {
    hide Validate, UpsertHealth, UpsertStatus;
  }

  lemma HandleKeepsCleared(t: Tables, pass: Pass, m: Message, down: bool)
    requires pass.Pruning?
    requires !down && !Validate(m).Rejected? && EventIdOf(m) !in t.ingested ==> !Late(pass, Validate(m))
    ensures var t' := Handle(t, m, down).tables;
      && (pass.table != HealthRows && Cleared(t, HealthRows, pass.cutoff) ==> Cleared(t', HealthRows, pass.cutoff))
      && (pass.table == DedupRows && Cleared(t, StatusRows, pass.cutoff) ==> Cleared(t', StatusRows, pass.cutoff))
  {
    hide Validate, UpsertHealth, UpsertStatus;
  }

  lemma PruneInTime(c: Collector, r: Receiver, pass: Pass, rows: set<EventId>)
    requires RetentionOk(r.tables, pass) && pass.Pruning?
    ensures var s := PruneStep(pass.table, rows * OlderIn(r.tables, pass.table, pass.cutoff));
      RetentionOk(ReceiverStep(c, r, s).tables, pass)
  {
    hide Validate;
    assert forall e :: e in r.tables.healthHistory && e in OlderIn(r.tables, DedupRows, pass.cutoff) ==>
      e in OlderIn(r.tables, HealthRows, pass.cutoff);
    assert forall e :: e in r.tables.statusHistory && e in OlderIn(r.tables, DedupRows, pass.cutoff) ==>
      e in OlderIn(r.tables, StatusRows, pass.cutoff);
  }

  lemma FinishInTime(c: Collector, r: Receiver, pass: Pass)
    requires RetentionOk(r.tables, pass) && pass.Pruning?
    ensures var s := PruneStep(pass.table, OlderIn(r.tables, pass.table, pass.cutoff));
      RetentionOk(ReceiverStep(c, r, s).tables, NextPass(pass, Finish))
  {
    var older := OlderIn(r.tables, pass.table, pass.cutoff);
    PruneInTime(c, r, pass, older);
    assert older * older == older;
    hide RetentionOk, Validate;
    FinishClears(c, r, pass);
    PassOn(ReceiverStep(c, r, PruneStep(pass.table, older)).tables, pass);
  }

  lemma FinishClears(c: Collector, r: Receiver, pass: Pass)
    requires pass.Pruning?
    ensures var s := PruneStep(pass.table, OlderIn(r.tables, pass.table, pass.cutoff));
      Cleared(ReceiverStep(c, r, s).tables, pass.table, pass.cutoff)
  {
    hide Validate;
  }

  lemma PassOn(t: Tables, pass: Pass)
    requires RetentionOk(t, pass) && pass.Pruning? && Cleared(t, pass.table, pass.cutoff)
    ensures RetentionOk(t, NextPass(pass, Finish))
  {
    hide Cleared, TimesKept;
  }

  lemma RestingOk(t: Tables, pass: Pass)
    requires RetentionOk(t, pass)
    ensures RetentionOk(t, Resting) && forall cutoff :: RetentionOk(t, Pruning(HealthRows, cutoff))
  {
    hide Cleared, TimesKept;
  }

  lemma MoveKeeps(x: Retaining, m: Move)
    requires RetentionOk(x.s.r.tables, x.pass) && InTime(x, m)
    ensures RetentionOk(Do(x, m).s.r.tables, Do(x, m).pass)
  {
    var t := x.s.r.tables;
    RestingOk(t, x.pass);
    hide RetentionOk, CollectorStep, Validate, Late, Handle, Deliverable, OlderIn;
    match m {
      case Usual(step) =>
        TakeParts(x.s, step);
        if step.Deliver? && Deliverable(x.s.c, x.s.r, step.p) {
          HandleInTime(t, x.pass, x.s.c.arrived[step.p].message, step.down);
        }
      case Batch(rows) =>
        if x.pass.Pruning? {
          PruneInTime(x.s.c, x.s.r, x.pass, rows);
          TakeParts(x.s, AsStep(x, m).value);
        }
      case Finish =>
        if x.pass.Pruning? {
          FinishInTime(x.s.c, x.s.r, x.pass);
          TakeParts(x.s, AsStep(x, m).value);
        }
      case _ =>
    }
  }

  lemma {:induction false} MovesKeep(max: int, moves: seq<Move>)
    requires AllInTime(max, moves)
    ensures var x := DoAll(Opening(max), moves);
      RetentionOk(x.s.r.tables, x.pass)
  {
    if moves == [] {
    } else {
      var n := |moves| - 1;
      MovesKeep(max, moves[..n]);
      hide RetentionOk, InTime, Do;
      MoveKeeps(DoAll(Opening(max), moves[..n]), moves[n]);
    }
  }

  lemma OkAcknowledges(t: Tables, pass: Pass, m: Message)
    requires RetentionOk(t, pass)
    ensures Handle(t, m, false).ack
  {
    hide Validate, Handle;
    HandleSmooth(t, m);
  }

  /** Over every run with any number of passes, stopped or not, in which no event older than a pass's cutoff
      is inserted after the pass is through with its history table: whatever the broker may deliver, a
      working database lets it be acknowledged. */
  lemma NeverStuck(max: int, moves: seq<Move>, p: nat)
    requires AllInTime(max, moves)
    ensures var s := DoAll(Opening(max), moves).s;
      Deliverable(s.c, s.r, p) ==> Handle(s.r.tables, s.c.arrived[p].message, false).ack
  {
    MovesKeep(max, moves);
    var x := DoAll(Opening(max), moves);
    hide Handle, RetentionOk, Do, DoAll;
    if Deliverable(x.s.c, x.s.r, p) {
      OkAcknowledges(x.s.r.tables, x.pass, x.s.c.arrived[p].message);
    }
  }

  // ---- Which delivery gets stuck ----

  /** The pass goes on to its end without further deliveries. */
  function FinishPass(x: Retaining): Retaining {
    if x.pass.Resting? then x else Do(Do(Do(x, Finish), Finish), Finish)
  }

  predicate OnlyHistoryLeft(t: Tables, e: Parsed) {
    (e.HealthEvent? && e.eventID !in t.ingested && e.eventID in t.healthHistory) ||
    (e.HeartbeatEvent? && e.eventID !in t.ingested && e.eventID in t.statusHistory)
  }

  lemma RefusedWhenOnlyHistoryLeft(t: Tables, m: Message)
    ensures !Handle(t, m, false).ack <==> OnlyHistoryLeft(t, Validate(m))
  {
    hide Validate;
  }

  lemma FinishKeeps(x: Retaining)
    requires RetentionOk(x.s.r.tables, x.pass)
    ensures RetentionOk(FinishPass(x).s.r.tables, FinishPass(x).pass)
  {
    hide RetentionOk, Do;
    if x.pass.Pruning? {
      MoveKeeps(x, Finish);
      MoveKeeps(Do(x, Finish), Finish);
      MoveKeeps(Do(Do(x, Finish), Finish), Finish);
    }
  }

  /** What one finished table means for one event's rows. */
  predicate RowsAfter(t: Tables, t': Tables, pass: Pass, e: EventId)
    requires pass.Pruning?
  {
    && (e in t'.ingested <==> e in t.ingested && !(pass.table == DedupRows && t.ingested[e] < pass.cutoff))
    && (e in t'.ingested ==> t'.ingested[e] == t.ingested[e])
    && (pass.table != HealthRows ==> t'.healthHistory.Keys == t.healthHistory.Keys)
    && (pass.table != StatusRows ==> t'.statusHistory.Keys == t.statusHistory.Keys)
  }

  lemma PrunedRows(c: Collector, r: Receiver, pass: Pass, e: EventId)
    requires pass.Pruning?
    ensures var r' := ReceiverStep(c, r, PruneStep(pass.table, OlderIn(r.tables, pass.table, pass.cutoff)));
      RowsAfter(r.tables, r'.tables, pass, e) && r'.unacked == r.unacked
  {
    hide Validate;
  }

  lemma FinishRows(x: Retaining, e: EventId)
    requires x.pass.Pruning?
    ensures RowsAfter(x.s.r.tables, Do(x, Finish).s.r.tables, x.pass, e)
    ensures Do(x, Finish).pass == NextPass(x.pass, Finish)
    ensures Do(x, Finish).s.c == x.s.c && Do(x, Finish).s.r.unacked == x.s.r.unacked
  {
    PrunedRows(x.s.c, x.s.r, x.pass, e);
    TakeParts(x.s, AsStep(x, Finish).value);
    hide RowsAfter, OlderIn, ReceiverStep, NextPass;
  }

  lemma RestingStays(x: Retaining)
    requires x.pass.Resting?
    ensures Do(x, Finish) == x
  {
    hide Take;
  }

  lemma PassDelivery(x: Retaining)
    ensures FinishPass(x).s.c == x.s.c && FinishPass(x).s.r.unacked == x.s.r.unacked
  {
    hide Do;
    if x.pass.Pruning? {
      StepDelivery(x);
      StepDelivery(Do(x, Finish));
      StepDelivery(Do(Do(x, Finish), Finish));
    }
  }

  lemma StepDelivery(x: Retaining)
    ensures Do(x, Finish).s.c == x.s.c && Do(x, Finish).s.r.unacked == x.s.r.unacked
  {
    hide Do, NextPass;
    if x.pass.Resting? { RestingStays(x); } else { FinishRows(x, 0); }
  }

  /** A late event's deduplication row goes with the pass, its history row stays. */
  lemma LateLeavesHistory(x: Retaining, e: Parsed)
    requires Late(x.pass, e) && e.eventID in x.s.r.tables.ingested && x.s.r.tables.ingested[e.eventID] == e.observedAt
    requires e.HealthEvent? ==> e.eventID in x.s.r.tables.healthHistory
    requires e.HeartbeatEvent? ==> e.eventID in x.s.r.tables.statusHistory
    ensures OnlyHistoryLeft(FinishPass(x).s.r.tables, e)
  {
    hide Do;
    FinishRows(x, e.eventID);
    var y := Do(x, Finish);
    if x.pass.table == StatusRows {
      FinishRows(y, e.eventID);
      RestingStays(Do(y, Finish));
    } else {
      RestingStays(y);
    }
  }

  lemma DeliveredLate(x: Retaining, p: nat)
    requires Deliverable(x.s.c, x.s.r, p)
    ensures var m := x.s.c.arrived[p].message;
      var x1 := Do(x, Usual(Deliver(p, false, true)));
      && x1.pass == x.pass && x1.s.c == x.s.c && p in x1.s.r.unacked
      && x1.s.r.tables == Handle(x.s.r.tables, m, false).tables
  {
    TakeParts(x.s, Deliver(p, false, true));
    hide Handle, Validate, Deliverable;
  }

  lemma InsertedRows(t: Tables, m: Message)
    requires !Validate(m).Rejected? && EventIdOf(m) !in t.ingested && Handle(t, m, false).ack
    ensures var e, t' := Validate(m), Handle(t, m, false).tables;
      && e.eventID in t'.ingested && t'.ingested[e.eventID] == e.observedAt
      && (e.HealthEvent? ==> e.eventID in t'.healthHistory)
      && (e.HeartbeatEvent? ==> e.eventID in t'.statusHistory)
  {
    hide Validate, UpsertHealth, UpsertStatus;
  }

  /** In any state that deliveries in time lead to, in the middle of any pass: a message is delivered, its
      acknowledgement gets lost, and the pass goes on to its end. The broker then offers the message again, and
      a working database refuses it exactly when it was inserted by that delivery although it is older than
      the cutoff and the pass was already through with its history table. */
  lemma StuckExactly(x: Retaining, p: nat)
    requires RetentionOk(x.s.r.tables, x.pass) && Deliverable(x.s.c, x.s.r, p)
    ensures var m := x.s.c.arrived[p].message;
      var after := FinishPass(Do(x, Usual(Deliver(p, false, true))));
      && Deliverable(after.s.c, after.s.r, p) && after.s.c.arrived[p].message == m
      && (!Handle(after.s.r.tables, m, false).ack <==> ComesLate(x, m))
  {
    var m := x.s.c.arrived[p].message;
    var move := Usual(Deliver(p, false, true));
    var x1 := Do(x, move);
    DeliveredLate(x, p);
    PassDelivery(x1);
    var after := FinishPass(x1);
    OfferedAgain(after.s.c, after.s.r, p);
    if ComesLate(x, m) {
      OkAcknowledges(x.s.r.tables, x.pass, m);
      hide Do, Handle, Validate, FinishPass, Late, Deliverable, OnlyHistoryLeft;
      InsertedRows(x.s.r.tables, m);
      LateLeavesHistory(x1, Validate(m));
      RefusedWhenOnlyHistoryLeft(after.s.r.tables, m);
    } else {
      hide Do, Handle, Validate, FinishPass, RetentionOk, Deliverable;
      MoveKeeps(x, move);
      FinishKeeps(x1);
      OkAcknowledges(after.s.r.tables, after.pass, m);
    }
  }

  lemma OfferedAgain(c: Collector, r: Receiver, p: nat)
    requires p < |c.arrived| && p in r.unacked
    ensures Deliverable(c, r, p)
  {
  }

  // ---- A run that gets stuck, and what frees it ----

  function Usuals(steps: seq<Step>): seq<Move> {
    seq(|steps|, i requires 0 <= i < |steps| => Usual(steps[i]))
  }

  predicate NoPruning(steps: seq<Step>) {
    forall i :: 0 <= i < |steps| ==> !steps[i].Prune?
  }

  lemma {:induction false} UsualRun(steps: seq<Step>)
    requires NoPruning(steps)
    ensures DoAll(Opening(0), Usuals(steps)) == Retaining(Run(0, steps), Resting)
  {
    if steps != [] {
      var n := |steps| - 1;
      UsualRun(steps[..n]);
      assert Usuals(steps)[..n] == Usuals(steps[..n]);
      hide Take;
    }
  }

  lemma {:induction false} FlushPlain(b: seq<Outbox.Row>)
    ensures NoPruning(FlushAll(b))
  {
    if b != [] { FlushPlain(b[1..]); }
  }

  lemma PublishedPlain(ms: seq<Message>)
    ensures NoPruning(Published(ms))
  {
    FlushPlain(RowsFor(ms));
    hide FlushAll, RowsFor, EventsFor;
  }

  /** One old health event is delivered between the pruning of its history and of its deduplication row. */
  function StuckMoves(m: Message, cutoff: Time): seq<Move> {
    Usuals(Published([m])) + [Begin(cutoff)] + [Finish] + [Finish] + [Usual(Deliver(0, false, true))] + [Finish]
  }

  lemma DoNext(max: int, moves: seq<Move>, m: Move)
    ensures DoAll(Opening(max), moves + [m]) == Do(DoAll(Opening(max), moves), m)
  {
    assert (moves + [m])[..|moves|] == moves;
  }

  lemma EmptyFinish(x: Retaining)
    requires x.s.r.tables == EMPTY_TABLES && x.s.r.forgotten == multiset{}
    ensures Do(x, Finish) == Retaining(x.s, NextPass(x.pass, Finish))
  {
    hide Validate;
    if x.pass.Pruning? {
      TakeParts(x.s, AsStep(x, Finish).value);
    }
  }

  /** For every health event and every later cutoff there is such a run, from the very start: the message is
      offered again and refused although the database works. */
  lemma SomeRunGetsStuck(m: Message, cutoff: Time)
    requires m.topic != "" && IsHealth(m) && TimeOf(m) < cutoff
    ensures var s := DoAll(Opening(0), StuckMoves(m, cutoff)).s;
      && Deliverable(s.c, s.r, 0) && s.c.arrived[0].message == m && !Handle(s.r.tables, m, false).ack
  {
    var x := Retaining(System(Shipped([m]), Start(0).r), Pruning(DedupRows, cutoff));
    OneOffered(m);
    assert ComesLate(x, m);
    hide *;
    LateRun(m, cutoff);
    StuckExactly(x, 0);
    DeliveredLate(x, 0);
    LastFinish(Do(x, Usual(Deliver(0, false, true))));
  }

  /** The pass begins on empty tables and is through with both history tables when the event is delivered. */
  lemma LateRun(m: Message, cutoff: Time)
    requires m.topic != ""
    ensures var x := Retaining(System(Shipped([m]), Start(0).r), Pruning(DedupRows, cutoff));
      DoAll(Opening(0), StuckMoves(m, cutoff)) == Do(Do(x, Usual(Deliver(0, false, true))), Finish)
  {
    PublishedPlain([m]);
    UsualRun(Published([m]));
    PublishedRun([m]);
    OneOffered(m);
    var start := Retaining(System(Shipped([m]), Start(0).r), Resting);
    var moves := Usuals(Published([m]));
    hide Do, DoAll, Published, Run, Shipped, RetentionOk, Deliverable;
    DoNext(0, moves, Begin(cutoff));
    DoNext(0, moves + [Begin(cutoff)], Finish);
    DoNext(0, moves + [Begin(cutoff)] + [Finish], Finish);
    DoNext(0, moves + [Begin(cutoff)] + [Finish] + [Finish], Usual(Deliver(0, false, true)));
    DoNext(0, moves + [Begin(cutoff)] + [Finish] + [Finish] + [Usual(Deliver(0, false, true))], Finish);
    Begins(start, cutoff);
    EmptyFinish(Retaining(start.s, Pruning(HealthRows, cutoff)));
    EmptyFinish(Retaining(start.s, Pruning(StatusRows, cutoff)));
  }

  lemma Begins(x: Retaining, cutoff: Time)
    requires x.pass.Resting?
    ensures Do(x, Begin(cutoff)) == Retaining(x.s, Pruning(HealthRows, cutoff))
  {
    hide Take;
  }

  lemma LastFinish(x: Retaining)
    requires x.pass.Pruning? && x.pass.table == DedupRows
    ensures FinishPass(x) == Do(x, Finish)
  {
    var y := Do(x, Finish);
    hide Take;
    assert y.pass == Resting;
    RestingStays(y);
  }

  lemma OneOffered(m: Message)
    ensures Deliverable(Shipped([m]), Start(0).r, 0) && Shipped([m]).arrived[0].message == m
    ensures Start(0).r.tables == EMPTY_TABLES && Start(0).r.forgotten == multiset{}
    ensures forall cutoff :: RetentionOk(EMPTY_TABLES, Pruning(DedupRows, cutoff))
    ensures EMPTY_TABLES.ingested == map[]
  {
    assert RowsFor([m]) == [Outbox.Row(0, m)];
  }

  predicate HistoryThere(t: Tables, e: Parsed) {
    (e.HealthEvent? && e.eventID in t.healthHistory) || (e.HeartbeatEvent? && e.eventID in t.statusHistory)
  }

  /** No other message carries this one's event id. */
  predicate OnlyMessage(arrived: seq<Outbox.Row>, m: Message) {
    forall p :: 0 <= p < |arrived| && SameEvent(arrived[p].message, m) ==> Validate(arrived[p].message) == Validate(m)
  }

  predicate SameEvent(a: Message, b: Message) {
    !Validate(a).Rejected? && !Validate(b).Rejected? && EventIdOf(a) == EventIdOf(b)
  }

  lemma HandleStuck(t: Tables, m: Message, other: Message, down: bool)
    requires OnlyHistoryLeft(t, Validate(m)) && (SameEvent(other, m) ==> Validate(other) == Validate(m))
    ensures OnlyHistoryLeft(Handle(t, other, down).tables, Validate(m))
  {
    hide Validate, UpsertHealth, UpsertStatus;
  }

  lemma PruneStuck(c: Collector, r: Receiver, table: Table, rows: set<EventId>, e: Parsed)
    requires OnlyHistoryLeft(r.tables, e)
    ensures var t' := ReceiverStep(c, r, PruneStep(table, rows)).tables;
      HistoryThere(t', e) ==> OnlyHistoryLeft(t', e)
  {
    hide Validate;
  }

  /** A refused message stays refused, whatever happens, as long as its history row is there. */
  lemma StaysStuck(x: Retaining, m: Message, move: Move)
    requires OnlyHistoryLeft(x.s.r.tables, Validate(m)) && OnlyMessage(x.s.c.arrived, m)
    ensures var t' := Do(x, move).s.r.tables;
      HistoryThere(t', Validate(m)) ==> !Handle(t', m, false).ack
  {
    RefusedWhenOnlyHistoryLeft(Do(x, move).s.r.tables, m);
    var step := AsStep(x, move);
    hide OnlyHistoryLeft, HistoryThere, CollectorStep, Validate, Handle, Deliverable, OlderIn, SameEvent;
    match move {
      case Usual(s) =>
        TakeParts(x.s, s);
        if s.Deliver? && Deliverable(x.s.c, x.s.r, s.p) {
          HandleStuck(x.s.r.tables, m, x.s.c.arrived[s.p].message, s.down);
        }
      case Batch(rows) =>
        if step.Some? {
          TakeParts(x.s, step.value);
          var gone := rows * OlderIn(x.s.r.tables, x.pass.table, x.pass.cutoff);
          PruneStuck(x.s.c, x.s.r, x.pass.table, gone, Validate(m));
        }
      case Finish =>
        if step.Some? {
          TakeParts(x.s, step.value);
          PruneStuck(x.s.c, x.s.r, x.pass.table, OlderIn(x.s.r.tables, x.pass.table, x.pass.cutoff), Validate(m));
        }
      case _ =>
    }
  }

  /** A later pass whose cutoff has moved beyond the event lets it in again, for a second effect. */
  lemma NextPassFrees(x: Retaining, m: Message, cutoff: Time)
    requires OnlyHistoryLeft(x.s.r.tables, Validate(m)) && IsHealth(m) && x.pass.Resting?
    requires x.s.r.tables.healthHistory[EventIdOf(m)].observedAt < cutoff
    ensures var x' := Do(Do(x, Begin(cutoff)), Finish);
      Handle(x'.s.r.tables, m, false).ack && Handle(x'.s.r.tables, m, false).inserted
  {
    Begins(x, cutoff);
    var y := Retaining(x.s, Pruning(HealthRows, cutoff));
    TakeParts(x.s, AsStep(y, Finish).value);
    hide Validate, UpsertHealth;
  }
}
