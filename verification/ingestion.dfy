/** The ingestion service: transactions that deduplicate by event id, and the acknowledgement decision. */
module Ingestion {
  import opened Ids
  import opened Contract

  datatype HealthRow = HealthRow(eventID: EventId, observedAt: Time, health: HealthBody)
  datatype StatusRow = StatusRow(eventID: EventId, observedAt: Time, heartbeat: HeartbeatBody)

  /** The tables that matter here. The deduplication table keeps each event's time; history rows are unique by
      event id, current rows by key. */
  datatype Tables = Tables(
    ingested: map<EventId, Time>,
    healthHistory: map<EventId, HealthRow>,
    statusHistory: map<EventId, StatusRow>,
    healthCurrent: map<Key, HealthRow>,
    statusCurrent: map<Key, StatusRow>)

  const EMPTY_TABLES := Tables(map[], map[], map[], map[], map[])

  datatype PersistResult = Inserted | Duplicate | DatabaseError

  /** A health row gives way to one observed at the same time or later. */
  function UpsertHealth(current: map<Key, HealthRow>, k: Key, row: HealthRow): map<Key, HealthRow> {
    if k in current && !(current[k].observedAt <= row.observedAt) then current else current[k := row]
  }

  /** A status row gives way only to one observed strictly later. */
  function UpsertStatus(current: map<Key, StatusRow>, k: Key, row: StatusRow): map<Key, StatusRow> {
    if k in current && !(current[k].observedAt < row.observedAt) then current else current[k := row]
  }

  /** What a whole transaction does when no statement fails for outside reasons. */
  function Persist(t: Tables, e: Parsed): (PersistResult, Tables)
    requires !e.Rejected?
  {
    if e.eventID in t.ingested then (Duplicate, t)
    else
      match e
      case HealthEvent(id, device, at, h) =>
        var row := HealthRow(id, at, h);
        if id in t.healthHistory then (DatabaseError, t)
        else (Inserted, t.(ingested := t.ingested[id := at], healthHistory := t.healthHistory[id := row],
                           healthCurrent := UpsertHealth(t.healthCurrent, device, row)))
      case HeartbeatEvent(id, collector, at, b) =>
        var row := StatusRow(id, at, b);
        if id in t.statusHistory then (DatabaseError, t)
        else (Inserted, t.(ingested := t.ingested[id := at], statusHistory := t.statusHistory[id := row],
                           statusCurrent := UpsertStatus(t.statusCurrent, collector, row)))
      case ReadingsEvent(id, at) => (Inserted, t.(ingested := t.ingested[id := at]))
  }

  datatype Handled = Handled(ack: bool, inserted: bool, tables: Tables)

  /** One message: rejected and duplicate messages are acknowledged, failed transactions are not. */
  function Handle(t: Tables, m: Message, databaseDown: bool): Handled {
    var e := Validate(m);
    if e.Rejected? then Handled(true, false, t)
    else if databaseDown then Handled(false, false, t)
    else
      var (result, t') := Persist(t, e);
      match result
      case Inserted => Handled(true, true, t')
      case Duplicate => Handled(true, false, t)
      case DatabaseError => Handled(false, false, t)
  }

  /** The transactions statement by statement, on a copy that only a commit makes visible. */
  class Database {
    var tables: Tables

    constructor ()
      ensures tables == EMPTY_TABLES
    {
      tables := EMPTY_TABLES;
    }

    // `failAt` is the statement an outside failure strikes, counting from begin; none when negative.
    method PersistHealth(id: EventId, device: Key, at: Time, h: HealthBody, failAt: int) returns (result: PersistResult)
      modifies this
      ensures result == DatabaseError ==> tables == old(tables)
      ensures failAt < 0 ==> (result, tables) == Persist(old(tables), HealthEvent(id, device, at, h))
      ensures (result, tables) == Persist(old(tables), HealthEvent(id, device, at, h)) || result == DatabaseError
    {
      if failAt == 0 { return DatabaseError; }
      var tx := tables;
      if failAt == 1 { return DatabaseError; }
      if id in tx.ingested {
        if failAt == 2 { return DatabaseError; }
        tables := tx;
        return Duplicate;
      }
      tx := tx.(ingested := tx.ingested[id := at]);
      // site and device rows are upserted here
      if failAt == 2 || failAt == 3 { return DatabaseError; }
      if failAt == 4 || id in tx.healthHistory { return DatabaseError; }
      var row := HealthRow(id, at, h);
      tx := tx.(healthHistory := tx.healthHistory[id := row]);
      if failAt == 5 { return DatabaseError; }
      if device !in tx.healthCurrent || tx.healthCurrent[device].observedAt <= at {
        tx := tx.(healthCurrent := tx.healthCurrent[device := row]);
      }
      if failAt == 6 { return DatabaseError; }
      tables := tx;
      result := Inserted;
    }

    method PersistHeartbeat(id: EventId, collector: Key, at: Time, b: HeartbeatBody, failAt: int)
      returns (result: PersistResult)
      modifies this
      ensures result == DatabaseError ==> tables == old(tables)
      ensures failAt < 0 ==> (result, tables) == Persist(old(tables), HeartbeatEvent(id, collector, at, b))
      ensures (result, tables) == Persist(old(tables), HeartbeatEvent(id, collector, at, b)) || result == DatabaseError
    {
      if failAt == 0 { return DatabaseError; }
      var tx := tables;
      if failAt == 1 { return DatabaseError; }
      if id in tx.ingested {
        if failAt == 2 { return DatabaseError; }
        tables := tx;
        return Duplicate;
      }
      tx := tx.(ingested := tx.ingested[id := at]);
      // site and collector rows are upserted here
      if failAt == 2 || failAt == 3 { return DatabaseError; }
      if failAt == 4 || id in tx.statusHistory { return DatabaseError; }
      var row := StatusRow(id, at, b);
      tx := tx.(statusHistory := tx.statusHistory[id := row]);
      if failAt == 5 { return DatabaseError; }
      if collector !in tx.statusCurrent || tx.statusCurrent[collector].observedAt < at {
        tx := tx.(statusCurrent := tx.statusCurrent[collector := row]);
      }
      if failAt == 6 { return DatabaseError; }
      tables := tx;
      result := Inserted;
    }

    // Device and interface samples: only their deduplication is modelled.
    method PersistReadings(id: EventId, at: Time, failAt: int) returns (result: PersistResult)
      modifies this
      ensures result == DatabaseError ==> tables == old(tables)
      ensures failAt < 0 ==> (result, tables) == Persist(old(tables), ReadingsEvent(id, at))
      ensures (result, tables) == Persist(old(tables), ReadingsEvent(id, at)) || result == DatabaseError
    {
      if failAt >= 0 { return DatabaseError; }
      if id in tables.ingested { return Duplicate; }
      tables := tables.(ingested := tables.ingested[id := at]);
      result := Inserted;
    }

    /** The handler: returns whether the broker may forget the message. */
    method HandleMessage(m: Message, failAt: int) returns (ack: bool)
      modifies this
      ensures exists down :: Handle(old(tables), m, down).ack == ack && Handle(old(tables), m, down).tables == tables
      ensures failAt < 0 ==> Handle(old(tables), m, false).ack == ack && Handle(old(tables), m, false).tables == tables
    {
      var result;
      ghost var before := tables;
      match Validate(m) {
        case Rejected =>
          assert Handle(before, m, false) == Handled(true, false, tables);
          return true;
        case HealthEvent(id, device, at, h) => result := PersistHealth(id, device, at, h, failAt);
        case HeartbeatEvent(id, collector, at, b) => result := PersistHeartbeat(id, collector, at, b, failAt);
        case ReadingsEvent(id, at) => result := PersistReadings(id, at, failAt);
      }
      ack := result != DatabaseError;
      HandleOutcome(before, m, result, tables);
    }
  }

  lemma HandleOutcome(t: Tables, m: Message, result: PersistResult, t': Tables)
    requires !Validate(m).Rejected?
    requires (result, t') == Persist(t, Validate(m)) || (result == DatabaseError && t' == t)
    ensures (result, t') == Persist(t, Validate(m)) ==>
      Handle(t, m, false).ack == (result != DatabaseError) && Handle(t, m, false).tables == t'
    ensures result == DatabaseError ==> !Handle(t, m, true).ack && Handle(t, m, true).tables == t'
  {
    hide Validate;
  }

  // ---- What the current rows mean ----

  /** The tables after these events took effect one after the other. */
  function PersistAll(es: seq<Parsed>): Tables
    requires AllParsed(es)
  {
    if es == [] then EMPTY_TABLES else Persist(PersistAll(es[..|es| - 1]), es[|es| - 1]).1
  }

  predicate AllParsed(es: seq<Parsed>) {
    forall i :: 0 <= i < |es| ==> !es[i].Rejected?
  }

  predicate DistinctIds(es: seq<Parsed>)
    requires AllParsed(es)
  {
    forall i, j :: 0 <= i < j < |es| ==> es[i].eventID != es[j].eventID
  }

  /** The last among a device's newest health events. */
  predicate LastNewest(es: seq<Parsed>, i: nat) {
    && i < |es| && es[i].HealthEvent?
    && forall j :: 0 <= j < |es| && es[j].HealthEvent? && es[j].device == es[i].device ==>
      es[j].observedAt <= es[i].observedAt && (j > i ==> es[j].observedAt < es[i].observedAt)
  }

  /** The first among a collector's newest heartbeats. */
  predicate FirstNewest(es: seq<Parsed>, i: nat) {
    && i < |es| && es[i].HeartbeatEvent?
    && forall j :: 0 <= j < |es| && es[j].HeartbeatEvent? && es[j].collector == es[i].collector ==>
      es[j].observedAt <= es[i].observedAt && (j < i ==> es[j].observedAt < es[i].observedAt)
  }

  predicate FromEarlier(es: seq<Parsed>, t: Tables) {
    && (forall e :: e in t.ingested ==> IdIn(es, e))
    && (forall e :: e in t.healthHistory ==> IdIn(es, e))
    && (forall e :: e in t.statusHistory ==> IdIn(es, e))
  }

  predicate IdIn(es: seq<Parsed>, e: EventId) {
    exists i :: 0 <= i < |es| && !es[i].Rejected? && es[i].eventID == e
  }

  lemma IdInMore(es: seq<Parsed>, x: Parsed, e: EventId)
    ensures IdIn(es, e) ==> IdIn(es + [x], e)
    ensures !x.Rejected? ==> IdIn(es + [x], x.eventID)
  {
    var all := es + [x];
    assert all[|es|] == x;
    if IdIn(es, e) {
      var i :| 0 <= i < |es| && !es[i].Rejected? && es[i].eventID == e;
      assert all[i] == es[i];
    }
  }

  /** A new event takes effect and is all that is new. */
  lemma PersistNew(es: seq<Parsed>, t: Tables, x: Parsed)
    requires !x.Rejected? && FromEarlier(es, t) && !IdIn(es, x.eventID)
    ensures Persist(t, x).0 == Inserted && FromEarlier(es + [x], Persist(t, x).1)
    ensures Persist(t, x).1.healthCurrent ==
      if x.HealthEvent?
      then UpsertHealth(t.healthCurrent, x.device, HealthRow(x.eventID, x.observedAt, x.health))
      else t.healthCurrent
    ensures Persist(t, x).1.statusCurrent ==
      if x.HeartbeatEvent?
      then UpsertStatus(t.statusCurrent, x.collector, StatusRow(x.eventID, x.observedAt, x.heartbeat))
      else t.statusCurrent
  {
    hide IdIn;
    forall e ensures IdIn(es, e) ==> IdIn(es + [x], e) {
      IdInMore(es, x, e);
    }
    IdInMore(es, x, x.eventID);
  }

  lemma {:induction false} PersistAllKnown(es: seq<Parsed>)
    requires AllParsed(es) && DistinctIds(es)
    ensures FromEarlier(es, PersistAll(es))
  {
    if es != [] {
      var n := |es| - 1;
      PersistAllKnown(es[..n]);
      LastIsNew(es);
      hide Persist, FromEarlier, IdIn;
      PersistNew(es[..n], PersistAll(es[..n]), es[n]);
      SplitAt(es, n);
      assert es[..n + 1] == es;
    }
  }

  lemma LastIsNew(es: seq<Parsed>)
    requires AllParsed(es) && DistinctIds(es) && es != []
    ensures AllParsed(es[..|es| - 1]) && DistinctIds(es[..|es| - 1]) && !IdIn(es[..|es| - 1], es[|es| - 1].eventID)
  {
  }

  /** For every sequence of distinct events: a device shows the last of its newest health events, a
      collector the first of its newest heartbeats. */
  lemma {:induction false} CurrentRowsAreNewest(es: seq<Parsed>, i: nat)
    requires AllParsed(es) && DistinctIds(es)
    ensures LastNewest(es, i) ==> var t, e := PersistAll(es).healthCurrent, es[i];
      e.device in t && t[e.device] == HealthRow(e.eventID, e.observedAt, e.health)
    ensures FirstNewest(es, i) ==> var t, e := PersistAll(es).statusCurrent, es[i];
      e.collector in t && t[e.collector] == StatusRow(e.eventID, e.observedAt, e.heartbeat)
  {
    if LastNewest(es, i) { HealthShowsLastNewest(es, i); }
    if FirstNewest(es, i) { StatusShowsFirstNewest(es, i); }
  }

  /** Rows are never newer than all events of their key. */
  lemma {:induction false} HealthRowsBounded(es: seq<Parsed>, k: Key, at: Time)
    requires AllParsed(es) && DistinctIds(es)
    requires forall j :: 0 <= j < |es| && es[j].HealthEvent? && es[j].device == k ==> es[j].observedAt <= at
    ensures k in PersistAll(es).healthCurrent ==> PersistAll(es).healthCurrent[k].observedAt <= at
  {
    if es != [] {
      var n := |es| - 1;
      LastIsNew(es);
      PersistAllKnown(es[..n]);
      PersistNew(es[..n], PersistAll(es[..n]), es[n]);
      hide Persist, FromEarlier, IdIn, AllParsed, DistinctIds;
      HealthRowsBounded(es[..n], k, at);
    }
  }

  lemma {:induction false} HealthShowsLastNewest(es: seq<Parsed>, i: nat)
    requires AllParsed(es) && DistinctIds(es) && LastNewest(es, i)
    ensures var t, e := PersistAll(es).healthCurrent, es[i];
      e.device in t && t[e.device] == HealthRow(e.eventID, e.observedAt, e.health)
    decreases |es|
  {
    var n := |es| - 1;
    LastIsNew(es);
    PersistAllKnown(es[..n]);
    PersistNew(es[..n], PersistAll(es[..n]), es[n]);
    hide Persist, FromEarlier, IdIn, AllParsed, DistinctIds;
    if i == n {
      HealthRowsBounded(es[..n], es[n].device, es[n].observedAt);
    } else {
      assert LastNewest(es[..n], i);
      HealthShowsLastNewest(es[..n], i);
    }
  }

  lemma {:induction false} StatusRowsBelow(es: seq<Parsed>, k: Key, at: Time)
    requires AllParsed(es) && DistinctIds(es)
    requires forall j :: 0 <= j < |es| && es[j].HeartbeatEvent? && es[j].collector == k ==> es[j].observedAt < at
    ensures k in PersistAll(es).statusCurrent ==> PersistAll(es).statusCurrent[k].observedAt < at
  {
    if es != [] {
      var n := |es| - 1;
      LastIsNew(es);
      PersistAllKnown(es[..n]);
      PersistNew(es[..n], PersistAll(es[..n]), es[n]);
      hide Persist, FromEarlier, IdIn, AllParsed, DistinctIds;
      StatusRowsBelow(es[..n], k, at);
    }
  }

  lemma {:induction false} StatusShowsFirstNewest(es: seq<Parsed>, i: nat)
    requires AllParsed(es) && DistinctIds(es) && FirstNewest(es, i)
    ensures var t, e := PersistAll(es).statusCurrent, es[i];
      e.collector in t && t[e.collector] == StatusRow(e.eventID, e.observedAt, e.heartbeat)
    decreases |es|
  {
    var n := |es| - 1;
    LastIsNew(es);
    PersistAllKnown(es[..n]);
    PersistNew(es[..n], PersistAll(es[..n]), es[n]);
    hide Persist, FromEarlier, IdIn, AllParsed, DistinctIds;
    if i == n {
      StatusRowsBelow(es[..n], es[n].collector, es[n].observedAt);
    } else {
      assert FirstNewest(es[..n], i);
      StatusShowsFirstNewest(es[..n], i);
    }
  }
}
