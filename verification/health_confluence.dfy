/** A cycle's result does not depend on the order of its outcomes nor on the evaluation order. */
module HealthConfluence {
  import opened Ids
  import opened Graphs
  import opened Config
  import opened EvaluationOrder
  import opened Health
  import opened HealthTracker
  import opened HealthRuns

  ghost function VerdictOf(cfg: Settings, ledger: Ledger, e: DeviceHealth, id: Id): Verdict
    requires id in cfg.DeviceIndex()
  {
    VerdictFor(ledger, e, Ups(cfg, id), WarningFor(cfg, cfg.DeviceIndex()[id]), cfg.Threshold())
  }

  /** An entry's verdict depends only on a closed set of devices containing its upstreams. */
  lemma VerdictLocal(cfg: Settings, l: Ledger, m: Ledger, P: set<Id>, id: Id, e: DeviceHealth)
    requires id in cfg.DeviceIndex() && AgreeOn(l, m, P) && Covered(l, P, Ups(cfg, id))
    ensures VerdictOf(cfg, l, e, id) == VerdictOf(cfg, m, e, id)
  {
    var ups, t := Ups(cfg, id), cfg.Threshold();
    forall u | u in ups ensures StatusOf(l, t, u) == StatusOf(m, t, u) {
    }
    BehindLocal(l, m, P, ups);
  }

  /** The failed upstreams an unknown entry notes are among its configured upstreams. */
  ghost predicate NotesOwnUpstreams(cfg: Settings, ledger: Ledger) {
    forall id :: id in ledger && IsUnknown(ledger[id]) ==>
      id in cfg.DeviceIndex() && Elems(ledger[id].unavailableUpstream) <= Elems(Ups(cfg, id))
  }

  lemma NotesKept(cfg: Settings, base: Ledger, order: seq<Id>)
    requires Known(cfg, base, order)
    requires NotesOwnUpstreams(cfg, base)
    ensures NotesOwnUpstreams(cfg, Evaluate(cfg, base, order).ledger)
  {
    var g := cfg.Upstreams();
    assert EvidenceWithin(g, base);
    EvaluateEvidence(cfg, g, base, order);
  }

  /** A prefix of an upstream-first order is closed under the evidence of a ledger noting only upstreams. */
  lemma PrefixCovered(cfg: Settings, l: Ledger, done: seq<Id>, id: Id, xs: seq<Id>)
    requires UpstreamFirst(cfg.Upstreams(), done + [id]) && l.Keys == cfg.DeviceIndex().Keys
    requires id in cfg.DeviceIndex() && Elems(xs) <= Elems(Ups(cfg, id))
    ensures Covered(l, Elems(done), xs)
  {
    UpsEarlier(cfg, done, id);
    forall u | u in xs ensures u in Elems(done) || u !in l {
      assert u in Elems(xs);
      assert u in Ups(cfg, id);
    }
  }

  lemma PrefixAgree(cfg: Settings, l: Ledger, m: Ledger, order: seq<Id>, n: nat)
    requires IsTopological(cfg.Upstreams(), order) && n <= |order|
    requires l.Keys == m.Keys == cfg.DeviceIndex().Keys && NotesOwnUpstreams(cfg, l)
    requires forall a :: a in order[..n] && a in l ==> l[a] == m[a]
    ensures AgreeOn(l, m, Elems(order[..n]))
  {
    forall a | a in Elems(order[..n]) && a in l && IsUnknown(l[a])
      ensures Covered(l, Elems(order[..n]), l[a].unavailableUpstream)
    {
      PlacedCovered(cfg, l, order, n, a, l[a].unavailableUpstream);
    }
    hide Covered, IsTopological, NotesOwnUpstreams, Index, Normalized;
    assert forall a :: a in Elems(order[..n]) ==> a in order[..n];
  }

  /** What a placed device depends on was placed before it. */
  lemma PlacedCovered(cfg: Settings, l: Ledger, order: seq<Id>, n: nat, a: Id, xs: seq<Id>)
    requires IsTopological(cfg.Upstreams(), order) && n <= |order| && l.Keys == cfg.DeviceIndex().Keys
    requires a in Elems(order[..n]) && a in cfg.DeviceIndex() && Elems(xs) <= Elems(Ups(cfg, a))
    ensures Covered(l, Elems(order[..n]), xs)
  {
    var i :| 0 <= i < n && order[..n][i] == a;
    hide UpstreamFirst, Normalized, Index, Covered;
    PrefixUpstreamFirst(cfg.Upstreams(), order, i + 1);
    assert order[..i] + [order[i]] == order[..i + 1];
    PrefixCovered(cfg, l, order[..i], a, xs);
    CoveredMore(l, order, i, n, xs);
  }

  /** The equations a finished cycle satisfies: each entry follows from its upstreams' final entries. */
  ghost predicate Solves(cfg: Settings, base: Ledger, r: Ledger) {
    && r.Keys == base.Keys == cfg.DeviceIndex().Keys
    && forall id :: id in r ==> r[id] == EntryAfter(cfg, id, base[id], VerdictOf(cfg, r, base[id], id))
  }

  ghost predicate SolvesUpTo(cfg: Settings, base: Ledger, r: Ledger, done: seq<Id>) {
    && r.Keys == base.Keys == cfg.DeviceIndex().Keys
    && (forall id :: id in r && id in done ==> r[id] == EntryAfter(cfg, id, base[id], VerdictOf(cfg, r, base[id], id)))
    && (forall id :: id in r && id !in done ==> r[id] == base[id])
  }

  ghost predicate EventsUpTo(cfg: Settings, base: Ledger, r: Ledger, done: seq<Id>, events: seq<Event>)
    requires base.Keys == cfg.DeviceIndex().Keys
  {
    && (forall i, j :: 0 <= i < j < |events| ==> events[i].deviceID != events[j].deviceID)
    && (forall e :: e in events <==> IsEventOf(cfg, base, r, done, e))
  }

  ghost predicate IsEventOf(cfg: Settings, base: Ledger, r: Ledger, done: seq<Id>, e: Event)
    requires base.Keys == cfg.DeviceIndex().Keys
  {
    var id := e.deviceID;
    id in done && id in base && e in EventsAfter(cfg, id, base[id], VerdictOf(cfg, r, base[id], id))
  }

  lemma VerdictKept(cfg: Settings, order: seq<Id>, n: nat, r: Ledger, e: DeviceHealth, j: Id, own: DeviceHealth)
    requires IsTopological(cfg.Upstreams(), order) && n < |order| && NotesOwnUpstreams(cfg, r)
    requires r.Keys == cfg.DeviceIndex().Keys && order[n] in r && j in r && j in order[..n + 1]
    ensures VerdictOf(cfg, r[order[n] := e], own, j) == VerdictOf(cfg, r, own, j)
  {
    var id := order[n];
    var r' := r[id := e];
    NotPlacedBefore(order, n);
    PrefixAgree(cfg, r, r', order, n);
    UpsInPrefix(cfg, r, order, n, j);
    hide *;
    VerdictLocal(cfg, r, r', Elems(order[..n]), j, own);
  }

  lemma UpsInPrefix(cfg: Settings, l: Ledger, order: seq<Id>, n: nat, j: Id)
    requires IsTopological(cfg.Upstreams(), order) && n < |order| && l.Keys == cfg.DeviceIndex().Keys
    requires j in order[..n + 1] && j in cfg.DeviceIndex()
    ensures Covered(l, Elems(order[..n]), Ups(cfg, j))
  {
    var i :| 0 <= i < n + 1 && order[..n + 1][i] == j;
    hide UpstreamFirst, Normalized, Index, Covered;
    PrefixUpstreamFirst(cfg.Upstreams(), order, i + 1);
    SplitAt(order, i);
    PrefixCovered(cfg, l, order[..i], j, Ups(cfg, j));
    CoveredMore(l, order, i, n, Ups(cfg, j));
  }

  lemma SolvesStep(cfg: Settings, base: Ledger, order: seq<Id>, n: nat, r: Ledger)
    requires IsTopological(cfg.Upstreams(), order) && n < |order| && NotesOwnUpstreams(cfg, r)
    requires SolvesUpTo(cfg, base, r, order[..n]) && order[n] in r
    ensures var e := EntryAfter(cfg, order[n], base[order[n]], VerdictOf(cfg, r, base[order[n]], order[n]));
      && SolvesUpTo(cfg, base, r[order[n] := e], order[..n] + [order[n]])
      && forall j :: j in r && j in order[..n] + [order[n]] ==>
           VerdictOf(cfg, r[order[n] := e], base[j], j) == VerdictOf(cfg, r, base[j], j)
  {
    var id := order[n];
    var e := EntryAfter(cfg, id, base[id], VerdictOf(cfg, r, base[id], id));
    NotPlacedBefore(order, n);
    assert order[..n] + [id] == order[..n + 1];
    SameIndexed(cfg, base, r, order[..n]);
    hide VerdictOf, EntryAfter, IsTopological, NotesOwnUpstreams, NoDup, SolvesUpTo;
    forall j | j in r && j in order[..n] + [id]
      ensures VerdictOf(cfg, r[id := e], base[j], j) == VerdictOf(cfg, r, base[j], j)
    {
      VerdictKept(cfg, order, n, r, e, j, base[j]);
    }
    SolvesOneMore(cfg, base, r, order[..n], id, e);
  }

  lemma SameIndexed(cfg: Settings, base: Ledger, r: Ledger, done: seq<Id>)
    requires SolvesUpTo(cfg, base, r, done)
    ensures r.Keys == base.Keys == cfg.DeviceIndex().Keys
  {
    hide VerdictOf, EntryAfter;
  }

  lemma SolvesOneMore(cfg: Settings, base: Ledger, r: Ledger, done: seq<Id>, id: Id, e: DeviceHealth)
    requires SolvesUpTo(cfg, base, r, done) && id in r && id !in done
    requires e == EntryAfter(cfg, id, base[id], VerdictOf(cfg, r, base[id], id))
    requires forall j :: j in r && j in done + [id] ==>
      VerdictOf(cfg, r[id := e], base[j], j) == VerdictOf(cfg, r, base[j], j)
    ensures SolvesUpTo(cfg, base, r[id := e], done + [id])
  {
    hide VerdictOf, EntryAfter, Index;
  }

  lemma CoveredMore(l: Ledger, order: seq<Id>, i: nat, n: nat, xs: seq<Id>)
    requires i <= n <= |order| && Covered(l, Elems(order[..i]), xs)
    ensures Covered(l, Elems(order[..n]), xs)
  {
    assert forall x :: x in Elems(order[..i]) ==> x in Elems(order[..n]);
  }

  lemma EventsStep(cfg: Settings, base: Ledger, r: Ledger, r': Ledger, done: seq<Id>, id: Id, events: seq<Event>)
    requires base.Keys == cfg.DeviceIndex().Keys && id in base && id !in done
    requires EventsUpTo(cfg, base, r, done, events)
    requires forall j :: j in base && j in done + [id] ==>
      VerdictOf(cfg, r', base[j], j) == VerdictOf(cfg, r, base[j], j)
    ensures var more := EventsAfter(cfg, id, base[id], VerdictOf(cfg, r, base[id], id));
      EventsUpTo(cfg, base, r', done + [id], events + more)
  {
    hide VerdictOf;
    var more := EventsAfter(cfg, id, base[id], VerdictOf(cfg, r, base[id], id));
    var all := events + more;
    assert more == [] || (|more| == 1 && more[0].deviceID == id);
    forall i, j | 0 <= i < j < |all| ensures all[i].deviceID != all[j].deviceID {
      if j >= |events| { assert all[i] == events[i] && events[i] in events; }
    }
    forall e ensures e in all <==> IsEventOf(cfg, base, r', done + [id], e) {
      assert e in all <==> e in events || e in more;
      assert e.deviceID in done + [id] <==> e.deviceID in done || e.deviceID == id;
    }
  }

  lemma SolvesStart(cfg: Settings, base: Ledger)
    requires base.Keys == cfg.DeviceIndex().Keys
    ensures SolvesUpTo(cfg, base, base, []) && EventsUpTo(cfg, base, base, [], [])
  {
  }

  lemma EventsOfStep(cfg: Settings, base: Ledger, order: seq<Id>, n: nat)
    requires 0 < n <= |order| && IsTopological(cfg.Upstreams(), order) && base.Keys == cfg.DeviceIndex().Keys
    ensures Known(cfg, base, order[..n]) && Known(cfg, base, order[..n - 1])
    ensures order[n - 1] in cfg.DeviceIndex()
    ensures Evaluate(cfg, base, order[..n]) == Settle(cfg, Evaluate(cfg, base, order[..n - 1]), order[n - 1])
  {
    EvaluateStep(cfg, base, order, n);
    assert order[..n][..n - 1] == order[..n - 1];
  }

  lemma SolvesNothing(cfg: Settings, base: Ledger)
    requires base.Keys == cfg.DeviceIndex().Keys && NotesOwnUpstreams(cfg, base)
    ensures Known(cfg, base, [])
    ensures var s := Evaluate(cfg, base, []);
      SolvesUpTo(cfg, base, s.ledger, []) && EventsUpTo(cfg, base, s.ledger, [], s.events)
  {
    SolvesStart(cfg, base);
  }

  lemma {:induction false} EvaluateSolvesUpTo(cfg: Settings, base: Ledger, order: seq<Id>, n: nat)
    requires IsTopological(cfg.Upstreams(), order) && n <= |order|
    requires base.Keys == cfg.DeviceIndex().Keys && NotesOwnUpstreams(cfg, base)
    ensures Known(cfg, base, order[..n])
    ensures var s := Evaluate(cfg, base, order[..n]);
      SolvesUpTo(cfg, base, s.ledger, order[..n]) && EventsUpTo(cfg, base, s.ledger, order[..n], s.events)
  {
    hide *;
    if n == 0 {
      assert order[..n] == [];
      SolvesNothing(cfg, base);
    } else {
      EvaluateSolvesUpTo(cfg, base, order, n - 1);
      var done, id := order[..n - 1], order[n - 1];
      EvaluateStep(cfg, base, order, n);
      EventsOfStep(cfg, base, order, n);
      NotesKept(cfg, base, done);
      var s := Evaluate(cfg, base, done);
      SettleParts(cfg, s, id);
      EntryUntouched(cfg, base, s.ledger, done, id);
      SolvesStep(cfg, base, order, n - 1, s.ledger);
      EventsStep(cfg, base, s.ledger, Settle(cfg, s, id).ledger, done, id, s.events);
    }
  }

  lemma SettleParts(cfg: Settings, s: Evaluated, id: Id)
    requires id in cfg.DeviceIndex() && id in s.ledger
    ensures Settle(cfg, s, id).ledger == s.ledger[id := EntryAfter(cfg, id, s.ledger[id], VerdictAt(cfg, s.ledger, id))]
    ensures Settle(cfg, s, id).events == s.events + EventsAfter(cfg, id, s.ledger[id], VerdictAt(cfg, s.ledger, id))
  {
  }

  lemma EntryUntouched(cfg: Settings, base: Ledger, r: Ledger, done: seq<Id>, id: Id)
    requires SolvesUpTo(cfg, base, r, done) && id in base && id !in done
    ensures id in r && r[id] == base[id] && r.Keys == base.Keys
    ensures VerdictAt(cfg, r, id) == VerdictOf(cfg, r, base[id], id)
  {
  }

  /** The equations have one solution on an acyclic graph. */
  lemma {:induction false} SolutionUnique(cfg: Settings, base: Ledger, r1: Ledger, r2: Ledger, order: seq<Id>, n: nat)
    requires IsTopological(cfg.Upstreams(), order) && n <= |order|
    requires Solves(cfg, base, r1) && Solves(cfg, base, r2) && NotesOwnUpstreams(cfg, r1)
    ensures forall a :: a in order[..n] && a in r1 ==> r1[a] == r2[a]
  {
    if n > 0 {
      SolutionUnique(cfg, base, r1, r2, order, n - 1);
      var done, id := order[..n - 1], order[n - 1];
      assert done + [id] == order[..n];
      if id in r1 {
        PrefixAgree(cfg, r1, r2, order, n - 1);
        PrefixUpstreamFirst(cfg.Upstreams(), order, n);
        PrefixCovered(cfg, r1, done, id, Ups(cfg, id));
        VerdictLocal(cfg, r1, r2, Elems(done), id, base[id]);
      }
    }
  }

  lemma {:induction false} RecordOrderIrrelevant(ledger: Ledger, a: seq<PollOutcome>, b: seq<PollOutcome>)
    requires DistinctDevices(a) && DistinctDevices(b) && Elems(a) == Elems(b)
    ensures RecordAll(ledger, a) == RecordAll(ledger, b)
  {
    assert forall o :: o in a <==> o in Elems(a);
    assert forall o :: o in b <==> o in Elems(b);
    forall id | id in ledger ensures RecordAll(ledger, a)[id] == RecordAll(ledger, b)[id] {
      RecordedOnce(ledger, a, id);
      RecordedOnce(ledger, b, id);
      if o :| o in a && o.deviceID == id {
        assert o in b;
      }
    }
  }

  /** Two lists of events, one per device, with the same members sort to the same list. */
  lemma SortedEventsUnique(a: seq<Event>, b: seq<Event>)
    requires forall i, j :: 0 <= i < j < |a| ==> a[i].deviceID != a[j].deviceID
    requires forall i, j :: 0 <= i < j < |b| ==> b[i].deviceID != b[j].deviceID
    requires forall e :: e in a <==> e in b
    ensures SortBy(a, DeviceOf) == SortBy(b, DeviceOf)
  {
    var x, y := SortBy(a, DeviceOf), SortBy(b, DeviceOf);
    SortedEvents(a);
    SortedEvents(b);
    StrictlySortedEqual(x, y);
  }

  ghost predicate StrictlyByDevice(s: seq<Event>) {
    forall i, j :: 0 <= i < j < |s| ==> Less(s[i].deviceID, s[j].deviceID)
  }

  lemma SortedEvents(a: seq<Event>)
    requires forall i, j :: 0 <= i < j < |a| ==> a[i].deviceID != a[j].deviceID
    ensures StrictlyByDevice(SortBy(a, DeviceOf))
    ensures |SortBy(a, DeviceOf)| == |a| && forall e :: e in SortBy(a, DeviceOf) <==> e in a
  {
    var x := SortBy(a, DeviceOf);
    SortByProps(a, DeviceOf);
    MultisetFacts(a, x);
    assert forall e :: e in x <==> e in Elems(x);
    assert forall e :: e in a <==> e in Elems(a);
    assert NoDup(a);
    forall i, j | 0 <= i < j < |x| ensures Less(x[i].deviceID, x[j].deviceID) {
      LessTotal(x[i].deviceID, x[j].deviceID);
      assert !Less(DeviceOf(x[j]), DeviceOf(x[i]));
      assert x[i] in Elems(x) && x[j] in Elems(x);
      assert x[i] in a && x[j] in a;
      var p :| 0 <= p < |a| && a[p] == x[i];
      var q :| 0 <= q < |a| && a[q] == x[j];
      assert p != q;
    }
  }

  lemma NoMembers<T>(s: seq<T>)
    ensures s == [] || s[0] in s
  {
  }

  lemma {:induction false} StrictlySortedEqual(x: seq<Event>, y: seq<Event>)
    requires StrictlyByDevice(x) && StrictlyByDevice(y) && forall e :: e in x <==> e in y
    ensures x == y
  {
    if x == [] {
      NoMembers(y);
    } else {
      assert x[0] in y;
      assert y[0] in x;
      var i :| 0 <= i < |y| && y[i] == x[0];
      var j :| 0 <= j < |x| && x[j] == y[0];
      if i > 0 && j > 0 {
        LessAsymmetric(y[0].deviceID, y[i].deviceID);
      }
      assert x == [x[0]] + x[1..] && y == [y[0]] + y[1..];
      forall e ensures e in x[1..] <==> e in y[1..] {
        HeadNotInTail(x, e);
        HeadNotInTail(y, e);
      }
      StrictlySortedEqual(x[1..], y[1..]);
    }
  }

  lemma HeadNotInTail(x: seq<Event>, e: Event)
    requires StrictlyByDevice(x) && x != []
    ensures e in x[1..] <==> e in x && e != x[0]
  {
    assert x == [x[0]] + x[1..];
    LessIrreflexive(x[0].deviceID);
  }

  /** The ledger and the sorted events of a cycle are the same for every order in which the
      workers reported and for every evaluation order that puts upstreams first. */
  lemma CycleConfluent(cfg: Settings, ledger: Ledger, outcomes1: seq<PollOutcome>, outcomes2: seq<PollOutcome>,
                       order1: seq<Id>, order2: seq<Id>)
    requires ledger.Keys <= cfg.DeviceIndex().Keys && NotesOwnUpstreams(cfg, ledger)
    requires DistinctDevices(outcomes1) && DistinctDevices(outcomes2) && Elems(outcomes1) == Elems(outcomes2)
    requires IsTopological(cfg.Upstreams(), order1) && IsTopological(cfg.Upstreams(), order2)
    ensures Known(cfg, Recorded(cfg, ledger, outcomes1), order1) && Known(cfg, Recorded(cfg, ledger, outcomes2), order2)
    ensures var s1 := Evaluate(cfg, Recorded(cfg, ledger, outcomes1), order1);
            var s2 := Evaluate(cfg, Recorded(cfg, ledger, outcomes2), order2);
            s1.ledger == s2.ledger && SortBy(s1.events, DeviceOf) == SortBy(s2.events, DeviceOf)
  {
    var base := Recorded(cfg, ledger, outcomes1);
    RecordOrderIrrelevant(WithEntries(ledger, cfg.DeviceIndex().Keys), outcomes1, outcomes2);
    RecordedNotes(cfg, ledger, outcomes1);
    FullyEvaluated(cfg, base, order1);
    FullyEvaluated(cfg, base, order2);
    var s1, s2 := Evaluate(cfg, base, order1), Evaluate(cfg, base, order2);
    SolutionUnique(cfg, base, s1.ledger, s2.ledger, order1, |order1|);
    SameEverywhere(cfg, s1.ledger, s2.ledger, order1);
    SameEvents(cfg, base, s1, s2, order1, order2);
  }

  lemma RecordedNotes(cfg: Settings, ledger: Ledger, outcomes: seq<PollOutcome>)
    requires ledger.Keys <= cfg.DeviceIndex().Keys && NotesOwnUpstreams(cfg, ledger)
    ensures NotesOwnUpstreams(cfg, Recorded(cfg, ledger, outcomes))
    ensures Recorded(cfg, ledger, outcomes).Keys == cfg.DeviceIndex().Keys
  {
    var start := WithEntries(ledger, cfg.DeviceIndex().Keys);
    forall id | id in start ensures SameEvidence(RecordAll(start, outcomes)[id], start[id]) {
      RecordAllKeepsEvidence(start, outcomes, id);
    }
  }

  lemma FullyEvaluated(cfg: Settings, base: Ledger, order: seq<Id>)
    requires IsTopological(cfg.Upstreams(), order)
    requires base.Keys == cfg.DeviceIndex().Keys && NotesOwnUpstreams(cfg, base)
    ensures Known(cfg, base, order) && forall id :: id in order <==> id in cfg.DeviceIndex()
    ensures var s := Evaluate(cfg, base, order);
      Solves(cfg, base, s.ledger) && EventsUpTo(cfg, base, s.ledger, order, s.events)
        && NotesOwnUpstreams(cfg, s.ledger)
  {
    assert forall id :: id in order <==> id in Elems(order);
    EvaluateSolvesUpTo(cfg, base, order, |order|);
    assert order[..|order|] == order;
    NotesKept(cfg, base, order);
  }

  lemma SameEverywhere(cfg: Settings, r1: Ledger, r2: Ledger, order: seq<Id>)
    requires IsTopological(cfg.Upstreams(), order) && r1.Keys == r2.Keys == cfg.DeviceIndex().Keys
    requires forall a :: a in order[..|order|] && a in r1 ==> r1[a] == r2[a]
    ensures r1 == r2
  {
    assert order[..|order|] == order;
    forall id | id in r1 ensures r1[id] == r2[id] {
      assert id in Elems(order);
    }
  }

  lemma SameEvents(cfg: Settings, base: Ledger, s1: Evaluated, s2: Evaluated, order1: seq<Id>, order2: seq<Id>)
    requires base.Keys == cfg.DeviceIndex().Keys && s1.ledger == s2.ledger
    requires EventsUpTo(cfg, base, s1.ledger, order1, s1.events) && EventsUpTo(cfg, base, s2.ledger, order2, s2.events)
    requires forall id :: id in order1 <==> id in order2
    ensures SortBy(s1.events, DeviceOf) == SortBy(s2.events, DeviceOf)
  {
    SortedEventsUnique(s1.events, s2.events);
  }

  /** Between cycles of one configuration the hypotheses of confluence hold by themselves. */
  lemma ConsistentNotes(cfg: Settings, ledger: Ledger)
    requires Consistent(cfg, ledger)
    ensures ledger.Keys <= cfg.DeviceIndex().Keys && NotesOwnUpstreams(cfg, ledger)
  {
    forall id | id in ledger && IsUnknown(ledger[id])
      ensures Elems(ledger[id].unavailableUpstream) <= Elems(Ups(cfg, id))
    {
      assert EntryOk(cfg, ledger, id);
    }
  }
}
