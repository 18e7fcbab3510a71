/** Overlapping dependency commits: each is checked before the lock is taken and written under it. */
module OverlappingCommits {
  import opened Ids
  import opened Graphs
  import opened EditedGraphs
  import opened Config
  import opened ManagedInventory

  // ---- What an inventory holds for one id ----

  function EntriesOf(managed: seq<DeviceConfig>, id: Id): seq<DeviceConfig> {
    if managed == [] then []
    else
      var d := managed[|managed| - 1];
      EntriesOf(managed[..|managed| - 1], id) + if d.id == id then [d] else []
  }

  function Overlaid(base: DeviceConfig, entries: seq<DeviceConfig>): (d: DeviceConfig)
    ensures d.id == base.id
  {
    if entries == [] then base
    else ApplyDeviceOverlay(Overlaid(base, entries[..|entries| - 1]), entries[|entries| - 1])
  }

  /** The static part of the merged inventory: the last device of each id, overlaid. */
  function Head(fixed: seq<DeviceConfig>, managed: seq<DeviceConfig>): seq<DeviceConfig> {
    seq(|fixed|, i requires 0 <= i < |fixed| =>
      if StaticIndex(fixed)[fixed[i].id] == i then Overlaid(fixed[i], EntriesOf(managed, fixed[i].id)) else fixed[i])
  }

  /** The managed entries of other ids. */
  function Tail(fixed: seq<DeviceConfig>, managed: seq<DeviceConfig>): seq<DeviceConfig> {
    if managed == [] then []
    else
      var d := managed[|managed| - 1];
      Tail(fixed, managed[..|managed| - 1]) + if d.id in StaticIndex(fixed) then [] else [d]
  }

  lemma HeadNext(fixed: seq<DeviceConfig>, managed: seq<DeviceConfig>, d: DeviceConfig)
    ensures var index, h := StaticIndex(fixed), Head(fixed, managed);
      Head(fixed, managed + [d]) == if d.id in index then h[index[d.id] := ApplyDeviceOverlay(h[index[d.id]], d)] else h
  {
    hide ApplyDeviceOverlay, StaticIndex;
    var index, h, h' := StaticIndex(fixed), Head(fixed, managed), Head(fixed, managed + [d]);
    assert (managed + [d])[..|managed|] == managed;
    forall i | 0 <= i < |fixed|
      ensures h'[i] == if index[fixed[i].id] == i && fixed[i].id == d.id then ApplyDeviceOverlay(h[i], d) else h[i]
    {
      var es := EntriesOf(managed, fixed[i].id);
      assert EntriesOf(managed + [d], fixed[i].id) == es + if d.id == fixed[i].id then [d] else [];
      assert (es + [d])[..|es|] == es;
      assert es + [] == es;
    }
  }

  lemma {:induction false} MergedShape(fixed: seq<DeviceConfig>, managed: seq<DeviceConfig>)
    ensures Merged(fixed, managed) == Head(fixed, managed) + Tail(fixed, managed)
  {
    hide ApplyDeviceOverlay, StaticIndex, Overlaid;
    if managed == [] {
      BareHead(fixed);
    } else {
      var n := |managed| - 1;
      var d := managed[n];
      MergedShape(fixed, managed[..n]);
      HeadNext(fixed, managed[..n], d);
      assert managed[..n] + [d] == managed;
      var h, t := Head(fixed, managed[..n]), Tail(fixed, managed[..n]);
      hide Head;
      if d.id in StaticIndex(fixed) {
        assert t + [] == t;
      } else {
        assert (h + t) + [d] == h + (t + [d]);
      }
    }
  }

  lemma BareHead(fixed: seq<DeviceConfig>)
    ensures Head(fixed, []) == fixed
  {
    hide StaticIndex;
  }

  lemma {:induction false} StaticIndexLast(fixed: seq<DeviceConfig>, i: nat)
    requires i < |fixed|
    ensures i <= StaticIndex(fixed)[fixed[i].id]
  {
    var n := |fixed| - 1;
    StaticIndexUnfold(fixed);
    hide StaticIndex;
    if i < n { StaticIndexLast(fixed[..n], i); }
  }

  lemma StaticIndexUnfold(fixed: seq<DeviceConfig>)
    requires fixed != []
    ensures StaticIndex(fixed) == StaticIndex(fixed[..|fixed| - 1])[fixed[|fixed| - 1].id := |fixed| - 1]
  {
  }

  lemma {:induction false} TailFacts(fixed: seq<DeviceConfig>, managed: seq<DeviceConfig>, d: DeviceConfig)
    ensures d in Tail(fixed, managed) <==> d in managed && d.id !in StaticIndex(fixed)
    ensures d in EntriesOf(managed, d.id) <==> d in managed
  {
    hide StaticIndex;
    if managed != [] {
      var n := |managed| - 1;
      TailFacts(fixed, managed[..n], d);
      assert managed == managed[..n] + [managed[n]];
    }
  }

  lemma TailNext(fixed: seq<DeviceConfig>, managed: seq<DeviceConfig>, id: Id)
    requires managed != []
    ensures var n, d := |managed| - 1, managed[|managed| - 1];
      && EntriesOf(managed, id) == EntriesOf(managed[..n], id) + (if d.id == id then [d] else [])
      && Tail(fixed, managed) == Tail(fixed, managed[..n]) + if d.id in StaticIndex(fixed) then [] else [d]
  {
    hide StaticIndex;
  }

  lemma {:induction false} TailIndex(fixed: seq<DeviceConfig>, managed: seq<DeviceConfig>, id: Id)
    requires id !in StaticIndex(fixed)
    ensures var es, index := EntriesOf(managed, id), Index(Tail(fixed, managed));
      (id in index <==> es != []) && (es != [] ==> index[id] == es[|es| - 1])
  {
    if managed != [] {
      var d, t := managed[|managed| - 1], Tail(fixed, managed[..|managed| - 1]);
      TailIndex(fixed, managed[..|managed| - 1], id);
      TailNext(fixed, managed, id);
      IndexAppend(t, d);
      hide *;
      assert d.id in StaticIndex(fixed) ==> t + [] == t;
    }
  }

  lemma {:induction false} IndexConcat(a: seq<DeviceConfig>, b: seq<DeviceConfig>, id: Id)
    ensures id in Index(a + b) <==> id in Index(a) || id in Index(b)
    ensures id in Index(a + b) ==> Index(a + b)[id] == if id in Index(b) then Index(b)[id] else Index(a)[id]
  {
    if b == [] {
      assert a + b == a;
    } else {
      var n := |b| - 1;
      assert (a + b)[..|a| + n] == a + b[..n];
      IndexConcat(a, b[..n], id);
    }
  }

  /** What the merged inventory holds for an id: its static device overlaid by its entries, or its last entry. */
  function Lookup(fixed: seq<DeviceConfig>, entries: seq<DeviceConfig>, id: Id): Option<DeviceConfig> {
    if id in StaticIndex(fixed) then Some(Overlaid(fixed[StaticIndex(fixed)[id]], entries))
    else if entries == [] then None
    else Some(entries[|entries| - 1])
  }

  lemma HeadIndex(fixed: seq<DeviceConfig>, managed: seq<DeviceConfig>, id: Id)
    ensures id in Index(Head(fixed, managed)) <==> id in StaticIndex(fixed)
    ensures id in StaticIndex(fixed) ==>
      Index(Head(fixed, managed))[id] == Overlaid(fixed[StaticIndex(fixed)[id]], EntriesOf(managed, id))
  {
    var h := Head(fixed, managed);
    hide StaticIndex, Overlaid, EntriesOf;
    if id in StaticIndex(fixed) {
      var p := StaticIndex(fixed)[id];
      forall k | p < k < |h| ensures h[k].id != id {
        StaticIndexLast(fixed, k);
      }
      IndexLast(h, p);
    } else {
      IndexKeys(h);
      forall d | d in h ensures d.id != id {
        var i :| 0 <= i < |h| && h[i] == d;
        assert fixed[i].id in StaticIndex(fixed);
      }
    }
  }

  lemma TailMisses(fixed: seq<DeviceConfig>, managed: seq<DeviceConfig>, id: Id)
    requires id in StaticIndex(fixed)
    ensures id !in Index(Tail(fixed, managed))
  {
    IndexKeys(Tail(fixed, managed));
    hide StaticIndex;
    forall d | d in Tail(fixed, managed) ensures d.id != id {
      TailFacts(fixed, managed, d);
    }
  }

  lemma MergedLookup(fixed: seq<DeviceConfig>, managed: seq<DeviceConfig>, id: Id)
    ensures var index, l := Index(Merged(fixed, managed)), Lookup(fixed, EntriesOf(managed, id), id);
      (id in index <==> l.Some?) && (l.Some? ==> index[id] == l.value)
  {
    MergedShape(fixed, managed);
    IndexConcat(Head(fixed, managed), Tail(fixed, managed), id);
    HeadIndex(fixed, managed, id);
    if id in StaticIndex(fixed) {
      TailMisses(fixed, managed, id);
    } else {
      TailIndex(fixed, managed, id);
    }
    hide StaticIndex, Overlaid, EntriesOf, Head, Tail, Merged, Index;
  }

  /** Whether a device belongs to the merged inventory depends on the entries of its id alone. */
  predicate MemberOf(fixed: seq<DeviceConfig>, entries: seq<DeviceConfig>, d: DeviceConfig) {
    || (exists i :: 0 <= i < |fixed| && fixed[i] == d && StaticIndex(fixed)[d.id] != i)
    || (if d.id in StaticIndex(fixed) then d == Overlaid(fixed[StaticIndex(fixed)[d.id]], entries) else d in entries)
  }

  lemma HeadMember(fixed: seq<DeviceConfig>, managed: seq<DeviceConfig>, d: DeviceConfig)
    ensures d in Head(fixed, managed) <==>
      (d.id in StaticIndex(fixed) && d == Overlaid(fixed[StaticIndex(fixed)[d.id]], EntriesOf(managed, d.id))) ||
      exists i :: 0 <= i < |fixed| && fixed[i] == d && StaticIndex(fixed)[d.id] != i
  {
    hide StaticIndex, Overlaid, EntriesOf;
    var h := Head(fixed, managed);
    if d.id in StaticIndex(fixed) {
      assert h[StaticIndex(fixed)[d.id]] == Overlaid(fixed[StaticIndex(fixed)[d.id]], EntriesOf(managed, d.id));
    }
    if i :| 0 <= i < |fixed| && fixed[i] == d && StaticIndex(fixed)[d.id] != i {
      assert h[i] == d;
    }
  }

  lemma MergedMember(fixed: seq<DeviceConfig>, managed: seq<DeviceConfig>, d: DeviceConfig)
    ensures d in Merged(fixed, managed) <==> MemberOf(fixed, EntriesOf(managed, d.id), d)
  {
    MergedShape(fixed, managed);
    HeadMember(fixed, managed, d);
    TailFacts(fixed, managed, d);
    hide StaticIndex, Overlaid, EntriesOf, Head, Tail, Merged;
  }

  // ---- What a write does to the entries ----

  /** The entries of the edited id, after the write. */
  function Rewritten(codec: Codec, entries: seq<DeviceConfig>, id: Id, c: Change): seq<DeviceConfig> {
    if entries == [] then [ReadBack(codec, Changed(NewEntry(id), c))]
    else entries[0 := ReadBack(codec, Changed(entries[0], c))]
  }

  lemma {:induction false} EntriesAppend(a: seq<DeviceConfig>, b: seq<DeviceConfig>, id: Id)
    ensures EntriesOf(a + b, id) == EntriesOf(a, id) + EntriesOf(b, id)
  {
    if b == [] {
      assert a + b == a;
      assert EntriesOf(a, id) + [] == EntriesOf(a, id);
    } else {
      var n := |b| - 1;
      assert (a + b)[..|a| + n] == a + b[..n];
      EntriesAppend(a, b[..n], id);
    }
  }

  lemma {:induction false} NoEntries(a: seq<DeviceConfig>, id: Id)
    requires forall k :: 0 <= k < |a| ==> a[k].id != id
    ensures EntriesOf(a, id) == []
  {
    if a != [] { NoEntries(a[..|a| - 1], id); }
  }

  lemma OneEntry(d: DeviceConfig, id: Id)
    ensures EntriesOf([d], id) == if d.id == id then [d] else []
  {
    assert [d][..0] == [];
  }

  lemma AroundFirst(managed: seq<DeviceConfig>, i: nat, d: DeviceConfig, id: Id)
    requires i < |managed|
    ensures var rest := EntriesOf(managed[i + 1..], id);
      EntriesOf(managed[i := d], id) == EntriesOf(managed[..i], id) + EntriesOf([d], id) + rest
  {
    assert managed[i := d] == managed[..i] + [d] + managed[i + 1..];
    EntriesAppend(managed[..i] + [d], managed[i + 1..], id);
    EntriesAppend(managed[..i], [d], id);
  }

  lemma ChangedKeepsId(codec: Codec, d: DeviceConfig, id: Id, c: Change)
    ensures ReadBack(codec, Changed(d, c)).id == d.id && Changed(NewEntry(id), c).id == id
  {
  }

  lemma PersistedIs(codec: Codec, managed: seq<DeviceConfig>, id: Id, c: Change)
    requires AsRead(codec, managed)
    ensures var i, w := FirstOf(managed, id), Persisted(codec, managed, id, c);
      && AsRead(codec, w)
      && w == if i < |managed| then managed[i := ReadBack(codec, Changed(managed[i], c))]
              else managed + [ReadBack(codec, Changed(NewEntry(id), c))]
  {
    ReadBackTwice(codec, Edited(managed, id, c));
    var w := Persisted(codec, managed, id, c);
    forall k | 0 <= k < |managed| ensures k != FirstOf(managed, id) ==> w[k] == managed[k] {
      AsReadAt(codec, managed, k);
    }
    hide ReadBack, Changed;
  }

  lemma EntriesReplaced(managed: seq<DeviceConfig>, i: nat, d: DeviceConfig, id: Id, x: Id)
    requires i < |managed| && i == FirstOf(managed, id) && d.id == id
    ensures EntriesOf(managed, id) != []
    ensures EntriesOf(managed[i := d], x) == if x == id then EntriesOf(managed, id)[0 := d] else EntriesOf(managed, x)
    ensures EntriesOf(managed, id)[0] == managed[i]
  {
    NoEntries(managed[..i], id);
    hide FirstOf, EntriesOf;
    OwnEntries(managed, i, managed[i], id);
    assert managed[i := managed[i]] == managed;
    if x == id {
      OwnEntries(managed, i, d, id);
    } else {
      OtherEntries(managed, i, d, x);
      OtherEntries(managed, i, managed[i], x);
    }
  }

  lemma OwnEntries(managed: seq<DeviceConfig>, i: nat, d: DeviceConfig, id: Id)
    requires i < |managed| && EntriesOf(managed[..i], id) == [] && d.id == id
    ensures EntriesOf(managed[i := d], id) == [d] + EntriesOf(managed[i + 1..], id)
  {
    hide EntriesOf;
    OneEntry(d, id);
    AroundFirst(managed, i, d, id);
  }

  lemma OtherEntries(managed: seq<DeviceConfig>, i: nat, d: DeviceConfig, x: Id)
    requires i < |managed| && d.id != x
    ensures EntriesOf(managed[i := d], x) == EntriesOf(managed[..i], x) + EntriesOf(managed[i + 1..], x)
  {
    hide EntriesOf;
    OneEntry(d, x);
    AroundFirst(managed, i, d, x);
    assert EntriesOf(managed[..i], x) + [] == EntriesOf(managed[..i], x);
  }

  lemma EntriesPersisted(codec: Codec, managed: seq<DeviceConfig>, id: Id, c: Change, x: Id)
    requires AsRead(codec, managed)
    ensures EntriesOf(Persisted(codec, managed, id, c), x) ==
      if x == id then Rewritten(codec, EntriesOf(managed, id), id, c) else EntriesOf(managed, x)
  {
    PersistedIs(codec, managed, id, c);
    var i := FirstOf(managed, id);
    if i < |managed| {
      ChangedKeepsId(codec, managed[i], id, c);
      EntriesReplaced(managed, i, ReadBack(codec, Changed(managed[i], c)), id, x);
    } else {
      var d := ReadBack(codec, Changed(NewEntry(id), c));
      ChangedKeepsId(codec, NewEntry(id), id, c);
      EntriesAppend(managed, [d], x);
      OneEntry(d, x);
      NoEntries(managed, id);
    }
    hide ReadBack, Changed, AsRead, Persisted, NewEntry, EntriesOf;
  }

  // ---- One write against the document it meets ----

  /** The pending check, repeated against this document, would pass; or the list is empty and the file tells
      that from a missing one, so that nothing can come back into view. */
  ghost predicate StillAccepted(codec: Codec, fixed: seq<DeviceConfig>, managed: seq<DeviceConfig>, id: Id,
                                ups: seq<Id>)
  {
    PendingAccepted(fixed, managed, id, ups) || (ups == [] && codec != EmptyIsMissing)
  }

  ghost predicate Acceptable(codec: Codec, fixed: seq<DeviceConfig>, managed: seq<DeviceConfig>) {
    AsRead(codec, managed) && AcceptableDependencies(Merged(fixed, managed))
  }

  function Wrote(codec: Codec, managed: seq<DeviceConfig>, id: Id, ups: seq<Id>): seq<DeviceConfig> {
    Persisted(codec, managed, id, SetUpstreams(Some(ups)))
  }

  /** Whatever is in the document is in the merged inventory. */
  lemma EditedIsPresent(fixed: seq<DeviceConfig>, managed: seq<DeviceConfig>, id: Id, c: Change)
    ensures exists d :: d in Merged(fixed, Edited(managed, id, c)) && d.id == id
  {
    var w := Edited(managed, id, c);
    var i := FirstOf(managed, id);
    var e := w[if i < |managed| then i else |managed|];
    assert e.id == id && e in w;
    MergedLookup(fixed, w, id);
    TailFacts(fixed, w, e);
    IndexKeys(Merged(fixed, w));
    hide StaticIndex, Overlaid, Merged, Edited;
  }

  lemma EmptiedIsSafe(codec: Codec, fixed: seq<DeviceConfig>, managed: seq<DeviceConfig>, id: Id)
    requires Acceptable(codec, fixed, managed) && codec != EmptyIsMissing
    ensures AcceptableDependencies(Merged(fixed, Wrote(codec, managed, id, [])))
  {
    PersistedIs(codec, managed, id, SetUpstreams(Some([])));
    var w, i := Wrote(codec, managed, id, []), FirstOf(managed, id);
    hide AcceptableDependencies, Merged;
    if i < |managed| {
      forall k | 0 <= k < |w| ensures ThinnerEntry(w[k], managed[k]) {
      }
      MergedThinner(fixed, w, managed);
      ThinnerAcceptable(Merged(fixed, w), Merged(fixed, managed));
    } else {
      AppendedEntry(fixed, managed, ReadBack(codec, Changed(NewEntry(id), SetUpstreams(Some([])))));
    }
  }

  /** Otherwise the file reads back as what the check looked at. */
  lemma SameAsChecked(codec: Codec, managed: seq<DeviceConfig>, id: Id, ups: seq<Id>)
    requires AsRead(codec, managed) && (ups != [] || (codec == EmptyIsMissing && FirstOf(managed, id) < |managed|))
    ensures Wrote(codec, managed, id, ups) == Edited(managed, id, SetUpstreams(PendingList(managed, id, ups)))
  {
    PersistedIs(codec, managed, id, SetUpstreams(Some(ups)));
  }

  /** A write leaves an acceptable document acceptable exactly when its change is still accepted. */
  lemma WriteExactly(codec: Codec, fixed: seq<DeviceConfig>, managed: seq<DeviceConfig>, id: Id, ups: seq<Id>)
    requires Acceptable(codec, fixed, managed)
    ensures Acceptable(codec, fixed, Wrote(codec, managed, id, ups)) <==> StillAccepted(codec, fixed, managed, id, ups)
  {
    PersistedIs(codec, managed, id, SetUpstreams(Some(ups)));
    hide AcceptableDependencies, Merged, Edited, AsRead;
    if PendingAccepted(fixed, managed, id, ups) {
      DependencyMutationSafe(codec, fixed, managed, id, ups);
    } else if ups == [] && codec != EmptyIsMissing {
      EmptiedIsSafe(codec, fixed, managed, id);
    } else {
      EditedIsPresent(fixed, managed, id, SetUpstreams(PendingList(managed, id, ups)));
      if ups == [] && FirstOf(managed, id) == |managed| {
        NewEmptyAccepted(codec, fixed, managed, id);
        assert false;
      } else {
        SameAsChecked(codec, managed, id, ups);
      }
    }
  }

  lemma NewEmptyAccepted(codec: Codec, fixed: seq<DeviceConfig>, managed: seq<DeviceConfig>, id: Id)
    requires Acceptable(codec, fixed, managed) && FirstOf(managed, id) == |managed|
    ensures PendingAccepted(fixed, managed, id, [])
  {
    EditedIsPresent(fixed, managed, id, SetUpstreams(Some([])));
    AppendedEntry(fixed, managed, Changed(NewEntry(id), SetUpstreams(Some([]))));
    hide AcceptableDependencies, Merged;
  }

  // ---- Interleaved runs ----

  // A request that passed its check and waits for the lock.
  datatype Request = Request(id: Id, ups: seq<Id>)

  datatype Shared = Shared(managed: seq<DeviceConfig>, waiting: seq<Request>)

  datatype Step =
    | Check(id: Id, ups: seq<Id>)
    | Write(k: nat, fails: bool)
    | Other(id: Id, change: Change)    // a threshold or alerting change, checked and written under the lock

  ghost function Take(codec: Codec, fixed: seq<DeviceConfig>, s: Shared, step: Step): Shared {
    match step
    case Check(id, ups) =>
      if PendingAccepted(fixed, s.managed, id, ups) then s.(waiting := s.waiting + [Request(id, ups)]) else s
    case Write(k, fails) =>
      if k < |s.waiting| then
        Shared(if fails then s.managed else Wrote(codec, s.managed, s.waiting[k].id, s.waiting[k].ups),
               s.waiting[..k] + s.waiting[k + 1..])
      else s
    case Other(id, change) =>
      if change.SetUpstreams? then s else s.(managed := Persisted(codec, s.managed, id, change))
  }

  ghost function Run(codec: Codec, fixed: seq<DeviceConfig>, managed: seq<DeviceConfig>, steps: seq<Step>): Shared {
    if steps == [] then Shared(managed, [])
    else Take(codec, fixed, Run(codec, fixed, managed, steps[..|steps| - 1]), steps[|steps| - 1])
  }

  /** This step, if it writes a request, writes one that is still accepted. */
  ghost predicate WritesAccepted(codec: Codec, fixed: seq<DeviceConfig>, s: Shared, step: Step) {
    step.Write? && step.k < |s.waiting| && !step.fails ==>
      StillAccepted(codec, fixed, s.managed, s.waiting[step.k].id, s.waiting[step.k].ups)
  }

  ghost predicate AllWritesAccepted(codec: Codec, fixed: seq<DeviceConfig>, managed: seq<DeviceConfig>,
                                    steps: seq<Step>)
  {
    forall n :: 0 <= n < |steps| ==> WritesAccepted(codec, fixed, Run(codec, fixed, managed, steps[..n]), steps[n])
  }

  ghost predicate AlwaysAcceptable(codec: Codec, fixed: seq<DeviceConfig>, managed: seq<DeviceConfig>,
                                   steps: seq<Step>)
  {
    forall n :: 0 <= n <= |steps| ==> Acceptable(codec, fixed, Run(codec, fixed, managed, steps[..n]).managed)
  }

  lemma StepExactly(codec: Codec, fixed: seq<DeviceConfig>, s: Shared, step: Step)
    requires Acceptable(codec, fixed, s.managed)
    ensures Acceptable(codec, fixed, Take(codec, fixed, s, step).managed) <==> WritesAccepted(codec, fixed, s, step)
  {
    hide AcceptableDependencies, Merged, StillAccepted, Edited, PendingAccepted;
    match step {
      case Write(k, fails) =>
        if k < |s.waiting| && !fails { WriteExactly(codec, fixed, s.managed, s.waiting[k].id, s.waiting[k].ups); }
      case Other(id, change) =>
        if !change.SetUpstreams? {
          OtherMutationSafe(codec, fixed, s.managed, id, change);
          ReadBackTwice(codec, Edited(s.managed, id, change));
        }
      case _ =>
    }
  }

  lemma RunStep(codec: Codec, fixed: seq<DeviceConfig>, managed: seq<DeviceConfig>, steps: seq<Step>, n: nat)
    requires n < |steps|
    ensures Run(codec, fixed, managed, steps[..n + 1]) ==
      Take(codec, fixed, Run(codec, fixed, managed, steps[..n]), steps[n])
  {
    assert steps[..n + 1][..n] == steps[..n];
    hide Take;
  }

  lemma {:induction false} AcceptableThrough(codec: Codec, fixed: seq<DeviceConfig>, managed: seq<DeviceConfig>,
                                             steps: seq<Step>, n: nat)
    requires Acceptable(codec, fixed, managed) && n <= |steps| && AllWritesAccepted(codec, fixed, managed, steps)
    ensures Acceptable(codec, fixed, Run(codec, fixed, managed, steps[..n]).managed)
  {
    hide Acceptable, WritesAccepted, Take;
    if n > 0 {
      AcceptableThrough(codec, fixed, managed, steps, n - 1);
      RunStep(codec, fixed, managed, steps, n - 1);
      StepExactly(codec, fixed, Run(codec, fixed, managed, steps[..n - 1]), steps[n - 1]);
    }
  }

  /** Over every interleaving of any number of checks and writes: the document stays acceptable throughout
      exactly when every change written is still accepted by the check against the document it meets. */
  lemma InterleavedExactly(codec: Codec, fixed: seq<DeviceConfig>, managed: seq<DeviceConfig>, steps: seq<Step>)
    requires Acceptable(codec, fixed, managed)
    ensures AlwaysAcceptable(codec, fixed, managed, steps) <==> AllWritesAccepted(codec, fixed, managed, steps)
  {
    hide Acceptable, WritesAccepted, Take;
    if AllWritesAccepted(codec, fixed, managed, steps) {
      forall n | 0 <= n <= |steps| ensures Acceptable(codec, fixed, Run(codec, fixed, managed, steps[..n]).managed) {
        AcceptableThrough(codec, fixed, managed, steps, n);
      }
    }
    if AlwaysAcceptable(codec, fixed, managed, steps) {
      forall n | 0 <= n < |steps|
        ensures WritesAccepted(codec, fixed, Run(codec, fixed, managed, steps[..n]), steps[n])
      {
        RunStep(codec, fixed, managed, steps, n);
        assert Acceptable(codec, fixed, Run(codec, fixed, managed, steps[..n + 1]).managed);
        StepExactly(codec, fixed, Run(codec, fixed, managed, steps[..n]), steps[n]);
      }
    }
  }

  // ---- Two overlapping commits ----

  /** Both are checked before either is written. */
  function OverlapSteps(a: Id, ua: seq<Id>, b: Id, ub: seq<Id>): seq<Step> {
    [Check(a, ua), Check(b, ub), Write(0, false), Write(0, false)]
  }

  lemma OverlapRun(codec: Codec, fixed: seq<DeviceConfig>, managed: seq<DeviceConfig>, a: Id, ua: seq<Id>, b: Id,
                   ub: seq<Id>)
    requires PendingAccepted(fixed, managed, a, ua) && PendingAccepted(fixed, managed, b, ub)
    ensures Run(codec, fixed, managed, OverlapSteps(a, ua, b, ub)).managed ==
      Wrote(codec, Wrote(codec, managed, a, ua), b, ub)
  {
    FourSteps(codec, fixed, managed, Check(a, ua), Check(b, ub), Write(0, false), Write(0, false));
    hide Run, PendingAccepted, Persisted;
    var ra, rb := Request(a, ua), Request(b, ub);
    assert [] + [ra] == [ra] && [ra] + [rb] == [ra, rb];
    assert [ra, rb][..0] + [ra, rb][1..] == [rb];
  }

  lemma FourSteps(codec: Codec, fixed: seq<DeviceConfig>, managed: seq<DeviceConfig>, s1: Step, s2: Step, s3: Step,
                  s4: Step)
    ensures Run(codec, fixed, managed, [s1, s2, s3, s4]) ==
      var two := Take(codec, fixed, Take(codec, fixed, Shared(managed, []), s1), s2);
      Take(codec, fixed, Take(codec, fixed, two, s3), s4)
  {
    hide *;
    NoSteps(codec, fixed, managed);
    OneMoreStep(codec, fixed, managed, [], s1);
    OneMoreStep(codec, fixed, managed, [] + [s1], s2);
    OneMoreStep(codec, fixed, managed, [] + [s1] + [s2], s3);
    OneMoreStep(codec, fixed, managed, [] + [s1] + [s2] + [s3], s4);
    assert [] + [s1] + [s2] + [s3] + [s4] == [s1, s2, s3, s4];
  }

  lemma NoSteps(codec: Codec, fixed: seq<DeviceConfig>, managed: seq<DeviceConfig>)
    ensures Run(codec, fixed, managed, []) == Shared(managed, [])
  {
  }

  lemma OneMoreStep(codec: Codec, fixed: seq<DeviceConfig>, managed: seq<DeviceConfig>, steps: seq<Step>, step: Step)
    ensures Run(codec, fixed, managed, steps + [step]) == Take(codec, fixed, Run(codec, fixed, managed, steps), step)
  {
    assert (steps + [step])[..|steps|] == steps;
    hide Take;
  }

  ghost function GraphOf(fixed: seq<DeviceConfig>, managed: seq<DeviceConfig>): Graph {
    DependencyGraph(Index(Merged(fixed, managed)))
  }

  function ListOf(d: Option<DeviceConfig>): seq<Id> {
    if d.Some? then d.value.Upstreams() else []
  }

  /** The upstreams of a device once a request was written, as the merged inventory has them. */
  function ListAfter(codec: Codec, fixed: seq<DeviceConfig>, managed: seq<DeviceConfig>, id: Id,
                     ups: seq<Id>): seq<Id>
  {
    ListOf(Lookup(fixed, EntriesOf(Wrote(codec, managed, id, ups), id), id))
  }

  lemma GraphAt(fixed: seq<DeviceConfig>, managed: seq<DeviceConfig>, x: Id)
    ensures var g, l := GraphOf(fixed, managed), Lookup(fixed, EntriesOf(managed, x), x);
      (x in g <==> l.Some?) && (x in g ==> g[x] == ListOf(l))
  {
    MergedLookup(fixed, managed, x);
    hide Lookup, EntriesOf, Merged, Index;
  }

  lemma GraphWrote(codec: Codec, fixed: seq<DeviceConfig>, managed: seq<DeviceConfig>, id: Id, ups: seq<Id>)
    requires AsRead(codec, managed)
    ensures GraphOf(fixed, Wrote(codec, managed, id, ups)) ==
      GraphOf(fixed, managed)[id := ListAfter(codec, fixed, managed, id, ups)]
  {
    var w := Wrote(codec, managed, id, ups);
    var g, h := GraphOf(fixed, managed), GraphOf(fixed, w);
    hide GraphOf, EntriesOf, AsRead, Persisted, Overlaid, StaticIndex, ReadBack, Changed, NewEntry;
    forall x ensures x in h <==> x in g || x == id
      ensures x in h && x != id ==> h[x] == g[x]
      ensures x == id ==> x in h && h[x] == ListAfter(codec, fixed, managed, id, ups)
    {
      EntriesPersisted(codec, managed, id, SetUpstreams(Some(ups)), x);
      GraphAt(fixed, managed, x);
      GraphAt(fixed, w, x);
    }
  }

  /** Another device's write does not change what a request comes to. */
  lemma ListIndependent(codec: Codec, fixed: seq<DeviceConfig>, managed: seq<DeviceConfig>, a: Id, ua: seq<Id>, b: Id,
                        ub: seq<Id>)
    requires AsRead(codec, managed) && a != b
    ensures EntriesOf(Wrote(codec, Wrote(codec, managed, a, ua), b, ub), b) ==
      EntriesOf(Wrote(codec, managed, b, ub), b)
    ensures ListAfter(codec, fixed, Wrote(codec, managed, a, ua), b, ub) == ListAfter(codec, fixed, managed, b, ub)
  {
    PersistedIs(codec, managed, a, SetUpstreams(Some(ua)));
    EntriesPersisted(codec, managed, a, SetUpstreams(Some(ua)), b);
    EntriesPersisted(codec, managed, b, SetUpstreams(Some(ub)), b);
    EntriesPersisted(codec, Wrote(codec, managed, a, ua), b, SetUpstreams(Some(ub)), b);
    hide EntriesOf, AsRead, Persisted, Lookup, Rewritten;
  }

  lemma AcceptableClosed(devices: seq<DeviceConfig>)
    requires AcceptableDependencies(devices)
    ensures Closed(DependencyGraph(Index(devices)))
  {
    IndexKeys(devices);
    hide Cyclic;
    forall x, u | x in Index(devices) && u in Index(devices)[x].Upstreams() ensures u in Index(devices) {
      assert UpstreamsWellFormed(Index(devices).Keys, Index(devices)[x]);
    }
  }

  /** The lists stay well formed when both are written, so only a cycle can make the result unacceptable. */
  lemma ListsStayFormed(codec: Codec, fixed: seq<DeviceConfig>, managed: seq<DeviceConfig>, a: Id, ua: seq<Id>, b: Id,
                        ub: seq<Id>)
    requires AsRead(codec, managed) && a != b
    requires AcceptableDependencies(Merged(fixed, Wrote(codec, managed, a, ua)))
    requires AcceptableDependencies(Merged(fixed, Wrote(codec, managed, b, ub)))
    ensures var w := Wrote(codec, Wrote(codec, managed, a, ua), b, ub);
      AcceptableDependencies(Merged(fixed, w)) <==> !Cyclic(GraphOf(fixed, w))
  {
    hide *;
    var w := Wrote(codec, Wrote(codec, managed, a, ua), b, ub);
    forall d | d in Merged(fixed, w) ensures UpstreamsWellFormed(Index(Merged(fixed, w)).Keys, d) {
      FormedAt(codec, fixed, managed, a, ua, b, ub, d);
    }
    AcceptableParts(Merged(fixed, w));
    GraphParts(fixed, w);
  }

  lemma AcceptableParts(devices: seq<DeviceConfig>)
    ensures AcceptableDependencies(devices) <==>
      (forall d :: d in devices ==> UpstreamsWellFormed(Index(devices).Keys, d))
        && !Cyclic(DependencyGraph(Index(devices)))
  {
  }

  lemma GraphParts(fixed: seq<DeviceConfig>, managed: seq<DeviceConfig>)
    ensures GraphOf(fixed, managed) == DependencyGraph(Index(Merged(fixed, managed)))
    ensures GraphOf(fixed, managed).Keys == Index(Merged(fixed, managed)).Keys
  {
    hide Merged, Index;
  }

  /** Every device there is after both writes was there, as it is, after one of them alone. */
  lemma FormedAt(codec: Codec, fixed: seq<DeviceConfig>, managed: seq<DeviceConfig>, a: Id, ua: seq<Id>, b: Id,
                 ub: seq<Id>,
                 d: DeviceConfig)
    requires AsRead(codec, managed) && a != b
    requires AcceptableDependencies(Merged(fixed, Wrote(codec, managed, a, ua)))
    requires AcceptableDependencies(Merged(fixed, Wrote(codec, managed, b, ub)))
    requires d in Merged(fixed, Wrote(codec, Wrote(codec, managed, a, ua), b, ub))
    ensures UpstreamsWellFormed(Index(Merged(fixed, Wrote(codec, Wrote(codec, managed, a, ua), b, ub))).Keys, d)
  {
    var w1, w2 := Wrote(codec, managed, a, ua), Wrote(codec, managed, b, ub);
    var w := Wrote(codec, w1, b, ub);
    PersistedIs(codec, managed, a, SetUpstreams(Some(ua)));
    hide *;
    KeysGrow(codec, fixed, managed, a, ua, b, ub);
    MergedMember(fixed, w, d);
    if d.id == b {
      ListIndependent(codec, fixed, managed, a, ua, b, ub);
      MergedMember(fixed, w2, d);
      AcceptableParts(Merged(fixed, w2));
      FormedMore(Index(Merged(fixed, w2)).Keys, Index(Merged(fixed, w)).Keys, d);
    } else {
      EntriesPersisted(codec, w1, b, SetUpstreams(Some(ub)), d.id);
      MergedMember(fixed, w1, d);
      AcceptableParts(Merged(fixed, w1));
      FormedMore(Index(Merged(fixed, w1)).Keys, Index(Merged(fixed, w)).Keys, d);
    }
  }

  lemma KeysGrow(codec: Codec, fixed: seq<DeviceConfig>, managed: seq<DeviceConfig>, a: Id, ua: seq<Id>, b: Id,
                 ub: seq<Id>)
    requires AsRead(codec, managed)
    ensures var w1, w2 := Wrote(codec, managed, a, ua), Wrote(codec, managed, b, ub);
      var known := Index(Merged(fixed, Wrote(codec, w1, b, ub))).Keys;
      Index(Merged(fixed, w1)).Keys <= known && Index(Merged(fixed, w2)).Keys <= known
  {
    var w1, w2 := Wrote(codec, managed, a, ua), Wrote(codec, managed, b, ub);
    PersistedIs(codec, managed, a, SetUpstreams(Some(ua)));
    hide *;
    GraphWrote(codec, fixed, managed, a, ua);
    GraphWrote(codec, fixed, managed, b, ub);
    GraphWrote(codec, fixed, w1, b, ub);
    GraphParts(fixed, managed);
    GraphParts(fixed, w1);
    GraphParts(fixed, w2);
    GraphParts(fixed, Wrote(codec, w1, b, ub));
  }

  lemma FormedMore(known: set<Id>, more: set<Id>, d: DeviceConfig)
    requires UpstreamsWellFormed(known, d) && known <= more
    ensures UpstreamsWellFormed(more, d)
  {
  }

  lemma WroteTwice(codec: Codec, managed: seq<DeviceConfig>, id: Id, ua: seq<Id>, ub: seq<Id>)
    requires AsRead(codec, managed)
    ensures Wrote(codec, Wrote(codec, managed, id, ua), id, ub) == Wrote(codec, managed, id, ub)
  {
    var w, i := Wrote(codec, managed, id, ua), FirstOf(managed, id);
    var d := if i < |managed| then managed[i] else NewEntry(id);
    PersistedIs(codec, managed, id, SetUpstreams(Some(ua)));
    PersistedIs(codec, managed, id, SetUpstreams(Some(ub)));
    PersistedIs(codec, w, id, SetUpstreams(Some(ub)));
    ChangedKeepsId(codec, NewEntry(id), id, SetUpstreams(Some(ua)));
    ChangedKeepsId(codec, d, id, SetUpstreams(Some(ua)));
    ChangedTwice(codec, d, ua, ub);
    hide AsRead, Persisted, ReadBack, Changed, FirstOf, NewEntry;
    FirstUnmoved(managed, w, id);
  }

  lemma ChangedTwice(codec: Codec, d: DeviceConfig, ua: seq<Id>, ub: seq<Id>)
    ensures var once := ReadBack(codec, Changed(d, SetUpstreams(Some(ua))));
      ReadBack(codec, Changed(once, SetUpstreams(Some(ub)))) == ReadBack(codec, Changed(d, SetUpstreams(Some(ub))))
  {
  }

  lemma FirstUnmoved(managed: seq<DeviceConfig>, w: seq<DeviceConfig>, id: Id)
    requires var i := FirstOf(managed, id);
      i < |w| && w[i].id == id && forall k :: 0 <= k < i ==> w[k] == managed[k]
    ensures FirstOf(w, id) == FirstOf(managed, id)
  {
    var i := FirstOf(managed, id);
    hide FirstOf;
    assert forall k :: 0 <= k < i ==> w[k].id != id;
  }

  /** Each request was accepted on its own. Written one after the other without a further check, they leave an
      acceptable document exactly when they are for one device, or not both lists lead, by the dependencies
      the two checks saw, to the other request's device. */
  lemma OverlapExactly(codec: Codec, fixed: seq<DeviceConfig>, managed: seq<DeviceConfig>, a: Id, ua: seq<Id>, b: Id,
                       ub: seq<Id>)
    requires Acceptable(codec, fixed, managed)
    requires PendingAccepted(fixed, managed, a, ua) && PendingAccepted(fixed, managed, b, ub)
    ensures var g := GraphOf(fixed, managed);
      Acceptable(codec, fixed, Run(codec, fixed, managed, OverlapSteps(a, ua, b, ub)).managed) <==>
        a == b || !(LeadsTo(g, ListAfter(codec, fixed, managed, a, ua), b)
          && LeadsTo(g, ListAfter(codec, fixed, managed, b, ub), a))
  {
    var w1, w2 := Wrote(codec, managed, a, ua), Wrote(codec, managed, b, ub);
    OverlapRun(codec, fixed, managed, a, ua, b, ub);
    DependencyMutationSafe(codec, fixed, managed, a, ua);
    DependencyMutationSafe(codec, fixed, managed, b, ub);
    PersistedIs(codec, managed, a, SetUpstreams(Some(ua)));
    PersistedIs(codec, managed, b, SetUpstreams(Some(ub)));
    PersistedIs(codec, w1, b, SetUpstreams(Some(ub)));
    hide AcceptableDependencies, Merged, Persisted, AsRead, PendingAccepted, Run, ListAfter, Edits, Cyclic;
    if a == b {
      WroteTwice(codec, managed, a, ua, ub);
    } else {
      ListsStayFormed(codec, fixed, managed, a, ua, b, ub);
      GraphsAreEdits(codec, fixed, managed, a, ua, b, ub);
      GraphAcyclic(fixed, w1);
      GraphAcyclic(fixed, w2);
      TwoEditsExactly(GraphOf(fixed, managed), GraphOf(fixed, w1), GraphOf(fixed, w2),
                      GraphOf(fixed, Wrote(codec, w1, b, ub)),
                      a, ListAfter(codec, fixed, managed, a, ua), b, ListAfter(codec, fixed, managed, b, ub));
    }
  }

  lemma GraphAcyclic(fixed: seq<DeviceConfig>, managed: seq<DeviceConfig>)
    requires AcceptableDependencies(Merged(fixed, managed))
    ensures !Cyclic(GraphOf(fixed, managed)) && Closed(GraphOf(fixed, managed))
  {
    AcceptableClosed(Merged(fixed, managed));
    hide Merged;
  }

  lemma GraphsAreEdits(codec: Codec, fixed: seq<DeviceConfig>, managed: seq<DeviceConfig>, a: Id, ua: seq<Id>, b: Id,
                       ub: seq<Id>)
    requires Acceptable(codec, fixed, managed) && a != b
    requires AcceptableDependencies(Merged(fixed, Wrote(codec, managed, a, ua)))
    requires AcceptableDependencies(Merged(fixed, Wrote(codec, managed, b, ub)))
    ensures var w1, w2 := Wrote(codec, managed, a, ua), Wrote(codec, managed, b, ub);
      Edits(GraphOf(fixed, managed), GraphOf(fixed, w1), GraphOf(fixed, w2), GraphOf(fixed, Wrote(codec, w1, b, ub)),
            a, ListAfter(codec, fixed, managed, a, ua), b, ListAfter(codec, fixed, managed, b, ub))
  {
    var w1 := Wrote(codec, managed, a, ua);
    PersistedIs(codec, managed, a, SetUpstreams(Some(ua)));
    hide AcceptableDependencies, Merged, Persisted, AsRead, ListAfter, Closed, GraphOf;
    GraphWrote(codec, fixed, managed, a, ua);
    GraphWrote(codec, fixed, managed, b, ub);
    GraphWrote(codec, fixed, w1, b, ub);
    ListIndependent(codec, fixed, managed, a, ua, b, ub);
    GraphAcyclic(fixed, managed);
    GraphAcyclic(fixed, w1);
    GraphAcyclic(fixed, Wrote(codec, managed, b, ub));
  }

  /** Unless an id has several managed entries, a nonempty requested list is the one the device gets. */
  lemma ListIsRequested(codec: Codec, fixed: seq<DeviceConfig>, managed: seq<DeviceConfig>, id: Id, ups: seq<Id>)
    requires AsRead(codec, managed) && ups != [] && |EntriesOf(managed, id)| <= 1
    ensures ListAfter(codec, fixed, managed, id, ups) == ups
  {
    EntriesPersisted(codec, managed, id, SetUpstreams(Some(ups)), id);
    OneRewritten(codec, fixed, EntriesOf(managed, id), id, ups);
    hide AsRead, Persisted, EntriesOf, Rewritten, Lookup;
  }

  lemma OneRewritten(codec: Codec, fixed: seq<DeviceConfig>, entries: seq<DeviceConfig>, id: Id, ups: seq<Id>)
    requires ups != [] && |entries| <= 1
    ensures ListOf(Lookup(fixed, Rewritten(codec, entries, id, SetUpstreams(Some(ups))), id)) == ups
  {
    hide StaticIndex;
    var d := ReadBack(codec, Changed(if entries == [] then NewEntry(id) else entries[0], SetUpstreams(Some(ups))));
    assert Rewritten(codec, entries, id, SetUpstreams(Some(ups))) == [d];
    assert [d][..0] == [];
  }

  /** Two requests that cross always close a cycle. */
  lemma CrossedRequestsClose(codec: Codec, fixed: seq<DeviceConfig>, managed: seq<DeviceConfig>, a: Id, b: Id)
    requires Acceptable(codec, fixed, managed) && a != b
    requires PendingAccepted(fixed, managed, a, [b]) && PendingAccepted(fixed, managed, b, [a])
    requires |EntriesOf(managed, a)| <= 1 && |EntriesOf(managed, b)| <= 1
    ensures !Acceptable(codec, fixed, Run(codec, fixed, managed, OverlapSteps(a, [b], b, [a])).managed)
  {
    OverlapExactly(codec, fixed, managed, a, [b], b, [a]);
    ListIsRequested(codec, fixed, managed, a, [b]);
    ListIsRequested(codec, fixed, managed, b, [a]);
    ReachesSelf(GraphOf(fixed, managed), a);
    ReachesSelf(GraphOf(fixed, managed), b);
    hide AcceptableDependencies, Merged, PendingAccepted, Run, ListAfter, GraphOf, Reaches;
    assert b in [b] && a in [a];
  }

  // ---- The smallest case ----

  const TWO_DEVICES := [
    DeviceConfig("a", "h1", "", None, None, None, []),
    DeviceConfig("b", "h2", "", None, None, None, [])]
  const OVERLAY_A := DeviceConfig("a", "", "", None, Some(["b"]), None, [])
  const OVERLAY_B := DeviceConfig("b", "", "", None, Some(["a"]), None, [])
  const A_BEHIND_B := DeviceConfig("a", "h1", "", None, Some(["b"]), None, [])
  const B_BEHIND_A := DeviceConfig("b", "h2", "", None, Some(["a"]), None, [])

  /** Two devices without upstreams, each asked to depend on the other: both requests pass their checks, and
      the run that checks both before it writes either leaves a cycle on disk. */
  lemma TwoDevicesClose(codec: Codec)
    ensures Acceptable(codec, TWO_DEVICES, [])
    ensures !Acceptable(codec, TWO_DEVICES, Run(codec, TWO_DEVICES, [], OverlapSteps("a", ["b"], "b", ["a"])).managed)
  {
    NothingEdited(codec);
    EachAccepted();
    hide *;
    CrossedRequestsClose(codec, TWO_DEVICES, [], "a", "b");
  }

  lemma NothingEdited(codec: Codec)
    ensures Acceptable(codec, TWO_DEVICES, []) && EntriesOf([], "a") == [] && EntriesOf([], "b") == []
  {
    IndexOfTwo(TWO_DEVICES[0], TWO_DEVICES[1]);
    RankedIsAcyclic(DependencyGraph(Index(TWO_DEVICES)), map["a" := 0, "b" := 0]);
  }

  lemma EachAccepted()
    ensures PendingAccepted(TWO_DEVICES, [], "a", ["b"]) && PendingAccepted(TWO_DEVICES, [], "b", ["a"])
  {
    OneEdit("a", ["b"]);
    OneEdit("b", ["a"]);
    MergeOneOfTwo();
    OneWayAcceptable();
    EditedIsPresent(TWO_DEVICES, [], "a", SetUpstreams(Some(["b"])));
    EditedIsPresent(TWO_DEVICES, [], "b", SetUpstreams(Some(["a"])));
    hide AcceptableDependencies, Merged;
  }

  lemma OneEdit(id: Id, ups: seq<Id>)
    ensures Edited([], id, SetUpstreams(PendingList([], id, ups))) ==
      [DeviceConfig(id, "", "", None, Some(ups), None, [])]
    ensures PendingList([], id, ups) == Some(ups)
  {
  }

  lemma MergeOneOfTwo()
    ensures Merged(TWO_DEVICES, [OVERLAY_A]) == [A_BEHIND_B, TWO_DEVICES[1]]
    ensures Merged(TWO_DEVICES, [OVERLAY_B]) == [TWO_DEVICES[0], B_BEHIND_A]
  {
    TwoIndex();
    hide StaticIndex;
    assert [OVERLAY_A][..0] == [] && [OVERLAY_B][..0] == [];
    assert Merged(TWO_DEVICES, []) == TWO_DEVICES;
  }

  lemma TwoIndex()
    ensures StaticIndex(TWO_DEVICES) == map["a" := 0, "b" := 1]
  {
    assert TWO_DEVICES[..1] == [TWO_DEVICES[0]] && TWO_DEVICES[..1][..0] == [];
  }

  lemma IndexOfTwo(x: DeviceConfig, y: DeviceConfig)
    ensures Index([x, y]) == map[x.id := x][y.id := y]
  {
    assert [x, y][..1] == [x] && [x][..0] == [];
    assert Index([x]) == map[x.id := x];
    assert Index([x, y]) == Index([x])[y.id := y];
  }

  lemma OneWayAcceptable()
    ensures AcceptableDependencies([A_BEHIND_B, TWO_DEVICES[1]]) && AcceptableDependencies([TWO_DEVICES[0], B_BEHIND_A])
  {
    IndexOfTwo(A_BEHIND_B, TWO_DEVICES[1]);
    IndexOfTwo(TWO_DEVICES[0], B_BEHIND_A);
    RankedIsAcyclic(DependencyGraph(Index([A_BEHIND_B, TWO_DEVICES[1]])), map["a" := 1, "b" := 0]);
    RankedIsAcyclic(DependencyGraph(Index([TWO_DEVICES[0], B_BEHIND_A])), map["a" := 0, "b" := 1]);
  }
}
