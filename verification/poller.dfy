/** The poller's view of the inventory: the tracker is pruned exactly when the set of devices changed. */
module Poller {
  import opened Ids
  import opened Graphs
  import opened Config
  import opened Health
  import opened HealthTracker
  import opened HealthStream

  class Poller {
    const tracker: Tracker
    var activeDevices: set<Id>
    // The prunings and cycles so far.
    ghost var run: seq<TrackerStep>

    /** The ledger is that of the run, and never outgrows the active inventory. */
    ghost predicate Valid()
      reads this, tracker
    {
      tracker.devices == Play(run).ledger && tracker.devices.Keys <= activeDevices
    }

    constructor ()
      ensures Valid() && fresh(tracker) && run == [] && activeDevices == {}
    {
      tracker := new Tracker();
      activeDevices, run := {}, [];
    }

    /** Comparing sizes and then members decides whether the sets differ. */
    method SyncInventory(cfg: Settings)
      requires Valid()
      modifies this, tracker
      ensures Valid() && activeDevices == cfg.DeviceIndex().Keys
      ensures run == old(run) + [Retain(cfg.DeviceIndex().Keys)]
      ensures tracker.devices == Restrict(old(tracker.devices), cfg.DeviceIndex().Keys)
    {
      var ids: seq<Id> := [];
      var next: set<Id> := {};
      var i := 0;
      while i < |cfg.devices|
        invariant 0 <= i <= |cfg.devices| && next == Elems(ids)
        invariant ids == IdsOf(cfg.devices[..i]) && unchanged(this) && unchanged(tracker)
      {
        SplitAt(cfg.devices, i);
        ElemsAppend(ids, cfg.devices[i].id);
        ids := ids + [cfg.devices[i].id];
        next := next + {cfg.devices[i].id};
        i := i + 1;
      }
      assert cfg.devices[..i] == cfg.devices;
      IdsAreKeys(cfg.devices);
      hide IdsOf, Index;
      var changed := |activeDevices| != |next|;
      if !changed {
        changed := exists id :: id in next && id !in activeDevices;
      }
      assert forall id :: id in ids <==> id in Elems(ids);
      if changed {
        tracker.Prune(ids);
        RestrictIs(old(tracker.devices), next, tracker.devices);
        activeDevices := next;
      } else {
        assert forall id :: id in next ==> id in activeDevices;
        SubsetCard(next, activeDevices);
        assert forall id :: id in tracker.devices ==> id in next;
        RestrictIs(tracker.devices, next, tracker.devices);
      }
      PlayNext(run, Retain(next));
      run := run + [Retain(next)];
    }

    /** A completed cycle: the inventory is synchronised first, then the batch is applied to what is left. */
    method CompleteCycle(cfg: Settings, outcomes: seq<PollOutcome>) returns (events: seq<Event>)
      requires Valid() && BatchEnds(cfg, Restrict(tracker.devices, cfg.DeviceIndex().Keys), outcomes)
      modifies this, tracker
      ensures Valid() && activeDevices == cfg.DeviceIndex().Keys
      ensures run == old(run) + [Retain(cfg.DeviceIndex().Keys), Cycle(cfg, outcomes)]
      ensures events == EventsOf(Restrict(old(tracker.devices), cfg.DeviceIndex().Keys), Cycle(cfg, outcomes))
    {
      hide Batch, BatchEnds, Play;
      SyncInventory(cfg);
      ghost var before := tracker.devices;
      events := tracker.ApplyBatch(cfg, outcomes);
      BatchKeys(cfg, before, outcomes);
      PlayNext(run, Cycle(cfg, outcomes));
      run := run + [Cycle(cfg, outcomes)];
    }
  }

  lemma PlayNext(run: seq<TrackerStep>, step: TrackerStep)
    ensures Play(run + [step]) == TakeStep(Play(run), step)
  {
    assert (run + [step])[..|run|] == run;
  }

  lemma RestrictIs(m: Ledger, ids: set<Id>, r: Ledger)
    requires forall id :: id in r <==> id in m && id in ids
    requires forall id :: id in r ==> r[id] == m[id]
    ensures r == Restrict(m, ids)
  {
  }

  function IdsOf(devices: seq<DeviceConfig>): seq<Id> {
    if devices == [] then [] else IdsOf(devices[..|devices| - 1]) + [devices[|devices| - 1].id]
  }

  lemma {:induction false} IdsAreKeys(devices: seq<DeviceConfig>)
    ensures Elems(IdsOf(devices)) == Index(devices).Keys
  {
    if devices != [] {
      IdsAreKeys(devices[..|devices| - 1]);
      ElemsAppend(IdsOf(devices[..|devices| - 1]), devices[|devices| - 1].id);
    }
  }

  lemma BatchKeys(cfg: Settings, ledger: Ledger, outcomes: seq<PollOutcome>)
    ensures Batch(cfg, ledger, outcomes).ledger.Keys == ledger.Keys + cfg.DeviceIndex().Keys
  {
    hide Index;
    OrderKnown(cfg, ledger, outcomes);
  }
}
