/** One poll cycle: a dispatcher, concurrent workers and cancellation, as interleaved steps. */
module PollCycle {
  import opened Ids
  import opened Graphs
  import opened Config
  import opened EvaluationOrder
  import opened Health
  import opened HealthRuns
  import opened HealthConfluence

  datatype Worker =
    | Waiting                         // ranging over the jobs channel
    | Received(device: Id)            // took a job, has not looked at the context yet
    | Polling(device: Id)
    | Polled(outcome: PollOutcome)    // about to append under the outcomes lock
    | Exited

  datatype Phase =
    | Dispatching
    | Closing(complete: bool)         // jobs closed, waiting for the workers
    | Ended(committed: Option<seq<PollOutcome>>)

  datatype Cycle = Cycle(
    devices: seq<Id>,
    cancelled: bool,
    phase: Phase,
    dispatched: nat,
    workers: seq<Worker>,
    outcomes: seq<PollOutcome>)

  datatype Action =
    | Cancel
    | Dispatch(w: nat)
    | Abandon
    | CloseJobs
    | CheckContext(w: nat)
    | FinishPoll(w: nat, outcome: PollOutcome)
    | AppendOutcome(w: nat)
    | WorkerExit(w: nat)
    | Finish

  predicate AllExited(ws: seq<Worker>) {
    forall i :: 0 <= i < |ws| ==> ws[i] == Exited
  }

  predicate Enabled(c: Cycle, a: Action) {
    match a
    case Cancel => true
    case Dispatch(w) =>
      c.phase == Dispatching && c.dispatched < |c.devices| && w < |c.workers| && c.workers[w] == Waiting
    case Abandon => c.phase == Dispatching && c.cancelled && c.dispatched < |c.devices|
    case CloseJobs => c.phase == Dispatching && c.dispatched == |c.devices|
    case CheckContext(w) => w < |c.workers| && c.workers[w].Received?
    case FinishPoll(w, o) => w < |c.workers| && c.workers[w].Polling? && o.deviceID == c.workers[w].device
    case AppendOutcome(w) => w < |c.workers| && c.workers[w].Polled?
    case WorkerExit(w) => w < |c.workers| && c.workers[w] == Waiting && c.phase.Closing?
    case Finish => c.phase.Closing? && AllExited(c.workers)
  }

  function Do(c: Cycle, a: Action): Cycle
    requires Enabled(c, a)
  {
    match a
    case Cancel => c.(cancelled := true)
    case Dispatch(w) => c.(dispatched := c.dispatched + 1, workers := c.workers[w := Received(c.devices[c.dispatched])])
    case Abandon => c.(phase := Closing(false))
    case CloseJobs => c.(phase := Closing(true))
    case CheckContext(w) =>
      c.(workers := c.workers[w := if c.cancelled then Exited else Polling(c.workers[w].device)])
    case FinishPoll(w, o) => c.(workers := c.workers[w := Polled(o)])
    case AppendOutcome(w) =>
      c.(workers := c.workers[w := Waiting], outcomes := c.outcomes + [c.workers[w].outcome])
    case WorkerExit(w) => c.(workers := c.workers[w := Exited])
    case Finish =>
      c.(phase := Ended(if c.phase.complete && |c.outcomes| == |c.devices| then Some(c.outcomes) else None))
  }

  function Start(devices: seq<Id>, workerCount: nat): Cycle {
    Cycle(devices, false, Dispatching, 0, seq(workerCount, _ => Waiting), [])
  }

  ghost predicate IsRun(start: Cycle, actions: seq<Action>, end: Cycle) {
    if actions == [] then start == end
    else
      var earlier, last := actions[..|actions| - 1], actions[|actions| - 1];
      exists mid :: StepTo(mid, last, end) && IsRun(start, earlier, mid)
  }

  ghost predicate StepTo(c: Cycle, a: Action, c': Cycle) {
    Enabled(c, a) && c' == Do(c, a)
  }

  function DeviceIds(outcomes: seq<PollOutcome>): seq<Id> {
    seq(|outcomes|, i requires 0 <= i < |outcomes| => outcomes[i].deviceID)
  }

  function Job(w: Worker): multiset<Id> {
    match w
    case Received(d) => multiset{d}
    case Polling(d) => multiset{d}
    case Polled(o) => multiset{o.deviceID}
    case _ => multiset{}
  }

  function InFlight(ws: seq<Worker>): multiset<Id> {
    if ws == [] then multiset{} else InFlight(ws[..|ws| - 1]) + Job(ws[|ws| - 1])
  }

  lemma AddBoth(a: multiset<Id>, x: multiset<Id>, b: multiset<Id>, y: multiset<Id>, j: multiset<Id>)
    requires a + x == b + y
    ensures (a + j) + x == (b + j) + y
  {
    forall z: Id ensures ((a + j) + x)[z] == ((b + j) + y)[z] {
      assert (a + x)[z] == (b + y)[z];
    }
  }

  lemma {:induction false} InFlightUpdate(ws: seq<Worker>, i: nat, w: Worker)
    requires i < |ws|
    ensures InFlight(ws[i := w]) + Job(ws[i]) == InFlight(ws) + Job(w)
  {
    hide Job;
    var n := |ws| - 1;
    if i < n {
      InFlightUpdate(ws[..n], i, w);
      assert ws[i := w][..n] == ws[..n][i := w];
      AddBoth(InFlight(ws[..n][i := w]), Job(ws[i]), InFlight(ws[..n]), Job(w), Job(ws[n]));
    } else {
      assert ws[i := w][..n] == ws[..n];
    }
  }

  lemma InFlightSame(ws: seq<Worker>, i: nat, w: Worker)
    requires i < |ws| && Job(ws[i]) == Job(w)
    ensures InFlight(ws[i := w]) == InFlight(ws)
  {
    InFlightUpdate(ws, i, w);
    forall z: Id ensures InFlight(ws[i := w])[z] == InFlight(ws)[z] {
      assert (InFlight(ws[i := w]) + Job(w))[z] == (InFlight(ws) + Job(w))[z];
    }
  }

  lemma {:induction false} NothingInFlight(ws: seq<Worker>)
    requires forall i :: 0 <= i < |ws| ==> Job(ws[i]) == multiset{}
    ensures InFlight(ws) == multiset{}
  {
    if ws != [] { NothingInFlight(ws[..|ws| - 1]); }
  }

  ghost predicate Balanced(c: Cycle, dropped: multiset<Id>)
    requires c.dispatched <= |c.devices|
  {
    multiset(c.devices[..c.dispatched]) == multiset(DeviceIds(c.outcomes)) + InFlight(c.workers) + dropped
  }

  /** Every job handed out is in an outcome, in a worker's hands, or dropped by a cancelled worker. */
  ghost predicate Accounted(c: Cycle, dropped: multiset<Id>) {
    && c.dispatched <= |c.devices|
    && Balanced(c, dropped)
    && PhaseFits(c, dropped)
  }

  ghost predicate PhaseFits(c: Cycle, dropped: multiset<Id>) {
    && (dropped != multiset{} ==> c.cancelled)
    && (c.phase.Closing? && c.phase.complete ==> c.dispatched == |c.devices|)
    && (c.phase.Closing? && !c.phase.complete ==> c.cancelled)
    && (c.phase.Ended? && c.phase.committed.Some? ==>
          c.phase.committed.value == c.outcomes && multiset(DeviceIds(c.outcomes)) == multiset(c.devices))
    && (c.phase.Ended? && c.phase.committed.None? ==> c.cancelled)
    && (c.phase.Ended? ==> AllExited(c.workers))
  }

  function DroppedBy(c: Cycle, a: Action): multiset<Id>
    requires Enabled(c, a)
  {
    if a.CheckContext? && c.cancelled then multiset{c.workers[a.w].device} else multiset{}
  }

  lemma TakesJob(m: multiset<Id>, o: multiset<Id>, f: multiset<Id>, d: multiset<Id>, f': multiset<Id>, j: multiset<Id>)
    requires m == o + f + d && f' + multiset{} == f + j
    ensures m + j == o + f' + d
  {
    forall z: Id ensures (m + j)[z] == (o + f' + d)[z] {
      assert (f' + multiset{})[z] == (f + j)[z];
    }
  }

  lemma LosesJob(o: multiset<Id>, f: multiset<Id>, d: multiset<Id>, f': multiset<Id>, j: multiset<Id>)
    requires f' + j == f + multiset{}
    ensures o + f + d == (o + j) + f' + d && o + f + d == o + f' + (d + j)
  {
    forall z: Id ensures (o + f + d)[z] == ((o + j) + f' + d)[z] == (o + f' + (d + j))[z] {
      assert (f' + j)[z] == (f + multiset{})[z];
    }
  }

  lemma DispatchBalanced(c: Cycle, w: nat, dropped: multiset<Id>)
    requires c.dispatched <= |c.devices| && Balanced(c, dropped) && Enabled(c, Dispatch(w))
    ensures Balanced(Do(c, Dispatch(w)), dropped)
  {
    hide DeviceIds, InFlight;
    var ws := Do(c, Dispatch(w)).workers;
    InFlightUpdate(c.workers, w, ws[w]);
    SplitAt(c.devices, c.dispatched);
    TakesJob(multiset(c.devices[..c.dispatched]), multiset(DeviceIds(c.outcomes)), InFlight(c.workers), dropped,
             InFlight(ws), multiset{c.devices[c.dispatched]});
  }

  lemma CheckBalanced(c: Cycle, w: nat, dropped: multiset<Id>)
    requires c.dispatched <= |c.devices| && Balanced(c, dropped) && Enabled(c, CheckContext(w))
    ensures Balanced(Do(c, CheckContext(w)), dropped + DroppedBy(c, CheckContext(w)))
  {
    hide DeviceIds, InFlight;
    var ws := Do(c, CheckContext(w)).workers;
    if !c.cancelled {
      InFlightSame(c.workers, w, ws[w]);
    } else {
      InFlightUpdate(c.workers, w, ws[w]);
      LosesJob(multiset(DeviceIds(c.outcomes)), InFlight(c.workers), dropped, InFlight(ws),
        multiset{c.workers[w].device});
    }
  }

  lemma AppendBalanced(c: Cycle, w: nat, dropped: multiset<Id>)
    requires c.dispatched <= |c.devices| && Balanced(c, dropped) && Enabled(c, AppendOutcome(w))
    ensures Balanced(Do(c, AppendOutcome(w)), dropped)
  {
    hide DeviceIds, InFlight;
    var ws, o := Do(c, AppendOutcome(w)).workers, c.workers[w].outcome;
    InFlightUpdate(c.workers, w, ws[w]);
    DeviceIdsAppend(c.outcomes, o);
    LosesJob(multiset(DeviceIds(c.outcomes)), InFlight(c.workers), dropped, InFlight(ws), multiset{o.deviceID});
  }

  lemma HandsUnchanged(c: Cycle, w: nat, worker: Worker, dropped: multiset<Id>)
    requires c.dispatched <= |c.devices| && Balanced(c, dropped) && w < |c.workers| && Job(c.workers[w]) == Job(worker)
    ensures Balanced(c.(workers := c.workers[w := worker]), dropped)
  {
    InFlightSame(c.workers, w, worker);
  }

  lemma StepBalanced(c: Cycle, a: Action, dropped: multiset<Id>)
    requires c.dispatched <= |c.devices| && Balanced(c, dropped) && Enabled(c, a)
    ensures Do(c, a).dispatched <= |Do(c, a).devices| && Balanced(Do(c, a), dropped + DroppedBy(c, a))
  {
    hide InFlight, DeviceIds, AllExited, Balanced, Job;
    assert dropped + multiset{} == dropped;
    if a.Dispatch? {
      DispatchBalanced(c, a.w, dropped);
    } else if a.CheckContext? {
      CheckBalanced(c, a.w, dropped);
    } else if a.FinishPoll? {
      SameJob(c, a);
      HandsUnchanged(c, a.w, Polled(a.outcome), dropped);
    } else if a.AppendOutcome? {
      AppendBalanced(c, a.w, dropped);
    } else if a.WorkerExit? {
      SameJob(c, a);
      HandsUnchanged(c, a.w, Exited, dropped);
    } else {
      HandsAlike(c, Do(c, a), dropped);
    }
  }

  lemma SameJob(c: Cycle, a: Action)
    requires Enabled(c, a) && (a.FinishPoll? || a.WorkerExit?)
    ensures Job(c.workers[a.w]) == Job(Do(c, a).workers[a.w])
  {
  }

  lemma StepAccounted(c: Cycle, a: Action, dropped: multiset<Id>)
    requires Accounted(c, dropped) && Enabled(c, a)
    ensures Accounted(Do(c, a), dropped + DroppedBy(c, a))
  {
    StepBalanced(c, a, dropped);
    hide Balanced, PhaseFits, Do;
    if a.Finish? {
      FinishAccounted(c, dropped);
      assert dropped + multiset{} == dropped;
    } else {
      PhaseKept(c, a, dropped);
    }
  }

  lemma PhaseKept(c: Cycle, a: Action, dropped: multiset<Id>)
    requires PhaseFits(c, dropped) && Enabled(c, a) && !a.Finish?
    ensures PhaseFits(Do(c, a), dropped + DroppedBy(c, a))
  {
    hide DeviceIds;
    assert dropped + multiset{} == dropped;
  }

  lemma HandsAlike(c: Cycle, c': Cycle, dropped: multiset<Id>)
    requires c.dispatched <= |c.devices| && Balanced(c, dropped)
    requires c'.devices == c.devices && c'.dispatched == c.dispatched && c'.outcomes == c.outcomes
    requires c'.workers == c.workers
    ensures Balanced(c', dropped)
  {
  }

  lemma DeviceIdsAppend(outcomes: seq<PollOutcome>, o: PollOutcome)
    ensures multiset(DeviceIds(outcomes + [o])) == multiset(DeviceIds(outcomes)) + multiset{o.deviceID}
  {
    assert DeviceIds(outcomes + [o]) == DeviceIds(outcomes) + [o.deviceID];
  }

  lemma FinishAccounted(c: Cycle, dropped: multiset<Id>)
    requires Accounted(c, dropped) && Enabled(c, Finish)
    ensures Accounted(Do(c, Finish), dropped)
  {
    NothingInFlight(c.workers);
    if c.phase.complete {
      assert c.devices[..c.dispatched] == c.devices;
      assert |multiset(c.devices)| == |multiset(DeviceIds(c.outcomes))| + |dropped|;
      if |c.outcomes| == |c.devices| {
        assert |dropped| == 0;
        assert dropped == multiset{};
      }
    }
  }

  lemma {:induction false} RunAccounted(devices: seq<Id>, workerCount: nat, actions: seq<Action>, end: Cycle)
    returns (dropped: multiset<Id>)
    requires IsRun(Start(devices, workerCount), actions, end)
    ensures Accounted(end, dropped) && end.devices == devices
  {
    if actions == [] {
      NothingInFlight(end.workers);
      assert end.devices[..0] == [];
      dropped := multiset{};
    } else {
      var n := |actions| - 1;
      var mid :| StepTo(mid, actions[n], end) && IsRun(Start(devices, workerCount), actions[..n], mid);
      var before := RunAccounted(devices, workerCount, actions[..n], mid);
      StepAccounted(mid, actions[n], before);
      dropped := before + DroppedBy(mid, actions[n]);
    }
  }

  /** Under every interleaving and cancellation a finished cycle commits either exactly one outcome
      per due device or nothing, and it commits nothing only when it was cancelled. */
  lemma AllOrNothing(devices: seq<Id>, workerCount: nat, actions: seq<Action>, end: Cycle)
    requires IsRun(Start(devices, workerCount), actions, end) && end.phase.Ended?
    ensures end.phase.committed.None? ==> end.cancelled
    ensures end.phase.committed.Some? ==> multiset(DeviceIds(end.phase.committed.value)) == multiset(devices)
    ensures end.phase.committed.Some? && NoDup(devices) ==> DistinctDevices(end.phase.committed.value)
  {
    var dropped := RunAccounted(devices, workerCount, actions, end);
    if end.phase.committed.Some? && NoDup(devices) {
      var outs := end.phase.committed.value;
      MultisetFacts(devices, DeviceIds(outs));
      forall i, j | 0 <= i < j < |outs| ensures outs[i].deviceID != outs[j].deviceID {
        assert DeviceIds(outs)[i] != DeviceIds(outs)[j];
      }
    }
  }

  // ---- The cycle ends ----

  /** How much a worker may still do. */
  function Ahead(w: Worker): nat {
    match w
    case Received(_) => 4
    case Polling(_) => 3
    case Polled(_) => 2
    case Waiting => 1
    case Exited => 0
  }

  function AllAhead(ws: seq<Worker>): nat {
    if ws == [] then 0 else AllAhead(ws[..|ws| - 1]) + Ahead(ws[|ws| - 1])
  }

  function PhaseAhead(p: Phase): nat {
    match p
    case Dispatching => 2
    case Closing(_) => 1
    case Ended(_) => 0
  }

  function Remaining(c: Cycle): int {
    4 * (|c.devices| - c.dispatched) + AllAhead(c.workers) + PhaseAhead(c.phase)
  }

  /** The actions other than cancellation. */
  function Taken(actions: seq<Action>): nat {
    if actions == [] then 0
    else Taken(actions[..|actions| - 1]) + if actions[|actions| - 1].Cancel? then 0 else 1
  }

  lemma {:induction false} AheadUpdate(ws: seq<Worker>, i: nat, w: Worker)
    requires i < |ws|
    ensures AllAhead(ws[i := w]) == AllAhead(ws) - Ahead(ws[i]) + Ahead(w)
  {
    hide Ahead;
    var n := |ws| - 1;
    if i < n {
      AheadUpdate(ws[..n], i, w);
      assert ws[i := w][..n] == ws[..n][i := w];
    } else {
      assert ws[i := w][..n] == ws[..n];
    }
  }

  lemma StepNearer(c: Cycle, a: Action)
    requires Enabled(c, a) && !a.Cancel?
    ensures Remaining(Do(c, a)) < Remaining(c)
  {
    match a {
      case Dispatch(w) => AheadUpdate(c.workers, w, Do(c, a).workers[w]);
      case CheckContext(w) => AheadUpdate(c.workers, w, Do(c, a).workers[w]);
      case FinishPoll(w, _) => AheadUpdate(c.workers, w, Do(c, a).workers[w]);
      case AppendOutcome(w) => AheadUpdate(c.workers, w, Do(c, a).workers[w]);
      case WorkerExit(w) => AheadUpdate(c.workers, w, Do(c, a).workers[w]);
      case _ =>
    }
  }

  lemma {:induction false} WaitingAhead(n: nat)
    ensures AllAhead(seq(n, _ => Waiting)) == n
  {
    var ws := seq(n, _ => Waiting);
    if n > 0 {
      WaitingAhead(n - 1);
      assert ws[..n - 1] == seq(n - 1, _ => Waiting);
    }
  }

  /** Workers only leave once the jobs are closed or the cycle is cancelled. */
  predicate NobodyLeftEarly(c: Cycle) {
    c.phase.Dispatching? && !c.cancelled ==> forall i :: 0 <= i < |c.workers| ==> c.workers[i] != Exited
  }

  lemma {:induction false} RunNearer(devices: seq<Id>, workerCount: nat, actions: seq<Action>, end: Cycle)
    requires IsRun(Start(devices, workerCount), actions, end)
    ensures Taken(actions) + Remaining(end) <= 4 * |devices| + workerCount + 2
    ensures NobodyLeftEarly(end) && |end.workers| == workerCount
  {
    if actions == [] {
      WaitingAhead(workerCount);
    } else {
      var n := |actions| - 1;
      var mid :| StepTo(mid, actions[n], end) && IsRun(Start(devices, workerCount), actions[..n], mid);
      RunNearer(devices, workerCount, actions[..n], mid);
      if !actions[n].Cancel? { StepNearer(mid, actions[n]); }
      hide IsRun, Remaining;
      assert actions[n].Cancel? ==> Remaining(end) == Remaining(mid) by { CancelKeeps(mid); }
    }
  }

  lemma CancelKeeps(c: Cycle)
    ensures Remaining(Do(c, Cancel)) == Remaining(c)
  {
  }

  /** A worker that has not left can go on. */
  lemma WorkerGoesOn(c: Cycle, i: nat) returns (a: Action)
    requires i < |c.workers| && c.workers[i] != Exited
    requires c.phase.Closing? || (c.phase.Dispatching? && c.dispatched < |c.devices|)
    ensures Enabled(c, a) && !a.Cancel?
  {
    match c.workers[i] {
      case Waiting => a := if c.phase.Closing? then WorkerExit(i) else Dispatch(i);
      case Received(_) => a := CheckContext(i);
      case Polling(d) => a := FinishPoll(i, PollOutcome(d, false, 0, None));
      case Polled(_) => a := AppendOutcome(i);
    }
  }

  /** No cycle with at least one worker gets stuck, and none goes on for ever: in every reachable state that has
      not ended something other than a cancellation can happen, and at most four actions for each device, one
      for each worker and two more ever do. */
  lemma CycleEnds(devices: seq<Id>, workerCount: nat, actions: seq<Action>, end: Cycle)
    requires IsRun(Start(devices, workerCount), actions, end) && workerCount > 0
    ensures Taken(actions) <= 4 * |devices| + workerCount + 2
    ensures !end.phase.Ended? ==> exists a: Action :: Enabled(end, a) && !a.Cancel?
  {
    RunNearer(devices, workerCount, actions, end);
    var dropped := RunAccounted(devices, workerCount, actions, end);
    hide IsRun, Balanced;
    match end.phase {
      case Ended(_) =>
      case Closing(_) =>
        if AllExited(end.workers) {
          assert Enabled(end, Finish);
        } else {
          var i :| 0 <= i < |end.workers| && end.workers[i] != Exited;
          var a := WorkerGoesOn(end, i);
        }
      case Dispatching =>
        if end.dispatched == |end.devices| {
          assert Enabled(end, CloseJobs);
        } else if end.cancelled {
          assert Enabled(end, Abandon);
        } else {
          var a := WorkerGoesOn(end, 0);
        }
    }
  }

  // ---- Cancellation ----

  function OneIfPolling(w: Worker): nat {
    if w.Polling? then 1 else 0
  }

  function PollingIn(ws: seq<Worker>): nat {
    if ws == [] then 0 else PollingIn(ws[..|ws| - 1]) + OneIfPolling(ws[|ws| - 1])
  }

  /** The polls that finish in a run. */
  function PollsDone(actions: seq<Action>): nat {
    if actions == [] then 0
    else PollsDone(actions[..|actions| - 1]) + if actions[|actions| - 1].FinishPoll? then 1 else 0
  }

  lemma {:induction false} PollingUpdate(ws: seq<Worker>, i: nat, w: Worker)
    requires i < |ws|
    ensures PollingIn(ws[i := w]) + OneIfPolling(ws[i]) == PollingIn(ws) + OneIfPolling(w)
  {
    hide OneIfPolling;
    var n := |ws| - 1;
    if i < n {
      PollingUpdate(ws[..n], i, w);
      assert ws[i := w][..n] == ws[..n][i := w];
    } else {
      assert ws[i := w][..n] == ws[..n];
    }
  }

  lemma CancelledStep(c: Cycle, a: Action)
    requires Enabled(c, a) && c.cancelled
    ensures Do(c, a).cancelled
    ensures PollingIn(Do(c, a).workers) + (if a.FinishPoll? then 1 else 0) <= PollingIn(c.workers)
  {
    match a {
      case Dispatch(w) => PollingUpdate(c.workers, w, Do(c, a).workers[w]);
      case CheckContext(w) => PollingUpdate(c.workers, w, Do(c, a).workers[w]);
      case FinishPoll(w, _) => PollingUpdate(c.workers, w, Do(c, a).workers[w]);
      case AppendOutcome(w) => PollingUpdate(c.workers, w, Do(c, a).workers[w]);
      case WorkerExit(w) => PollingUpdate(c.workers, w, Do(c, a).workers[w]);
      case _ =>
    }
  }

  /** Once a cycle is cancelled no further poll starts: whatever happens from there, only the polls under way at that
      moment can still finish. */
  lemma {:induction false} CancelStopsPolls(start: Cycle, actions: seq<Action>, end: Cycle)
    requires start.cancelled && IsRun(start, actions, end)
    ensures end.cancelled && PollsDone(actions) + PollingIn(end.workers) <= PollingIn(start.workers)
  {
    if actions != [] {
      var n := |actions| - 1;
      var mid :| StepTo(mid, actions[n], end) && IsRun(start, actions[..n], mid);
      CancelStopsPolls(start, actions[..n], mid);
      hide IsRun, Do, Enabled, PollingIn;
      CancelledStep(mid, actions[n]);
    }
  }

  /** Every poll in the run answered as `answers` says. */
  ghost predicate AnsweredBy(actions: seq<Action>, answers: map<Id, PollOutcome>) {
    forall i :: 0 <= i < |actions| && actions[i].FinishPoll? ==> Expected(answers, actions[i].outcome)
  }

  predicate Expected(answers: map<Id, PollOutcome>, o: PollOutcome) {
    o.deviceID in answers && o == answers[o.deviceID]
  }

  ghost predicate AllExpected(c: Cycle, answers: map<Id, PollOutcome>) {
    && (forall o :: o in c.outcomes ==> Expected(answers, o))
    && (forall i :: 0 <= i < |c.workers| && c.workers[i].Polled? ==> Expected(answers, c.workers[i].outcome))
  }

  lemma StepExpected(c: Cycle, a: Action, answers: map<Id, PollOutcome>)
    requires AllExpected(c, answers) && Enabled(c, a) && (a.FinishPoll? ==> Expected(answers, a.outcome))
    ensures AllExpected(Do(c, a), answers)
  {
  }

  lemma {:induction false} OutcomesAnswered(devices: seq<Id>, workerCount: nat, actions: seq<Action>, end: Cycle,
                                            answers: map<Id, PollOutcome>)
    requires IsRun(Start(devices, workerCount), actions, end) && AnsweredBy(actions, answers)
    ensures AllExpected(end, answers)
  {
    if actions != [] {
      var n := |actions| - 1;
      var mid :| StepTo(mid, actions[n], end) && IsRun(Start(devices, workerCount), actions[..n], mid);
      hide IsRun, AllExpected;
      assert AnsweredBy(actions[..n], answers) by {
        forall i | 0 <= i < n && actions[..n][i].FinishPoll? ensures Expected(answers, actions[..n][i].outcome) {
          assert actions[i].FinishPoll?;
        }
      }
      OutcomesAnswered(devices, workerCount, actions[..n], mid, answers);
      StepExpected(mid, actions[n], answers);
    }
  }

  /** Two cycles in which the devices answer alike leave the same ledger and the same events, however
      many workers they had and however these interleaved. */
  lemma InterleavingIrrelevant(cfg: Settings, ledger: Ledger, devices: seq<Id>, answers: map<Id, PollOutcome>,
                               n1: nat, run1: seq<Action>, end1: Cycle, n2: nat, run2: seq<Action>, end2: Cycle)
    requires Consistent(cfg, ledger) && !Cyclic(cfg.Upstreams()) && NoDup(devices)
    requires IsRun(Start(devices, n1), run1, end1) && AnsweredBy(run1, answers)
    requires IsRun(Start(devices, n2), run2, end2) && AnsweredBy(run2, answers)
    requires end1.phase.Ended? && end1.phase.committed.Some? && end2.phase.Ended? && end2.phase.committed.Some?
    ensures Batch(cfg, ledger, end1.phase.committed.value) == Batch(cfg, ledger, end2.phase.committed.value)
  {
    var a, b := end1.phase.committed.value, end2.phase.committed.value;
    AllOrNothing(devices, n1, run1, end1);
    AllOrNothing(devices, n2, run2, end2);
    CommittedAnswers(devices, n1, run1, end1, answers);
    CommittedAnswers(devices, n2, run2, end2, answers);
    ConsistentNotes(cfg, ledger);
    KahnOrderCorrect(cfg.Upstreams());
    CycleConfluent(cfg, ledger, a, b, KahnOrder(cfg.Upstreams()), KahnOrder(cfg.Upstreams()));
  }

  lemma CommittedAnswers(devices: seq<Id>, n: nat, run: seq<Action>, end: Cycle, answers: map<Id, PollOutcome>)
    requires IsRun(Start(devices, n), run, end) && AnsweredBy(run, answers)
    requires end.phase.Ended? && end.phase.committed.Some?
    ensures forall o :: o in Elems(end.phase.committed.value) <==> o.deviceID in devices && Expected(answers, o)
  {
    var outs := end.phase.committed.value;
    var dropped := RunAccounted(devices, n, run, end);
    OutcomesAnswered(devices, n, run, end, answers);
    forall o ensures o in outs <==> o.deviceID in devices && Expected(answers, o) {
      MultisetFacts(devices, DeviceIds(outs));
      assert o.deviceID in devices <==> o.deviceID in Elems(devices);
      assert o.deviceID in DeviceIds(outs) <==> o.deviceID in Elems(DeviceIds(outs));
      if o in outs {
        var i :| 0 <= i < |outs| && outs[i] == o;
        assert DeviceIds(outs)[i] == o.deviceID;
      }
      if o.deviceID in devices && Expected(answers, o) {
        var i :| 0 <= i < |outs| && DeviceIds(outs)[i] == o.deviceID;
        assert outs[i] in outs && Expected(answers, outs[i]);
      }
    }
  }
}
