# Verified model of the fleet-health pipeline

The repository polls network devices, keeps a health ledger, ships events through a durable outbox and an
MQTT broker to an ingestion service, and shows sites and devices in a backend. This project models the logic
of that pipeline in Dafny and proves what it is relied on for. `dafny verify dfyconfig.toml` checks all of it.

- **Dependency graph and ledger** (`graph`, `config`, `kahn`, `health`, `tracker`, `health_runs`,
  `health_history`, `health_verdicts`, `health_outcomes`, `health_confluence`, `health_stream`, `poll_cycle`,
  `poller`, `reload_hazard`): the three-colour cycle check, Kahn's order, the evaluation of one poll cycle, what
  every run of cycles keeps and publishes, and when the root-cause walk ends.
- **Delivery** (`outbox`, `ingestion`, `delivery`, `drainable`, `outbox_runs`, `convergence`, `heartbeats`,
  `published`, `ties`, `retention`): table, flushers, broker, transactions and pruning as one state machine; what is never lost, what
  happens once, what can always be finished, what the current tables end up as, and which message pruning can leave
  stuck.
- **Contract** (`contract`, `telemetry`, `acceptance`, `end_to_end`, `tracker_ties`, `backend`): topics, envelopes and
  bodies on both sides, which messages take effect, the composition from poll outcomes to the backend's table, and
  how the backend reads it.
- **Topology and sites** (`topology`, `sites`, `site_completion`, `site_evaluation`, `overlay`,
  `site_projections`, `site_reading`): inferred upstreams, cross-site evaluation, root causes, the reclassifying
  overlay and what the stored rows make a site show.
- **Control plane and discovery** (`managed`, `control`, `applied`, `edited_graphs`, `overlap`, `limiter`,
  `targets`): overlays and checked edits, one-shot tokens, overlapping commits, the probe limiter, range expansion.

Code that updates state in place is modelled by classes and loops; each such method is tied to a function, and
the laws are lemmas about that function. Runs are lists of steps, or results of them, and every theorem about
runs holds for all lists. Map iteration, worker scheduling, message timing, failures and crashes are arbitrary.

## Reading the main results

- `Settled` means that the outbox is empty and every arrival at the broker was delivered and acknowledged.
- A step that is not possible in a state leaves it unchanged, so all lists of steps are runs. Database failures
  strike before, between or after statements (`failAt`) or as a whole (`down`); acknowledgements can be lost;
  `Restart` drops all flushers and recounts the rows; copies already on the wire may arrive late or again.
- Some properties fail for some inputs. Each comes with an input that shows it and with the exact condition:
  `Telemetry.LongIdNeverAccepted` and `Telemetry.EmittedEventsAccepted` (identifiers above 128 characters),
  `TrackerTies.TieReachesTable` and `Ties.LastWinsIffNewest` (equal times after a failed transaction),
  `ReloadHazard.ReloadTrapsWalk` with `HealthTracker.WalkEndsExactly` and `ReloadHazard.BatchEndsExactly`,
  `SiteCompletion.DownwardCloses` and `SiteCompletion.CompletionExact`, `OverlappingCommits.TwoDevicesClose` and
  `OverlappingCommits.OverlapExactly`, `Retention.SomeRunGetsStuck` and `Retention.StuckExactly`.
- The history tables make `event_id` unique (database/schema/012_device_health.sql), so a message whose
  deduplication row was pruned before its history row fails in the database until a later pass removes that row.

## Model

| member | source | states |
|---|---|---|
| `Config.ValidateDependencies` | services/snmp-collector/internal/config/config.go:1002-1058 | accepts an inventory exactly when every upstream list is duplicate-free, self-free and known and the graph has no cycle; an error names a real defect |
| `Config.FindCycle` | services/snmp-collector/internal/config/config.go:1023-1057 | the search over all devices finds no cycle exactly when there is none, and a reported device lies on one |
| `Config.CycleFinder.Visit` | services/snmp-collector/internal/config/config.go:1029-1046 | one visit of the three-colour search terminates, keeps grey nodes equal to the walk and black nodes listed upstream-first, and reports only real cycles |
| `Config.CheckUpstreams` | services/snmp-collector/internal/config/config.go:1007-1021 | one upstream list is accepted exactly when it has no repeats, not the device itself and only known devices |
| `EvaluationOrder.KahnOrderCorrect` | services/snmp-collector/internal/health/tracker.go:377-431 | the order is a permutation of the inventory for every graph; it is upstream-first, and the leftover is empty, exactly when the graph is acyclic |
| `EvaluationOrder.AcceptedInventoryOrder` | services/snmp-collector/internal/health/tracker.go:377-431 | for every inventory the dependency check accepts the leftover fallback is never reached and upstreams come before dependents |
| `EvaluationOrder.TopologicalOrder` | services/snmp-collector/internal/health/tracker.go:377-431 | the queue with in-degrees computes the order the two laws above are about |
| `EvaluationOrder.NormalizeIDs` | services/snmp-collector/internal/health/tracker.go:433-451 | drops empty ids and repeats and sorts |
| `Ids.LessIsLexicographic` | services/snmp-collector/internal/health/tracker.go:377-451 | the order of the string sorts: the first differing code unit decides, and a proper prefix comes first |
| `HealthTracker.Tracker.ApplyBatch` | services/snmp-collector/internal/health/tracker.go:88-199 | one cycle of the ledger, computed in place, whenever every walk it starts ends; what a cycle leaves is told by `HealthOutcomes.PublishedAsHeard`, `HealthVerdicts.StateIsDetermined` and `HealthStream.CycleNarrated` |
| `HealthTracker.Tracker.EvaluateFailure` | services/snmp-collector/internal/health/tracker.go:239-288 | critical unless every upstream has failed too; undecided while one is unsettled |
| `HealthTracker.Tracker.CollectRootCauses` | services/snmp-collector/internal/health/tracker.go:290-317 | the sorted set of critical devices reached through unknown ones, when none of the given devices leads to a cycle of evidence |
| `HealthTracker.Tracker.Walk` | services/snmp-collector/internal/health/tracker.go:294-311 | the recursive walk from a device that leads to no cycle terminates and adds exactly the critical devices behind it, whatever the rest of the ledger holds |
| `HealthTracker.WalkEndsExactly` | services/snmp-collector/internal/health/tracker.go:294-311 | the walk from a device ends exactly when the evidence behind it holds no cycle |
| `HealthTracker.Tracker.Prune` | services/snmp-collector/internal/health/tracker.go:24-39 | keeps the entries of active devices unchanged and drops the rest |
| `HealthTracker.Tracker.TakeSnapshot` | services/snmp-collector/internal/health/tracker.go:53-83 | counts each committed device once under its state and as pending those that fail without being critical or unknown |
| `HealthRuns.BatchConsistent` | services/snmp-collector/internal/health/tracker.go:88-199 | one cycle preserves the ledger invariant: counts, reasons, failed upstreams and root causes of unknown devices |
| `HealthHistory.RootCausesExact` | services/snmp-collector/internal/health/tracker.go:239-317 | after every run under one acyclic configuration an unknown device has all its upstreams failed and down, and its root causes are exactly the critical devices behind it, sorted, never empty |
| `HealthHistory.RunWalkTerminates` | services/snmp-collector/internal/health/tracker.go:290-317 | along every such run every walk of the next cycle terminates |
| `HealthHistory.FailureCountIsTrailingRun` | services/snmp-collector/internal/health/tracker.go:88-199 | over every run the failure count is the length of the trailing run of failures |
| `HealthHistory.StatesFollowOutcomes` | services/snmp-collector/internal/health/tracker.go:209-288 | critical or unknown implies at least threshold trailing failures, a last success implies healthy or warning, the reason follows from the state |
| `HealthOutcomes.EntriesKnowWhatTheyHeard` | services/snmp-collector/internal/health/tracker.go:112-126 | over every run with reloads and prunes the tracker holds exactly the devices that some cycle listed and every later prune kept; each entry counts the trailing failures among the outcomes it heard, and has the times of the last and of the last success and a last success's temperature |
| `HealthOutcomes.PublishedAsHeard` | services/snmp-collector/internal/health/tracker.go:98-189 | after every cycle of every such run: a device whose last outcome was a success shows that temperature, and warning exactly when it reaches its own limit, or the global one when it has none; below the threshold, or one when that is less, nothing is committed; from there on a device without upstreams is critical; every commit and event carries the device's alerts flag, alerting by default, its limit and its sorted upstreams |
| `HealthVerdicts.StateIsDetermined` | services/snmp-collector/internal/health/tracker.go:209-288 | after every cycle of every run a device that answered is warning or healthy by its temperature, one past its threshold is critical without upstreams or when one answered and unknown when all have failed, any other keeps its state |
| `ReloadHazard.BatchEndsExactly` | services/snmp-collector/internal/health/tracker.go:138-199 | a cycle ends exactly when each single walk it starts ends, the later ones seeing what the earlier devices were settled as |
| `ReloadHazard.OneOrderEnds` | services/snmp-collector/internal/health/tracker.go:290-317 | over every run with reloads and prunes whose configurations all keep to one acyclic graph every walk ends |
| `ReloadHazard.ReloadTrapsWalk` | services/snmp-collector/internal/health/tracker.go:290-311 | otherwise it need not: a run from the empty tracker, through a reload that reverses an edge, to a walk that never ends, although both configurations and the ledger in between are acyclic |
| `HealthConfluence.CycleConfluent` | services/snmp-collector/internal/health/tracker.go:88-199 | ledger and sorted events do not depend on the order of outcomes nor on which upstream-first order is used |
| `HealthStream.StreamReplaysToLedger` | services/snmp-collector/internal/health/tracker.go:128-199 | over every run with reloads and prunes the last event of a live device carries its state and alerts flag; previous state, initial, recovered, reasserted and reason are all true to the stream |
| `HealthStream.CycleNarrated` | services/snmp-collector/internal/health/tracker.go:319-359 | the same for one cycle against any reader that agrees with the ledger |
| `HealthStream.EventsMirrorLedger` | services/snmp-collector/internal/health/tracker.go:128-199 | every event shows its device's final entry field by field, and events are strictly ordered by device |
| `PollCycle.AllOrNothing` | services/snmp-collector/internal/poller/poller.go:212-265 | under every interleaving and cancellation a cycle commits exactly one outcome per due device or nothing, and nothing only when cancelled |
| `PollCycle.InterleavingIrrelevant` | services/snmp-collector/internal/poller/poller.go:212-265 | two cycles whose devices answer alike leave the same ledger and events, whatever the workers did |
| `PollCycle.CycleEnds` | services/snmp-collector/internal/poller/poller.go:212-265 | no cycle with a worker gets stuck and none goes on for ever: until it has ended something besides a cancellation can happen, and the number of such actions is bounded |
| `PollCycle.CancelStopsPolls` | services/snmp-collector/internal/poller/poller.go:227-246 | once a cycle is cancelled no further poll starts: only those under way can still finish |
| `Poller.Poller.SyncInventory` | services/snmp-collector/internal/poller/poller.go:134-164 | afterwards the active set is the inventory and the ledger is the old one restricted to it, though pruning happens only when the sets differ; the ledger stays that of the run so far |
| `Poller.Poller.CompleteCycle` | services/snmp-collector/internal/poller/poller.go:98-115 | a cycle extends the run by one pruning and one cycle, returns that cycle's events and never leaves entries outside the inventory |
| `Contract.ParseInvertsTopic` | services/ingestion-service/internal/validate/v2.go:227-271 | the topic parser inverts all four printers for identifiers of the pattern exactly when both have at most 128 characters |
| `Contract.TopicInvertsParse` | services/ingestion-service/internal/validate/v2.go:227-271 | whatever the parser accepts was printed from the parts it returns, up to blanks around them |
| `Contract.SplitJoin` | services/snmp-collector/internal/events/v2.go:87-179 | splitting at the separator undoes joining when no part contains it |
| `Contract.PatternTrimmed` | services/ingestion-service/internal/validate/v2.go:718-724 | identifiers of the pattern survive trimming and pass the check exactly when short enough |
| `Contract.PatternByTable` | services/ingestion-service/internal/validate/v2.go:23 | the identifier pattern, letter by letter |
| `Contract.SpacesByCode` | services/ingestion-service/internal/validate/v2.go:718-724 | the white space that trimming removes, by code point |
| `Contract.TrimExact` | services/ingestion-service/internal/validate/v2.go:718-724 | trimming cuts white space at both ends and nothing else |
| `Contract.AcceptedMatchesTopic` | services/ingestion-service/internal/validate/v2.go:274-401 | an accepted message was printed for the very site and device or collector its envelope names, with well-formed identifiers |
| `Telemetry.MessageAccepted` | services/snmp-collector/internal/telemetry/telemetry.go:180-234 | a named event passes envelope and health validation exactly when its identifiers fit, and arrives as it was sent |
| `Telemetry.BodyReads` | services/snmp-collector/internal/telemetry/telemetry.go:180-234 | the wire body says what the event is, member by member, with the wire's names of states, reasons and transitions |
| `Telemetry.EnvelopeReads` | services/snmp-collector/internal/telemetry/telemetry.go:180-234 | the envelope names publisher, device, event id and both times, on the device's health topic |
| `Acceptance.HeartbeatAccepted` | services/ingestion-service/internal/validate/v2.go:597-636 | a message on the heartbeat topic of a site and a collector is taken in, with its body as sent, exactly when both names have at most 128 characters and each envelope and body condition holds |
| `Acceptance.HealthAccepted` | services/ingestion-service/internal/validate/v2.go:522-595 | the same on a health topic; a missing alerts flag is stored as alerting |
| `Acceptance.ReadingsAccepted` | services/ingestion-service/internal/validate/v2.go:274-401 | the same on device and interface topics, for bodies that pass their own checks |
| `Acceptance.HeartbeatTakesEffect` | services/ingestion-service/internal/handler/handler.go:184-198 | a fitting heartbeat is inserted when its event is new, and shown when it is newer than what the collector shows; a seen event is acknowledged, a failing database is not |
| `Acceptance.HealthTakesEffect` | services/ingestion-service/internal/handler/handler.go:167-182 | a fitting health event is inserted when its event is new, and shown unless the device shows a newer one |
| `Acceptance.ReadingsTakeEffect` | services/ingestion-service/internal/handler/handler.go:122-165 | fitting readings are recorded as seen once; others are acknowledged and change nothing |
| `Acceptance.UnfitIgnored` | services/ingestion-service/internal/handler/handler.go:43-59 | a heartbeat or health message that does not fit is acknowledged and changes nothing |
| `Telemetry.EmittedEventsAccepted` | services/ingestion-service/internal/validate/v2.go:325-401 | every event any run of the tracker emits is accepted exactly when its identifiers fit the 128-character bound |
| `Telemetry.LongIdNeverAccepted` | services/snmp-collector/internal/config/config.go:843-860 | a device id of 129 characters is loaded by the collector and rejected by the ingestion service |
| `Telemetry.HealthEvents` | services/snmp-collector/internal/telemetry/telemetry.go:237-246 | one message per event, in order, none in version 1 |
| `Outbox.Store.Enqueue` | services/snmp-collector/internal/buffer/store.go:131-161 | appends one row with the next id or changes nothing, with the first error that applies; refuses exactly when full; never exceeds the bound |
| `Outbox.Store.EnqueueBatch` | services/snmp-collector/internal/buffer/store.go:164-211 | appends all rows in order or none, with the error of the first event that is incomplete |
| `Outbox.Store.PeekOldest` | services/snmp-collector/internal/buffer/store.go:214-239 | returns the oldest rows up to the limit, leaving them in place |
| `Outbox.Store.Delete` | services/snmp-collector/internal/buffer/store.go:242-264 | removes exactly that row; the counter equals the row count, so its clamp is never taken |
| `Outbox.WithoutAt` | services/snmp-collector/internal/buffer/store.go:242-264 | deleting a row by id closes its gap and touches nothing else |
| `Outbox.BufferedPublisher.FlushOnce` | services/snmp-collector/internal/publisher/buffered.go:122-151 | the rows gone are a prefix that reached the broker in order, up to the first attempt that failed; at most one more message reached it, and then the flush fails |
| `Outbox.BufferedPublisher.Drain` | services/snmp-collector/internal/publisher/buffered.go:98-120 | on success every pending message reached the broker once, in order, and the table is empty; on failure the oldest did and left it, and at most one that is still pending; enough rounds without failures always succeed |
| `Ingestion.Database.PersistHealth` | services/ingestion-service/internal/store/v2.go:128-215 | statement by statement: an error leaves no effect, otherwise the transaction is the atomic one |
| `Ingestion.Database.PersistHeartbeat` | services/ingestion-service/internal/store/v2.go:218-293 | the same for heartbeats, whose current row only gives way to a strictly later one |
| `Ingestion.Database.HandleMessage` | services/ingestion-service/internal/handler/handler.go:43-75 | acknowledges rejected, duplicate and committed messages and nothing else; `Acceptance` tells which messages those are |
| `Ingestion.CurrentRowsAreNewest` | services/ingestion-service/internal/store/v2.go:128-293 | for every sequence of distinct events a device shows the last of its newest health events and a collector the first of its newest heartbeats |
| `Delivery.FirstDeliveriesInOrder` | services/snmp-collector/internal/publisher/buffered.go:73-151 | whatever flushers overlap: a row handed to the transport, or first reaching the broker, comes after every smaller id reached it |
| `Delivery.DepthIsRowCount` | services/snmp-collector/internal/buffer/store.go:131-264 | in every reachable state the counter equals the row count, rows are in id order and a positive bound holds |
| `Delivery.NoLoss` | services/snmp-collector/internal/publisher/buffered.go:122-151 | in every reachable state an accepted message is pending, at the broker, rejected, or took effect |
| `Delivery.OneEffect` | services/ingestion-service/internal/store/v2.go:295-316 | an event takes effect again only after its deduplication row was pruned; without that at most once |
| `Delivery.StepKeeps` | services/ingestion-service/internal/handler/handler.go:43-75 | every step of collector, broker, ingestion and retention preserves the whole invariant |
| `Drainable.CanAlwaysFinish` | services/snmp-collector/internal/publisher/buffered.go:98-151 | every run can be continued to an end at which nothing is pending and every accepted message was rejected, took effect or is kept out by its own history row; without pruning none is kept out |
| `OutboxRuns.FlushIsARun` | services/snmp-collector/internal/publisher/buffered.go:122-151 | every end that one flush allows, with or without an error, is reached by a run of the state machine's steps from the same state |
| `OutboxRuns.EnqueueIsAStep` | services/snmp-collector/internal/buffer/store.go:164-211 | a batch is accepted exactly when it is complete, the insertion succeeds and the table stays within a positive bound |
| `OutboxRuns.CrashKeepsTable` | services/snmp-collector/internal/buffer/store.go:91-118 | a crash loses the flushers' batches and nothing else, and the counter is recounted from the table |
| `Retention.RetainingRuns` | services/ingestion-service/internal/retention/retention.go:91-143 | passes that prune table by table by one cutoff, in batches, stopped anywhere and interleaved with deliveries, are runs of the delivery protocol |
| `Retention.StoppedStartsOver` | services/ingestion-service/internal/retention/retention.go:91-143 | a pass that stopped leaves no trace: the next starts over with the first table, under its own cutoff |
| `Retention.NeverStuck` | services/ingestion-service/internal/retention/retention.go:91-143 | over every such run in which no event older than the cutoff is inserted after a pass is through with its history table, every delivery that meets a working database is acknowledged |
| `Retention.StuckExactly` | services/ingestion-service/internal/retention/retention.go:19-29 | from any such state, a delivery whose acknowledgement is lost is refused after the pass exactly when it inserted an event older than the cutoff after the pass was through with its history table |
| `Retention.SomeRunGetsStuck` | services/ingestion-service/internal/retention/retention.go:91-119 | for every health event and every later cutoff there is such a run from the start |
| `Retention.StaysStuck` | services/ingestion-service/internal/retention/retention.go:91-143 | a refused message stays refused, whatever is delivered, fails or is pruned, as long as its history row is there |
| `Retention.NextPassFrees` | services/ingestion-service/internal/retention/retention.go:91-143 | a later pass whose cutoff has moved beyond the event lets it in again, for a second effect |
| `Convergence.ConvergesToNewest` | services/ingestion-service/internal/store/v2.go:161-207 | for every delivery order, repetition, failure, crash and pruning the settled table has the right devices and shows the event that is newest in its device |
| `Convergence.ConvergesToLastWhenIncreasing` | services/ingestion-service/internal/store/v2.go:161-207 | with increasing times it is the last accepted event of each device |
| `Convergence.ConvergesToLast` | services/ingestion-service/internal/store/v2.go:128-215 | with times that merely never decrease, and no failed transaction or pruning, the table holds exactly the last accepted event of each device |
| `Ties.LastWinsIffNewest` | services/ingestion-service/internal/store/v2.go:161-207 | for every history: all settled runs, failures included, show each device's last event exactly when it is strictly newer than all others of its device |
| `Ties.TieLosesLast` | services/ingestion-service/internal/store/v2.go:202 | the run that shows it, for every history and every event that equals or exceeds a last one in time: redelivered after a failed transaction it replaces it |
| `TrackerTies.UnpolledDeviceTies` | services/snmp-collector/internal/health/tracker.go:178-181 | such ties are real: a device that is not polled while its upstream comes back gets a second event with the time of its first |
| `TrackerTies.TieReachesTable` | services/ingestion-service/internal/store/v2.go:202 | published in full, those events meet a run that settles with the table showing unknown where the ledger has critical |
| `Heartbeats.StatusConverges` | services/ingestion-service/internal/store/v2.go:260-285 | for every delivery order, repetition, failure and pruning the settled status table shows each collector one of its own heartbeats, none older than any it sent, and the newest when it is strictly newest |
| `EndToEnd.LedgerReachesTable` | services/snmp-collector/internal/poller/poller.go:267-284 | composition: a tracker run published through a delivery run without failed transactions ends with every live device showing its ledger state and alerts flag |
| `TrackerTies.LedgerReachesTableDespiteFailures` | services/snmp-collector/internal/poller/poller.go:267-284 | the same through every delivery run, failures and pruning included, for a device whose last event is strictly newer than its others |
| `EndToEnd.EventTimesNeverDecrease` | services/snmp-collector/internal/health/tracker.go:128-199 | with a clock that never runs backwards per device, neither do the times of its events |
| `Backend.BackendAgrees` | services/backend-api/internal/derive/derive.go:57-112 | the backend believes critical and unknown always, healthy and warning only while the device is seen and counts it as critical otherwise; it sees a direct failure exactly when the collector called it critical, and never finds the overlay's mark |
| `Topology.Enrich` | services/snmp-collector/internal/topology/infer.go:17-75 | the enriched inventory is accepted by the dependency check; a device on a link path to the root gets a neighbour one step nearer, any other exactly the known device named by the text before its first "-idf" and "-mdf", otherwise do-core below it, otherwise none; roles follow from name and distance; nothing else changes |
| `Topology.DepthIsDistance` | services/snmp-collector/internal/topology/infer.go:107-128 | search depth is distance from the root, and exactly the connected devices are reached |
| `Topology.BfsParents` | services/snmp-collector/internal/topology/infer.go:107-139 | reached devices hang one step below their parent, the others follow their name |
| `Topology.CollectLinks` | services/snmp-collector/internal/topology/infer.go:28-63 | links are exactly what the answers name, both ways, between different devices |
| `Topology.PickRoot` | services/snmp-collector/internal/topology/infer.go:89-105 | the first core by name, otherwise the first of those with most links |
| `Topology.NamingClimbs` | services/snmp-collector/internal/topology/infer.go:173-193 | the name's suggestion is a known device strictly higher in the scheme |
| `Topology.LowerByTable` | services/snmp-collector/internal/topology/infer.go:141-193 | lower-casing, letter by letter |
| `SiteTopology.TopologicalSiteOrder` | services/backend-api/internal/derive/site_topology.go:58-82 | terminates on every graph, lists every named site once, and is upstream-first on acyclic ones |
| `SiteTopology.CollectRootCauseSites` | services/backend-api/internal/derive/site_topology.go:219-253 | the sorted set of unavailable sites without unavailable upstreams that the given sites lead to through unavailable ones, when none of them leads to a cycle |
| `SiteTopology.Walk` | services/backend-api/internal/derive/site_topology.go:222-247 | the walk from a site that leads to no cycle of unavailable sites terminates and adds exactly the root causes behind it |
| `SiteTopology.SiteWalkEndsExactly` | services/backend-api/internal/derive/site_topology.go:222-247 | the walk ends exactly when the site leads to no cycle of unavailable sites |
| `SiteCompletion.CompleteMissingSiteUpstreams` | services/backend-api/internal/derive/site_topology.go:86-124 | keeps operator edges and fills the rest by the naming scheme, for every map order |
| `SiteCompletion.InferredClimbs` | services/backend-api/internal/derive/site_topology.go:104-132 | an inferred upstream is a site of the index strictly higher in the scheme: the distribution site the name points at when there is one, otherwise a core |
| `SiteCompletion.CompletionExact` | services/backend-api/internal/derive/site_topology.go:86-124 | completion leaves a cycle exactly when the operator's edges hold one, or lead from the upstreams inferred for some sites back around to those sites |
| `SiteCompletion.SomeCompletionCyclic` | services/backend-api/internal/derive/site_topology.go:86-124 | the same over all map orders |
| `SiteCompletion.ClimbingStaysAcyclic` | services/backend-api/internal/derive/site_topology.go:86-124 | acyclic operator edges that never lead down the naming scheme stay acyclic |
| `SiteCompletion.DownwardCloses` | services/backend-api/internal/derive/site_topology.go:86-124 | the smallest index where completion closes a cycle: an operator edge from the core down |
| `SiteEvaluation.ImpactedSitesHaveRootCauses` | services/backend-api/internal/derive/site_topology.go:135-172 | an impacted site reports exactly those root causes, sorted, and always at least one when evidence exists for indexed sites only |
| `SiteEvaluation.EvaluateSiteTopology` | services/backend-api/internal/derive/site_topology.go:135-172 | computes, for every map order and whenever the walks of the impacted sites end, the completed index and every site's state; what these are is told by `SiteReading` |
| `SiteEvaluation.EvaluationEndsWhen` | services/backend-api/internal/derive/site_topology.go:135-172 | they end for every evidence when the operator's edges are acyclic and lead back around to no completed site, in particular when they never lead down the scheme |
| `SiteProjections.BuildSiteProjections` | services/backend-api/internal/handlers/site_projections.go:31-95 | evidence, topology, evaluation and overlaid counts of every site, from the stored rows |
| `SiteProjections.ShownSitesExplained` | services/backend-api/internal/handlers/site_projections.go:31-95 | for all rows an impacted site has a root cause, each a listed site that is down while none of its upstreams is, and shows every alert-enabled device once, its direct failures moved from critical to unknown |
| `SiteReading.DeviceReads` | services/backend-api/internal/derive/derive.go:46-112 | a device row's status: without a health row healthy when online and critical when not, with one its state, an offline device critical unless unknown; its reason, count and lists |
| `SiteReading.UnavailableIsDown` | services/backend-api/internal/derive/site_topology.go:174-191 | a site is unavailable exactly when, by its last row, some device that may alert reads as critical, or, with hubs, one of them is a critical direct failure |
| `SiteReading.DeviceShown` | services/backend-api/internal/derive/site_topology.go:256-264 | a direct failure at an impacted site is shown as unknown because of the upstream site, anything else as it is |
| `SiteReading.UpstreamsAreRead` | services/backend-api/internal/derive/site_topology.go:86-132 | listed upstreams are kept; a site without any gets the listed site named by the text before its first "-idf" and "-mdf", otherwise below the core the one site named as core, otherwise none |
| `SiteReading.StateFromRows` | services/backend-api/internal/derive/site_topology.go:135-253 | a site is impacted exactly when it has upstreams, all of them are down and more than half of its devices are direct failures or unknown; its unavailable upstreams are exactly those down, sorted; its root causes exactly the sites that are down, depend on none that is, and are led to by sites that are down |
| `SiteReading.CountsFromRows` | services/backend-api/internal/derive/site_topology.go:255-281 | each shown count is the number of the site's devices that may alert and are shown so, those blamed on another site as unknown |
| `SiteReading.BundlesFromRows` | services/backend-api/internal/handlers/site_projections.go:31-95 | for all rows every bundle that is returned holds that state and those counts |
| `SiteOverlay.OverlayConserves` | services/backend-api/internal/derive/site_topology.go:255-281 | the four counts add up to the alert-enabled devices before and after; exactly the alert-enabled direct failures move from critical to unknown, none unless impacted |
| `SiteOverlay.OverlayIdempotent` | services/backend-api/internal/derive/site_topology.go:256-264 | overlaying twice is overlaying once |
| `SiteOverlay.ProjectedSiteHealth` | services/backend-api/internal/derive/site_topology.go:267-281 | the loop computes the projected counts |
| `SiteOverlay.CountsAreExact` | services/backend-api/internal/derive/derive.go:133-150 | accumulating a site's devices counts, for each status, the alert-enabled devices that have it, and the impacted ones |
| `SiteOverlay.ProjectionKnown` | services/backend-api/internal/derive/derive.go:57-112 | every projected status is one of the four counted codes |
| `ManagedInventory.MergeInventories` | services/snmp-collector/internal/config/config.go:522-537 | static devices first, overlaid, then the managed ones |
| `ManagedInventory.StaticIdentityKept` | services/snmp-collector/internal/config/config.go:519-559 | managed entries never replace a static device's id or host |
| `ManagedInventory.OverlaidFields` | services/snmp-collector/internal/config/config.go:540-559 | threshold, upstreams, alerts flag, role and interface filters of a static device are those of the last managed entry that sets them, or its own |
| `ManagedInventory.ValidatePendingDependencyMutation` | services/snmp-collector/internal/config/config.go:943-984 | accepts exactly when the edited document merged with the static inventory contains the device and passes the dependency check |
| `ManagedInventory.DependencyMutationSafe` | services/snmp-collector/internal/control/handlers.go:508-548 | an accepted dependency change is safe once on disk, although check and file treat empty lists differently |
| `ManagedInventory.OtherMutationSafe` | services/snmp-collector/internal/control/handlers.go:459-506 | threshold and alerting changes never endanger the graph, however the file reads empty lists |
| `ControlPlane.PendingStore.Take` | services/snmp-collector/internal/control/pending.go:45-63 | a known token is gone afterwards; it yields its mutation only in time, with the same action and revision |
| `ControlPlane.PutThenTake` | services/snmp-collector/internal/control/pending.go:27-63 | a token put with a mutation yields exactly that mutation, once: in time, for the same action and revision; any other attempt uses it up for nothing, and other tokens are untouched |
| `ControlPlane.Server.Commit` | services/snmp-collector/internal/control/handlers.go:333-359 | a stale revision does not use up the token; otherwise the token is taken and its mutation applied or refused |
| `ControlPlane.Server.Apply` | services/snmp-collector/internal/control/handlers.go:459-592 | on success the first entry of the device has the payload's number, flag or list in its field, or a new last entry holds only that, or without a device the policy does; everything else is as before up to the codec's reading of empty lists; on failure nothing changes |
| `ControlPlane.Server.Reload` | services/snmp-collector/internal/config/snapshot.go:36-49 | activates the merged inventory when it passes the dependency check, otherwise nothing changes |
| `ControlPlane.PersistedStaysAcceptable` | services/snmp-collector/internal/control/handlers.go:508-548 | over every sequential run of prepares, commits and reloads the persisted document stays acyclic and without dangling upstreams |
| `ControlPlane.TokensAreOneShot` | services/snmp-collector/internal/control/pending.go:27-63 | each token applies at most one mutation, with its action, in time, and only while the revision of its preparation is active |
| `ControlPlane.AppliedAsPrepared` | services/snmp-collector/internal/control/handlers.go:287-405 | what a commit writes is the mutation prepared under its token; a refused commit writes nothing |
| `AppliedMutations.AppliesExactly` | services/snmp-collector/internal/control/handlers.go:459-592 | an apply succeeds exactly when the payload decodes, its device is active, or only the policy is meant, a new list passes the pending check, and the write succeeds |
| `AppliedMutations.PendingIs` | services/snmp-collector/internal/config/config.go:943-984 | the pending check looks at the document with the list in the device's first entry, none for an empty one, or in a new entry |
| `AppliedMutations.PreparedDecodes` | services/snmp-collector/internal/control/handlers.go:407-458 | a request can be prepared exactly when its payload decodes at the commit, with a list present, and it names a device, or none for a threshold |
| `AppliedMutations.CommitFollowsPrepare` | services/snmp-collector/internal/control/handlers.go:269-405 | from every state a prepared request committed within sixty seconds under the same revision is applied or refused by the apply alone; late or refused it writes nothing |
| `AppliedMutations.ReloadShowsApplied` | services/snmp-collector/internal/config/config.go:522-559 | after a reload the active device has the value asked for, as long as no later entry hides it |
| `OverlappingCommits.WriteExactly` | services/snmp-collector/internal/control/handlers.go:519-547 | a write leaves an acceptable document acceptable exactly when its change is still accepted against the document it meets |
| `OverlappingCommits.InterleavedExactly` | services/snmp-collector/internal/control/handlers.go:519-547 | over every interleaving of checks and writes the document stays acceptable exactly when every change written is still accepted against the document it meets |
| `OverlappingCommits.OverlapExactly` | services/snmp-collector/internal/control/handlers.go:519-547 | two accepted requests, both checked before either is written, leave an acceptable document exactly when they are for one device or not both lists lead, by the dependencies the checks saw, to the other request's device |
| `OverlappingCommits.CrossedRequestsClose` | services/snmp-collector/internal/control/handlers.go:519-547 | two requests that name each other's device always close a cycle |
| `OverlappingCommits.TwoDevicesClose` | services/snmp-collector/internal/control/handlers.go:519-547 | the smallest such run |
| `Limiter.TokenBucket.Wait` | services/snmp-collector/internal/discovery/limiter.go:42-67 | reserves one token, possibly into debt, and returns the time to refill it |
| `Limiter.ReleasesInOrder` | services/snmp-collector/internal/discovery/limiter.go:42-67 | release instants follow the order of reservations |
| `Limiter.RateBound` | services/snmp-collector/internal/discovery/limiter.go:42-67 | any closed window of length T holds at most burst + rate * T releases |
| `Limiter.BurstAtOnce` | services/snmp-collector/internal/discovery/limiter.go:27-37 | a first burst is released without delay, so the burst term is needed |
| `Limiter.DelayedOnlyWhenUsedUp` | services/snmp-collector/internal/discovery/limiter.go:42-67 | a release is never earlier than the burst and the refill since any earlier reservation allow, and later than its own reservation only when they have been used up |
| `Targets.ExpandAllowedTargets` | services/snmp-collector/internal/discovery/discovery.go:316-346 | the strictly increasing list of exactly the union of the ranges, or an error exactly when it exceeds the maximum or a range does not parse |
| `Targets.ExpandOne` | services/snmp-collector/internal/discovery/discovery.go:324-340 | one range: stops after the last address there is, adds each new address once |
| `Targets.ContainsIsBlock` | services/snmp-collector/internal/discovery/discovery.go:324-325 | a range is the block of its size from its masked base |
| `Targets.ContainsIsAgreement` | services/snmp-collector/internal/discovery/discovery.go:324-325 | an address belongs to a range exactly when its leading bits are the range's |
| `Targets.LastAddress` | services/snmp-collector/internal/discovery/discovery.go:324-340 | the last address there is: alone in its own range, in the range without fixed bits, and last in every expansion that holds it |

## Left out

- Telemetry.EmittedEventsAccepted: covers the health kind; bodies of device and interface events only appear as accepted or not, and heartbeats have no emitter here.
- Delivery.NoLoss: covers messages the outbox accepted; a health event whose publish failed is only logged and is lost to the stream (poller.go:281-283).
- Delivery.FirstDeliveriesInOrder: the broker keeps every accepted message until it is acknowledged; expiry of its session and of messages is not modelled.
- Convergence.ConvergesToLast: stated for health rows; for collector status rows, whose guard is strict, ties keep the first arrival and only the strictly newest is determined.
- EndToEnd.LedgerReachesTable: assumes that every publish succeeded and that poll times are positive and do not decrease per device; root causes that change without a change of state are not sent, so the table's root causes may be older than the ledger's.
- HealthHistory.RootCausesExact: one fixed acyclic configuration and at most one outcome per device and cycle; across reloads the stream results and `ReloadHazard` hold, but an undecided device keeps the evidence of the old configuration.
- ControlPlane.PersistedStaysAcceptable: sequential steps, a static inventory that does not change and no other writer of the document; the file codec is a parameter that may or may not tell an empty list from a missing one.
- ControlPlane.AppliedAsPrepared: the three commit handlers are one method with the action as parameter; discovery policy and candidate acceptance are other mutations and are not modelled.
- Limiter.RateBound: exact arithmetic and scheduled instants; float rounding, truncation to nanoseconds and timer wake-ups are not modelled, and the clock does not run backwards.
- Targets.ExpandAllowedTargets: IPv4 only and uncancelled; IPv6 and IPv4-mapped ranges are not modelled.
- Topology.Enrich: names are lowered in ASCII only; neighbour queries are parameters, and their shared time-out is one way for an answer to be missing.
- SiteCompletion.CompleteMissingSiteUpstreams: names are lowered in ASCII only.
- SiteProjections.ShownSitesExplained: whether a device is online is an input; the rows' addresses, which key the device list of a site, are not modelled.
- Retention.StuckExactly: one retention runner; the other tables of a pass and the interval between passes are not modelled.
- OverlappingCommits.InterleavedExactly: tokens, revisions and the look at the active inventory are left to `ControlPlane`; the static inventory does not change and nobody else writes the document.
- Ingestion.Database.HandleMessage: version 1 kinds are not modelled; readings that name a metric the database does not know count as malformed, for they are acknowledged without effect too.
- Acceptance.ReadingsAccepted: whether a device or interface body passes its own checks is an input.
- HealthOutcomes.PublishedAsHeard: the fingerprint of the temperature policy is an input.
- Outbox.BufferedPublisher.Drain: the pauses between rounds are left out; overlapping flushers are treated in `Delivery` as interleaved steps rather than in the classes.
- Waiting and scheduling of the flusher and the poller (wake channel, back-off, due times): they decide when steps happen, not what they do.
- SQLite, PostgreSQL, MQTT and YAML engines: a transaction is atomic and an error means no effect; JSON documents are records, so unknown members and malformed numbers are one rejected case; timestamps are integers, without the database's microsecond rounding and column widths.
- Version 1 topics and samples, device and interface inventory upserts, components and readings.
- Port, community, timeouts and retries of a device, the meaning of its interface filters, and the load-time checks on them.
- The parts of a reload that compare fixed settings; authentication, sessions, setup wizard, frontend, metrics and logging: plumbing or easy members.
