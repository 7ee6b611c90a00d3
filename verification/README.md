# VMLens, verified

VMLens watches the traffic of virtual machines. A kernel probe parses each packet and emits
an event; the agent folds events into one bucket per flow key and posts the buckets; the
backend validates each post, adds it to a cumulative flow row and an append-only log; the
graph query folds rows and reachability probes into a topology; a realtime hub tells browsers
about it. This project models that path in Dafny and proves what each stage keeps:
conservation over whole runs, refinement of simple reference definitions, round trips, and
safety under every interleaving.

`dafny verify dfyconfig.toml` checks the whole project.

## How it is laid out

| module | what it models |
|---|---|
| `FlowState`, `Accumulator` | one bucket and the map of buckets; the merge; the group-by-key reference |
| `AgentLoop`, `Payload`, `EndToEnd` | the agent's loop and sender as a step system; export and validation; both together |
| `AtLeastOnce`, `Joined` | which posts the backend committed; the agent's runs and the backend's transactions as one system |
| `Smoothing`, `FlowTable`, `FlowService` | the latency average; the row and its log; the services that change them |
| `IngestTx` | concurrent ingest transactions, statement by statement |
| `GraphIds`, `GraphModel`, `GraphTraffic`, `GraphOrder`, `GraphShape`, `GraphProbes`, `GraphNodes`, `GraphService` | ids, the fold, conservation, order independence, closure and probe isolation, what reachability edges and nodes show, the query's own loops |
| `Topology` | the stored log and the drawn graph together |
| `Packet`, `DelayTracker`, `RttLimiter`, `CaptureStats`, `KernelProbes` | the kernel parser, the two per-socket timing machines, the counters they share, and all probes side by side |
| `HubFanout`, `HubThrottle`, `HubDelivery`, `HubClients` | the hub's fan-out, its latest-wins throttle, the order of its broadcasts, and the order in which they reach each browser |
| `Prelude` | values and sequence facts shared by all |

Conventions. Code that updates things in place is a class or a method with loops, proved
equal to a function on values or to steps of a step system; what the system promises is then
proved of that function or system, against a reference that does not mention it
(`Summarises`, `Group`, `Agrees`, `SerialRow`, `SpellsStatus`, `FirstOpenSend`, ...). A concurrent part is a step system over all
interleavings: a step that is not enabled changes nothing, so every sequence of steps is a
run and every theorem about `Run(steps)` is about all runs. `float64` is `real`. Times are
integers and 0 is the zero time. Counters are unbounded; the `uint32` narrowing of an event's
counts, the `uint64` to `int64` reading on export and the unsigned clock difference of the RTT
probe are written out. SQL tables are maps and sequences, and a statement is its effect on
them. Addresses are opaque values with a text; parsing them, classifying them, clocks, HTTP
answers, ring reservations and hash values are parameters. One probe invocation is one step.

## What the code does that its comments or the obvious reading do not say

- The advisory lock stands in for a unique index only as far as lock texts follow row keys. It
  is taken on address texts while rows are compared on address values, and validation does not
  canonicalise the texts, so two spellings of one address can leave two rows with one key.
  `IngestTx.UniqueExactlyWhenLocksMatch` gives the exact condition.
- Host resolution rewrites two key columns, and VM expiry nulls two through foreign keys; both
  can give two rows one key, in runs the code has. `FlowTable.ResolutionKeepsKeysUnique` and
  `FlowTable.ExpiryKeepsKeysUnique` say exactly when they do not.
- A service's row is turned round on the graph, and only an egress row then loses its requests
  and connections. A SYN reaches a server on ingress, so a connection that both agents report
  is counted twice on its edge (`GraphOrder.BothSidesShareAnEdge`).
- Probes are listed newest first, and then one success anywhere makes an edge reachable, even
  when its newest probe failed (`GraphProbes.AnySuccessIsReachable`).
- Delivery is at least once: a post that the backend committed and whose answer was lost is
  posted again, so the log can hold a state up to three times.
  `AtLeastOnce.ExactlyOnceWhenNoneLost` says exactly when it does not.
- An inserted row's `observed_at` is the start of its transaction, an updated row's the time
  taken before the transaction began. `Agrees` says both.
- Edge ids are injective on source ids without the arrow `->`, and a source id with one always
  collides (`GraphIds.ArrowInIdCollides`); a lone `>` collides with nothing. The ids that
  registration and the fold build have no arrow.
- All probes share one counter map, and the socket probes count a full ring there although they
  saw no frame. So the fates of frames add up to more than the frames seen as soon as one of
  them meets a full ring; `KernelProbes.BalancedExactlyWhen` gives the exact condition.
- A throttled flush lets go of the lock before it broadcasts, so it can be overtaken
  (`HubThrottle.FlushCanBeOvertaken`). Latest-wins always holds of flushes; for broadcasts
  `HubDelivery.OrderedExactlyWhen` gives the exact condition, and `HubClients` carries it to
  each browser's channel.
- An RTT sample that is admitted uses up its second even when the ring has no room for it.
- A counter of 2^63 or more leaves the agent negative and is rejected;
  `Payload.PayloadAcceptedUnchanged` is an equivalence for that reason.

## Model

| member | source | states |
|---|---|---|
| FlowState.FoldSummarises | agent/internal/flow/store.go:61-91 | for every sequence of same-key events, the bucket holds exactly their totals in fourteen counters, latest/min/max/arithmetic mean of the positive RTTs, mean of the positive delays, first positive port, last status, earliest and latest time |
| FlowState.ApplyAmount | agent/internal/flow/store.go:61-91 | one event adds to every counter exactly what the event alone says: positive amounts, counts modulo 2^32, and its requests as stated or inferred |
| FlowState.CountsMean | agent/internal/features/protocols/transport/tcp/connection/reducer.go:8-44 | an event's requests are those it states, else none with an error, else its connections, else one for a datagram with bytes and a known direction |
| FlowState.KeysMeet | agent/internal/flow/store.go:22-30 | two events share a bucket if and only if they agree in agent, both addresses, destination port, protocol, direction and interface |
| FlowState.MergeSummarises | agent/internal/flow/store.go:93-120 | if two states summarise two event sequences, their merge summarises the joined sequence |
| FlowState.MergeHomomorphism | agent/internal/flow/store.go:61-160 | merging two folds equals folding the concatenation, in every field |
| FlowState.SummaryUnique | agent/internal/flow/store.go:61-120 | the summary leaves no freedom: two states that summarise the same events are equal |
| FlowState.ApplyRttDescribes | agent/internal/features/protocols/transport/tcp/rtt/reducer.go:3-16 | the incremental update keeps latest, extremes and the arithmetic mean of all samples |
| FlowState.ApplyDelayDescribes | agent/internal/flow/store.go:122-128 | the running delay mean is the arithmetic mean of all samples |
| FlowState.MergeRttDescribes | agent/internal/flow/store.go:142-160 | the weighted merge describes the concatenated samples, empty sides included |
| FlowState.MergeDelayDescribes | agent/internal/flow/store.go:130-140 | the weighted merge is the mean of the concatenated samples |
| Accumulator.AddEventGroups | agent/internal/flow/store.go:22-30 | adding an event in place equals regrouping the longer event sequence |
| Accumulator.AddAllGroups | agent/internal/flow/store.go:32-47 | putting a drained batch back, in any order, is as if its events had arrived after the pending ones |
| Accumulator.DrainThenAddAll | agent/internal/flow/store.go:43-59 | drain followed by putting the batch back is the identity |
| Accumulator.Bucket.Apply | agent/internal/flow/store.go:61-91 | the in-place update of one bucket, field by field, is the fold step |
| Accumulator.Bucket.Merge | agent/internal/flow/store.go:93-120 | the in-place merge is the merge of values |
| Accumulator.Bucket.AbsorbRtt | agent/internal/flow/store.go:142-160 | the in-place RTT merge |
| Accumulator.Bucket.ApplyRttSample | agent/internal/features/protocols/transport/tcp/rtt/reducer.go:3-16 | the in-place RTT update |
| Accumulator.Bucket.ApplyConnectionEvent | agent/internal/features/protocols/transport/tcp/connection/reducer.go:27-44 | the in-place update adds the opens, errors and requests that CountsMean describes |
| Accumulator.Bucket.RecordStatus | agent/internal/features/protocols/application/http/status.go:24-43 | class counter and last code, ignoring codes outside 100..599 |
| Accumulator.Bucket.ApplyBytes | agent/internal/features/traffic/bytes/reducer.go:5-14 | bytes go to received on ingress and to sent otherwise |
| Accumulator.Store.Add | agent/internal/flow/store.go:22-30 | one bucket created or updated, every other one untouched |
| Accumulator.Store.Absorb | agent/internal/flow/store.go:32-41 | one bucket copied in or merged, every other one untouched |
| Accumulator.Store.AbsorbAll | agent/internal/flow/store.go:43-47 | the loop over a batch |
| Accumulator.Store.Drain | agent/internal/flow/store.go:49-59 | the batch lists every bucket once, in some order, and nothing is left |
| AgentLoop.RunKeeps | agent/cmd/agent/main.go:97-164 | the inductive invariant of loop, queue and sender holds in every reachable state |
| AgentLoop.AccumulatorRefinesGrouping | agent/cmd/agent/main.go:97-134 | in every run the accumulator is the per-key, arrival-order fold of the events since the last queued batch, and each batch is the grouping of its own segment of accepted events |
| AgentLoop.FullQueueLosesNothing | agent/cmd/agent/main.go:119-134 | a tick that finds 32 batches queued leaves the whole system unchanged |
| AgentLoop.DeliveryDiscipline | agent/cmd/agent/main.go:148-164 | every queued state is handled once and in order, posted one to three times, never after a success, given up only after three failures or on cancellation; the state in the sender has at most three posts, none of them acknowledged |
| AgentLoop.Conservation | agent/cmd/agent/main.go:97-164 | for every run, key and counter: accepted equals pending plus queued plus in sender plus acknowledged plus given up |
| AgentLoop.BatchHoldsEvents | agent/cmd/agent/main.go:119-128 | a drained batch holds exactly what its events amount to, per key and counter |
| AgentLoop.OnTick | agent/cmd/agent/main.go:119-134 | the ticker branch queues the whole batch, or restores the accumulator exactly; it is the `Tick` step of every system with that accumulator and queue |
| AgentLoop.SendFlow | agent/cmd/agent/main.go:306-321 | the retry loop stops at the first success, the third failure or the end of the context; from any reachable system with a state in the sender it continues the run by `Post`, `Cancel` and `GiveUp` steps to where the state is through after just those posts |
| AgentLoop.SendBatch | agent/cmd/agent/main.go:148-164 | one turn of the sender continues the run to where the oldest batch was taken, all its states are through in order and the sender is idle |
| AtLeastOnce.LogIsCommittedPosts | agent/cmd/agent/main.go:306-321 | in every run the backend's log of the agent is its states in order, once per committed post |
| AtLeastOnce.LoggedIsAckedPlusLost | agent/cmd/agent/main.go:306-321 | for every run, key and counter, logged equals acknowledged plus what was in posts that committed unanswered |
| AtLeastOnce.ExactlyOnceWhenNoneLost | agent/cmd/agent/main.go:306-321 | the log is exactly what was acknowledged if and only if no committed post went unanswered |
| AtLeastOnce.AmountsAgreeExactlyWhen | agent/cmd/agent/main.go:306-321 | per key and counter, the amounts agree if and only if the unanswered committed posts held none of it |
| AtLeastOnce.LogReports | agent/internal/exporter/flow_payload.go:37-65 | a log made of the committed payloads, in any order and with other keys mixed in, reports that sum in each of twelve columns |
| Joined.RunKeeps | backend/internal/service/flow_service.go:29-185 | agent runs and backend transactions joined post by post keep their common invariant, whatever interleaves |
| Joined.SentIsUnchanged | agent/cmd/agent/main.go:154-156 | in every reachable agent state, what the sender posts is accepted unchanged and carries the agent's id |
| Joined.LogHoldsPosts | backend/internal/service/flow_service.go:159-185 | in every joint run, what was logged from the agent plus what posts it gave up on are yet to commit is the payload of each committing post, once each |
| Joined.BackendHoldsAckedPlusLost | backend/internal/api/handlers.go:100-112 | in every joint run with no post open, the backend's log reports per key and column exactly what was acknowledged plus what was committed unanswered |
| Payload.AcceptedIsNormal | backend/internal/telemetry/metrics/validation.go:12-66 | whatever passes validation is trimmed, named, in range, ordered in time and has its requests inferred |
| Payload.FixedPoint | backend/internal/telemetry/metrics/validation.go:12-66 | an event with times is accepted unchanged if and only if it is already normal |
| Payload.AcceptedExactlyWhen | backend/internal/telemetry/metrics/validation.go:12-66 | any event is accepted as `r` if and only if `r` is the event trimmed, lowered, with gaps filled and requests inferred, and `r` is normal |
| Payload.RejectedExactlyWhen | backend/internal/telemetry/metrics/validation.go:16-61 | any event is rejected for a reason if and only if that is the first of eleven checks its normal form fails |
| Payload.EventRef.ValidateFlowEvent | backend/internal/telemetry/metrics/validation.go:12-66 | the step-by-step normalisation through the pointer, with the first failing check reported |
| Payload.SilentEvents | agent/internal/features/protocols/transport/tcp/connection/reducer.go:8-44 | events that add up to no requests and no errors opened no connection and, on UDP and ICMP, carried no bytes |
| Payload.InferenceOnTotals | backend/internal/telemetry/metrics/request_response.go:5-25 | inference on the totals finds no request that inference per event did not |
| Payload.CastCounters | agent/internal/exporter/flow_payload.go:46-59 | the signed counters are all non-negative if and only if every total is below 2^63 |
| Payload.PayloadShows | agent/internal/exporter/flow_payload.go:37-65 | the payload of any bucket carries its key, the RTT mean and the delay mean each in its column, the first port, the last status and the earliest and latest times |
| Payload.PayloadAcceptedUnchanged | agent/internal/exporter/flow_payload.go:37-65 | the exported payload of any non-empty sequence of well-formed same-key events is accepted unchanged if and only if its counters fit `int64` |
| EndToEnd.StatesAreFolds | agent/cmd/agent/main.go:97-164 | in every run each queued, posted or delivered state is the fold of accepted events of its key |
| EndToEnd.PostedPayloadsAreAccepted | agent/cmd/agent/main.go:148-164 | in every run on well-formed events each posted payload whose counters fit passes the backend's validation unchanged |
| Smoothing.SmoothIsConvex | backend/internal/service/flow_service.go:125-134 | the stored average is 0 iff no value was positive, and otherwise the combination of the positive ones with halving weights, hence between two of them |
| Smoothing.WeightsConvex | backend/internal/service/flow_service.go:125-134 | those weights are positive and sum to one |
| Smoothing.GraphSmoothIsSmooth | backend/internal/service/graph_service.go:571-579 | the graph's averaging obeys the same law |
| FlowTable.NewRowAgrees | backend/internal/service/flow_service.go:99-114 | an inserted row agrees with its one log entry |
| FlowTable.UpdateRowAgrees | backend/internal/service/flow_service.go:115-155 | an update keeps the row equal to the sums, extremes, latest values and averages of its log |
| FlowTable.SerialRowAgrees | backend/internal/service/flow_service.go:99-155 | the row any list of ingests leaves agrees with that list |
| FlowTable.ColumnsAreSums | backend/internal/service/flow_service.go:118-148 | each of the twelve cumulative columns is the sum of what the windows reported in that column |
| FlowTable.ErrorTimeSet | backend/internal/service/flow_service.go:139-142 | the error time is set if and only if errors were counted |
| FlowTable.CommitKeepsLog | backend/internal/service/flow_service.go:99-175 | one committed ingest keeps every row in agreement with its log entries |
| FlowTable.ResolveKeepsLog | backend/internal/service/agent_service.go:225-236 | host resolution keeps the agreement |
| FlowTable.ExpireKeepsLog | backend/internal/service/agent_service.go:337-392 | VM expiry, through the foreign keys of both tables, keeps the agreement |
| FlowTable.ResolutionMeans | backend/internal/service/agent_service.go:229-234 | exactly the rows from a known VM to the address without a destination VM get it, with the same-tenant scope if and only if the tenants are equal; nothing else changes |
| FlowTable.ExpiryMeans | backend/internal/service/agent_service.go:381-386 | exactly the references to deleted VMs and agents become null in rows and log; nothing else changes |
| FlowTable.ResolutionKeepsKeysUnique | backend/internal/service/agent_service.go:229-234 | resolution keeps row keys unique if and only if no other row is in the way of a rewritten one |
| FlowTable.ExpiryKeepsKeysUnique | backend/internal/service/agent_service.go:381-386 | expiry keeps row keys unique if and only if no two rows differ only in references to VMs that are gone |
| FlowService.Mark | backend/internal/service/flow_service.go:135-149 | the extreme and latest-value columns of the update |
| FlowService.Average | backend/internal/service/flow_service.go:125-134 | the CASE expression of an average column |
| FlowService.FlowStore.Aggregate | backend/internal/service/flow_service.go:116-154 | the update changes one row and no other |
| FlowService.FlowStore.Store | backend/internal/service/flow_service.go:87-175 | a row of the key is updated, or one is inserted when there is none, and one entry is logged |
| FlowService.KeyResolves | backend/internal/service/flow_service.go:52-60 | a window's key has the destination VM exactly when one is registered, then the same-tenant scope if and only if the tenants are equal and else the cross-tenant one, and the classifier's scope without one |
| FlowService.FlowStore.Ingest | backend/internal/service/flow_service.go:29-185 | an invalid event or an unknown agent changes nothing; otherwise one row is stored under the key read off the VMs and the event, all others stay, one entry with its columns is logged, and agreement is kept |
| FlowService.FlowStore.ResolveUnknownHost | backend/internal/service/agent_service.go:225-236 | every matching row and no other gets the VM and its scope |
| FlowService.FlowStore.DeleteExpired | backend/internal/service/agent_service.go:337-392 | the deleted VMs are the selected ones, each once, and both tables forget them and their agents |
| IngestTx.RunKeepsLog | backend/internal/service/flow_service.go:80-175 | agreement of rows and log is invariant over every interleaving |
| IngestTx.RowsAgreeWithLog | backend/internal/service/flow_service.go:99-175 | in every run with resolution and expiry mixed in, each row's counters (column by column), times, status and averages are those of its log entries, and its error time is set iff it counted errors |
| IngestTx.CanonicalTextsShareLocks | backend/internal/service/flow_service.go:80-94 | equal row keys give equal lock texts when equal addresses have equal texts |
| IngestTx.HolderIsLast | backend/internal/service/flow_service.go:80-85 | while a transaction holds its lock, nobody later in lock order wants its row |
| IngestTx.RunKeepsKeys | backend/internal/service/flow_service.go:80-157 | mutual exclusion, valid lookups, fresh inserts, lock order and serial rows are invariant over every ingest interleaving |
| IngestTx.OneSerialRowPerKey | backend/internal/service/flow_service.go:80-157 | at most one committed row per key, one for each committed ingest, equal to the serial fold of its ingests in lock order |
| IngestTx.CanonicalTextsGiveOneRow | backend/internal/service/flow_service.go:80-157 | canonical address texts suffice for that, whatever the hash does |
| IngestTx.DifferentLocksDuplicate | backend/internal/service/flow_service.go:80-114 | any two requests for one row with different locks have a run that commits two rows with one key |
| IngestTx.UniqueExactlyWhenLocksMatch | backend/internal/service/flow_service.go:80-157 | no interleaving of a set of requests duplicates a key if and only if requests for one row ask for one lock |
| IngestTx.ResolutionCanDuplicateKeys | backend/internal/service/agent_service.go:229-234 | for every window to a VM that expires, is ingested to under another scope and registers again, a run in which resolution takes unique keys to duplicate ones |
| IngestTx.ExpiryCanDuplicateKeys | backend/internal/service/agent_service.go:381-386 | for every window sent to an address that moved between two VMs, a run in which their expiry takes unique keys to duplicate ones |
| IngestTx.TransactionAlone | backend/internal/service/flow_service.go:80-185 | a transaction undisturbed commits its window to the row its lookup finds, or to a new one |
| FlowService.SerialIngestIsATransaction | backend/internal/service/flow_service.go:29-185 | the serial ingest takes the tables where its six transaction steps do |
| IngestTx.SpellingChangesTheLock | backend/internal/service/flow_service.go:82-83 | two texts for the source address give one lock text if and only if they are the same text |
| IngestTx.DestinationSpellingChangesTheLock | backend/internal/service/flow_service.go:82-83 | another text for the destination changes the lock text if and only if the destination is no registered VM |
| IngestTx.LockTextsMeet | backend/internal/service/flow_service.go:82-83 | without separators in the fields, lock texts are equal if and only if source VM and text, destination VM or text, protocol, direction, port and scope are |
| GraphIds.EdgeIdsMeet | backend/internal/service/graph_service.go:511-513 | two edge ids are equal iff protocol, scope and the joined ends are, for any node ids |
| GraphIds.EdgeIdInjective | backend/internal/service/graph_service.go:511-513 | edge ids are injective on source ids that do not contain `->` |
| GraphIds.EndsDecodeExactlyWhen | backend/internal/service/graph_service.go:511-513 | the two ends of an edge id decode in one way only if and only if neither contains `->` |
| GraphIds.ArrowInIdCollides | backend/internal/service/graph_service.go:511-513 | for every source id with `->` in it, another source id without one gives the same edge id |
| GraphIds.FamiliesDisjoint | backend/internal/service/graph_service.go:511-513 | no reachability edge id is a traffic edge id |
| GraphIds.NodeSafeInjective | backend/internal/service/graph_service.go:551-554 | the character replacement is injective on address texts |
| GraphIds.SourceIsNotTarget | backend/internal/service/graph_service.go:240-274 | an address node made for a source is never one made for a target |
| GraphIds.TargetAddressesMeet | backend/internal/service/graph_service.go:261-274 | two target address nodes are one if and only if class and address are the same |
| GraphModel.NodeIdsMeet | backend/internal/service/graph_service.go:240-274 | rows share a source or target node if and only if they share the VM, or the unregistered address and its class; a source is a target only as one VM |
| GraphModel.NoSelfLoop | backend/internal/service/graph_service.go:225-276 | a kept row joins two different nodes |
| GraphTraffic.KeptExactlyWhen | backend/internal/service/visibility.go:8-58 | a stored row is kept if and only if no port of it is excluded, one is allowed when any are listed, no address is noise or listed, its ends differ and no registered VM of it was filtered out |
| GraphTraffic.FoldAddsKeptRows | backend/internal/service/graph_service.go:220-239 | the fold adds exactly those rows, fixed before it starts although the code tests the growing node map |
| GraphTraffic.RowFindsItsEdge | backend/internal/service/graph_service.go:276-286 | the edge found under a row's id has the row's own ends, protocol and scope |
| GraphTraffic.NodeTrafficIsEdgeTraffic | backend/internal/service/graph_service.go:220-321 | for every list of rows, a node's traffic out is sent on its outgoing plus received on its incoming edges, and traffic in is the mirror |
| GraphTraffic.EdgeBytesAreRowBytes | backend/internal/service/graph_service.go:220-321 | total edge bytes equal the bytes of the kept rows as stored, flipped or not |
| GraphOrder.RowOrderDoesNotMatter | backend/internal/service/graph_service.go:276-320 | any two permutations of the rows give the same node ids, edge ids, sums, times, weights and node traffic |
| GraphOrder.EdgeShowsItsRows | backend/internal/service/graph_service.go:276-301 | an edge exists iff it has a kept row, and shows their first service port, averages and last status in row order |
| GraphOrder.EdgeSumsItsRows | backend/internal/service/graph_service.go:276-315 | every edge is the sum of its kept rows in each of ten counters, spans their first and last times, carries their latest observation and error and weighs one to five by 100 KiB, 1, 10 and 100 MiB |
| GraphOrder.TrafficFailsForAWindow | backend/internal/service/graph_service.go:529-536 | a traffic edge is returned as failed if and only if some error of its rows is younger than the window |
| GraphOrder.NormalizeSettles | backend/internal/service/graph_service.go:490-509 | normalising twice is normalising once, and only rows from a service port to an ephemeral one are turned round |
| GraphOrder.EdgeHoldsShares | backend/internal/service/graph_service.go:220-321 | in terms of stored rows, an edge holds bytes in the client's sense and every request and connection except those of a service's own egress rows |
| GraphOrder.BothSidesShareAnEdge | backend/internal/service/graph_service.go:490-513 | a client's row and its server's row get one edge with bytes mirrored; requests and connections are the client's alone when the server's row is egress and the sum of both when it is ingress |
| GraphOrder.ShownPortLaw | backend/internal/service/graph_service.go:515-527 | the shown port is the first in 1..32767 if there is one, and otherwise is none |
| GraphShape.ProbesLeaveTrafficAlone | backend/internal/service/graph_service.go:323-395 | any probes leave every traffic edge and node unchanged and add only edges with no bytes and no requests |
| GraphShape.BuildIsWellShaped | backend/internal/service/graph_service.go:199-395 | the finished fold conserves traffic, is closed, loop-free and shows no VM that the filter left out |
| GraphShape.CutIsClosed | backend/internal/service/graph_service.go:397-413 | dropping idle edges and lonely nodes keeps the graph closed |
| GraphShape.ReturnedGraphIsClosed | backend/internal/service/graph_service.go:199-416 | for all VMs, rows and probes, idle edges kept or not: edges join two different returned nodes, non-VM nodes have an edge, a returned registered VM passes the filter |
| GraphShape.SeedExactlyWhen | backend/internal/service/graph_service.go:199-218 | a VM is seeded if and only if it meets every condition the filter sets, and is shown as the inventory has it |
| GraphShape.ReturnedExactly | backend/internal/service/graph_service.go:397-413 | an edge is returned if and only if idle edges are wanted or it was observed within the window, a node if and only if it is a VM or the end of such an edge |
| GraphShape.ChosenVmIsReturned | backend/internal/service/graph_service.go:199-413 | every VM the filter lets through is returned, with or without traffic |
| GraphNodes.NodesShowRows | backend/internal/service/graph_service.go:240-274 | a node exists if and only if it was seeded or is the end of a kept row, and has the kind, name, address and status its seed or the first such row gives it |
| GraphNodes.NodeIdsRead | backend/internal/service/graph_service.go:240-274 | node ids are the VM's, or the prefix of the role and class with the address made safe |
| GraphProbes.ProbeKeptExactlyWhen | backend/internal/service/graph_service.go:323-339 | a probe is kept if and only if it joins two different VMs and addresses, none noise, listed or filtered out |
| GraphProbes.ProbeFoldAddsKept | backend/internal/service/graph_service.go:323-339 | which probes are kept is fixed before the fold |
| GraphProbes.ReachabilityEdgeShows | backend/internal/service/graph_service.go:350-394 | for every probe list, an edge's errors are its failed probes, its times their extremes, its round trip and observation the newest one's, its error time the latest failure's, its port the last failure's or else the first service port, and it is reachable iff some probe succeeded and no later one failed newer than all before it |
| GraphProbes.AnySuccessIsReachable | backend/internal/service/graph_service.go:361-394 | in the query's newest-first order an edge is reachable if and only if any of its probes succeeded |
| GraphProbes.FailedForAWindow | backend/internal/service/graph_service.go:529-536 | an edge is returned as failed if and only if some failure of its probes is younger than the window |
| GraphService.Builder.SeedVms | backend/internal/service/graph_service.go:197-218 | the seeding loop |
| GraphService.Builder.MergeInto | backend/internal/service/graph_service.go:287-315 | the field-by-field edge update |
| GraphService.Builder.CountRow | backend/internal/service/graph_service.go:240-320 | a kept row changes its two nodes and its edge |
| GraphService.Builder.AddFlowRow | backend/internal/service/graph_service.go:220-321 | one flow row is normalised, then skipped or counted |
| GraphService.Builder.AddProbeRow | backend/internal/service/graph_service.go:323-395 | one probe row is skipped or recorded on its reachability edge |
| GraphService.Builder.Reprobe | backend/internal/service/graph_service.go:360-380 | a probe on an existing edge |
| GraphService.Builder.MarkOutcome | backend/internal/service/graph_service.go:381-394 | success or failure of a probe |
| GraphService.Get | backend/internal/service/graph_service.go:191-413 | the loops together compute the seeded, folded and cut graph |
| Topology.SelectedShows | backend/internal/service/graph_service.go:112-126 | each line of the result shows its row's counters, averages, times, status and ends, each in its own column |
| Topology.KeptBytesWereLogged | backend/internal/service/graph_service.go:112-182 | rows that agree with the log hold exactly the bytes logged for them, over any choice of edges |
| Topology.ProbesAddNothing | backend/internal/service/graph_service.go:323-395 | no probe changes any sum over any choice of edges |
| Topology.RunIsSound | backend/internal/service/flow_service.go:29-185 | in every run whose requests name registered VMs, known scopes and validated windows, every row is well formed for the graph, through resolution and expiry |
| Topology.ShownExactlyWhen | backend/internal/service/graph_service.go:399-407 | an edge of kept rows is returned if and only if idle edges are shown or one of its rows was observed within the window |
| Topology.ShownBytesWereLogged | backend/internal/service/graph_service.go:108-413 | after every interleaving of ingest, resolution and expiry, and for every query result, the bytes on the returned edges are the bytes in the log entries of the kept rows whose edge is live, or of all kept rows when idle edges are shown |
| Packet.FrameRoundTrip | agent/internal/features/traffic/packet/network_parser.bpf.h:28-119 | every frame (IPv4 with any options, IPv6; TCP with any options, UDP, ICMP) parses to its encoded addresses, protocol, ports and flags, with a status iff its TCP payload spells one |
| Packet.V4RoundTrip | agent/internal/features/traffic/packet/network_parser.bpf.h:28-70 | the IPv4 part, for header lengths 5..15 words |
| Packet.V6RoundTrip | agent/internal/features/traffic/packet/network_parser.bpf.h:72-96 | the IPv6 part |
| Packet.TransportRoundTrip | agent/internal/features/traffic/packet/transport_parser.bpf.h:14-41 | ports and flags come back as encoded |
| Packet.TcpLengthRoundTrip | agent/internal/features/protocols/application/http/status.bpf.h:22-36 | the data offset comes back as encoded, for 5..15 words |
| Packet.StatusReadsPayload | agent/internal/features/protocols/application/http/status.bpf.h:22-91 | on any data and protocol, the status is non-zero iff a TCP header ends within the data and what follows begins with "HTTP/1.", a digit, a space and a code in 100..599, and then is that code |
| Packet.TailIsIrrelevant | agent/internal/features/protocols/application/http/status.bpf.h:51-91 | bytes after the twelfth payload byte never change what is read |
| Packet.CaptureEnds | agent/internal/features/traffic/packet/parser.bpf.h:51-83 | any byte string becomes an event if and only if its lengths, EtherType, version and header length, protocol (6, 17, 1, 58), transport header, ports and the ring allow it; otherwise the first of these that fails is counted; the event is read off the bytes |
| Packet.EventTellsFrame | agent/internal/features/traffic/packet/parser.bpf.h:16-83 | for every frame and direction the event has the frame's ends in local and remote roles, one packet, one connection iff SYN without ACK, one error iff RST, and the status its payload spells; an ignored port drops it |
| Packet.ControlRoundTrip | agent/internal/features/protocols/transport/tcp/connection/request_response.bpf.h:12-17 | the flag tests read back the control bits they were encoded from |
| Packet.DirectionsShareTuple | agent/internal/features/traffic/packet/parser.bpf.h:16-49 | a received frame and its mirror image sent give the same local and remote ends |
| CaptureStats.FrameKeepsExcess | agent/internal/features/traffic/packet/parser.bpf.h:51-83 | a frame counted as seen and under one fate leaves the difference between fates and frames alone |
| CaptureStats.DropAddsExcess | agent/internal/features/protocols/transport/tcp/retrans/retransmit.bpf.h:18-22 | a ring-full drop of a socket probe adds one to it |
| KernelProbes.CountersMean | agent/internal/shared/bpf/flow_maps.h:6-20 | in every run of all probes each counter is the number of frames that ended that way, and ring-full also holds the socket probes' drops |
| KernelProbes.CaptureBalance | agent/internal/shared/bpf/flow_maps.h:48-55 | in every run of all probes, frames seen plus the socket probes' ring-full drops equal the sum of the fates |
| KernelProbes.BalancedExactlyWhen | agent/internal/features/protocols/application/delay/delay.bpf.c:62-66 | the fates add up to the frames seen if and only if no socket probe ever met a full ring |
| KernelProbes.Retransmissions.EmitTcpRetransmission | agent/internal/features/protocols/transport/tcp/retrans/retransmit.bpf.h:12-30 | the retransmission probe is its step: an event, or one ring-full count |
| KernelProbes.Host.OnFrame | agent/internal/features/traffic/packet/parser.bpf.h:51-83 | on shared counters the packet probe is a `Frame` step of the host's run |
| KernelProbes.Host.OnReturn | agent/internal/features/protocols/application/delay/delay.bpf.c:40-74 | on shared counters the delay return probe is a `Delay` step |
| KernelProbes.Host.OnSegment | agent/internal/features/protocols/transport/tcp/rtt/rtt.bpf.h:45-73 | on shared counters the round-trip probe is an `Rtt` step |
| Packet.Probe.ParseNetworkMetadata | agent/internal/features/traffic/packet/network_parser.bpf.h:98-119 | metadata filled, or exactly one reason counted |
| Packet.Probe.ParseIpv4Metadata | agent/internal/features/traffic/packet/network_parser.bpf.h:28-70 | likewise for IPv4, with the faults that CaptureEnds lists |
| Packet.Probe.ParseIpv6Metadata | agent/internal/features/traffic/packet/network_parser.bpf.h:72-96 | likewise for IPv6, with the faults that CaptureEnds lists |
| Packet.Probe.ParseTransportMetadata | agent/internal/features/traffic/packet/transport_parser.bpf.h:14-41 | likewise for the ports and flags |
| Packet.Probe.EmitTcPacket | agent/internal/features/traffic/packet/parser.bpf.h:51-83 | one event or none, and exactly one counter besides the seen one, as CaptureEnds describes both |
| Packet.ReadHttpStatus | agent/internal/features/protocols/application/http/status.bpf.h:51-91 | the digit loop computes the status |
| DelayTracker.RecvMeaning | agent/internal/features/protocols/application/delay/delay.bpf.c:28-51 | the thread map is the receive each thread is in, read off the trace |
| DelayTracker.StartMeaning | agent/internal/features/protocols/application/delay/delay.bpf.h:41-88 | a socket has a start entry iff a send on it is still open, and it holds the first one |
| DelayTracker.SamplesMeasureFirstSend | agent/internal/features/protocols/application/delay/delay.bpf.c:21-74 | for every trace and eviction pattern, each sample runs from the first send since the last answered wait to the receive that answered it, and is in 1..60000000 us |
| DelayTracker.SampleTakenExactlyWhen | agent/internal/features/protocols/application/delay/delay.bpf.h:61-88 | for every trace and position, a sample of that many microseconds is taken there if and only if a receive returned bytes that long after the first open send, within 1..60000000 |
| DelayTracker.SamplesNeverOverlap | agent/internal/features/protocols/application/delay/delay.bpf.h:41-88 | with a monotone clock, samples of a socket are disjoint and sum to at most the elapsed time, evictions included |
| DelayTracker.Probes.TraceSend | agent/internal/features/protocols/application/delay/delay.bpf.c:21-26 | the send probe |
| DelayTracker.Probes.TraceReceive | agent/internal/features/protocols/application/delay/delay.bpf.c:28-38 | the receive probe |
| DelayTracker.Probes.TakeResponseDelayUs | agent/internal/features/protocols/application/delay/delay.bpf.h:61-88 | the entry goes whether or not its delay is reported |
| DelayTracker.Probes.TraceReturn | agent/internal/features/protocols/application/delay/delay.bpf.c:40-74 | the return probe, with and without room in the ring |
| RttLimiter.AdmissionsAreSpaced | agent/internal/features/protocols/transport/tcp/rtt/rtt.bpf.h:32-43 | between any two admissions of a socket lies a second or an eviction of its entry |
| RttLimiter.AdmittedExactlyWhen | agent/internal/features/protocols/transport/tcp/rtt/rtt.bpf.h:32-59 | a sample is admitted if and only if it has a socket and a round trip and no admission of the socket since its last eviction is less than a second old |
| RttLimiter.RateIsBounded | agent/internal/features/protocols/transport/tcp/rtt/rtt.bpf.h:32-73 | in any window [a, b] of any trace at most floor((b-a)/1s) + 1 samples of a socket are admitted, plus one per eviction within the window |
| RttLimiter.Limiter.ShouldEmitRttSample | agent/internal/features/protocols/transport/tcp/rtt/rtt.bpf.h:32-43 | admission on the unsigned difference, and the new map |
| RttLimiter.Limiter.EmitTcpRttSample | agent/internal/features/protocols/transport/tcp/rtt/rtt.bpf.h:45-73 | an admitted sample uses up the interval even when the ring is full |
| HubFanout.RunKeeps | backend/internal/realtime/hub.go:81-114 | the invariant of locks, channels and broadcasts holds in every interleaving |
| HubFanout.NoSendToClosed | backend/internal/realtime/hub.go:81-114 | no send reaches a closed channel; channels are first-in first-out, hold at most 32 and get each broadcast at most once |
| HubFanout.MissedOnlyWhenFull | backend/internal/realtime/hub.go:81-114 | a client registered when a broadcast began got it, or missed it with all 32 slots taken; nobody else got it |
| HubFanout.Clients.BroadcastPayload | backend/internal/realtime/hub.go:81-92 | the loop is the run of `Begin`, one `Offer` to each registered client and `End` |
| HubFanout.Clients.OfferOne | backend/internal/realtime/hub.go:85-90 | one turn of it is one `Offer` step |
| HubFanout.Clients.Register | backend/internal/realtime/hub.go:105-108 | connecting is a `Connect` step |
| HubFanout.Clients.Unregister | backend/internal/realtime/hub.go:109-114 | disconnecting is `Leave` and then `Close` |
| HubFanout.Clients.Receive | backend/internal/realtime/hub.go:126-128 | the oldest payload leaves the channel, a `Deliver` step |
| HubThrottle.OneTimerPerKind | backend/internal/realtime/hub.go:44-79 | in every run exactly the pending types have an armed timer, one each |
| HubThrottle.TimersAreArmed | backend/internal/realtime/hub.go:61-65 | in every run each timer was armed by the first submission of its type and is due exactly its interval later |
| HubThrottle.LatestWins | backend/internal/realtime/hub.go:44-79 | every submission is flushed, pending or replaced by a later one that is; with nothing pending the last flush carried the last submission |
| HubThrottle.FlushesAreSubmissions | backend/internal/realtime/hub.go:69-79 | each flush carries its own submission, in submission order, and is broadcast at most once |
| HubThrottle.BroadcastsAre | backend/internal/realtime/hub.go:44-79 | what is broadcast is, each once, the flushes that were completed and what was submitted without an interval |
| HubThrottle.FlushesAreSpaced | backend/internal/realtime/hub.go:44-79 | flushes of a type whose submissions use an interval of at least d are at least d apart |
| HubThrottle.FlushCanBeOvertaken | backend/internal/realtime/hub.go:69-79 | for every type there is a run that flushes two submissions of it in order and broadcasts them in the opposite order |
| HubDelivery.OrderedExactlyWhen | backend/internal/realtime/hub.go:44-79 | in every reachable state, every way of completing the broadcasts that wait leaves a type in submission order if and only if it is so far, all that waits is newer, and at most one flush of it waits |
| HubDelivery.NoRaceKeepsOrderly | backend/internal/realtime/hub.go:69-79 | that condition holds in every run in which no timer of the type fires while a flush of it waits |
| HubDelivery.DeliveredLatestWins | backend/internal/realtime/hub.go:44-79 | in such runs broadcasts are in submission order, and with nothing pending or waiting the last one carried the last submission |
| HubClients.RunCarries | backend/internal/realtime/hub.go:69-92 | in every joint run each broadcast carries its own flush, which waits until the broadcast ends and was sent after |
| HubClients.ClientsSeeSubmissionOrder | backend/internal/realtime/hub.go:44-114 | with broadcasts offered client by client and interleaved, every client's channel gets the flushes of a type in submission order in runs without a race on it |
| HubClients.ClientsHaveLatest | backend/internal/realtime/hub.go:44-114 | with nothing of the type pending or waiting, every client registered when the last submission was broadcast has it last of its type, or missed it with all 32 slots taken |
| HubThrottle.Throttle.BroadcastLatest | backend/internal/realtime/hub.go:44-67 | the method is the `Submit` step of the run the object is in |
| HubThrottle.Throttle.TakeLatest | backend/internal/realtime/hub.go:69-75 | the locked part is a `Fire` step, and in every reachable state finds a payload |
| HubThrottle.Throttle.Deliver | backend/internal/realtime/hub.go:76-78 | the unlocked part is an `Emit` step |
| HubThrottle.Throttle.FlushLatest | backend/internal/realtime/hub.go:69-79 | undisturbed, the callback is `Fire` and then `Emit` of what it took |

## Left out

- HTTP, JSON, server-sent-event framing and keep-alives, connection pooling; marshalling and network failures appear only in how a post ends.
- SQL text, the filters, order and limits of result lists: a query result is any list of rows, a lookup answers with any matching row.
- Row locks (`FOR UPDATE`): the step system relies on the advisory lock alone and so has more interleavings than the database; a transaction's writes become visible at its commit.
- The upserts of unknown and external hosts and the last-seen updates of agents and VMs inside ingest: tables nothing here reads.
- The order of the returned node and edge lists: the result is a map by id.
- Address parsing, CIDR filters and scope classification: parameters.
- Rounding of `float64`, and overflow of the 64-bit sample counts of the running means.
- Non-ASCII case folding in the validated protocol and direction names.
- eBPF loading and attachment, ring buffer internals, decoding of raw events, races of one probe with itself on other processors; the per-processor counters appear as their sum.
- Registration, heartbeats, agent status, service names, severity, rates, cloud context, connection states, probe collection: one branch settles each.
- Configuration, inventory files, scripts and the frontend.
- AgentLoop.SendFlow: the length of the waits between posts is not modelled, only whether a wait ended because the context was done.
- FlowService.FlowStore.DeleteExpired: which VMs are old enough is the query's answer, given as a list.
- Payload.PayloadAcceptedUnchanged: the equivalence is for totals below 2^64, where the agent's own counters have not wrapped.
