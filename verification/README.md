# TEEPIN agent and control plane: a verified model

A Dafny model of the parts of the TEEPIN platform where state changes in steps
while calls to the outside can fail at any point, and proofs of what those parts
keep. One module per file:

| file | models |
|---|---|
| `Statuses.dfy` | the dedup key and the control plane's status cache |
| `Wire.dfy` | a control stream on which any write may fail |
| `StatusSweep.dfy` | the agent's status sweep and the handlers that share its memory |
| `Protocol.dfy` | status reporting as a whole: concurrent sweeps, delete, stop and create handlers, failing writes, reconnects, the far end's cache and the callers that wait there |
| `Convergence.dfy` | what an undisturbed sweep repairs, when the cache comes to show the cluster, and when it does not |
| `Lifecycle.dfy` | hold, start, purge, suspend, delete and reconciliation of instances with disks, with every cluster and store call able to fail |
| `HiddenUsage.dfy`, `Sums.dfy` | what the platform's own pods occupy, per node |
| `ProxyBody.dfy` | tunnelled request bodies: routing by request id, bounded channels, the reader |
| `ProxyReply.dfy` | tunnelled responses, from the pod to the customer |
| `ExecOutput.dfy` | coalesced terminal output and the end of a session |
| `Creates.dfy` | redelivered create and replace commands against an instance's pods |
| `Text.dfy`, `Uint64.dfy`, `CpuUsage.dfy`, `ProcParse.dfy`, `HostRates.dfy` | host metrics: parsing, wrap-around counters, rates over runs of reports |
| `Versions.dfy` | version order and self-update |
| `DeployLock.dfy` | the reclaimable deploy lock, in time |
| `ChatParse.dfy`, `Preflight.dfy` | order-independent request parsing, pre-flight price against settlement |
| `Options.dfy` | a value that may be missing |

How the outside is modelled: a call that can fail is a parameter (a datatype of
outcomes, a boolean, or a function from the write's number to its outcome), so
every theorem ranges over all fault patterns. A failed call may still have taken
effect where the code cannot tell. Concurrency is a state machine whose steps are
the code's atomic sections (a statement under a mutex, one write, one database
statement); theorems range over all step sequences. Go maps iterate in an
unspecified order; loops over them take the order as a parameter or pick
elements arbitrarily. Floats are reals; 64-bit counters wrap around explicitly.

`dafny verify dfyconfig.toml` checks everything.

## What turned out not to hold

Each of these is a lemma with the exact condition or a concrete run:

- The control plane is documented as treating every reconnect as a fresh source
  of truth (`pkg/agentpb/agent_grpc.pb.go:52-54`), but the status cache belongs to
  the client, not the session (`pkg/cluster/agent.go:31-53`), and outlives a
  reconnect. What vanished while the agent was away stays alive in a kept cache
  (`Convergence.ReconnectRepairs`); the code covers only the case of an agent
  restart, with a separate report that is not part of this model.
- A create result does change the cache: its caller seeds it with "pending", over
  whatever a sweep has already reported (`Convergence.CreateReplyOverwrites`).
- A stop whose reply races an older listing, followed by a create of the same
  instance that is running by the time it is next listed, leaves it shown as
  pending - or, if the creating caller has given up waiting, not at all - with no
  further sweep having anything to say (`Convergence.RecreatedTooSoon`).
- "Terminated" is final in the cache, so agreement with the cluster is agreement
  up to that rule (`Statuses.SettledMeans`, `Convergence.AgreementShowsCluster`).
- A scoped stop or delete of an instance without a cached status succeeds without
  touching it, and the record is marked all the same
  (`Lifecycle.HoldKeepsClean`, `Lifecycle.RemoveKeepsClean`). Since a hold removes
  the cached status, a suspension leaves the disk of every held instance behind,
  under a terminated record (`Lifecycle.SuspendLeavesHeldDisk`,
  `Lifecycle.HoldThenSuspendLeavesDisk`).
- A pod that ends by itself, or a hold that cannot mark its record, ends with the
  reconciler marking the record terminated while the disk is still there
  (`Lifecycle.EndedPodLeavesDisk`, `Lifecycle.UnmarkedHoldLeavesDisk`).
- A hold reports an instance whose record says failed as held, although the store
  leaves that record alone and it cannot be started
  (`Lifecycle.HeldCanBeStarted`).
- A cut response is documented as ending without a terminating chunk
  (`pkg/cluster/proxy.go:118-121`), but every way out of the relay is the same
  plain return (`pkg/cluster/proxy.go:226-304`). Whatever is dropped, cut off or
  over the limit, and even if the instance itself breaks off, a customer can tell
  exactly if a length was declared that is not the number of bytes that arrived
  (`ProxyReply.LossShowsIff`, `ProxyReply.DeclaredLossShows`,
  `ProxyReply.DroppedPieceLooksComplete`).
- The create check takes a pod in an image or restart back-off for dead and puts a
  second one beside it, takes a pod that is being deleted for live, and can miss
  a pod created in the same second as one that has finished
  (`Creates.StuckPodIsDoubled`, `Creates.LeavingPodPassesForLive`,
  `Creates.SameSecondIsDoubled`).
- iowait may go back, and then more than a hundred percent is reported
  (`CpuUsage.IowaitGoingBack`).
- A deploy reads its session before it takes the lock, so two deploys in turn can
  create two instances (`DeployLock.ReadBeforeLockCreatesTwo`).
- With max_completion_tokens zero and max_tokens not, the parsed limit depends on
  map order (`ChatParse.DeterministicIff`).

## Model

| member | source | states |
|---|---|---|
| Statuses.JoinedIsFaithful | pkg/agentrunner/runner.go:1352-1353 | comparing the "\|"-joined strings is comparing the six fields, in both directions, when no text field holds the separator |
| Statuses.JoinedCollides | pkg/agentrunner/runner.go:1352-1353 | that proviso is needed of the key as such: two different statuses share one when a text field holds the separator (texts the endpoints in use do not have) |
| Statuses.SettledMeans | pkg/cluster/agent.go:101-159 | when recording a report again changes nothing: exactly when the cache shows its status (or terminated, finally) and its endpoint, or the report carries none |
| Statuses.EndpointIsKept | pkg/cluster/agent.go:117-138 | a report without endpoint fields never takes a known endpoint away |
| Statuses.RecordCommutes | pkg/cluster/agent.go:101-159 | reports about different instances can be recorded in either order |
| Statuses.TerminatedIsFinal | pkg/cluster/agent.go:109-115 | no stream of reports revives a terminated entry |
| Statuses.LastWordStands | pkg/cluster/agent.go:101-159 | after any stream of reports an instance shows the status of the last report that did not come after its termination, and the endpoint of the last such report that carried one, or what the cache held before if there was none |
| Wire.Stream.Send | pkg/agentrunner/runner.go:1410-1433 | a write is attempted in order, and delivered or counted as lost, never both |
| StatusSweep.Runner.Send | pkg/agentrunner/runner.go:1410-1433 | a lost write always leaves a failure in the one-slot channel, and a failure already there stays |
| StatusSweep.Runner.Reset | pkg/agentrunner/runner.go:217-219 | with nothing remembered, every possible cache is in step with the agent, which is what lets deduplication start afresh on a connection |
| StatusSweep.Runner.ReportChanged | pkg/agentrunner/runner.go:1336-1378 | whatever writes fail, exactly the changed statuses are attempted, in listing order, everything listed is remembered, and any loss leaves a failure |
| StatusSweep.Runner.ReportGone | pkg/agentrunner/runner.go:1384-1401 | exactly one goodbye per remembered instance that was not seen, in any order, and each is forgotten |
| StatusSweep.Runner.ReportStatuses | pkg/agentrunner/runner.go:1327-1401 | a sweep attempts the changes and then the goodbyes and afterwards remembers exactly the listing; a failed listing changes nothing |
| StatusSweep.Runner.StatusLoop | pkg/agentrunner/runner.go:1186-1198 | over any sequence of sweeps, some with failed listings, what is attempted is the deduplicated report stream of those that worked |
| StatusSweep.Runner.Run | pkg/agentrunner/runner.go:205-219 | a connection from its start: whatever was remembered and whatever cache the control plane holds, what is attempted has the effect of sending every status of every sweep |
| StatusSweep.Runner.FinishRemoval | pkg/agentrunner/runner.go:511-547 | a successful delete or stop forgets the instance before it replies; a failed one forgets nothing |
| StatusSweep.ChangesSuffice | pkg/agentrunner/runner.go:1336-1378 | on a cache that agrees with what is remembered, sending only changes has the effect of sending every listed status |
| StatusSweep.GoodbyeOrder | pkg/agentrunner/runner.go:1384-1401 | the effect of the goodbyes does not depend on map iteration order |
| StatusSweep.OneSweep | pkg/agentrunner/runner.go:1327-1401 | one deduplicated sweep equals one full sweep and leaves cache and memory in agreement |
| StatusSweep.DeduplicationRefinesResending | pkg/agentrunner/runner.go:1327-1401 | over any sequence of listings and any goodbye orders, the deduplicated stream leaves the same cache as sending every status of every sweep - from any cache at all when nothing is remembered |
| StatusSweep.FirstSweepRebuilds | pkg/agentrunner/runner.go:205-219 | the first sweep after a reset rebuilds the whole listing in an empty cache |
| Protocol.StepKeepsInvariant | pkg/agentrunner/runner.go:1327-1401 | every step of sweeps split into list and apply, of handlers, writes, readings, waiting callers and reconnects keeps: cache and lastReported agree on each remembered id that no result may have raced since its last status; a forgotten id is gone from the cache, or a message or caller is on its way to see to it, unless the cache may hold it unknown to the agent; lost writes leave a pending failure or a Run that returned |
| Protocol.RunsKeepInvariant | pkg/agentrunner/runner.go:202-307 | so for every run of any length from a fresh agent |
| Protocol.SoundMeansAgreed | pkg/cluster/agent.go:353-415 | with no result about an id under way, that invariant is agreement |
| Protocol.FailureWaitsIff | pkg/agentrunner/runner.go:1410-1433 | a failure waits for Run exactly if one waited and was not consumed, or a write failed, of whatever kind |
| Protocol.NothingLostSilently | pkg/agentrunner/runner.go:1491-1497 | in every reachable state: a lost write has left a failure pending or Run has returned; and on a connection without one, cache and lastReported agree on every id with no result under way, except remembered ids that a result may have raced and forgotten ids the cache may hold from a reconnect, a create result or a removal nobody waited for |
| Convergence.QuietSweepRepairs | pkg/agentrunner/runner.go:1327-1401 | one undisturbed sweep makes lastReported the cluster and brings exactly those ids into agreement that agreed before or whose remembered key was not the listed one |
| Convergence.SweepCanFinish | pkg/agentrunner/runner.go:1336-1401 | a sweep that has begun can always be carried through |
| Convergence.AgreementShowsCluster | pkg/cluster/agent.go:101-159 | what a reader of the cache sees once it agrees with the cluster: absent means absent or terminated, present means the same status unless terminated was recorded, and the same endpoint if one is known |
| Convergence.QuietSystemConverges | pkg/agentrunner/runner.go:1327-1401 | after any run at all, once no failure is pending and every result has been acted on, a quiet sweep makes lastReported the cluster and the cache agree and show the cluster on every id, except those listed just as last reported after a race, or held by the cache and neither remembered nor there |
| Convergence.OrdinaryRunsConverge | pkg/agentrunner/runner.go:1327-1401 | over runs of sweeps, removals, lost writes and fresh reconnects everything converges, provided no removed id is back just as it was last reported before a sweep listed its absence |
| Convergence.ReconnectRepairs | pkg/agentrunner/runner.go:205-219 | which ids a reconnect and a quiet sweep repair: all, if the control plane started afresh; otherwise exactly those still listed or not shown alive |
| Convergence.CreateReplyOverwrites | pkg/cluster/agent.go:320-341 | a create result acted on after the instance was reported puts it back to pending, and a quiet sweep does not repair it |
| Convergence.RecreatedTooSoon | pkg/agentrunner/runner.go:451-501 | a reachable quiet state, the create's own result included, in which a running instance is shown as pending - or is missing, if its caller had given up - and no quiet sweep repairs it |
| Convergence.SweepWrites | pkg/agentrunner/runner.go:1327-1401 | the machine's undisturbed sweep writes exactly what the agent's sweep sends: the changed statuses in listing order, then one goodbye each |
| Lifecycle.OpensWhatWasSealed | pkg/compute/specvault.go:48-79 | a sealed spec opens to a spec exactly if it is what sealing that spec gave, untouched, and is opened for the instance it was sealed for |
| Lifecycle.HoldKeepsClean | cmd/api-server/adapters.go:636-678 | a hold keeps "terminated means nothing left, stopped means no pod" exactly unless a running pod without cached status was skipped and marked |
| Lifecycle.RemoveKeepsClean | cmd/api-server/adapters.go:602-629 | a removal keeps it exactly unless a scoped delete skipped something that exists |
| Lifecycle.ReconcileKeepsClean | pkg/compute/reconciler.go:80-226 | a reconciliation keeps it exactly unless a record neither stopped nor terminated is missing from the listing, or listed as terminated, while a pod or a disk remains |
| Lifecycle.HoldIsSafe | cmd/api-server/adapters.go:636-678 | a hold never changes a disk or a saved spec, changes anything at all only if the cluster can stop instances and the spec is saved, and is reported exactly if the spec loads, the stop works or finds nothing, and the record is written |
| Lifecycle.RemovalMeans | cmd/api-server/adapters.go:602-629 | a removal counts as done exactly if the deletion went through, or was scoped and found nothing, and the record was marked; nothing is then left of an instance that was found |
| Lifecycle.StartKeepsClean | pkg/api/instance_hold.go:202-235 | a start keeps it exactly unless a failed create left a pod, or the record was not changed and the compensating stop failed |
| Lifecycle.CreateOnlyAfterGates | pkg/api/instance_hold.go:118-203 | CreateInstance is reached if and only if the record is stopped, the vault, the payment gate and the runway credit check say yes and the spec opens and places; otherwise nothing changes |
| Lifecycle.StartPlacesAfresh | pkg/api/instance_hold.go:183-200 | a start launches the saved spec, its GPU placement taken field by field from the new allocation if there is one |
| Lifecycle.AnswersTell | pkg/api/instance_hold.go:118-235 | each answer of a start is given exactly in the case it describes, in the order of the checks, with the credit asked for a quarter of an hour of GPU time or the floor |
| Lifecycle.HeldCanBeStarted | cmd/api-server/adapters.go:636-678 | whatever the gates and faults, a start of an id reported as held goes through exactly if its gates and calls do and its record did not say failed |
| Lifecycle.EachActsAlone | cmd/api-server/adapters.go:602-678 | in a bulk operation the fate of an instance depends on its own calls alone, and instances outside the wanted and active set are untouched |
| Lifecycle.EachAccounts | cmd/api-server/adapters.go:602-678 | every wanted active instance yields exactly one success or exactly one error, by its own calls, and nothing else is mentioned |
| Lifecycle.EndedMeans | cmd/api-server/adapters.go:602-629 | of a bulk removal exactly the wanted active instances whose own deletion and marking worked are reported as ended, and those are terminated with nothing left of what could be found |
| Lifecycle.Platform.HoldInstances | cmd/api-server/adapters.go:636-678 | the loop leaves, holds and reports what the per-instance specification says, and nothing if the listing fails |
| Lifecycle.Platform.StopInstances | cmd/api-server/adapters.go:602-629 | likewise for ending instances, scoped to their project |
| Lifecycle.Platform.SuspendAccountResources | cmd/api-server/adapters.go:564-587 | likewise for a whole account, answering with the number ended |
| Lifecycle.Platform.PurgeAccount | cmd/api-server/adapters.go:701-720 | likewise for all held instances, unscoped, reporting each failure |
| Lifecycle.Platform.DeleteStoppedInstance | pkg/api/instance_hold.go:95-113 | only a stopped record of the caller's project is deleted; a record that could not be finalised does not undo the answer |
| Lifecycle.Platform.StartInstance | pkg/api/instance_hold.go:118-235 | the ordered checks, create, record update and compensation leave and answer what the specification says |
| Lifecycle.Platform.Reconcile | pkg/compute/reconciler.go:80-226 | one pass leaves every record as its per-record rule says, revivals included, and changes nothing if the cluster cannot be listed |
| Lifecycle.PerformActsAlone | cmd/api-server/adapters.go:564-720 | every operation, bulk or single, acts on each instance by itself |
| Lifecycle.ReconcileShowsListing | pkg/compute/reconciler.go:80-226 | a record in use takes exactly the status the cluster lists and is terminated if unlisted or listed so; one terminated not long ago takes pending or running; stopped records, ineffective writes and every other field stay as they were |
| Lifecycle.ReachesOnly | cmd/api-server/adapters.go:564-720 | a hold, credit stop, suspension or purge changes only instances of its account that are active and asked for, a purge only stopped ones; a purge or suspension that goes through leaves nothing of what it reached |
| Lifecycle.RedeploySavesSpec | pkg/api/instance_hold.go:39-51 | a redeploy of an instance with a disk saves a spec that opens again, if there is a vault and it can be sealed and stored; otherwise the earlier one stays |
| Lifecycle.OpKeepsPromise | cmd/api-server/adapters.go:564-720 | every operation, reconciliation included, keeps each half of the records' promise for an instance, whatever became of the other half, exactly unless it is one of the cases that harm that half, each visible beforehand in the record, the cache, the listing or the faults |
| Lifecycle.RunsKeepRecordsHonest | cmd/api-server/adapters.go:564-720 | in every run under every fault pattern, reconciliations included: stopped means no pod for every instance that no hold or start harmed, and, independently, terminated means no pod and no disk for every instance that no credit stop, suspension or reconciliation harmed |
| Lifecycle.OnlyHoldsStop | pkg/compute/hold.go:54-66 | a record becomes stopped only through a hold on a cluster that can keep disks, with the spec saved |
| Lifecycle.RunsStopOnlyStartable | pkg/compute/hold.go:54-66 | in every run, without exception, a stopped record means a cluster that can stop instances and a saved spec |
| Lifecycle.HoldThenStart | pkg/api/instance_hold.go:135-203 | an id reported as held keeps its disk and spec through any undisturbing run; the start that follows goes through exactly if its gates and calls do, and relaunches it on that disk with the saved spec but for GPU placement |
| Lifecycle.SuspendLeavesHeldDisk | cmd/api-server/adapters.go:564-587 | a suspension marks every held instance of the account without a cached status terminated with its disk still there, where no purge looks |
| Lifecycle.HoldThenSuspendLeavesDisk | cmd/api-server/adapters.go:564-587 | so a hold of a running instance, followed by a suspension of its account, ends with a terminated record and the disk still there |
| Lifecycle.EndedPodLeavesDisk | pkg/compute/reconciler.go:131-142 | every instance with a disk whose pod ends by itself is reconciled to a terminated record with the disk still there |
| Lifecycle.UnmarkedHoldLeavesDisk | cmd/api-server/adapters.go:636-678 | so is every instance whose hold stopped the pod and could not mark the record |
| HiddenUsage.HiddenUsageByNode | cmd/api-server/adapters.go:297-337 | an entry for exactly the nodes that hold an eligible hidden pod, holding the sum over those pods |
| HiddenUsage.UsageByKind | cmd/api-server/adapters.go:297-337 | a node has an entry exactly if it has such pods, and its figures are its numbers of builds, screenshots and agents, each times that kind's footprint |
| HiddenUsage.OrderDoesNotMatter | cmd/api-server/adapters.go:297-337 | the result does not depend on the order of the listing |
| HiddenUsage.NodesAddUp | cmd/api-server/adapters.go:297-337 | the per-node figures add up to the sum over all eligible statuses |
| ProxyBody.ProxyBodyReader.Read | pkg/agentrunner/runner.go:785-816 | one read of any size against any channel contents and any cancellation has the specified result, new reader state and remaining channel |
| ProxyBody.RunsKeepInvariant | pkg/agentrunner/runner.go:317-331 | every interleaving of dispatches, chunks, reads and returns keeps the byte accounting of every flow and the set of channels |
| ProxyBody.BodiesArriveInOrder | pkg/agentrunner/runner.go:632-647 | for every interleaving: what a handler read is a prefix of its own chunks' concatenation, a subsequence of those sent, in receive order and within the limit; a clean end only after an eof chunk, with everything up to it; the channels are exactly those of unfinished requests with a body |
| ProxyBody.WholeBodyArrives | pkg/agentrunner/runner.go:632-647 | if no delivery timed out, a clean end means the whole body that was sent |
| ProxyBody.ChunkGoesTo | pkg/agentrunner/runner.go:632-647 | in every reachable state a chunk goes to the request it names and to no other, behind what waits there, exactly if that request has a body, is still being handled and its channel holds fewer than 256 |
| ProxyBody.OrdinaryBody | pkg/agentrunner/runner.go:785-816 | a run in which a request's one chunk is read whole and then ends cleanly |
| ProxyReply.HandleProxyRequest | pkg/agentrunner/runner.go:660-766 | for every upstream behaviour and every failing write, what is sent is the request's reply, or the part of it up to the first failed write |
| ProxyReply.RepliesAreWellFormed | pkg/agentrunner/runner.go:660-766 | every reply is one error, or a header, non-empty data and exactly one terminal that is an end or a reset but not both; its data is the body that was read, and it ends cleanly iff the body did |
| ProxyReply.RelayResponse | pkg/cluster/proxy.go:219-306 | the relay loop writes what is specified, for every message sequence and every way the wait can end |
| ProxyReply.CustomerHas | pkg/cluster/proxy.go:219-306 | once the header arrives the customer has the pod's status and declared length and exactly the body bytes that arrived, or a beginning of them within the limit; whether the end arrived makes no difference |
| ProxyReply.WholeIffNothingDropped | pkg/cluster/registry.go:269-283 | the customer has the whole body exactly when every piece was sent and arrived and it is within the limit; and having as many bytes is having the body |
| ProxyReply.LossShowsIff | pkg/cluster/proxy.go:226-304 | for every answer, whole or breaking off part-way, with a right or a wrong declared length, and for whatever is dropped, cut off or over the limit: what the customer has equals the loss-free reply of some whole answer exactly if no length was declared or just as many bytes arrived |
| ProxyReply.DeclaredLossShows | pkg/cluster/proxy.go:226-304 | so of a whole answer with a declared length any loss shows, and so does an answer that breaks off before the length it declared |
| ProxyReply.AnswerArrives | pkg/cluster/proxy.go:219-306 | if everything arrives the customer has the pod's status, declared length and body, whole within the limit and a beginning of it beyond |
| ProxyReply.LostWriteTruncates | pkg/agentrunner/runner.go:729-765 | if the agent's writes fail part-way the customer has the status and a beginning of the body |
| ProxyReply.FailureArrives | pkg/cluster/proxy.go:256-263 | an unreachable instance, a request that cannot be built and a refused connection each become a 502 that says which, with the agent's reason |
| ProxyReply.SilenceIsExplained | pkg/cluster/proxy.go:226-250 | with nothing to show before the wait ends: 504 at the deadline, 502 after idling, 502 when the node is gone, each with its text |
| ProxyReply.EndAndReset | pkg/cluster/proxy.go:274-303 | a reset cuts the reply off at once, with what it carries; an end lets what it carries through; nothing behind either is looked at |
| ProxyReply.DroppedPieceLooksComplete | pkg/cluster/registry.go:269-283 | of any answer in two pieces without a declared length, the second alone looks like a whole answer |
| ExecOutput.ExecOutputSender.Write | pkg/agentrunner/runner.go:1040-1055 | a write above the burst, or in a session that ended, is refused and changes nothing; any other is buffered, with a flush scheduled, and sent once the buffer is full |
| ExecOutput.WriteKeeps | pkg/agentrunner/runner.go:1040-1081 | an admitted write extends messages-then-buffer by exactly its bytes and keeps the buffer below 32 KiB |
| ExecOutput.OutputIsConserved | pkg/agentrunner/runner.go:1006-1081 | in every interleaving of writes, timers and handler steps: messages followed by the buffer are the admitted writes in order; a non-empty buffer has a flush scheduled; buffer below 32 KiB, messages non-empty and below 96 KiB |
| ExecOutput.OutputPrecedesEndIff | pkg/agentrunner/runner.go:966-991 | there is one ExecEnd, with the session's outcome; what precedes it, followed by what the order of writes and flushes makes late, is all admitted output, so all of it precedes exactly when that order makes nothing late |
| ExecOutput.EndComesLast | pkg/agentrunner/runner.go:966-991 | if nothing is written after the handler's own flush, let alone after ExecAttach returned, ExecEnd is the last message, after every accepted byte |
| ExecOutput.OrdinarySession | pkg/agentrunner/runner.go:966-991 | a run that sends the opening, the output and the end |
| Creates.NewestPod | pkg/cluster/direct.go:850-858 | the pod created last, and among equals the one listed first |
| Creates.Cluster.HandleCreate | pkg/agentrunner/runner.go:451-497 | the pods and the answer after a create or replace command, for every fault pattern |
| Creates.Cluster.UpdateInstance | pkg/cluster/direct.go:363-382 | deleting stops at the first failure, and a new pod appears only after all old ones are being deleted |
| Creates.CreateKeepsOneIff | pkg/agentrunner/runner.go:451-465 | a create that acts keeps at most one pod live exactly when, should one be live, the status read works and that pod is neither in a back-off nor long lost with its node |
| Creates.LiveIsSeenIff | pkg/agentrunner/runner.go:437-465 | since the status is that of the newest pod, the idempotency check finds the live one exactly then, however many finished ones there are |
| Creates.RunsKeepOne | pkg/agentrunner/runner.go:451-478 | over every run of commands, redeliveries, replaces, removals, finished pods and failing calls, at most one pod is live, and it is the newest, provided the status reads work, no pod is in a back-off or long lost when a create comes, and none is made in the second of another - nothing is assumed about how many are live |
| Creates.RedeliveryIsQuiet | pkg/agentrunner/runner.go:451-465 | once a create has made a pod, even one it reported as failed, a redelivery at any time changes nothing in the cluster and reports success |
| Creates.SuccessMeansLive | pkg/agentrunner/runner.go:451-478 | a reported success means a live pod exactly unless the pod taken for live is being deleted |
| Creates.NothingActedNothingChanged | pkg/agentrunner/runner.go:451-497 | calls that fail without effect leave the pods as they were, and success is reported only for a pod that was noticed |
| Creates.CompletedIsRecreated | pkg/agentrunner/runner.go:437-449 | when every pod has finished, a create does make a new one, the only live one |
| Creates.ReplaceReplaces | pkg/agentrunner/runner.go:469-474 | a replace is never taken for a redelivery: it fails if there is nothing to replace and otherwise leaves the new pod as the only live one |
| Creates.StuckPodIsDoubled | pkg/cluster/direct.go:1573-1590 | a pod in restart back-off gets a second one beside it |
| Creates.LeavingPodPassesForLive | pkg/cluster/direct.go:544-562 | a create right after a delete reports success although no live pod remains |
| Creates.SameSecondIsDoubled | pkg/cluster/direct.go:850-858 | a pod created in the same second as a finished one can be missed, and a redelivery makes a second |
| Text.SplitJoined | pkg/agentrunner/hostmetrics.go:198 | splitting a joined file gives back its lines |
| Text.FieldsOfSpaced | pkg/agentrunner/hostmetrics.go:208 | words are found whatever blanks stand between them |
| CpuUsage.ParseCPUStatLine | pkg/agentrunner/hostmetrics.go:47-69 | the sums of the first aggregate line's columns, modulo 2^64, and success iff there is such a line and all its columns are numbers |
| CpuUsage.CpuFileReads | pkg/agentrunner/hostmetrics.go:47-69 | a file whose first aggregate line was written with certain numbers gives just these, all making up total time, the fourth and fifth idle time |
| CpuUsage.PercentIff | pkg/agentrunner/hostmetrics.go:87-94 | the reading is never negative, and at most 100 exactly when the wrapped idle advance is at most the wrapped total advance |
| CpuUsage.UtilisationIsAPercentage | pkg/agentrunner/hostmetrics.go:47-94 | with no column going back and less than 2^64 jiffies between, the reading is the true busy share, between 0 and 100, even across wrap-around |
| CpuUsage.IowaitGoingBack | pkg/agentrunner/hostmetrics.go:87-94 | two concrete samples that read as 150 percent |
| ProcParse.ParseNetDev | pkg/agentrunner/hostmetrics.go:195-221 | the sums over the qualifying lines, modulo 2^64, and success iff at least one line qualifies |
| ProcParse.NetRowReads | pkg/agentrunner/hostmetrics.go:198-219 | any written interface line reads as its first and ninth number, if it is not virtual, has sixteen and both fit in 64 bits, and otherwise does not count |
| ProcParse.NetFileReads | pkg/agentrunner/hostmetrics.go:195-221 | a file of such lines among headers gives the sums of those two columns over the lines that count |
| ProcParse.ParseDiskStats | pkg/agentrunner/hostmetrics.go:285-307 | likewise for whole disks |
| ProcParse.DiskRowReads | pkg/agentrunner/hostmetrics.go:288-304 | any written device line reads as the third and the seventh number after its name, if it is a whole disk and both fit |
| ProcParse.DiskFileReads | pkg/agentrunner/hostmetrics.go:285-307 | a file of such lines gives the sums of those two columns over the whole disks |
| ProcParse.SameQualifyingLines | pkg/agentrunner/hostmetrics.go:195-307 | two files with the same qualifying lines, in any order and among any others, are read the same |
| ProcParse.PartitionsAreNotDisks | pkg/agentrunner/hostmetrics.go:255-264 | no partition of a whole disk is itself a whole disk, for every naming scheme of the pattern |
| ProcParse.WholeDisksAre | pkg/agentrunner/hostmetrics.go:255-264 | a name is a whole disk exactly if it is sd, hd, vd or xvd with letters, or nvme with a controller and a namespace number |
| ProcParse.VirtualAre | pkg/agentrunner/hostmetrics.go:150-175 | an interface is virtual exactly if its name begins with one of thirteen prefixes |
| HostRates.HostUtilization.Report | pkg/agentrunner/runner.go:1266-1314 | each metric's rate against its own last good reading, which a failed read leaves alone |
| HostRates.HostUtilization.Run | pkg/agentrunner/runner.go:1123-1135 | a whole run of periodic reports says what the specification says from the state it starts in |
| HostRates.CpuFigureIs | pkg/agentrunner/runner.go:1275-1284 | at every report of any run, the CPU figure is the utilisation between the last good sample before it and this one, zero if either is missing or no time passed |
| HostRates.CpuRemembered | pkg/agentrunner/runner.go:1275-1284 | after any run the sample remembered is the last good one read, or the one from before |
| HostRates.RateIs | pkg/agentrunner/runner.go:1289-1314 | at every report of any run, a metric's two rates are the advances since its last good reading over the time since, in MiB per second; zero if a reading is missing, no time passed or a counter went back |
| HostRates.BaselinesRemembered | pkg/agentrunner/runner.go:1289-1314 | after any run the network and disk readings remembered are the last good ones |
| HostRates.MetricsAreIndependent | pkg/agentrunner/runner.go:1289-1314 | two hosts with the same network baseline and the same network reads report the same rates for ever, whatever their CPU and disk readings do and whichever fail; and likewise for disks |
| HostRates.ReportsByMetric | pkg/agentrunner/runner.go:1289-1314 | a run's network and disk figures are each that metric's own sequence |
| HostRates.VolumeIsAccepted | pkg/agentrunner/hostmetrics.go:231-240 | over any run, rate times elapsed adds up to the advances of the reported intervals |
| HostRates.VolumeIsConserved | pkg/agentrunner/hostmetrics.go:320-329 | which is last good counter minus first exactly when the skipped intervals cancel out, as when none was skipped |
| HostRates.WholeLifeIsConserved | pkg/agentrunner/hostmetrics.go:231-240 | so over an agent's whole life, failed readings before the first good one included |
| HostRates.RatesAreNotNegative | pkg/agentrunner/hostmetrics.go:231-240 | no reading is negative, whatever the counters do |
| Versions.ParseVersionParts | cmd/teepin-agent/selfupdate.go:374-390 | the components of a tag, or failure if any of them is not a 64-bit number |
| Versions.AtoiOfDigits | cmd/teepin-agent/selfupdate.go:383-386 | a component of digits, with or without a plus sign, is its value, and must fit in 64 bits |
| Versions.AtoiOfNegative | cmd/teepin-agent/selfupdate.go:383-386 | and with a minus sign its negative |
| Versions.TagsRoundTrip | cmd/teepin-agent/selfupdate.go:371-390 | a version written as a release tag, a bare tag or plain reads back as itself |
| Versions.IsNewerVersion | cmd/teepin-agent/selfupdate.go:350-369 | the loop decides the lexicographic order on zero-padded components, and says no if either tag is unreadable |
| Versions.AboveIsTransitive | cmd/teepin-agent/selfupdate.go:350-369 | the order is transitive |
| Versions.AboveIsTotal | cmd/teepin-agent/selfupdate.go:350-369 | of two versions exactly one is above the other or they are equal but for trailing zeros |
| Versions.MoreParts | cmd/teepin-agent/selfupdate.go:350-369 | trailing zeros do not count; any other trailing number does |
| Versions.Agent.CheckAndSelfUpdate | cmd/teepin-agent/selfupdate.go:112-175 | a check leaves the version its specification says, step by step: newer, both assets there, digests equal, unpacked and put in place |
| Versions.ChangesIff | cmd/teepin-agent/selfupdate.go:112-175 | over any sequence of checks the version changes at a check exactly if its release is newer and every step works, equal digests among them, and then to that release |
| Versions.KeepsUp | cmd/teepin-agent/selfupdate.go:112-175 | over any sequence of checks an agent that can read its own version ends at or above every readable release whose check worked |
| Versions.NeverGoesBack | cmd/teepin-agent/selfupdate.go:112-183 | over any sequence of releases and failures, every later version is the same or newer |
| Versions.NeverReturns | cmd/teepin-agent/selfupdate.go:112-183 | a version that was left is never installed again, nor an equivalent or older one |
| Versions.UnreadableNeverUpdates | cmd/teepin-agent/selfupdate.go:350-356 | an unreadable own version, or only unreadable releases, and nothing is ever installed |
| DeployLock.Session.AcquireDeployLock | pkg/teepinbuild/session.go:392-407 | taken exactly if free or stale, and then stamped with the present time |
| DeployLock.Session.DeployBuildSession | pkg/api/build_handlers.go:648-902 | on every path of a single flow: what becomes of the lock, when an instance is created, recorded or only swapped, and each answer exactly in the case it describes |
| DeployLock.ExclusiveIff | pkg/api/build_handlers.go:639-646 | for all interleavings of flows that end in time: mutual exclusion, and no flow releasing another's lock, if and only if the flow timeout is at most the stale age |
| DeployLock.DeploysExclude | pkg/api/build_handlers.go:639-646 | the constants in use satisfy it |
| DeployLock.OneInstanceIff | pkg/api/build_handlers.go:703-745 | with every created id recorded, at most one app instance exactly when, in the schedule, no flow creates one that had one created between its reading of the session and its asking for the lock |
| DeployLock.ReadAfterReleaseSuffices | pkg/api/build_handlers.go:703-745 | in particular if no flow sits on a reading while another creates, as when each reads after the previous one's work |
| DeployLock.OneAfterAnother | pkg/api/build_handlers.go:703-745 | flows that come one after another are such a schedule |
| DeployLock.ReadBeforeLockCreatesTwo | pkg/api/build_handlers.go:703-745 | a run of two orderly flows that creates two |
| ChatParse.ParseChatRequest | pkg/api/inference_handlers.go:248-295 | accepted exactly if every key is well typed and model and messages are given, in any order of the keys; a refusal names a reason that is there |
| ChatParse.AcceptedIff | pkg/api/inference_handlers.go:248-295 | a body is accepted exactly if it names a model, has messages, and its limits are counts and its stream flag a boolean where given; each refusal exactly in its case |
| ChatParse.AcceptedIs | pkg/api/inference_handlers.go:248-295 | an accepted request holds the model, messages, stream flag and unambiguous limit that were sent |
| ChatParse.TokenLimit | pkg/api/inference_handlers.go:265-273 | max_completion_tokens wins unless it is zero and max_tokens is not |
| ChatParse.ExtraField | pkg/api/inference_handlers.go:278-285 | what is passed on is exactly the allowed fields, as they came |
| ChatParse.OrderDoesNotMatter | pkg/api/inference_handlers.go:248-295 | acceptance is the same for every order, and so is the request outside the ambiguous case |
| ChatParse.DeterministicIff | pkg/api/inference_handlers.go:265-273 | the request is the same for all orders if and only if it is not the ambiguous case |
| Preflight.EstimateTokens | pkg/inference/inference.go:222-234 | a quarter of the bytes of messages and tools plus four per message |
| Preflight.EstimateIs | pkg/inference/inference.go:222-234 | less than four bytes are rounded away from a quarter of the bytes, and four are added for each message |
| Preflight.PreflightIs | pkg/api/inference_handlers.go:126-136 | the price asked for: estimated input and priced output at their prices per million |
| Preflight.Account.Settle | pkg/api/inference_handlers.go:446-502 | what is recorded and drawn for each line, for every pattern of failing writes |
| Preflight.SettlementIs | pkg/api/inference_handlers.go:446-502 | input and output are each recorded and drawn at tokens times price per million, exactly if there are any and their writes work |
| Preflight.SettledWithinPreflight | pkg/api/inference_handlers.go:126-136 | whatever writes fail, the credit drawn never exceeds the pre-flight price if input was not under-estimated and output stayed within what was priced |
| Preflight.PreflightBoundsIff | pkg/api/inference_handlers.go:126-136 | and that condition is necessary: it is exactly when the bound holds at all non-negative prices |

## Left out

- Convergence.QuietSystemConverges: requires that nothing else happens during the final sweep; sweeps that overlap with further changes are covered by the invariant, not by convergence.
- Protocol.NothingLostSilently: a write that times out counts as lost; that it may still reach the peer later (the goroutine it leaves behind) is not modelled.
- Protocol.StepKeepsInvariant: error results that also forget an instance (NOT_FOUND) and routing between providers are not modelled; reports of an old stream are read before the next one begins.
- Convergence.ReconnectRepairs: the once-per-process report of instances gone before a restart (`pkg/agentrunner/runner.go:1562-1589`) is not part of this model.
- Lifecycle.RunsKeepRecordsHonest: each operation is atomic; two operations on one instance at the same time are not interleaved. A reconciliation that listed a record before a hold marked it stopped is such a case. The endpoint fields a reconciliation updates and the build-agent exception for volumes are not modelled, and the vault is the one of `pkg/compute/specvault.go` with its cipher assumed to be sound.
- ProxyBody.ProxyBodyReader.Read: a call that would wait for a chunk that has not come yet is not made; a closed channel does not occur, since nothing closes it.
- ProxyReply.HandleProxyRequest: the request's own construction and the byte size of single reads are not modelled; other requests' messages on the same stream are not shown.
- ProxyReply.RelayResponse: how net/http ends a response after the handler returns is outside; the model says what was written, and the declared length it can be held against. Headers other than the length are not modelled.
- ProxyReply.LossShowsIff: a body longer than its declared length, which net/http does not let through, is relayed here in full; the answer to a HEAD request, which declares the length of a body it does not carry, counts as not whole.
- ExecOutput.ExecOutputSender.Write: the limiter's waiting is reduced to being admitted in time or not.
- Creates.RunsKeepOne: counts pods that are not being deleted; a pod on its way out may still run for a while beside its replacement. Volumes, policies and endpoints are not modelled.
- ProcParse.ParseNetDev: the loop it shares with ParseDiskStats is one method here, two in the source.
- CpuUsage.UtilisationIsAPercentage: floats are reals, here and in all rates and prices.
- Versions.NeverReturns: a release is taken to carry a binary stamped with its own tag.
- Versions.Agent.CheckAndSelfUpdate: downloading, hashing and unpacking are outcomes; the two digests are compared as they are.
- DeployLock.ExclusiveIff: assumes that a flow ends or dies before its context's deadline, as the code intends; the internal create call does not itself carry that context.
- DeployLock.Session.DeployBuildSession: the redeploy path only swaps the pod; ports, images and checkpoints are outcomes here.
- ChatParse.ParseChatRequest: JSON text and its decoding are outside; a body is an object whose duplicate keys are already resolved, and the wording of errors, which can depend on the order, is not compared.
- Preflight.SettledWithinPreflight: the billing service's own floor on the balance is not modelled.
- Order of interactive exec input: each message gets its own goroutine, so there is none to state.
- Fields outside the dedup key (message, pod name, node name): a change in these alone is not resent.
- Memory readings, inventory, logs, registry and model-cache commands, name generation, reconnect back-off: single-branch facts.
- Wiring, HTTP routers, Kubernetes, databases, Stripe, object storage, enrollment, downloads: outside calls.
