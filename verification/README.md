# Verification of the experiment control plane

This project models the protocols and algorithms under the control plane of a P2P
experiment platform, in which one Controller places Peer containers on many Agents,
collects their telemetry, archives result logs and computes delivery metrics. The proofs
are about all inputs, all runs and, where files are involved, all crash points.

Each module follows one component. Objects that the program updates in place are classes
with the same fields and loops, and their methods are proved against functions on values;
the results are lemmas about those functions and about runs of them.

- `AgentLifecycle`: processes, run fences, stop requests and cleanup retries of an Agent.
  Each critical section is one atomic step; a class records its history as a run of them.
- `ControllerState`: registration, heartbeats, reservations and stop marks at the Controller.
- `HeartbeatProtocol`: both of the above joined by messages that are lost, delayed, repeated
  and crossed, with Controller restarts. It reuses their step functions unchanged.
- `AgentCapacity`: capacity edits with revisions between an operator, the Controller and an Agent.
- `WireBatches`: cutting telemetry and heartbeats into bodies the receiver accepts.
- `TelemetrySpool`, `TelemetryQueue`: the Agent's durable event queue. The disk has a durable
  and a current view, every file operation is recorded, and a crash leaves any mixture. A
  segment has the size of its encoded batch. `BlockedBatches` says which batches are refused
  for good.
- `RunArchive`: moving a result log to network storage while it is read and appended to, and
  readers that open a snapshot at any later time.
- `BatchAdmission`: journal, commit record and rollback of batch starts, extensions, resumes
  and retries, and deletion.
- `PowerCuts`, `ArchiveCuts`: admissions and archiving step by step, where a power cut keeps any
  content an unsynced file had since its last sync.
- `SequenceRanges`, `SessionWindow`, `SessionSweep`, `RunMetrics`: session-window metrics from
  arriving events to the published totals.
- `Discovery`: the concurrent dial scheduler. Dials are completed by arbitrary choice.
- `GraphBfs`, `Betweenness`: breadth-first searches that count shortest paths, and the backward
  accumulation of dependencies, against definitions by sets of paths.
- `MeshHistory`, `Membership`: the replay of mesh and membership events, against definitions by
  the set of events.
- `HopResolve`, `BandwidthTotals`, `BandwidthTimeline`, `Dashboard`: analysis and presentation
  algorithms against simple definitions.

Times are integers, 0 meaning unknown. Names are numbers. Hashes and encodings are injective
identities with a size. Random names and revisions are fresh values. Waiting, cancellation,
file errors and message loss are arbitrary choices, counted or given by an arbitrary function
where a contract must say that a failure has a cause.

## Where the code does less than one might expect

- Heartbeat omission. An Agent leaves out exits the Controller has acknowledged. This is safe
  for every accepted heartbeat that is not treated as stale (`FreshOmissionIsSafe`), and more
  generally for one captured no earlier than the registration that made the Agent known
  (`OmissionIsSafe`). A heartbeat sent to a restarted Controller and delayed past the
  re-registration is accepted through the stale branch although it omits an exit the new
  Controller never saw (`StaleOmissionHappens`). `WrongOmissionIsRepeated` states which
  heartbeats these are, and that the Agent lists such an exit again in everything it captures
  from then on. Nothing is damaged meanwhile, because a partial heartbeat does not touch what
  it omits (`PartialOmissionIsHarmless`).
- Deleting a retry. In a group written before current attempts were recorded, extending the
  group after a retry records current attempts without retiring the attempts they replaced;
  deleting the retry then makes the failed attempt current again (`DeletionMayFallBack`).
  `DeletionFallsBackExactly` states when this cannot happen, and `CurrentAfterDelete` which
  attempts are current afterwards.
- Restarting on a large segment. The spool refuses to open when a segment is over 64 MiB, and
  then recovers nothing. Admission bounds each event and the number of events, not the sum:
  `LargeBatchStopsRestart` gives seven events that are accepted and stop the next start. A start
  fails exactly if some segment is too large (`SurvivorOpensExactly`, `Queue.Start`), accepting
  a batch keeps starts possible exactly if the batch fits (`Enqueue`), and batches that fit
  keep them possible at every crash point (`SmallBatchesRestart`).
- Spool acknowledgements. A batch is refused when its indices do not continue an
  acknowledgement. That never happens before the first file error, and with distinct events
  every confirmed batch is settled (`FinishFlush`). After a file error, equal events in
  different segments can jam the queue: its front, cut off by the size of a body, stands for an
  event of a segment but not for the first one pending there. Every flush then takes this batch
  again and is refused, whatever arrives, until the Agent restarts (`BlockedIsRefused`,
  `JammedTakes`, `JammedRefuses`, and the contracts of `Queue`); `RefusedForever` is such a case.
- Power cuts during an admission. The group shows all of it or nothing (`PowerCutIsAtomic`), but
  the metadata of a new run is renamed into place before its bytes are synced. A cut in between
  can leave unreadable metadata under the journal, and recovery then refuses for good
  (`RecoveryMayBlock`); it can finish exactly when there is none (`RecoveryFinishesExactly`).
- Power cuts during archiving. Objects and the remote manifest are renamed before the one sync
  of their directory, and the next attempt trusts that manifest. The log survives every cut
  (`EveryCutIsIntact`), but if a cut kept the manifest without an object, the next attempt can
  unlink the last copy; otherwise it cannot (`RetryIsSafeExactly`, `UncoveredHappens`).
- Exit markers. They are not size-checked when they are made. One that does not fit a body of
  its own blocks the queue behind it (`MarkerBlocksExactly`); otherwise a non-empty queue always
  yields a batch (`BeginFlush`).
- Latency of tied deliveries. Of several earliest on-time deliveries the first to arrive supplies
  the latency, so sample counts can depend on the order of arrival (`TieMatters`). They are
  independent of it exactly if all earliest deliveries are worth the same (`QualityIsDetermined`).

## Model

| member | source | states |
|---|---|---|
| `AgentLifecycle.StepKeepsCoherent` | internal/agent/agent.go:409-745 | Every critical section keeps: a process is "not exited" exactly while one finisher is outstanding for its current attempt, and a completion channel is closed exactly when its attempt is over; an exited process has a terminal state and a failed cleanup under retry is Stopping. |
| `AgentLifecycle.NoDoubleClose` | internal/agent/agent.go:588-617 | When a finisher reports, the channel it closes is still open and belongs to the attempt it owes. |
| `AgentLifecycle.RunKeeps` | internal/agent/agent.go:409-745 | Over any run: identity, run and generation of a process never change, exited-without-cleanup-error is never left, a fence is never lowered or removed, and a process that appears was not fenced before. |
| `AgentLifecycle.SeenIsSettled` | internal/agent/container.go:103-132 | If a captured completion channel is seen closed and the process has no cleanup failure at that read, it is settled, even when a retry replaced the channel in between. |
| `AgentLifecycle.FenceStands` | internal/agent/agent.go:429-503 | A generation fenced once is fenced in every later state, so no new process of it can appear. |
| `AgentLifecycle.FencesArePermanent` | internal/agent/agent.go:662-700 | Main result over all runs: after stopRunGeneration(run, g) and a successful wait, in every later state no process of that run with generation <= g holds a slot and none can be admitted. |
| `AgentLifecycle.Server.CreateNode` | internal/agent/agent.go:409-503 | Admission is one decision under the lock: it succeeds exactly if the Agent is not shutting down, the generation is not fenced, the name is new and a slot is free; then one starting process with its own finisher is added and nothing else changes. |
| `AgentLifecycle.Server.FinishProcess` | internal/agent/agent.go:588-617 | The owed report closes exactly its own, still open channel and makes the process exited, with its final state or a failed cleanup; all other processes are untouched. |
| `AgentLifecycle.Server.StopNode` | internal/agent/agent.go:619-642 | A stop of an exited process with a failed cleanup starts a retry with a new channel; otherwise the process is Stopping; an unknown node is reported. |
| `AgentLifecycle.Server.RetryCleanup` | internal/agent/container.go:90-101 | A retry reopens the process: not exited, Stopping, and owing one finisher of a fresh attempt with a channel of its own. |
| `AgentLifecycle.Server.StopRunGeneration` | internal/agent/agent.go:662-700 | The fence is raised (never lowered) before any matching process is touched. Afterwards every process of the run up to the fence that had not exited is Stopping or was already reported terminal, every exited one with a failed cleanup and a container is reopened and owes a finisher of a fresh attempt, and all others are unchanged. |
| `AgentLifecycle.Server.UpdateNode` | internal/agent/agent.go:702-745 | A Peer report is ignored once the process is exited, stopping or terminal and when it is not newer; Ready waits for a control endpoint. |
| `AgentLifecycle.Server.CapacityUsed` | internal/agent/agent.go:820-828 | The loop counts exactly the processes that are not exited or whose cleanup failed. |
| `AgentLifecycle.Server.BeginShutdown` | internal/agent/container.go:81-88 | Flag first, then every process one by one while other goroutines go on: at the end every process is over, told to stop, or already reported terminal. |
| `AgentLifecycle.Server.StopAll` | internal/agent/agent.go:644-656 | Everything that ran or whose cleanup had failed when the list was taken is over, told to stop, or already reported terminal at the end, whatever other goroutines did in between. |
| `AgentLifecycle.Server.DeleteNodes` | internal/agent/api.go:99-109 | Deleting all nodes raises the fence of every known run in one step before any process is stopped, and at the end no generation of those runs can be admitted; all processes are over, told to stop, or already reported terminal. |
| `AgentLifecycle.RunOnlyLeaves` | internal/agent/agent.go:429-745 | Over any run: after the shutdown flag no process joins and none is admitted, and a process that is over, told to stop or reported terminal never goes back. |
| `AgentLifecycle.Server.WaitRunContainers` | internal/agent/container.go:103-132 | Success after a fence means every matching process is settled, whatever other goroutines did between the critical sections; a failure means that at some moment of the wait a matching process was not settled. |
| `ControllerState.LifecycleIsMonotone` | internal/controller/state.go:119-333 | Over every interleaving of registration, full, partial and stale heartbeats, recorded creations and stop marks: Stopped is never left, and a node once Stopping, Stopped or Failed is never Starting or Ready again. |
| `ControllerState.OpIndex` | internal/controller/state.go:78-117 | Every operation keeps the active index equal to the set of live nodes. |
| `ControllerState.Reachable` | internal/controller/state.go:78-333 | In every reachable state the active index is exact and every Agent counts at least as many active nodes as reservations name it. |
| `ControllerState.AcceptedExitsAreStopped` | internal/controller/state.go:179-333 | An accepted heartbeat, stale or not, leaves every exit it lists Stopped at the Controller. |
| `ControllerState.ReleasedCount` | internal/controller/state.go:247-284 | The reservations a heartbeat releases while listing nodes are exactly those that disappear for its Agent. |
| `ControllerState.OpBacked` | internal/controller/runner.go:762-961 | Every operation keeps every reservation backed by a counted slot. |
| `ControllerState.ReleaseNeverClamps` | internal/controller/runner.go:855-870 | In every reachable state, releasing a reservation takes exactly one slot off its Agent: the guard against negative counts never fires. |
| `ControllerState.ReserveRespectsCapacity` | internal/controller/runner.go:762-803 | A reservation never pushes an Agent above a positive capacity. |
| `ControllerState.State.RegisterAgent` | internal/controller/state.go:119-177 | Refused exactly without a name or address, and as another instance of an Agent that is online or newer; otherwise the record is that of the report with the load known so far, and a later instance fails the nodes and drops the reservations and snapshot time of the earlier one. A refusal changes nothing. |
| `ControllerState.State.ReceiveHeartbeat` | internal/controller/state.go:179-333 | Which reports are rejected, ignored or accepted. An accepted one that is not stale stores each listed node that is unknown or moves forward with the reported state, last-seen time (or now), start time by the fallback rule and this Agent, and leaves the others as they were; a stale one changes only nodes it lists as Stopped; a full one ends the unlisted, unreserved nodes; and the Agent's load covers its observed nodes and its reservations. |
| `ControllerState.State.ListNodes` | internal/controller/state.go:247-284 | Each listed node that is unknown or moves forward is stored as reported, each other listed node is as before, and unlisted ones are untouched; the reservations of this Agent for listed nodes are released and counted. |
| `ControllerState.ListingMeans` | internal/controller/state.go:247-284 | After a list of nodes, each of them is as reported if it was unknown or moves forward, and as before otherwise; all others are untouched. |
| `ControllerState.HeartbeatMeans` | internal/controller/state.go:179-333 | What an accepted report, full, partial or stale, makes of every node, listed or not. |
| `ControllerState.HeartbeatCounts` | internal/controller/state.go:284-333 | The Agent's record after an accepted report: its load is the larger of what it reports and what is observed, and its remaining reservations; a stale report only takes the released reservations off. |
| `ControllerState.State.StopOmitted` | internal/controller/state.go:303-317 | A full report ends exactly the Agent's unlisted, unreserved, not yet stopped nodes, with the time of the report. |
| `ControllerState.State.TryReserve` | internal/controller/runner.go:762-803 | An existing reservation is kept. Otherwise there is one exactly if some Agent (or the requested one) is online with room, and it goes to the preferred one if that has room, or else to the Agent with the least share in use with one Peer more, then at present, then by name; that Agent gets one more slot. |
| `ControllerState.State.ReleaseReservation` | internal/controller/runner.go:855-870 | The reservation is forgotten and one slot is given back. |
| `ControllerState.State.RecordCreatedNode` | internal/controller/runner.go:872-939 | A creation is recorded only for the expected Agent instance and never revives a node that already ended. |
| `ControllerState.State.MarkNodeStopping` | internal/controller/runner.go:941-961 | A live node becomes Stopping and its reservation is dropped; the slot stays counted until the next heartbeat. |
| `ControllerState.State.MarkStaleAgents` | internal/controller/state.go:339-354 | Exactly the online Agents that were not heard for longer than the age allowed go offline, and a change is reported exactly if there was one. |
| `HeartbeatProtocol.StepKeepsInv` | internal/agent/heartbeat.go:17-57 | Every step (Agent work, snapshot, batches, replies delivered or lost, other Controller work, restart) keeps: what a registered Agent holds acknowledged, the Controller that knows it has Stopped; and each heartbeat under way omits only such exits unless it was captured before the registration that made the Agent known. |
| `HeartbeatProtocol.RunKeepsInv` | internal/agent/agent.go:311-407 | The invariant holds in every state of every run. |
| `HeartbeatProtocol.OmissionIsSafe` | internal/controller/state.go:179-333 | Main result: whenever the Controller accepts a heartbeat captured no earlier than the report by which it came to know the Agent, every process left out as acknowledged is already Stopped there. |
| `HeartbeatProtocol.FreshOmissionIsSafe` | internal/controller/state.go:179-333 | In particular every accepted heartbeat that the Controller does not treat as stale omits only processes it has Stopped. |
| `HeartbeatProtocol.PartialOmissionIsHarmless` | internal/controller/state.go:179-333 | A partial heartbeat never changes a node it does not list. |
| `HeartbeatProtocol.StaleOmissionHappens` | internal/controller/state.go:179-333 | The bound cannot be dropped: a concrete run in which a heartbeat delayed past a Controller restart and re-registration is accepted as stale although it omits an exit the Controller has never seen. |
| `HeartbeatProtocol.WrongOmissionIsRepeated` | internal/controller/state.go:179-333 | Exactly which omissions can be wrong: only after a Controller restart, only of a heartbeat captured before the registration it is known by, and that one is treated as stale; and every snapshot the registered Agent captures from then on lists the exit again. |
| `HeartbeatProtocol.RunRemembers` | internal/agent/agent.go:311-407 | In every run a heartbeat leaves out only successfully stopped processes, and until the Controller restarts it is captured after the registration. |
| `AgentCapacity.StepKeepsInv` | internal/controller/agent_capacity.go:47-138 | Every edit, report, header, loss and restart keeps the relation between desired, advertised, enforced and placed capacity. |
| `AgentCapacity.PlacementIsSafe` | internal/controller/agent_capacity.go:47-138 | In every reachable state of one Agent instance the placement capacity is positive and exceeds neither the limit the Agent enforces nor the desired value. |
| `AgentCapacity.RisesOnlyOnAcknowledgement` | internal/controller/agent_capacity.go:55-76 | Placement rises only on a report that carries the current revision. |
| `AgentCapacity.AcknowledgementSettles` | internal/controller/agent_capacity.go:55-76 | A report with the current revision ends the transition: the desired value is in force. |
| `AgentCapacity.PlacementIsExact` | internal/controller/agent_capacity.go:55-76 | The exact placement: while an edit is pending the least of the last safe, the reported and the desired limit, otherwise the desired one. |
| `AgentCapacity.PendingPlacement` | internal/controller/agent_capacity.go:47-138 | Over the protocol: an edit, or a report that does not acknowledge it, places the least of the three. |
| `AgentCapacity.State.ApplyCapacity` | internal/controller/agent_capacity.go:55-76 | For one Agent, all others untouched: without a desired limit the reported one; while an edit is pending the least of the last safe, the reported and the desired limit; otherwise the desired one. An edit is pending exactly if the report differs from the desired limit or carries another revision. |
| `AgentCapacity.State.SetCapacity` | internal/controller/agent_capacity.go:95-138 | An edit succeeds exactly if the Agent is known, has a default and the override could be saved; then it is pending under a fresh revision and placed by the same rule; otherwise nothing changes. |
| `AgentCapacity.State.CapacityHeader` | internal/controller/agent_capacity.go:78-93 | The header advertises the desired value with its revision, and nothing without a desired value. |
| `WireBatches.MarshalPrefix` | internal/model/event_batch.go:16-54 | The loop returns the longest prefix, in source order, that the receiver accepts, and an error exactly when not even one event fits. |
| `WireBatches.BodyMeans` | internal/model/event_batch.go:16-54 | The length of a body: the envelope, every element, a comma between each two, and the closing brackets. |
| `WireBatches.ValidateEventSizes` | internal/model/event_batch.go:56-80 | Admission accepts a batch exactly when each event alone would be sendable. |
| `WireBatches.AdmittedHeadIsSendable` | internal/model/event_batch.go:16-80 | Progress: whatever is queued behind it, an event is sendable at the head of the queue if and only if admission accepts it. |
| `WireBatches.AcceptableShrinks` | internal/model/event_batch.go:16-54 | Every shorter prefix of an acceptable prefix is acceptable. |
| `WireBatches.SendBatches` | internal/agent/heartbeat.go:58-106 | The bodies handed to the receiver are consecutive, in order, within the limit, and none could have held the next node; it succeeds exactly if every node fits alone and every body is delivered, and then they are the whole inventory. |
| `TelemetrySpool.NothingIsLost` | internal/agent/telemetry_spool.go:64-199 | For every disk image and every mixture of durable and current entries a power cut leaves: each event of a promised batch was accepted by the Controller or is in a segment there, past its acknowledgement. |
| `TelemetrySpool.SurvivorOpensExactly` | internal/agent/telemetry_spool.go:64-119 | A safe image opens after the power cut if and only if each of its segments is within 64 MiB. |
| `TelemetrySpool.EverySurvivorOpens` | internal/agent/telemetry_spool.go:64-119 | All mixtures of an image open if and only if all its durable and current segments are within 64 MiB. |
| `TelemetrySpool.SurvivorsAreSafe` | internal/agent/telemetry_spool.go:64-119 | What a power cut leaves gives the same guarantee from there on. |
| `TelemetrySpool.FitsMore` | internal/agent/telemetry_spool.go:86-90 | Writing one more segment keeps the spool readable if and only if that segment is within the limit. |
| `TelemetrySpool.RestartIsExact` | internal/agent/telemetry_spool.go:64-119 | While no file operation failed, what a restart that reads the segments queues again is exactly what was not acknowledged, in spooling order: nothing acknowledged is sent twice. |
| `TelemetrySpool.SelectedIsAligned` | internal/agent/telemetry_spool.go:147-158 | For a batch that is the oldest part of the queue, the selection loop picks exactly the references the batch was queued under, equal events included. |
| `TelemetrySpool.AlignedSelection` | internal/agent/telemetry_spool.go:147-167 | The indices selected from each segment continue its acknowledgement without a gap, so it is never refused as out of order. |
| `TelemetrySpool.TrackedAdvance` | internal/agent/telemetry_spool.go:172-187 | Removing acknowledged references one by one leaves exactly the reference table of what is still pending. |
| `TelemetrySpool.QueueAdvances` | internal/agent/telemetry_spool.go:172-187 | Acknowledging the front of one segment removes exactly those references from the queue in name order. |
| `TelemetrySpool.NextAck` | internal/agent/telemetry_spool.go:160-167 | Sorting the selected indices and checking them against the acknowledgement succeeds exactly on a gapless continuation. |
| `TelemetrySpool.Spool.Recover` | internal/agent/telemetry_spool.go:64-119 | Startup after any crash is refused exactly if the directory or a file cannot be read or a segment is over 64 MiB; otherwise it queues exactly the unacknowledged rest of every segment, in name order. |
| `TelemetrySpool.Spool.Append` | internal/agent/telemetry_spool.go:123-142 | Success is a promise: one durable segment of the whole batch, queued behind everything else; failure changes neither promises nor queue and comes from a file error or a batch that cannot be encoded; every disk image on the way is safe; and the spool stays readable exactly if it was and the new segment is within the limit. |
| `TelemetrySpool.Spool.Acknowledge` | internal/agent/telemetry_spool.go:143-199 | Whatever fails, every disk image is safe; without a new file error the batch is accepted if and only if its selected indices continue every acknowledgement without a gap, and an aligned batch always does and settles exactly its references. A refused batch leaves exactly what it had not settled, and what it settled are the fronts of gapless segments. |
| `TelemetrySpool.Spool.AckSegment` | internal/agent/telemetry_spool.go:159-197 | One segment's acknowledgement is written before memory changes, and its file removed once all of it is acknowledged. |
| `TelemetrySpool.Spool.WriteSegment` | internal/agent/telemetry_spool.go:46-63 | A file appears whole under its name or not at all; success means it is durable. |
| `TelemetrySpool.Spool.WriteAck` | internal/agent/telemetry_spool.go:46-63 | The acknowledgement file is replaced durably, and at no point covers an event the Controller has not accepted. |
| `TelemetrySpool.Spool.RemoveSegment` | internal/agent/telemetry_spool.go:188-196 | The segment is removed durably before its acknowledgement is forgotten. |
| `TelemetryQueue.Queue.Start` | internal/agent/agent.go:148-151 | A restart fails exactly if the directory or a file cannot be read or a stored segment is over 64 MiB; otherwise the Agent queues every promised event that the Controller had not accepted. |
| `TelemetryQueue.Queue.Enqueue` | internal/agent/agent.go:830-857 | All of a batch is accepted durably, behind what is queued, or none of it; without file errors acceptance is exactly "not closed and within capacity"; a refusal for another reason marks the spool as failed; and what acceptance means for the next start: it is possible exactly if it was and this batch is within the segment limit. A jammed queue stays jammed. |
| `TelemetryQueue.Queue.QueueTermination` | internal/agent/agent.go:937-950 | The earliest exit marker of each node is kept and spooled at once; if that fails the spool is marked as failed. A jammed queue stays jammed. |
| `TelemetryQueue.Queue.AdmitTerminations` | internal/agent/agent.go:952-960 | Waiting exit markers enter behind all queued events while there is room; each is then queued or still waiting. |
| `TelemetryQueue.Queue.BeginFlush` | internal/agent/agent.go:865-891 | One request is in flight at a time; it takes the longest acceptable front of the queue, and none exactly if the queue is empty or its head alone is not sendable. If every queued event and waiting marker is sendable, a non-empty queue always yields a batch. A jammed queue takes the same batch every time. |
| `TelemetryQueue.Queue.FinishFlush` | internal/agent/agent.go:892-909 | A confirmed batch is appended to what was sent, in order; any failure puts it back in front. Without a new file error a confirmed batch is settled exactly if its indices continue every acknowledgement; that holds if no file error ever happened, and with earlier errors if no event was queued twice. Sent, in flight and queued events together are the events in the order they entered. A jammed queue never confirms, and stays jammed. |
| `TelemetryQueue.Queue.Drained` | internal/agent/run_drain.go:11-41 | A drained run has no queued, flying or waiting event, and then every event of it that entered was delivered; a drained run is reported as failed exactly while the spool is marked as failed, which a flush that empties the queue clears. |
| `TelemetryQueue.EnqueueInStep` | internal/agent/agent.go:830-857 | A new batch keeps the queue and the spool in step, per event and per segment. |
| `TelemetryQueue.MarkerInStep` | internal/agent/agent.go:937-950 | A spooled exit marker that still waits outside the queue keeps them in step. |
| `TelemetryQueue.AdmitInStep` | internal/agent/agent.go:952-960 | Admitting a waiting marker behind the queue keeps them in step. |
| `TelemetryQueue.SettleInStep` | internal/agent/agent.go:892-909 | The batch in flight is always aligned with the spool, and settling it keeps the rest in step. |
| `TelemetryQueue.OrderlySettles` | internal/agent/agent.go:892-909 | With distinct events, settling the part of a batch that is still pending keeps queue and spool orderly, after any earlier partial acknowledgement. |
| `TelemetryQueue.OrderlyEnqueues` | internal/agent/agent.go:830-857 | A batch of new, distinct events keeps them orderly. |
| `TelemetryQueue.MarkerBlocksExactly` | internal/agent/agent.go:937-960 | Exactly which exit markers block the queue for good: those whose own encoding does not fit a body, whatever is queued behind them. |
| `TelemetryQueue.RefusedForever` | internal/agent/telemetry_spool.go:143-199 | Without distinct events a file error can jam the queue: concrete tracked spool states in which the first two of four sendable events are acknowledged in part, go back in front, are the longest acceptable front again at every flush, and are refused as out of order each time. |
| `TelemetryQueue.JammedTakes` | internal/agent/agent.go:865-891 | A queue is jammed by a batch that is its front, cut off there because one more event does not fit a body, and blocked in the spool. The longest acceptable front of a jammed queue is that very batch. |
| `TelemetryQueue.JammedRefuses` | internal/agent/agent.go:892-909 | The confirmation of the batch that jams the queue is out of order, and whatever it settles of other segments leaves the queue jammed. |
| `TelemetryQueue.JammedBehind` | internal/agent/agent.go:830-857 | Events and segments that arrive behind the batch leave the queue jammed. |
| `TelemetryQueue.FitsOnArrival` | internal/agent/telemetry_spool.go:86-90 | Whether a batch will be within the segment limit is decided by a sum over its events: their encoded sizes and one byte each. |
| `BlockedBatches.BlockedIsRefused` | internal/agent/telemetry_spool.go:143-167 | If a batch stands for a pending event of a segment but not for the first one pending there, it is out of order, whatever else it contains. |
| `BlockedBatches.SelectionReaches` | internal/agent/telemetry_spool.go:147-158 | The selection takes the first references of each event, exactly as many as the batch and the table both have. |
| `BlockedBatches.BlockedAfterAttempt` | internal/agent/telemetry_spool.go:159-197 | Whatever a refused attempt settled of other segments, the batch stays blocked. |
| `BlockedBatches.BlockedAfterAppend` | internal/agent/telemetry_spool.go:119-142 | New segments leave the batch blocked. |
| `TelemetryQueue.RestartLosesNothing` | internal/agent/telemetry_spool.go:64-119 | Every promised, undelivered event is among those a restart recovers, and all of them are sendable. |
| `TelemetryQueue.RestartRepeatsNothing` | internal/agent/telemetry_spool.go:64-199 | While no file operation has failed, any state of the queue leaves on disk exactly what was not acknowledged, and a restart queues that. |
| `TelemetryQueue.RestartsChain` | internal/agent/telemetry_spool.go:64-199 | Any crash point of any running Agent satisfies what the next start requires, so restarts can follow each other without end. |
| `TelemetryQueue.SmallBatchesRestart` | internal/agent/telemetry_spool.go:64-119 | If every batch accepted so far was within the segment limit, the Agent can start again after a crash at any point. |
| `TelemetryQueue.LargeBatchStopsRestart` | internal/agent/telemetry_spool.go:86-90 | The limit matters: seven concrete events that admission accepts one by one and together, whose segment the next start refuses. |
| `RunArchive.SealKeeps` | internal/controller/run_archive.go:315-333 | Rotating the log into a segment leaves the logical log unchanged. |
| `RunArchive.CopyKeeps` | internal/controller/run_archive.go:181-253 | Copying to an unpublished object name changes no published part and no reader's view. |
| `RunArchive.PublishRemoteKeeps` | internal/controller/run_archive.go:518-534 | Publishing the remote manifest changes no reader's view. |
| `RunArchive.PublishLocalKeeps` | internal/controller/run_archive.go:545-550 | Publishing the local manifest moves the boundary between archived and local parts without changing the log. |
| `RunArchive.UnlinkKeeps` | internal/controller/run_archive.go:551-564 | Unlinking a listed segment changes nothing a reader can see. |
| `RunArchive.ManifestGrows` | internal/controller/run_archive.go:502-509 | Appending the next uploaded segment keeps the manifest publishable: complete, in order, nothing twice. |
| `RunArchive.NameIsFree` | internal/controller/run_archive.go:492-502 | The object name of an upload is not used by any part of the manifest, so no published object is overwritten. |
| `RunArchive.HistoryGrows` | internal/controller/run_archive.go:255-566 | A disk state that is intact for the log, and persists what readers hold, extends the history of crash points. |
| `RunArchive.HeldReadsLater` | internal/controller/run_storage.go:200-242 | What a reader captured it reads unchanged in every later state. |
| `RunArchive.SnapshotLasts` | internal/controller/run_storage.go:243-263 | A snapshot can be opened in every later state of the archive: every archived part is there, of the recorded size, with the same bytes. |
| `RunArchive.OpenedReads` | internal/controller/run_storage.go:186-191 | The opened parts are whole and read as the snapshot did, whatever was appended to the local files since. |
| `RunArchive.Archive.ArchiveRun` | internal/controller/run_archive.go:255-566 | Main result: at every crash point of an archive run, with appends interleaved and after any earlier failed run, the logical log is what was appended; success leaves no segment behind and the log equals archive plus tail; a failure comes from a failed file operation. |
| `RunArchive.Archive.Rotate` | internal/controller/run_archive.go:315-333 | Rotation seals the tail under a new, larger name and changes no manifest. |
| `RunArchive.Archive.UploadAll` | internal/controller/run_archive.go:472-516 | All unlisted segments are copied, verified and listed in name order. |
| `RunArchive.Archive.Publish` | internal/controller/run_archive.go:518-550 | The remote manifest is published before the local one; success makes the local one the given manifest. |
| `RunArchive.Archive.Unlink` | internal/controller/run_archive.go:551-564 | Only segments listed by the local manifest are unlinked; success removes all of them. |
| `RunArchive.Archive.CaptureRunSource` | internal/controller/run_storage.go:124-184 | The captured parts, archived and local, are exactly the log at that moment, and the archive holds on to what they need. |
| `RunArchive.ReadAt` | internal/controller/run_storage.go:214-242 | Reading at an offset over joined parts returns the bytes of the concatenation: as many as fit or exist, with end of file exactly if fewer than asked for were left, unless a byte cannot be read; then the error is reported at exactly that byte. |
| `RunArchive.Archive.ResolveRemote` | internal/controller/run_storage.go:243-263 | Opening succeeds exactly if no file error happens and every archived part is there with the recorded size. |
| `RunArchive.Archive.ReadSnapshot` | internal/controller/run_storage.go:124-263 | Main result for readers: a snapshot of any earlier moment, opened and read after any number of archive runs and appends, delivers exactly the bytes of the log at that moment from the offset on, as many as fit or exist, or up to the first byte that cannot be read; it fails to open only by a file error. |
| `RunArchive.ContentAt` | internal/controller/run_storage.go:214-242 | Each part is the stretch of the concatenation that starts at the sum of the earlier sizes. |
| `ArchiveCuts.OpKeepsInv` | internal/controller/run_archive.go:255-565 | Every step of an attempt, in the order of the program and stopped anywhere, keeps: the local manifests a power cut can leave name settled objects only, and what one of them does not name is still a local file. |
| `ArchiveCuts.RunKeepsInv` | internal/controller/run_archive.go:255-565 | So it is in every state of every run of attempts, process crashes and power cuts after which the remote manifest names no missing object. |
| `ArchiveCuts.EveryCutIsIntact` | internal/controller/run_archive.go:518-565 | In each of these states, whatever mixture of unsynced objects, manifests and unlinked files a power cut leaves, every segment of the log can still be read where the local manifest says it is. |
| `ArchiveCuts.RetryIsSafeExactly` | internal/controller/run_archive.go:450-486 | The attempts after a power cut keep every segment readable if and only if the remote manifest that survived names only objects that survived; otherwise an attempt can unlink the last copy of a segment. |
| `ArchiveCuts.UncoveredHappens` | internal/controller/run_archive.go:486-522 | The other case is possible: object and remote manifest are renamed before the one sync of their directory, and a cut that keeps only the second rename leaves an intact log and such a manifest. |
| `BatchAdmission.OneCurrentAttempt` | internal/controller/batch_analysis.go:135-151 | In every sound group each iteration has at most one current attempt. |
| `BatchAdmission.LogicalMeans` | internal/controller/batch_append.go:99-117 | What a reader sees of a directory: nothing of a deleted run, of one without metadata, of one the journal names as new, or of one beyond the committed total; otherwise the file, or what the journal keeps of it, with the committed total. |
| `BatchAdmission.JournalKeeps` | internal/controller/batch_admission.go:35-49 | Writing the journal of an admission changes no recovered view. |
| `BatchAdmission.PendingFileKeeps` | internal/controller/batch_append.go:119-184 | While a journal is pending, any content the protocol puts into a pending directory is invisible. |
| `BatchAdmission.ClearKeeps` | internal/controller/batch_append.go:119-184 | Clearing a journal whose directories are undone changes no view. |
| `BatchAdmission.CommitShowsAll` | internal/controller/batch_admission.go:121-136 | The one write of the final record makes all admitted runs visible together. |
| `BatchAdmission.AdmittedIsChained` | internal/controller/resume.go:55-258 | An admission keeps the attempts of one iteration linked by their previous-run lists. |
| `BatchAdmission.AdmittedCurrent` | internal/controller/resume.go:55-258 | After an admission the current attempts are the admitted runs and those not replaced by them. |
| `BatchAdmission.CurrentAfterDelete` | internal/controller/batch_admission.go:151-250 | Exact: which run is current after a deletion, from the recorded retries and previous-run lists. |
| `BatchAdmission.DeletionFallsBackExactly` | internal/controller/results.go:371-420 | A deletion makes no old attempt current if and only if every old attempt that the run lists, or that the record retired so far, is still retired or listed by another visible attempt. |
| `BatchAdmission.DeletionNeverFallsBack` | internal/controller/results.go:371-420 | A deletion makes no superseded attempt current again when the record covers all retries of the group. |
| `BatchAdmission.DeletionMayFallBack` | internal/controller/results.go:371-420 | The condition is needed: a concrete group from before the record existed, retried, then extended, in which deleting the retry makes the failed attempt current again. |
| `BatchAdmission.SecondDeletionKeeps` | internal/controller/batch_admission.go:151-250 | Deleting two results one after the other makes no attempt current that was not current before both, where the record covers the retries of the group, or the first deletion recorded a current attempt and the files of both runs list what the runs show. |
| `BatchAdmission.Group.Rollback` | internal/controller/batch_append.go:119-184 | Rollback, stopped anywhere and repeated, shows the old group at every disk image; success leaves no journal. |
| `BatchAdmission.Group.Reserve` | internal/controller/repeat.go:159-195 | New directories are written one by one behind the journal, each invisible until the commit; a failure comes from a failed operation. |
| `BatchAdmission.Group.Rewrite` | internal/controller/batch_admission.go:71-84 | Existing directories are rewritten behind a journal that holds their previous content. |
| `BatchAdmission.Group.Commit` | internal/controller/batch_admission.go:15-147 | Crash atomicity: every disk image, once recovered, shows the old group before one point and the whole admission from there on. Success clears the journal and records the current attempt of every iteration; failure comes from a failed operation. |
| `BatchAdmission.Group.Start` | internal/controller/repeat.go:56-135 | A new batch within the limits is admitted as one admission of the queued iterations 1 to n, unless it is refused or a file operation fails; the scheduler then holds all of it. |
| `BatchAdmission.Group.Append` | internal/controller/batch_append.go:259-378 | Within the limits, appending succeeds exactly if no member is active and the current attempts are the expected number of completed runs of that total with the iterations 1 to that number, unless the request is refused or a file operation fails. It is one atomic admission: the new runs are queued with the next iterations, and every other member shows the new total. |
| `BatchAdmission.Group.Appendable` | internal/controller/batch_append.go:273-322 | A group can be extended if and only if no member is active and its current attempts are completed runs of the expected total with the iterations 1 to that total, however they are listed. |
| `BatchAdmission.SortedByIteration` | internal/controller/batch_append.go:287 | The members are taken in the order of their iterations. |
| `BatchAdmission.Group.Resume` | internal/controller/resume.go:55-258 | A retry takes exactly the current attempts that did not complete, a resume exactly those of the iterations after every tried one, in the order of the iterations, as one atomic admission of an idle group with consistent metadata: each is queued again, by itself or as a new run that lists it and what it listed, and nothing else changes but totals and retirement. Where there is something to continue, it fails only if refused or by a failed file operation. |
| `BatchAdmission.ContinuationMeans` | internal/controller/resume.go:136-258 | What a continued group shows, member by member. |
| `BatchAdmission.Group.Continuable` | internal/controller/resume.go:81-167 | There is a continuation if and only if the group is idle, its current attempts agree on one total within the limits and differ in iteration, a resume has a broken run, and some attempt qualifies, unless its files refuse it; the loop chooses exactly the attempts that qualify, in the order of their iterations. |
| `BatchAdmission.TakenIs` | internal/controller/resume.go:136-147 | The tests of the selection loop on one member agree with the definition by the iterations tried in the whole group. |
| `BatchAdmission.TakenMeans` | internal/controller/resume.go:136-147 | Which attempts a retry and a resume take, by state and start time of all current attempts. |
| `BatchAdmission.ContinuesMeans` | internal/controller/resume.go:98-124 | What a group that can be continued looks like: idle, one total within the limits, iterations within it, and for a resume a run that broke. |
| `BatchAdmission.Group.Examine` | internal/controller/resume.go:98-114 | The metadata loop accepts exactly the consistent groups and finds the common total, the last tried iteration and whether a run broke. |
| `BatchAdmission.Group.DeleteResult` | internal/controller/results.go:371-420 | Refused exactly for an active or unreadable run. A successful deletion removes the directory and keeps its marker; a record without current attempts gets the latest stored attempt of every iteration and retires all that stored attempts list, any other record keeps both. A failed one leaves every member as it was or newly retired by the record, or has already hidden the run. |
| `BatchAdmission.Group.AllMembers` | internal/controller/batch_analysis.go:158-201 | Listing finds every visible member once. |
| `BatchAdmission.Group.CurrentMembers` | internal/controller/batch_analysis.go:135-151 | The current members are exactly those no record or other member supersedes. |
| `PowerCuts.StepKeepsInv` | internal/controller/batch_admission.go:15-147 | Every file operation, sync, restart and power cut keeps the bounds on what each run file and the record can be after the next cut: under the old record files read as before, under the final one every file is the admitted run. |
| `PowerCuts.RunKeepsInv` | internal/controller/batch_admission.go:15-147 | The bounds hold in every state of every run from a group whose files are synced. |
| `PowerCuts.PowerCutIsAtomic` | internal/controller/batch_admission.go:15-147 | Main result over all runs: whatever mixture of unsynced files a power cut leaves, the group shows the whole admission if the final record survived and the old group otherwise, and is sound either way. |
| `PowerCuts.DoneIsForever` | internal/controller/batch_admission.go:134-147 | Once the final record is synced, no crash, restart, recovery or power cut takes the admission back. |
| `PowerCuts.PendingShows` | internal/controller/batch_append.go:119-184 | Under the journal the group shows the old runs whatever the pending files are, torn ones included. |
| `PowerCuts.DoneShows` | internal/controller/batch_admission.go:121-147 | The final record, over synced run files, shows exactly the admission. |
| `PowerCuts.RecoveryFinishesExactly` | internal/controller/batch_append.go:119-184 | From any state under the journal, recovery can finish if and only if no directory it must remove holds unreadable metadata. |
| `PowerCuts.RecoveryMayBlock` | internal/controller/repeat.go:187-195 | For every admission of new runs there is a run with one power cut after which recovery never finishes: the metadata is renamed into place before its bytes are synced. |
| `PowerCuts.Store.Commit` | internal/controller/batch_admission.go:35-147 | The operations of an admission, failing anywhere, are a run of these steps; success means the final record is synced, and failure that an operation failed. |
| `PowerCuts.Store.Rollback` | internal/controller/batch_append.go:119-184 | The operations of a rollback, failing or refusing anywhere, are a run of these steps; success leaves no journal, and failure means that an operation failed or a directory to remove is unreadable. |
| `SequenceRanges.InsertReceives` | internal/controller/run_metrics_window.go:21-42 | Receiving s keeps the list sorted and non-adjacent and adds exactly s (zero is ignored). |
| `SequenceRanges.CanonicalIsUnique` | internal/controller/run_metrics_window.go:21-42 | The sorted non-adjacent interval list is determined by the received set. |
| `SequenceRanges.ArrivalOrderIsInvisible` | internal/controller/run_metrics_window.go:21-42 | Reordering and repeating arrivals gives the same list. |
| `SequenceRanges.InsertEdit` | internal/controller/run_metrics_window.go:21-42 | The four in-place edits of the program agree with the recursive insertion, at the maximal number too. |
| `SequenceRanges.RangeList.Add` | internal/controller/run_metrics_window.go:21-42 | The binary search and in-place edit add exactly the given number to the list. |
| `SequenceRanges.RangeList.Through` | internal/controller/run_metrics_window.go:44-50 | The result is the end of the unbroken stretch containing the number, or zero if it is missing. |
| `SequenceRanges.ThroughIsDetermined` | internal/controller/run_metrics_window.go:44-50 | The stretch end depends on the received set alone. |
| `SessionWindow.EvaluateSession` | internal/controller/run_metrics_window.go:212-242 | A session is evaluated exactly if its start is known and its stop and proofs are consistent with it; the loop then finds it alive until its latest proof and complete until the latest one within the unbroken stretch of numbers from the start, and a stop is complete if it is in that stretch. |
| `SessionWindow.EvaluateMeans` | internal/controller/run_metrics_window.go:212-242 | The same of the definition: which sessions can be evaluated, and what their proofs and numbers prove. |
| `SessionWindow.CutAllMeans` | internal/controller/run_metrics_window.go:276-281 | The end found is that of the stop or an earlier removal after the start, no such removal is earlier, and a removal makes the stop incomplete. |
| `SessionWindow.ThroughOfIs` | internal/controller/run_metrics_window.go:44-50 | The recursive stretch end used by the evaluation is the one the interval list computes. |
| `SessionWindow.CutAllAgrees` | internal/controller/run_metrics_window.go:212-242 | The end found does not depend on the order or repetition of the final events. |
| `SessionWindow.SameSessionEvaluates` | internal/controller/run_metrics_window.go:212-242 | Two sessions with the same events, in any order, evaluate the same. |
| `SessionWindow.InspectDeliveries` | internal/controller/run_metrics_window.go:454-500 | The loop finds the first to arrive among the earliest deliveries that prove on time: inside the session, stamped between publication and deadline with a usable or absent latency, or with bounded clocks that put the latency within the window. It finds whether any delivery proves late: inside the session and stamped after the deadline, or certainly later than the window; and whether any proves neither. |
| `SessionWindow.InspectReceipts` | internal/controller/run_metrics_window.go:454-507 | What is on time, late or unusable, by the same conditions on stamps, clocks and deadline; which duplicates count, and what the latency of the chosen delivery is worth. |
| `SessionWindow.JudgeMeans` | internal/controller/run_metrics_window.go:460-494 | A delivery is on time or late if and only if its session, stamp, deadline, latency and clocks prove it, and unusable in all other cases. |
| `SessionWindow.InspectMeans` | internal/controller/run_metrics_window.go:454-507 | The whole inspection by these proofs. |
| `SessionWindow.SameReceiptsInspect` | internal/controller/run_metrics_window.go:454-507 | The inspection does not depend on the order of arrival, except for the latency of several earliest deliveries that differ in worth. |
| `SessionWindow.QualityIsDetermined` | internal/controller/run_metrics_window.go:495-497 | The worth of the reported latency is the same for every order of the receipts if and only if all earliest on-time deliveries are worth the same. |
| `SessionWindow.TieMatters` | internal/controller/run_metrics_window.go:495-497 | Two concrete deliveries at one time whose order decides whether an invalid latency sample is counted. |
| `SessionSweep.ActiveMeansOpen` | internal/controller/run_metrics_window.go:332-350 | After both indices have advanced to a publication, the active set is exactly the sessions on its topic with start <= at and no end <= at. |
| `SessionSweep.AdvanceTo` | internal/controller/run_metrics_window.go:342-350 | The two index loops keep the active set equal to started minus ended. |
| `SessionSweep.BuildIndexes` | internal/controller/run_metrics_window.go:258-328 | The per-topic index holds each start, end and finalized publication of that topic exactly. |
| `SessionSweep.Cohort` | internal/controller/run_metrics_window.go:351-405 | One publication adds exactly its open sessions to every total. |
| `SessionSweep.SweepTopic` | internal/controller/run_metrics_window.go:332-407 | One topic's sweep adds exactly the pairs of its finalized publications and open sessions. |
| `SessionSweep.Summarize` | internal/controller/run_metrics_window.go:255-424 | Main result: the sweep's totals equal the counts over all pairs of a finalized publication and an open session on its topic; eligible and missed pairs are counted by what was received, stamped when, and what the session proves. |
| `SessionSweep.TotalsStep` | internal/controller/run_metrics_window.go:355-397 | The branches of the loop add one pair to exactly the totals whose definition it meets, valid and invalid latency samples included. |
| `SessionSweep.TotalsAreDetermined` | internal/controller/run_metrics_window.go:332-407 | The totals follow from the set of pairs alone. |
| `SessionSweep.ColumnsPartition` | internal/controller/run_metrics_window.go:355-397 | Per pair: InitialExpected splits into Departed, ContinuityUnknown and Expected, and Expected into Eligible, Unknown and Missed, exactly one of each; a latency sample needs an eligible pair, an invalid one an unknown pair or an eligible one without a sample. |
| `SessionSweep.AddBalances` | internal/controller/run_metrics_window.go:355-397 | The partition equations and bounds hold of the totals after every pair; samples and invalid samples together do not exceed unknown and eligible pairs. |
| `SessionSweep.AddMeans` | internal/controller/run_metrics_window.go:355-397 | Exactly which totals one pair adds to, by what its session and its receipts prove. |
| `SessionSweep.CandidateMeans` | internal/controller/run_metrics_window.go:258-350 | Which pairs are looked at: a valid, remote, finalized publication and another node's session on its topic that was open at the publication. |
| `SessionSweep.SummaryMeans` | internal/controller/run_metrics_window.go:255-424 | Eligible and missed are the numbers of pairs with an on-time delivery, and with none although the session proves that nothing is missing. |
| `SessionSweep.RatiosAreBounded` | internal/controller/run_metrics_window.go:408-420 | Every ratio satisfies 0 <= lower <= upper <= 1. |
| `RunMetrics.Accumulator.HasEvent` | internal/controller/run_metrics.go:79-88 | An event is known exactly if an event of its identity was accepted before. |
| `RunMetrics.Accumulator.Observe` | internal/controller/run_metrics.go:90-179 | An event is accepted exactly if no earlier arrival has its node, session and sequence number or, without these, its node and identifier. An accepted one enters session, publication, receipts or removals by its kind and moves the counters by one; any other changes nothing. |
| `RunMetrics.Accumulator.Report` | internal/controller/run_metrics_window.go:255-424 | What is reported are the all-pairs totals of the accepted events. |
| `RunMetrics.AcceptedOnce` | internal/controller/run_metrics.go:69-103 | Each arrival with an identity is accepted once however often it is repeated, each without as often as it arrives. |
| `RunMetrics.AcceptedAgree` | internal/controller/run_metrics.go:69-103 | Two arrival orders of the same events, repetitions of identified events included, accept the same events equally often. |
| `RunMetrics.WindowReflects` | internal/controller/run_metrics_window.go:99-210 | After any log the window's sessions, publications and receipts are those of the events as a set. |
| `RunMetrics.WindowGrows` | internal/controller/run_metrics_window.go:99-210 | One more event keeps that, in every branch. |
| `RunMetrics.WindowAfterMeans` | internal/controller/run_metrics_window.go:99-210 | What one accepted event does to its session, its publication, the receipts, the removals and the incompleteness mark, kind by kind. |
| `RunMetrics.RepeatsMeans` | internal/controller/run_metrics.go:69-88 | An arrival repeats an accepted one exactly if an earlier arrival has its node, session and number or, without these, its node and identifier. |
| `RunMetrics.SameWindows` | internal/controller/run_metrics_window.go:99-210 | Two logs of the same accepted events, with one publish per message, give equivalent windows. |
| `RunMetrics.OrderIsInvisible` | internal/controller/run_metrics_window.go:99-424 | Main result: any reordering of the same events, identified ones repeated at will, gives the same cohort, delivery and duplicate totals; the sample counts too unless deliveries tie with different worth. |
| `RunMetrics.CountersAreDetermined` | internal/controller/run_metrics.go:90-179 | Published, delivered and duplicate counters do not depend on that order or repetition. |
| `Discovery.ConnectionBudget` | internal/peer/discovery.go:244-257 | The budget is at most what is required and never takes the connections above a positive limit; it is cut only if the limit is reached. |
| `Discovery.Scheduler.NextCandidate` | internal/peer/discovery.go:288-327 | Round robin: the peer is the next candidate of the first topic from the cursor on that has an unreserved deficit and a candidate left, later topics are untouched, and the next turn begins behind that topic. It is new and covers exactly its topics in deficit; one passed over was found connected; none means every topic in deficit is exhausted. |
| `Discovery.Scheduler.Dial` | internal/peer/discovery.go:320-340 | A dial reserves one connection in each covered topic and nowhere else, within the budget, for a peer never dialled before. |
| `Discovery.Scheduler.Fill` | internal/peer/discovery.go:332-342 | Work conserving: dials are started until the budget is in use or no topic with an unreserved deficit has a candidate left that was neither dialled nor found connected. |
| `Discovery.Scheduler.Complete` | internal/peer/discovery.go:349-364 | A completion in any order gives exactly its reservations back and, on success, lowers the need of exactly its topics. |
| `Discovery.Scheduler.Run` | internal/peer/discovery.go:259-366 | Main result for any dial outcomes and completion order: successes stay within the budget, reservations within the need, and a return with budget left that nobody cancelled means every candidate of every topic still in deficit was dialled or found connected. |
| `Discovery.EverythingTried` | internal/peer/discovery.go:288-346 | With nothing in flight and the candidates exhausted, every candidate of a topic in deficit was dialled or found connected: no reservation hides a deficit. |
| `Discovery.ReserveKeeps` | internal/peer/discovery.go:310-324 | Reservations equal the dials in flight that cover the topic and stay within its need. |
| `Discovery.ReleaseKeeps` | internal/peer/discovery.go:349-356 | The same after a failure and after a success has lowered the need. |
| `Discovery.ServeKeeps` | internal/peer/discovery.go:357-364 | The remaining need is the initial need minus the successes that covered the topic. |
| `HopResolve.HopIsUnique` | internal/controller/analysis_research.go:413-448 | A parent chain reaches the publisher in at most one number of steps. |
| `HopResolve.CycleIsUntraced` | internal/controller/analysis_research.go:413-448 | A receiver on a cycle reaches the publisher in no number of steps. |
| `HopResolve.FromParent` | internal/controller/analysis_research.go:428-446 | Hop and source computed from a parent's right values are right: hop by path length, lazy by some lazy link, eager by all eager links. |
| `HopResolve.EagerIsNotLazy` | internal/controller/analysis_research.go:438-446 | A chain of eager links has no lazy link. |
| `HopResolve.Resolver.Resolve` | internal/controller/analysis_research.go:416-448 | The recursion terminates on every parent map, restores its visiting marks, and every resolved receiver has the values of the path definition, cycles and broken chains included. |
| `HopResolve.Resolver.ResolveAll` | internal/controller/analysis_research.go:413-452 | After the loop every receiver is resolved to those values. |
| `MeshHistory.Trade` | internal/controller/analysis_research.go:278-304 | A graft or prune keeps the two edge tables equal to their definition by the set of events, and is counted exactly if it forms or breaks a link. |
| `MeshHistory.Depart` | internal/controller/analysis_research.go:258-277 | The end of a membership removes exactly the edges of the node, in both tables, from the topic or from all topics. |
| `MeshHistory.RequestStep` | internal/controller/analysis_research.go:247-304 | By definition an edge is requested if some graft of it is later than everything that clears it; the next event of the sorted log changes that as the program does. |
| `MeshHistory.FormedStep` | internal/controller/analysis_research.go:290-295 | A graft forms a link at most once per time, link and topic, by a definition of formed links that does not mention the order of replay. |
| `MeshHistory.BrokenStep` | internal/controller/analysis_research.go:296-299 | The same for prunes and broken links. |
| `Membership.History.Observe` | internal/controller/analysis_research.go:115-162 | Graph events are recorded, as they are, exactly with a node and a time, and a measurement start records one join per topic. |
| `Membership.History.Replay` | internal/controller/analysis_research.go:229-304 | Main result: after sorting and replaying the log, edges and links are those asked for by a graft that nothing at that time or later took back, the lives are the memberships between joins and what ends them, and each five-second bin counts the links formed and broken in it, all by the set of recorded events. |
| `Membership.ReplayIsDetermined` | internal/controller/analysis_research.go:229-304 | Links, membership at every time and counts depend on the set of events alone, not on arrival order, repetition or the unstable sort. |
| `Membership.ReplayMeans` | internal/controller/analysis_research.go:229-304 | The outcome spelled out by the events: which node asks for which link, who belongs to which topic when, and what each bin counts. |
| `Membership.Follow` | internal/controller/analysis_research.go:247-264 | One event keeps the list of lives equal to the definition: a node is a member at a time if it joined by then and every end of its membership by then came before the join. |
| `Membership.CloseLives` | internal/controller/analysis_research.go:258-264 | The loop over the open lives closes exactly those of the node and topic. |
| `Membership.Search` | internal/controller/analysis_research.go:494 | The binary search finds the first time that is not before the given one. |
| `Membership.FirstDecides` | internal/controller/analysis_research.go:494-497 | The first receipt from the start of a life on decides whether the life contains any receipt. |
| `Membership.Population` | internal/controller/analysis_research.go:480-510 | The population of a message is exactly the other nodes that were members of its topic at a receipt, or at the publication without receipts; the dispatch targets count only if nobody ever joined the topic. |
| `GraphBfs.BuildAdjacency` | internal/controller/analysis_graph.go:42-62 | The adjacency lists represent the edge set, symmetric and without repetition; an invalid edge is refused. |
| `GraphBfs.ShortestPaths` | internal/controller/analysis_graph.go:92-117 | The search visits exactly the reachable vertices in nondecreasing distance; distance, path count and parents are the shortest-path ones. |
| `GraphBfs.WalksAreCounted` | internal/controller/analysis_graph.go:92-117 | The recursive count used in the proof is the size of the set of walks of that length. |
| `GraphBfs.LevelsComplete` | internal/controller/analysis_graph.go:105-117 | When a vertex is at the head of the queue, every vertex of its distance or less is already queued. |
| `GraphBfs.HeadIsCounted` | internal/controller/analysis_graph.go:105-117 | When a vertex is at the head, its path count is final. |
| `GraphBfs.NewIsNext` | internal/controller/analysis_graph.go:108-112 | A vertex discovered from the head is one step further, and the queue stays sorted by distance. |
| `GraphBfs.AllShares` | internal/controller/analysis_graph.go:112-116 | The contributions of all predecessors add up to the number of shortest paths. |
| `GraphBfs.FollowEdge` | internal/controller/analysis_graph.go:107-116 | One edge updates queue, distance, count and parents as the definitions demand. |
| `GraphBfs.AllDiscovered` | internal/controller/analysis_graph.go:92-117 | At the end every vertex with a walk from the source is in the queue. |
| `Betweenness.Compute` | internal/controller/analysis_graph.go:92-155 | Main result: the accumulated numbers are, for every vertex, the sum over all ordered pairs of other vertices of the share of their shortest paths that visit it, divided by the number of such pairs where there are any. |
| `Betweenness.Accumulate` | internal/controller/analysis_graph.go:92-141 | One source adds to every other vertex the share of its shortest paths to all targets that visit the vertex, and nothing to unreached ones. |
| `Betweenness.Spread` | internal/controller/analysis_graph.go:133-137 | Taken from the back of the queue, a vertex has its final dependency when its turn comes, and passes its predecessors exactly their terms. |
| `Betweenness.DependencyStep` | internal/controller/analysis_graph.go:133-137 | The dependency on a vertex, defined by counting paths, equals the sum over its successors of path-count ratio times one plus their dependency. |
| `Betweenness.PassingIsCounted` | internal/controller/analysis_graph.go:92-141 | The shortest paths that visit v number the shortest paths to v times the ways to go on. |
| `Betweenness.VisitedInTime` | internal/controller/analysis_graph.go:92-141 | A shortest path visits a vertex exactly when it has made as many steps as that vertex is away from the source. |
| `Betweenness.HeadDepends` | internal/controller/analysis_graph.go:133-137 | All successors of a vertex stand behind it in the queue, so what was gathered for it is complete. |
| `Betweenness.FirstStep` | internal/controller/analysis_graph.go:92-141 | Walks counted by their last step are the walks counted by their first step. |
| `BandwidthTotals.CheckSample` | internal/controller/bandwidth.go:30-51 | The subtracting loop accepts exactly the samples with positive time, no negative counter, distinct protocols and protocol sums within the totals, without overflow. |
| `BandwidthTotals.Accumulator.Observe` | internal/controller/bandwidth.go:53-104 | Which samples are accepted, superseded or rejected, the interval and protocol deltas of an accepted one, and the counts; the totals stay equal to the sum of each session's latest accepted sample within int64. |
| `BandwidthTotals.Accumulator.Deltas` | internal/controller/bandwidth.go:72-94 | Protocols are accepted exactly if each earlier one continues and none shrinks; the deltas are the differences. |
| `BandwidthTotals.TotalsStep` | internal/controller/bandwidth.go:99-101 | Replacing one session's sample changes the sum by the difference. |
| `BandwidthTotals.PartialTotals` | internal/controller/bandwidth.go:77-81 | Totals of any part of the events never exceed those of all, so the overflow guard cannot reject on the way. |
| `BandwidthTotals.ArrivalIsNewest` | internal/controller/bandwidth.go:53-104 | For growing counters whose grand total fits, an arrival is accepted exactly when it is newer than what is known of its session. |
| `BandwidthTotals.ObserveAll` | internal/controller/bandwidth.go:53-104 | For such counters the totals are those of the newest samples, whatever the order of arrival. |
| `BandwidthTimeline.BucketIsFloor` | internal/controller/analysis.go:322-328 | The corrected truncated division is the floor: the bin contains the second, before 1970 too. |
| `BandwidthTimeline.BinsAreFew` | internal/controller/bandwidth.go:216 | The span the program compares bounds the number of bins by 360. |
| `BandwidthTimeline.PartsAdd` | internal/controller/bandwidth.go:247-256 | Shares of disjoint overlaps add up; the whole duration gets the whole amount. |
| `BandwidthTimeline.Merge` | internal/controller/bandwidth.go:216-238 | Doubling the width preserves every sum, and every new bin holds exactly its two halves. |
| `BandwidthTimeline.SharesSplit` | internal/controller/bandwidth.go:216-264 | By definition a bin of double width holds what its halves hold: doubling commutes with filling. |
| `BandwidthTimeline.Timeline.Spread` | internal/controller/bandwidth.go:239-264 | Every bin gets exactly the interval's overlap with it, and together they get the whole interval. |
| `BandwidthTimeline.Timeline.WidenToFit` | internal/controller/bandwidth.go:216-238 | The loop ends with the least doubled width that fits the span. |
| `BandwidthTimeline.FitMeans` | internal/controller/bandwidth.go:216-238 | The width is 5 seconds doubled as often as needed: the span has fewer than 361 bins of it, and at half of it would not. |
| `BandwidthTimeline.SharesMeans` | internal/controller/bandwidth.go:239-264 | What a bin holds: of each interval the bytes in proportion to the time it has in common with the bin, and that time. |
| `BandwidthTimeline.Timeline.Add` | internal/controller/bandwidth.go:195-265 | After every interval the bins are exactly the aligned stretches that hold anything, each with the bytes of all intervals so far in proportion to their time in it; sums are conserved, at most 360 bins remain, they cover the intervals, and half the width would not do. |
| `BandwidthTimeline.TimelineIsDetermined` | internal/controller/bandwidth.go:195-265 | The same intervals in any order, with doublings at any time, end with the same width, the same bins present and the same content. |
| `Dashboard.DiffRows` | internal/controller/dashboard_stream.go:124-160 | The loops over both versions yield a change that leads from one to the other and carries no more than it must: each new or different row once, each id that is gone once, the order only if it changed, and none exactly if they agree. |
| `Dashboard.ChangeLeads` | internal/webui/static/app.js:400-421 | Applying upserts, removals and order, as the browser does, to the previous rows gives the current rows; an empty change means equality. |
| `Dashboard.IsMinimal` | internal/controller/dashboard_stream.go:124-160 | What the two loops collect is no more than a change must carry. |
| `Dashboard.Delta` | internal/controller/dashboard_stream.go:124-176 | A patch applied to the previous frame gives the current one and holds exactly the fields that differ; no patch means they already agree up to the generation time. |
| `Dashboard.FoldFollows` | internal/controller/api.go:678-719 | Folding any chain of patches over the first frame gives the last frame. |
| `Dashboard.Stream` | internal/controller/api.go:678-719 | The stream loop produces such a chain for any sequence of frames. |

## Left out

- HTTP handlers, Docker calls, path and inode checks and mount identity: only atomic file and message steps that may fail.
- Concrete JSON, SHA-256 and random text: injective identities, sizes and fresh values.
- Agent and Controller: log lines, metrics, notifications, and fields that placement and lifecycle do not use.
- ControllerState: the index before its first use (nil); a capacity edit takes part in runs as a function only, its method is in `AgentCapacity`.
- HeartbeatProtocol: every heartbeat the Agent sends is partial, as in the program; full reports are covered by `ControllerState`.
- AgentCapacity: one Agent instance with a default capacity; Agents without one keep what they report.
- TelemetrySpool: files under names the spool does not read, and damage to file contents.
- RunArchive: an attempt that is cancelled counts as one whose next file operation failed; metadata files next to the logs, local files that shrink under a reader, imports of earlier archives, the quiet period, and more than one log at a time (logs are independent).
- RunArchive and BatchAdmission: a crash stops the process after any file operation; power cuts are the subject of `ArchiveCuts` and `PowerCuts`.
- PowerCuts: an admission starts with its group synced; a run's own later progress and deletions are not synced by the program and not part of it.
- ArchiveCuts: segments are names, the unsealed tail and the metadata files are not part of it, and a new segment is durable once sealed.
- MeshHistory and Membership: cancellation of the replay, and the counts of single grafts and prunes.
- BatchAdmission: YAML equality, free space, running analyses and a cancelled request are arbitrary refusals or failures; a final record whose sync failed counts as committed, as in the program; the in-memory experiment table.
- SessionWindow and SessionSweep: mean and percentile of the latency samples, the list of delivery windows, and the hints about audit targets and pending publications.
- RunMetrics: identities are the tuples that are joined with NUL bytes; GossipSub control counters.
- Discovery: goroutines and channels are replaced by arbitrary completion order; topics of one round are distinct, as the caller makes them.
- HopResolve: an empty publisher equals an unknown parent, as in the program; latency samples and histograms.
- GraphBfs and Betweenness: path counts and dependencies are exact numbers instead of float64; sorted neighbour lists, closeness, diameter, PageRank, eigenvector centrality and clustering.
- BandwidthTotals: rates and the summary for display.
- BandwidthTimeline.Timeline.Add: real arithmetic instead of float64, peer time in nanoseconds, per-protocol bins, and seconds without an int64 bound.
- Dashboard: items are opaque payloads; trimming of the snapshot and HTTP streaming.
- Finish-time projection, origin estimates, configuration, scenario editing, sessions and logs, plots and web pages.
