# Verification of the UDMA device model and its process adapters

A Dafny model of the UB simulation stack: the UDMA device (completions, resource lifetime, RMA, receive
queues, command rings), the device process with its host and network ports, and the fabric adapter that
carries work requests through a native transport. Beside the model stand proofs of what these parts
promise over whole runs.

## How the model is built

The program is driven by callbacks: every DMA, interrupt and network send ends in a callback that may run
at once, inside the call, or at any later time. The model treats each stretch of code between two such
calls as one step, keeps in the state what a suspended caller has still to do, and lets the environment
take the steps in any order. Every execution of the program is one of these interleavings, so what is
proved of all of them holds of it.

- `Fence.dfy`, `FenceProof.dfy`, `FencePorts.dfy`: the PREPARE / COMMIT fence between hosts, devices and
  fabric, as a system of lanes joined by FIFO rings; the ports and the commit pass as classes with loops.
  `FenceFaults.dfy`: which faults raise an exception, and what the fence does not stop. `FenceLedger.dfy`: what goes
  into the rings and comes out of them, counted over runs.
- `Rma.dfy`, `RmaProof.dfy`, `RmaTable.dfy`: outstanding READ and WRITE requests, the summary a request
  keeps of its responses, and the class with the handlers that change the table. `AckProof.dfy`: acknowledgements
  of a WRITE in any order.
- `Native.dfy`, `ReadPath.dfy`, `ReadPathProof.dfy`: the adapter's tables of native segments and target
  DMA as a class, and one READ from the guest's request to the bytes in guest memory. `ReadMany.dfy`: any number
  of READs at once over the same table and memories. `WritePath.dfy`, `WritePathProof.dfy`: one WRITE, cut by the
  transport into any segments, from the guest's request to the target's memory and back, with failures.
- `Cq.dfy`: a completion queue context. `Engine.dfy` and the `Engine*` files: the completion engine
  (publication queues, notification slots, moderation, event queues, the command queue with its deferred
  destroys) as a transition system; `EngineCode.dfy` is the same engine as a class, each method proved against
  its step. `EnginePromises.dfy` names what the engine promises to whatever waits, with the steps that break a
  promise; `EngineRuns.dfy` has runs in which they do. `EngineLedger.dfy`, `EngineModeration.dfy`,
  `EngineArming.dfy` and `EngineTurns.dfy` count over runs what is posted, written, announced and armed, and who is
  served next.
- `CqRing*.dfy`: one completion ring shared with a guest that keeps 22-bit indices; `CqRingStale.dfy` is a run
  that loses a completion.
- `Wire.dfy`, `WireProof.dfy`: messages, flags, fragmentation and the two ways of reassembly. `WireSlots.dfy`: the same
  round trip from ring slot to ring slot, with raw frames. `WireChains.dfy`: what the receivers make of any messages at
  all.
- `CommandRing.dfy`, `CommandQueue.dfy`: descriptor chains, responses, events and the allocator of transport
  path ids.
- `Receive.dfy`: SEND reception over scatter entries, and the queues it needs.
- `Optional.dfy`, `Words.dfy`, `Modular.dfy`: the usual optional value, machine words, and remainders.

## What is assumed of the environment

- DMA operations call back exactly once, in any order; a failed write does not reach memory. Rings between
  processes are FIFO and may refuse a message.
- A guest moves its consumer index forward and never past what it can see, and asks for nothing between
  announcing a fence and its commit.
- `FenceProof`: a commit pass finds ring space on all endpoints or on none. The assumption is needed:
  `PartialCommitPassLetsAFrameCross` is a run without it.
- `CqRingProof`: while a read of the guest's record is under way the producer moves by less than the index
  space minus the depth (`CqRing.Timely`). Without JFC queries this holds by itself
  (`WithoutQueriesReadsAreTimely`). Needed: `StaleSampleOverwritesUnread`.
- Order of completions: no JFC query moves the cached consumer during a refresh (`CqRingTheorems.Calm`).
  Needed: `QueryLetsCompletionsOvertake`.

## Where the code does not keep a promise on all inputs

- A READ that the send queue lets through ends the fabric adapter with an exception if and only if the fabric does
  not take the request (a port it has not got, an entity id of another index than 0, a destination it does not
  route or that is the requester, the order 3, or a jetty number of more than 20 bits), or it has more than 65536
  segments, because segments are known by 16 bits of their number, or its last segment starts beyond the address
  space (`NeverThrowsIffCarried`). The send queue looks at none of these (udma_sq.cc:300-323), and the device itself
  advertises the entity ids of index 1 to 3 (udma_control.cc:530-537).
- A READ that gets through all this and whose remote extent ends beyond the address space inside its last segment is
  never answered, and one whose buffer does has every response refused; neither ever completes
  (`WrappingReadIsNeverAnswered`, `BufferBeyondTheEndIsRefused`). The same holds of a WRITE for the adapter
  (`WritePathProof.NeverThrowsIffCarried`). All READs to which none of this applies complete in
  every schedule (`EveryScheduleCompletes`), also beside others (`ManyReadsComplete`).
- A work request that has ended in the native network may have segments there that are still executed at the target,
  also after a fence: the fence waits for open work requests only (`LateExecutionCrosses`). The results that go back
  are always of this epoch (`OpenWorkIsCurrent`).
- In pipelined mode, creating the context of a JFC that already has publications waiting runs no pump; nothing in
  flight will admit them (`NewContextStrandsPublications`). They wait for the next time step or unrelated work. A
  consumer index that makes room in a full ring runs none either, but then something is in flight that will. No other
  step leaves a publication that could be admitted to itself (`StepAwake`, `StepStands`).
- Creating an event queue again runs no dispatch (udma_resources.cc:186-189), and the test that it is idle was made
  before its context was read (udma_resources.cc:26-41). An event that was queued meanwhile for the queue before,
  which was full or faulted, waits for the new one, which has credit, until unrelated events are dispatched, and keeps
  its notification slot (`NewQueueStrandsEvents`). No other step does this (`StepAttends`).
- With one-shot notifications, a destroy that is parked while a moderation timer is the last to hold its resource
  is not looked at when that timer runs out on a JFC that the guest has not armed. `StepWatched` shows that this
  step always leaves it behind and that no other does; `SilentTimerStrandsDestroy` is a run.
- After a commit pass that reached only some endpoints, the next pass sends COMMIT to all of them again, and a device
  that has carried the fence out raises an exception when it polls the second one (`RepeatedCommitRaises`).
- The block count of an event descriptor is one byte, so it is right only for events of fewer than 256 blocks
  (`EventsArriveWhole`), while the depth check admits longer ones.
- A frame makes the fabric raise an exception if and only if one of its messages fails the ingress tests, or it is a
  request of order 3, or one of a jetty whose number has more than 20 bits (`RoundTrip`); `Send` accepts them all, and
  the order is two bits of the guest's WQE (udma_abi.h:51).
- `Send` accepts a completion that is longer than a ring slot. It is never cut, so it never leaves, and
  everything behind it waits; requests always fit (`SlotsFit`, `NetworkPort.FlushOne`).

## Model

| member | source | states |
|---|---|---|
| FenceProof.NoFrameCrossesAFence | components/udma-device-sim/src/main.cc:820-830 | in every run, whatever a host, device or endpoint polls was sent in the epoch the receiver is in; work requests may be cut into parts, results belong to open work requests, and executions to open or ended ones |
| FenceProof.EveryCommitClosesCleanly | components/udma-device-sim/src/main.cc:966-1011 | when a process commits a fence, no frame of the closing epoch is left in the rings it reads |
| FenceProof.NoPartialRequestWhenPrepared | integrations/ns3ub/ub-net-adapter.cc:433-440 | an endpoint that is prepared and owns no target DMA and no frame holds no part of a work request either |
| FenceProof.FenceAgreement | integrations/ns3ub/ub-net-adapter.cc:433-482 | all participants commit prefixes of one sequence of increasing generations and alternating targets, each at most one behind, and none before every host prepared it |
| FenceProof.PartialCommitPassLetsAFrameCross | integrations/ns3ub/ub-net-adapter.cc:459-468 | for every fence that starts an epoch there is a run with a partial commit pass and two endpoints in which a frame crosses it |
| FenceFaults.NoParticipantRaises | integrations/ns3ub/ub-net-adapter.cc:445-458 | if commit passes reach all endpoints or none and the hosts announce fences of one increasing, alternating plan, no device and not the fabric ever raises an exception of the fence or of an answer nobody asked for |
| FenceFaults.RepeatedCommitRaises | components/udma-device-sim/src/main.cc:758-767 | in every run, a device that polls a COMMIT for a fence it has carried out raises the exception |
| FenceFaults.OpenWorkIsCurrent | integrations/ns3ub/ub-net-adapter.cc:433-434 | in every run, every open work request was submitted in the fabric's present epoch |
| FenceFaults.LateExecutionCrosses | integrations/ns3ub/ub-net-adapter.cc:1196-1197 | a run with two endpoints after which a work request of the first epoch, which has ended, may be executed at its target in the second |
| FenceLedger.RunLedger | components/udma-device-sim/src/main.cc:309-350 | in every run and on every lane: of each kind of frame, those sent are those polled and those on the ring; the work, executions, deliveries and DMA answers a device has polled are its steps that end them and those counted as under way |
| FenceLedger.FenceWaitsForWork | components/udma-device-sim/src/main.cc:966-979 | in every run, PREPARE is forwarded and a fence committed only when all work, deliveries and executions polled so far have ended, every frame made of them is on the ring, and no work request is cut |
| FenceLedger.FinishedDeviceForwards | components/udma-device-sim/src/main.cc:966-974 | in every run, a device that has seen PREPARE, not forwarded it and finished what it polled can forward it at once |
| FenceLedger.EveryRequestIsSubmitted | integrations/ns3ub/ub-net-adapter.cc:972-1055 | in every run, the work requests the fabric has polled are as many as those that are open or have ended, each of them under a number of its own |
| FencePorts.DeviceProcess.PollHost | components/udma-device-sim/src/main.cc:309-350 | a host message changes the process as the lane step says, a COMMIT on this ring is dropped, and the exception is raised exactly where the step has no result |
| FencePorts.DeviceProcess.PollNetworkBatch | components/udma-device-sim/src/main.cc:820-830 | a batch is a bounded series of polls that goes on until the bound, COMMIT or an empty ring; what the polls count is pinned over runs by `RunLedger` |
| FencePorts.BatchStopsAtCommit | components/udma-device-sim/src/main.cc:823-828 | a COMMIT can only be the last message of a batch; what follows it stays on the ring |
| FencePorts.DeviceProcess.ForwardPrepare | components/udma-device-sim/src/main.cc:966-974 | PREPARE goes to the fabric exactly when one was seen, none was forwarded and model and ports are idle |
| FencePorts.DeviceProcess.CommitFence | components/udma-device-sim/src/main.cc:974-1011 | the device commits exactly when COMMIT for the prepared fence was polled, it is idle again and the host ring has room; it fails exactly when it is idle and the fences disagree or the target is the present state |
| FencePorts.Fabric.Ready | integrations/ns3ub/ub-net-adapter.cc:433-458 | the loops over the endpoints decide whether all are prepared for the same new fence and own no work request, part of one, target DMA or frame; the exception is raised exactly when nothing is left to drain and the fences differ or lead to the present state |
| FencePorts.Fabric.CommitPass | integrations/ns3ub/ub-net-adapter.cc:459-482 | COMMIT goes to every endpoint with room, and the fence is committed only if that was all of them |
| RmaProof.NeighbourTestIsExact | components/udma-model/src/udma_receive.cc:168-177 | looking at the two neighbours of the insertion point decides whether any accepted interval is met |
| RmaProof.AcceptKeeps | components/udma-model/src/udma_receive.cc:145-184 | an accepted response keeps the summary faithful: sorted disjoint intervals, counters equal to sums over the writes issued, no wrap of the byte counter |
| RmaProof.ResponseTakenIff | components/udma-model/src/udma_receive.cc:145-180 | a READ takes a response if and only if it has not failed and the response has its bytes, lies within a buffer that ends inside the address space, and repeats no number and meets no write of those taken before |
| RmaProof.LandKeeps | components/udma-model/src/udma_receive.cc:186-204 | a returning DMA write, good or bad, keeps it faithful and takes no counter below zero |
| RmaProof.SuccessIsExact | components/udma-model/src/udma_receive.cc:205-210 | status 0 is reported only if every byte of the buffer was written once, successfully and at its own address |
| RmaProof.AcknowledgedIsTiled | components/udma-model/src/udma_receive.cc:130-131 | a WRITE completes only when its acknowledged intervals tile the request |
| AckProof.AckFits | components/udma-model/src/udma_receive.cc:111-129 | a WRITE takes an acknowledgement if and only if it lies within the request, has a number of its own and meets none of those taken before |
| AckProof.AnyOrderCompletes | components/udma-model/src/udma_receive.cc:102-142 | of acknowledgements that tile the request, whatever parts they cut it into and whatever order they come in, each is taken, and the bytes are complete after the last one and not before |
| RmaTable.FindLowerBound | components/udma-model/src/udma_receive.cc:127-128 | halving finds the insertion point of the linear definition |
| RmaTable.Admit | components/udma-model/src/udma_receive.cc:148-182 | on any response, in any state of the request, the tests accept exactly what fits and the insertion yields the state of `Accept` |
| RmaTable.Table.ReceiveReadResponse | components/udma-model/src/udma_receive.cc:145-186 | the table takes a response exactly when its request is open and it fits, and otherwise only counts an error |
| RmaTable.Table.FinishResponse | components/udma-model/src/udma_receive.cc:187-212 | each request is completed at most once, exactly when nothing of it is in flight and it has failed or has all its bytes |
| RmaTable.Table.ReleaseResponseDma | components/udma-model/src/udma_receive.cc:213-215 | the per-queue count of callbacks is given back once |
| RmaTable.Table.ReceiveWriteAck | components/udma-model/src/udma_receive.cc:102-142 | the table takes an acknowledgement exactly when its request is an open WRITE and it fits, as `AckFits` says; the one that makes the bytes complete ends the request with success |
| RmaTable.Table.ReceiveError | components/udma-model/src/udma_runtime.cc:85-98 | a remote error fails a request but completes it only when none of its DMA is in flight |
| RmaTable.Table.ReadNotSent | components/udma-model/src/udma_sq.cc:350-363 | a request frame that could not be sent ends the request, after the DMA in flight |
| RmaTable.Table.IdleQueueOwnsNothing | components/udma-model/src/udma_resources.cc:461-473 | a queue the busy test lets go owns no request and no DMA callback |
| Native.Tasks.OnNativeSegmentSent | integrations/ns3ub/ub-net-adapter.cc:1071-1107 | a segment of the node the work request came from is recorded at the next offset under 16 bits of its number, an existing entry winning, or the exception is raised |
| Native.Tasks.OnTargetExecute | integrations/ns3ub/ub-net-adapter.cc:1144-1216 | a packet whose association data, range, address and token agree is recorded once per source, request and number; anything else is an exception |
| Native.Tasks.CompleteTargetExecution | integrations/ns3ub/ub-net-adapter.cc:1218-1277 | an answer is matched with its target DMA, in identities and range, and with its segment, or raises the exception; also after the request has ended |
| Native.Tasks.OnNativeSegmentComplete | integrations/ns3ub/ub-net-adapter.cc:1279-1334 | the response of the segment recorded under the number is queued for the endpoint the request came from; whom it names, and that it is taken there, is pinned end to end by `RepliesAreAddressed` |
| Native.AnswersMatch | components/udma-model/src/udma_receive.cc:8-99 | whatever its DMA does, the target device's answer to a recorded packet finds that record and passes every test; no answer comes only for a range the device does not look at |
| Native.OnlyPartsOfTheRequest | integrations/ns3ub/ub-net-adapter.cc:1144-1216 | a packet is taken if and only if it comes from the endpoint that made the request, at the endpoint the request is for, and asks for a part of it, by its token and address, that is not being executed already; what is recorded is that part |
| Native.OnlyTheTargetAnswers | integrations/ns3ub/ub-net-adapter.cc:1218-1262 | an answer is taken if and only if it comes from the endpoint that executes the part, goes to the one that asked, between the queues of the request, for exactly that part and with its bytes, and the request, if still known, has it as a segment |
| Native.OnlyTheSourceReports | integrations/ns3ub/ub-net-adapter.cc:1071-1295 | a segment is recorded if and only if the node of the request sent it and the request has that many bytes left, and completed if and only if that node reports a number that was sent; segments stay inside the request |
| Native.Tasks.SubmitNativeWqe | integrations/ns3ub/ub-net-adapter.cc:981-1055 | a work request is recorded under the next number, an existing entry winning, exactly when its destination is routed, its jetty has 20 bits and the transport takes it; the work counter is never below the number of entries |
| Native.Tasks.OnNativeWqeTerminal | integrations/ns3ub/ub-net-adapter.cc:1380-1432 | the entry goes, the counter falls by one and never below zero, and a failed request is reported to its guest; an unknown number is the exception |
| ReadPathProof.ReadIsExact | components/udma-model/src/udma_receive.cc:145-217 | end to end, in every schedule of a READ that the adapter carries and whose buffer fits: no response is refused, the READ completes with success exactly when the last segment is in place, and then memory differs by exactly the remote bytes |
| ReadPathProof.EveryScheduleCompletes | integrations/ns3ub/ub-net-adapter.cc:1279-1334 | a READ that the fabric takes and whose extents fit takes exactly one event to be submitted and six for each segment: no schedule is longer, a shorter one can go on, and the READ is complete exactly when it has had them all |
| ReadPathProof.RepliesAreAddressed | integrations/ns3ub/ub-net-adapter.cc:1296-1333 | in every run, each response goes to the endpoint, jetty and request it answers, from the queue that was asked, as a READ response with the bytes of one segment, and no segment is answered twice |
| ReadPathProof.NeverThrowsIffCarried | integrations/ns3ub/ub-net-adapter.cc:885-1169 | the adapter survives every schedule of any READ the send queue lets through if and only if the request passes the tests of ingress, order and jetty number, has at most 65536 segments and none starts beyond the address space |
| ReadPathProof.WrappingReadIsNeverAnswered | components/udma-model/src/udma_receive.cc:54-61 | when the remote extent ends beyond the address space, the last segment is never answered and the READ never completes, in any schedule |
| ReadPathProof.BufferBeyondTheEndIsRefused | components/udma-model/src/udma_receive.cc:156-162 | when the buffer ends beyond the address space, every response is refused, nothing is written and the READ never completes |
| ReadMany.RunEach | integrations/ns3ub/ub-net-adapter.cc:1144-1277 | however the events of any number of READs interleave on one table of target DMA, no exception is raised and each READ goes through exactly the states it would alone |
| ReadMany.ManyReadsAreExact | components/udma-model/src/udma_receive.cc:145-217 | of any number of READs at once, with buffers that do not meet, each completes with success exactly when its last segment is in place, its buffer then holds the remote bytes, and no other byte of any guest's memory has changed |
| ReadMany.ManyReadsComplete | integrations/ns3ub/ub-net-adapter.cc:1279-1334 | each READ among others takes as many events as alone, is complete exactly when it has had them, and until then can go on whatever the others do |
| WritePathProof.WriteIsExact | components/udma-model/src/udma_receive.cc:8-142 | end to end, in every schedule of a WRITE that the adapter carries, cut into any segments, with target DMA that may fail and a transport that may give up: the device refuses nothing it is sent, completes with success exactly when the last acknowledgement has arrived and with status 5 exactly when the report of a failure has, and the target's memory has changed exactly by the bytes of the segments written |
| WritePathProof.RepliesAreAddressed | integrations/ns3ub/ub-net-adapter.cc:1296-1425 | in every run, each acknowledgement goes to the endpoint, jetty and request it answers, for one segment, none twice; after them comes at most one report of a failure, to the same endpoint, jetty and request |
| WritePathProof.EveryScheduleCompletes | integrations/ns3ub/ub-net-adapter.cc:1279-1432 | a WRITE whose remote extent fits has at most five events for each segment and two more, and as long as it is not complete something can happen to it, failure being the way out only after a fault |
| WritePathProof.NeverThrowsIffCarried | integrations/ns3ub/ub-net-adapter.cc:885-1169 | the adapter survives every schedule of a WRITE if and only if it takes the request up, the request has at most 65536 segments and none starts beyond the address space |
| ReadPathProof.ResponseFits | components/udma-model/src/udma_receive.cc:148-177 | in any reachable state the next response meets every condition of the requesting device |
| RmaProof.CoveredAddsUp | components/udma-model/src/udma_receive.cc:205-206 | intervals that miss no byte add up to the whole length, the converse of tiling |
| EngineTheorems.SlotsAreConserved | components/udma-model/src/udma_completion.cc:78-146 | slots in use equal the reservations, stay in the budget, and each belongs to one publication, one event or one callback about to release it |
| EngineTheorems.ReleasedOnce | components/udma-model/src/udma_completion.cc:115-120 | no reservation is released twice in any run |
| EngineLedger.NoCompletionIsLost | components/udma-model/src/udma_completion.cc:8-104 | in every run and for every JFC: the completions posted while no destroy of it or its event queue is parked are those admitted and those waiting; those admitted have ended or are in flight |
| EngineLedger.ParkedDrains | components/udma-model/src/udma_completion.cc:8-20 | in every run, while such a destroy is parked, no step adds to what is waiting or in flight for the JFC |
| EngineLedger.ProducerCounts | components/udma-model/src/udma_completion.cc:338-360 | in every run, the producer of an event queue is the number of entries written since its creation, modulo 2^32 |
| EngineLedger.AcknowledgementCounts | components/udma-model/src/udma_completion.cc:338-373 | in every run, an entry that is written is one more for the guest to take, or none if the guest has reported it early; one that is not written moves neither index, and faults the queue exactly if the guest reported it |
| EngineLedger.NoEventUnarmed | components/udma-model/src/udma_completion.cc:275-298 | in every run with one-shot notifications, the events accepted for a JFC never outnumber the times the guest has armed it |
| EngineArming.ArmedExactly | components/udma-model/src/udma_model.cc:273-280 | in every run with one-shot notifications, a JFC is armed if and only if the guest has rung for it and since then it has had no event and was not created again |
| EngineModeration.EveryCompletionIsAnnounced | components/udma-model/src/udma_completion.cc:212-257 | in every run without one-shot notifications and without a change of moderation: fewer completions than a batch are unannounced, with a period their timer runs out within it, and all others are covered by the events accepted, exactly a batch to an event if no timer ran out |
| EngineTurns.NobodyIsPassedOver | components/udma-model/src/udma_completion.cc:148-156 | in every run, the pump visits the queues in the order round from the one admitted last, which comes after all others |
| EngineTheorems.NoLostWakeup | components/udma-model/src/udma_completion.cc:66-160 | when the outermost pump call has returned, whatever is pending is blocked for a reason of the code, unless a step named in `StepStands` has left it and nobody has looked since: its context was created, or a fresh consumer index made room and a publication is in flight that will run the pump; expired timers wait only for a slot |
| EngineTheorems.SomethingWillWakeIt | components/udma-model/src/udma_completion.cc:78-101 | at rest, a queue with pending publications has one in flight, waits for a slot somebody holds or for its context, unless the creation of its context has left it and nobody has looked since |
| EngineRuns.NewContextStrandsPublications | components/udma-model/src/udma_resources.cc:191-209 | for every JFC there is a run in which creating its context leaves publications admissible with nothing in flight that would wake them before the next time step |
| EngineTheorems.CreditsHold | components/udma-model/src/udma_completion.cc:307-372 | an event queue's consumer is never ahead of its producer nor more than the depth behind, modulo 2^32; an entry being written has a free slot; an early report names that entry |
| EngineTheorems.ReportsAreUnambiguous | components/udma-model/src/udma_resources.cc:437-455 | a 24-bit report is taken if and only if it is the residue of a position the guest can have reached; that position is unique and is where the consumer goes |
| EngineTheorems.NoHeadOfLineBlocking | components/udma-model/src/udma_completion.cc:294-326 | each event queue is served in the order its events were accepted, and while nothing is delivered an event waits only for a full or faulted queue of its own, unless the queue was created again under it and nobody has looked since |
| EngineRuns.NewQueueStrandsEvents | components/udma-model/src/udma_resources.cc:186-189 | in pipelined mode without one-shot notifications, for every JFC there is a run that comes to rest with an event waiting for an event queue that has no fault and nothing outstanding |
| EngineEvents.StepAttends | components/udma-model/src/udma_completion.cc:300-326 | every step keeps the order of events per queue, and leaves an event that has credit unattended if and only if it creates the queue of waiting events while nothing is delivered and nobody is about to look |
| EnginePromises.StepStands | components/udma-model/src/udma_completion.cc:66-378 | each of four promises, on admission, progress, delivery and parked destroys, is broken by a step if and only if the step is one of those named for it, by what the state is before it |
| EnginePromises.StandsUnlessBroken | components/udma-model/src/udma_completion.cc:66-378 | over runs, such a promise does not stand if and only if one of these steps broke it and it has not stood since |
| EngineTheorems.NothingOutlivesItsQueue | components/udma-model/src/udma_completion.cc:338-341 | no interleaving makes a callback look up a missing queue or take a counter below zero, and whatever is in flight finds its context |
| EngineTheorems.OneCommandAtATime | components/udma-model/src/udma_control.cc:299-335 | the busy flag of the command queue stands for exactly one outstanding callback or parked destroy, so at most one destroy of an event, completion, send or receive queue is deferred at any time |
| EngineTheorems.JfcDestroyedWhenUnused | components/udma-model/src/udma_resources.cc:96-103 | a JFC disappears only by its destroy and only when no publication, event or timer refers to it |
| EngineTheorems.CeqDestroyedWhenUnused | components/udma-model/src/udma_resources.cc:110-112 | an event queue disappears only by its destroy and only when no event and no JFC at work refers to it |
| EngineTheorems.ParkedMeansBusy | components/udma-model/src/udma_resources.cc:332-343 | at rest a parked destroy has something to wait for, unless notifications are one-shot and a timer that was the last to hold the resource ran out silently, after which nobody has looked; without one-shot notifications always |
| EngineRuns.SilentTimerStrandsDestroy | components/udma-model/src/udma_completion.cc:136-147 | for every JFC there is a run in which a parked destroy is left behind with nothing to wait for |
| EngineProof.StepSafe | components/udma-model/src/udma_completion.cc:66-378 | every step from a safe state is possible and leads to a safe state |
| EngineProof.ReportedCredit | components/udma-model/src/udma_resources.cc:437-455 | a report, taken or not, keeps the credit invariant of its queue |
| EngineWake.StepAwake | components/udma-model/src/udma_completion.cc:122-160 | a step leaves a queue that could be admitted without a pump on its way if and only if, with publications waiting, a free slot and no pump coming, it creates the context or reads a consumer index that makes room; and for a queue with nothing in flight, only the first |
| EngineDestroy.StepWatched | components/udma-model/src/udma_completion.cc:105-112 | a step breaks the promise that a parked destroy is busy or about to be looked at if and only if it takes an unarmed one-shot timer that is the last to hold the resource |
| EngineEvents.OfTake | components/udma-model/src/udma_completion.cc:308-320 | taking the first eligible event leaves the order of every event queue as it was |
| EngineCode.ExpiredTimers | components/udma-model/src/udma_completion.cc:132-135 | the snapshot holds exactly the timers that have run out |
| EngineCode.QueuesInTurn | components/udma-model/src/udma_completion.cc:148-156 | the pump visits every queue, in ascending order from the one after the last admitted |
| EngineCode.FindEvent | components/udma-model/src/udma_completion.cc:308-314 | the search finds the first event whose queue has credit or is gone |
| EngineCode.Device.WriteCqe | components/udma-model/src/udma_completion.cc:8-48 | work for a resource being destroyed is refused, other work is queued and the pump called; that no completion is dropped on the way is `NoCompletionIsLost` |
| EngineCode.Device.AdmitRound | components/udma-model/src/udma_completion.cc:78-113 | one round of the admission loop is the step `Admit` |
| EngineCode.Device.CqeWriteDone | components/udma-model/src/udma_completion.cc:212-257 | a CQE write, good or bad, commits, moderates or notifies as the step `WriteDone` says |
| EngineCode.Device.EmitCompletionEvent | components/udma-model/src/udma_completion.cc:275-298 | the slot goes to an event of the mapped queue, or is given back when the JFC is not armed or not mapped |
| EngineCode.Device.DeliverRound | components/udma-model/src/udma_completion.cc:300-331 | one round of the dispatch loop is the step `Deliver` |
| EngineCode.Device.CeqeWriteDone | components/udma-model/src/udma_completion.cc:338-373 | the acknowledgement moves the producer and spends an early report, or faults the queue |
| EngineCode.Device.ConsumerReport | components/udma-model/src/udma_resources.cc:423-458 | a consumer doorbell is taken, kept or refused as the step `Report` says |
| EngineCode.Device.HandleCeqConsumerMmio | components/udma-model/src/udma_resources.cc:423-434 | an access is a consumer doorbell exactly for its offset, length and type; one for an unknown queue or with a meaningless bit set changes nothing, any other is the step `Report` |
| EngineCode.DoorbellsAreRead | components/udma-model/src/udma_resources.cc:427-437 | the device reads queue and index back from what the guest writes |
| EngineCode.OnlyDoorbellsPass | components/udma-model/src/udma_resources.cc:427-437 | the values that pass the tests of type and meaningless bits are exactly the doorbells a guest may write |
| EngineCode.Device.KickUbase | components/udma-model/src/udma_control.cc:299-335 | a doorbell while a command is at work only moves the producer; otherwise the next descriptor is read |
| EngineCode.Device.JfcPublicationBusy | components/udma-model/src/udma_completion.cc:50-64 | the busy test decides whether a timer, an event or a publication refers to the JFC |
| EngineCode.Device.EventQueueBusy | components/udma-model/src/udma_resources.cc:402-421 | the loop over the JFCs decides whether anything refers to the event queue |
| CqRingTheorems.NothingUnreadIsOverwritten | components/udma-model/src/udma_completion.cc:186-213 | a completion lands in a blank slot or over one of the lap before that the guest has taken |
| CqRingTheorems.GuestTakesExactlyItsPosition | components/udma-model/src/udma_completion.cc:191-201 | the owner bit lets the guest take exactly the completion of its own position, as soon as it has landed |
| CqRingTheorems.GuestReceivesEachPositionOnce | components/udma-model/src/udma_completion.cc:203-213 | what the guest has received is, position by position, what the positions were reserved for |
| CqRingTheorems.CompletionsKeepAdmissionOrder | components/udma-model/src/udma_completion.cc:78-104 | positions are reserved and completions received in admission order, in both modes, when no query interferes |
| CqRingTheorems.QueryLetsCompletionsOvertake | components/udma-model/src/udma_resources.cc:386 | a run in which a query makes a later publication take the earlier position |
| CqRingTheorems.WithoutQueriesReadsAreTimely | components/udma-model/src/udma_completion.cc:259-272 | without queries the ring does not move during a refresh, so both hypotheses hold |
| CqRingStale.StaleSampleOverwritesUnread | components/udma-model/src/udma_resources.cc:384-386 | a run of a whole index space in which a query returns its first sample, the full ring looks empty and a completion nobody has taken is overwritten |
| CqRingProof.MaskedIsEnough | components/udma-model/src/udma_resources.cc:191-204 | for the depths a context can have, 22 bits of an index give the same slot and the same owner bit |
| CqRingProof.TrueDistance | components/udma-model/src/udma_completion.cc:191-194 | the masked distance is the true one while the producer is less than the index space ahead |
| WireProof.RoundTrip | components/udma-device-sim/src/main.cc:517-617 | for any frames, ring sizes, endpoints and interleavings a receiver raises an exception if and only if a message is delivered that fails the ingress tests of the fabric, belongs to a request of order 3, or ends one by a jetty of more than 20 bits; otherwise peer and fabric have exactly the frames and work requests that are complete, in order |
| WireProof.NothingHeldBack | components/udma-device-sim/src/main.cc:700-752 | when every frame is complete neither receiver holds a partial one |
| WireSlots.SlotRoundTrip | components/udma-device-sim/src/main.cc:517-752 | from slot to slot, for any frames, raw ones among them, any ring sizes and interleavings: a receiver raises an exception if and only if a slot arrives that is too long for the peer, fails the ingress tests, is of a request of order 3 or ends one by a jetty of more than 20 bits; otherwise the peer has exactly the frames, a raw one with its own route and bytes, and the fabric the work requests, all of whose slots arrived |
| WireSlots.SlotsHoldMessages | components/udma-device-sim/src/main.cc:556-594 | a UDMA frame is queued as its messages, each under a header with version 3 and its own length |
| WireSlots.SlotIsHeard | components/udma-device-sim/src/main.cc:681-690 | a slot that `Send` made and that fits the peer passes every test of the header: it is polled as the message it holds |
| WireChains.RefusedIff | components/udma-device-sim/src/main.cc:707-740 | whatever was received before, a fragment is refused if and only if it does not continue its frame: same fields, no gap, within the length, last exactly if it completes it |
| WireChains.OnlyWholeFrames | components/udma-device-sim/src/main.cc:700-752 | of any messages at all, the port raises an exception if and only if a fragment does not continue its frame, and otherwise has delivered exactly the frames that are complete |
| WireChains.RejectedIff | integrations/ns3ub/ub-net-adapter.cc:941-972 | whatever was received before, the fabric refuses a part if and only if it does not continue its work request, offsets compared modulo 2^32 |
| WireChains.OnlyWholeRequests | integrations/ns3ub/ub-net-adapter.cc:941-979 | of any messages at all, the fabric raises an exception if and only if a part does not continue its work request, and otherwise has submitted exactly those that are complete |
| WireProof.UnknownOrderIsRefused | integrations/ns3ub/ub-net-adapter.cc:946-950 | the fabric refuses each message of a request whose order is 3 |
| WireProof.PeerTakes | components/udma-device-sim/src/main.cc:707-750 | each message of a request extends the partial frame or completes it |
| WireProof.FabricTakes | integrations/ns3ub/ub-net-adapter.cc:955-978 | each message of a request extends the partial work request or submits it |
| WireProof.FlagsRead | protocol/ub_net/udma_wire.h:10-23 | packing flags and order into 16 bits loses only the upper bits of the order |
| Wire.NetworkPort.Send | components/udma-device-sim/src/main.cc:517-597 | a frame is refused exactly when it is neither raw nor of a known operation, is a SEND of more than 4096 bytes, or a slot has no room for a header; otherwise it is queued as its slots, after all earlier ones, and `SlotRoundTrip` says what becomes of them |
| Wire.SlotsFit | components/udma-device-sim/src/main.cc:568-576 | the slots of a request always fit the ring, that of a completion exactly if its payload does |
| Wire.NetworkPort.Split | components/udma-device-sim/src/main.cc:553-594 | the loop cuts a frame into its messages |
| Wire.NetworkPort.FlushOne | components/udma-device-sim/src/main.cc:603-638 | messages leave one by one in order, exactly when they fit a slot and the ring has room, and none is lost |
| Wire.NetworkPort.Receive | components/udma-device-sim/src/main.cc:681-752 | a slot delivers a raw frame or a frame, extends one, or raises the exception, with the tests of slot size, version and declared length |
| CommandQueue.HeadFollows | components/udma-model/src/udma_control.cc:415-417 | moving the head by a chain within what is pending shortens the distance by just that |
| CommandQueue.Queue.Doorbell | components/udma-model/src/udma_control.cc:299-305 | any producer may be announced at any time, also one that takes descriptors back; the queue goes on at once only if it is at rest, also after a failure, and exactly if the producer is not at its head |
| CommandQueue.Queue.Fetched | components/udma-model/src/udma_control.cc:315-416 | a chain is taken up if it is announced as a whole by then, otherwise its first descriptor alone is rejected; a failed read ends the work |
| CommandQueue.Queue.Answered | components/udma-model/src/udma_control.cc:729-742 | the head moves past an answered chain; the announced position stays as it was exactly if the chain was still announced; each descriptor belongs to one answered chain, and work goes on until the head meets the producer |
| CommandQueue.Queue.AllChainsTaken | components/udma-model/src/udma_control.cc:408-417 | at rest, if nothing failed, the chains answered are exactly those of a guest that announces whole chains |
| CommandQueue.Search | components/udma-model/src/udma_control.cc:545-550 | with fewer than 1023 routes the rotating search ends on the first free id |
| CommandQueue.Allocator.Allocate | components/udma-model/src/udma_control.cc:540-567 | an id is refused only when all are taken, an entity id is zero or no port is up; ids and cursor stay in range |
| CommandRing.BuildResponse | components/udma-model/src/udma_control.cc:682-729 | the writes of a response are the continuations needed and then the head with status, done flag and, for two opcodes, their word |
| CommandRing.ResponsesAreWhole | components/udma-model/src/udma_control.cc:682-742 | a response that passes the size check is read back whole from no more descriptors than it needs, in slots that differ; the head, written last, keeps opcode, flags and count of the command and adds status and done flag; two opcodes are answered with their word |
| CommandRing.BuildEvent | components/udma-model/src/udma_control.cc:626-646 | the loop splits an event over consecutive slots |
| CommandRing.EventsArriveWhole | components/udma-model/src/udma_control.cc:626-646 | an event that passes the depth check uses each slot at most once and is gathered back with zeros behind it; its first descriptor begins with the opcode and the done flag, and the count byte is right exactly below 256 blocks |
| CommandRing.GatherRestores | components/udma-model/src/udma_control.cc:460-485 | gathering 24 bytes and then 32 at a time restores the text |
| Receive.PiecesAreExact | components/udma-model/src/udma_receive.cc:302-340 | the pieces written are the payload in order and without gap, one to an entry and within it |
| Receive.ScatterSucceedsWhen | components/udma-model/src/udma_receive.cc:302-325 | scattering goes through exactly when all entries used are usable and no fewer had room |
| Receive.Receiver.PublishedFrameIsPlaced | components/udma-model/src/udma_receive.cc:302-303 | at publication the guest has the whole payload, over at most the entries the queue allows |
| Receive.Receiver.Process | components/udma-model/src/udma_receive.cc:219-257 | frames are taken up one at a time in arrival order; those that cannot be started fail, once each |
| Receive.Receiver.OnPlaced | components/udma-model/src/udma_receive.cc:330-340 | a written piece leads to the next entry, to publication, or to failure when the entries are used up; while reception goes on no queue, jetty or parked destroy changes, and what is owed to later frames stays owed |
| Receive.Receiver.OnCqe | components/udma-model/src/udma_receive.cc:356-365 | the receive queue moves on only when the completion was published, so that, as `Valid` keeps, its consumer is the number of receptions completed with it since its creation; the frame is released once, and the waiting ones stay in order but for those of a queue that goes with it |
| Receive.Receiver.Finish | components/udma-model/src/udma_receive.cc:229-236 | a release ends one frame, lets a parked destroy go on and takes up the next frame; no other waiting frame is lost, repeated or overtaken |
| Receive.Receiver.EndSending | components/udma-model/src/udma_resources.cc:475-486 | when the sending side is done with a jetty, its parked destroy goes on unless a frame of it is being received |
| Receive.Receiver.CreateJetty | components/udma-model/src/udma_resources.cc:59-69 | a jetty is created unless the id is taken or all are |
| Receive.Receiver.Destroy | components/udma-model/src/udma_resources.cc:71-104 | a queue in use is parked; otherwise it goes with exactly the frames that wait for it |
| Receive.KeptAre | components/udma-model/src/udma_resources.cc:84-90 | of the waiting frames exactly those for the queue that goes are dropped |
| Receive.KeptOne | components/udma-model/src/udma_resources.cc:84-90 | each waiting frame is kept or dropped by itself, and those that are kept keep their order |

## Left out

- The send queue engine, prefetch, token and address translation, page tables and the CQE bit layout: DMA and `CompleteSq` are the environment.
- The native transport itself (routing, windows, retransmission, congestion marking): it sends segments in order and completes each once, in any order.
- Ring synchronisation and virtual time: rings are FIFOs, epochs are counted instead of timed.
- The fence does not look into frames: which bytes a part of a work request carries is the subject of `Wire`.
- The asynchronous event queue itself: its commands occupy the command queue, and a mailbox event has parked destroys looked at; interrupt programming.
- Context creation, modification and query commands of the completion engine are steps of `Engine` only; the class `EngineCode.Device` covers publication, pump, events, reports and destroys.
- Creation commands are modelled after their context has arrived; rejections for malformed contexts are one outcome.
- Byte layout of the wire header: messages are records, and a raw frame is one that does not begin with the header's magic number.
- FenceProof.FenceAgreement: stated for commit passes that reach all endpoints or none, because a partial pass breaks it, see `PartialCommitPassLetsAFrameCross`.
- CqRingTheorems.CompletionsKeepAdmissionOrder: stated for runs in which no query moves the cached consumer during a refresh, because such a query breaks it, see `QueryLetsCompletionsOvertake`.
- CqRingTheorems.NothingUnreadIsOverwritten: stated for runs that keep `Timely`, because a sample a whole index space old reads as an empty ring, see `StaleSampleOverwritesUnread`.
- FenceFaults.NoParticipantRaises: says nothing of a work request for an endpoint there is not, or for its own sender, which is an exception the guest can cause at any time.
- ReadMany.ManyReadsAreExact: stated for READs that are each carried and placeable, whose buffers do not meet, and whose request and task numbers are distinct, as the programs count them.
- ReadPathProof.ReadIsExact: stated for READs that the adapter carries and whose buffer fits, because the others never complete, see `NeverThrowsIffCarried` and `BufferBeyondTheEndIsRefused`; target errors and failing local DMA are not part of the end-to-end run, `RmaTable.Table` covers them for the requesting device.
- RmaTable.Table.IdleQueueOwnsNothing: `QueueBusy` is the part of the busy test that looks at requests and their DMA; prepared WRITEs and the send queue's own flag are not part of this model, and `Receive.Receiver` has the frame being received.
- WireProof.RoundTrip: stated without raw frames, which `SlotRoundTrip` has; what the fabric does with the completions it takes in is `Native.Tasks.CompleteTargetExecution`; streams open at the same time have distinct pairs of source and sequence number, as senders number their frames, and payloads fit the 32-bit length field.
- EngineModeration.EveryCompletionIsAnnounced: stated for runs in which no guest changes the moderation of a JFC, because a smaller batch may already be exceeded when it is set; with one-shot notifications `ArmedExactly` and `NoEventUnarmed` say when events come.
- WritePathProof.WriteIsExact: one WRITE of at least one byte; a failing read of its payload, which ends it before it is sent, is not part of the run, and a failed target DMA is taken to have written nothing.
- ReadPathProof.RepliesAreAddressed: a frame of another operation for the request is counted as an error at the device there; what the report of a failure does to a READ is `RmaTable.Table.ReceiveError`.
- WireSlots.SlotRoundTrip: raw slots are heard by the peer alone, as the fabric takes UDMA messages only.
- CommandQueue.Queue.Doorbell: the announced position is the producer read as less than a lap ahead of the head, as the ring cannot tell a full queue from an empty one; base and depth are not reprogrammed while the queue is busy.
- Busy tests of asynchronous event, send and receive queues are inputs of the command queue in `Engine`; `Receive.Receiver` and `RmaTable.Table` model the latter.
- Counters of work done, producer indices and times are unbounded numbers; the 32-bit and 24-bit counters of event queues and the 22-bit ring indices wrap as in the program.
- Firmware tables, capability constants, counters, timing, logs, checkpoints, option parsing and signals.
