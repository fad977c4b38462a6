# Rebus Azure Service Bus transport, modelled in Dafny

This project models the core of the Azure Service Bus transport of the Rebus
message bus (`AzureServiceBusMessageQueue`) and proves properties of it. The
backend delivers messages by calling a callback, with at most one message in
flight per queue. The bus core wants to poll for messages and to receive,
commit and roll back inside a transaction. The transport bridges the two:

- **Working slot** (`MessageBridge`): the delivery callback offers each
  message into a per-queue slot. A poll takes the slot's message and marks the
  slot processed. The next poll releases a processed slot and signals its
  completion handle, so the backend may deliver again.
- **Transaction protocol** (`Transport.TransactionContext`,
  `Transport.AzureServiceBusMessageQueue`):
  - a transactional send only appends `(destination, envelope)` to the pending
    batch;
  - a transactional receive records the received message, the renewal time,
    the renewal action, the timer and the commit, rollback and cleanup hooks;
  - the commit hook flushes the batch, then completes the received message,
    or abandons it on failure;
  - rollback abandons the message; cleanup stops the timer and disposes the
    message.
- **Batch flush** (`Batching`, `Commit`): the batch is grouped by destination
  in first-occurrence order. A group of fewer than 100 envelopes is sent one
  envelope at a time. A larger group is sent as ordered batches of 100, the
  last possibly smaller. The first failure aborts the rest.
- **Peek-lock renewal**: at most one renewal at a time per context. The
  renewal time changes only when the renewal succeeds, and renewal never
  raises.
- **Client cache** (`QueueClients`): one client context per queue name. A
  closed client is replaced on the next lookup.
- **Envelope mapping** (`Messages`): the conversions between the bus core's
  messages, the wire envelope and the brokered message. Three headers are
  promoted into brokered-message properties.

The backend is `ServiceBus.Backend`, a log of the calls that took effect.
Every fallible call consumes one attempt number `k` and fails exactly when the
environment's `fails(k)` holds. A send through the retrier counts as one
attempt that succeeds or gives up. Exceptions become `Outcome`/`Option`
results. The imperative parts are classes with `modifies` frames:
- the working slots, the client cache and the transaction context;
- the queue, whose nested flush loops update the dispose list.

Each of these methods is proved against a pure function of its inputs:
`DoCommit` against `Commit.CommitRun`, a delivery's hand-over against
`Transport.HandOver`, the flush loops against `Commit.ExecFlush` of
`Batching.Plan`. The lemmas state the properties about those functions.

Where the code does something other than one might expect, the model follows the code:
- A transactional receive after the batch exists (the state conflict) does
  not raise to the caller. The message is abandoned, which is a backend call,
  and the receive returns null, because the outer catch swallows every
  exception. The check is whether the batch exists, not whether it has
  entries.
- The renewal timer starts when the interval exceeds one second. The interval
  is not compared with the lock duration.
- A lost lock does not stop renewal: the renewal failure is logged and the
  timer keeps its state.

Other behaviour as written, which the model keeps and proves:
- A non-transactional delivery is completed before it is handed over. When its
  body cannot be deserialised it is still completed, so it is lost
  (`Transport.UndeserialisableDeliveryLost`).
- A brokered message is constructed before its headers are read. An envelope
  with a null header dictionary therefore leaves a constructed message behind
  that is never disposed. In a batch chunk whose conversion fails part-way,
  every message built for the chunk is left off the dispose list: with a bad
  second envelope, that is two messages (`Commit.PartialChunkNotDisposed`).
  A single send of such an envelope leaves one (`Commit.NullHeaderSendNotDisposed`).
  The same happens in a non-transactional send, where the `using` block never
  receives the message; the model of that send does not track created messages.
- A transactional receive whose body cannot be deserialised still leaves the
  message, its timer and its hooks recorded in the context.

## Model

| member | source | states |
|---|---|---|
| Messages.Lookup | src/Rebus.AzureServiceBus/AzureServiceBusMessageQueue.cs:593-606 | a header is found exactly when its key is present, with that key's value |
| Messages.CreateEnvelope | src/Rebus.AzureServiceBus/AzureServiceBusMessageQueue.cs:425-435 | body and label are copied; a null header dictionary stays null; otherwise the same keys with the same values |
| Messages.CreateReceivedTransportMessage | src/Rebus.AzureServiceBus/AzureServiceBusMessageQueue.cs:437-448 | id, body and label are copied; null headers become an empty dictionary, otherwise the same keys and values |
| Messages.CreateBrokeredMessage | src/Rebus.AzureServiceBus/AzureServiceBusMessageQueue.cs:589-611 | raises exactly when the headers are null; otherwise wraps the envelope, copies the label, and sets MessageId, CorrelationId and ReplyTo each exactly when its header key is present, to that header's value |
| Messages.SendReceiveRoundTrip | src/Rebus.AzureServiceBus/AzureServiceBusMessageQueue.cs:425-448 | send then receive gives back the body, label and headers that were sent; the id is the message-id header when present, else the backend's id |
| Messages.NullHeadersNeverSent | src/Rebus.AzureServiceBus/AzureServiceBusMessageQueue.cs:589-593 | a message with null headers can never become a brokered message |
| ServiceBus.Backend.Attempt | src/Rebus.AzureServiceBus/AzureServiceBusMessageQueue.cs:130-143 | a retried call uses one attempt, and only a call that succeeded enters the log |
| ServiceBus.Backend.Dispose | src/Rebus.AzureServiceBus/AzureServiceBusMessageQueue.cs:583-586 | a disposal always enters the log and uses no attempt |
| Batching.GroupByGroups | src/Rebus.AzureServiceBus/AzureServiceBusMessageQueue.cs:498-505 | one group per destination, no destination twice; each group is non-empty and holds exactly that destination's envelopes, in batch order; no groups exactly when the batch is empty |
| Batching.DestinationsMembership | src/Rebus.AzureServiceBus/AzureServiceBusMessageQueue.cs:498-500 | a destination is a group key exactly when some pending pair is addressed to it |
| Batching.DestinationsDistinct | src/Rebus.AzureServiceBus/AzureServiceBusMessageQueue.cs:498-500 | no destination has two groups |
| Batching.DestinationsPrefix | src/Rebus.AzureServiceBus/AzureServiceBusMessageQueue.cs:498-500 | groups are in first-occurrence order: the groups of a prefix of the batch come first, in the same order |
| Batching.FilterAppend | src/Rebus.AzureServiceBus/AzureServiceBusMessageQueue.cs:498-505 | a group of a concatenation is the concatenation of the groups, so relative order is kept |
| Batching.FilterSingle | src/Rebus.AzureServiceBus/AzureServiceBusMessageQueue.cs:498-505 | a group keeps exactly the envelopes addressed to its destination |
| Batching.FilterNonEmpty | src/Rebus.AzureServiceBus/AzureServiceBusMessageQueue.cs:498-505 | a destination's group is non-empty exactly when it is a group key |
| Batching.SingleDestination | src/Rebus.AzureServiceBus/AzureServiceBusMessageQueue.cs:498-505 | a batch to one destination forms one group holding all of it, in order |
| Batching.PartitionFlatten | src/Rebus.AzureServiceBus/AzureServiceBusMessageQueue.cs:532 | chunking neither loses nor reorders envelopes: the chunks put back together are the group |
| Batching.PartitionSizes | src/Rebus.AzureServiceBus/AzureServiceBusMessageQueue.cs:532 | every chunk holds n envelopes except the last, which holds 1 to n; no chunks exactly when there is nothing to chunk |
| Batching.GroupStepsCarry | src/Rebus.AzureServiceBus/AzureServiceBusMessageQueue.cs:502-559 | a group's operations carry exactly its envelopes, in order, all to its destination |
| Batching.SmallGroupSentIndividually | src/Rebus.AzureServiceBus/AzureServiceBusMessageQueue.cs:507-528 | under 100 envelopes, a group becomes one single send per envelope, in order |
| Batching.LargeGroupSentInChunks | src/Rebus.AzureServiceBus/AzureServiceBusMessageQueue.cs:530-557 | from 100 envelopes on, a group becomes batch sends only, each of 100 envelopes except the last, which holds 1 to 100, carrying the group in order |
| Batching.TwoHundredFiftyToOneDestination | src/Rebus.AzureServiceBus/AzureServiceBusMessageQueue.cs:530-557 | 250 envelopes to one destination give batches of 100, 100 and 50, in order |
| Batching.FortyToOneDestination | src/Rebus.AzureServiceBus/AzureServiceBusMessageQueue.cs:507-528 | 40 envelopes to one destination give 40 single sends, in order |
| Batching.HundredToOneDestination | src/Rebus.AzureServiceBus/AzureServiceBusMessageQueue.cs:530-557 | exactly 100 envelopes give one batch holding all of them |
| Batching.PlanGroupsCarry | src/Rebus.AzureServiceBus/AzureServiceBusMessageQueue.cs:502-559 | the plan carries the groups one after another |
| Batching.PlanGroupsAppend | src/Rebus.AzureServiceBus/AzureServiceBusMessageQueue.cs:502-559 | the operations for two runs of groups are the operations of the first run followed by those of the second |
| Batching.GroupingIsPermutation | src/Rebus.AzureServiceBus/AzureServiceBusMessageQueue.cs:498-505 | the groups together hold exactly the pending envelopes, as a multiset |
| Batching.PlanIsPermutation | src/Rebus.AzureServiceBus/AzureServiceBusMessageQueue.cs:496-559 | the flush plan sends every pending envelope exactly once: a permutation of the batch |
| Commit.CreateAll | src/Rebus.AzureServiceBus/AzureServiceBusMessageQueue.cs:539-541 | a chunk converts fully exactly when all its envelopes have headers; otherwise the converted part is the prefix before the first envelope without them |
| Commit.ExecStep | src/Rebus.AzureServiceBus/AzureServiceBusMessageQueue.cs:513-557 | an operation only adds to the calls, the created messages and the dispose list; it goes through exactly when its envelopes convert and its attempt does not fail; an unconvertible one uses no attempt, makes no call, adds nothing to the dispose list and raises for null headers; a convertible one uses one attempt, makes its send call unless it fails, and lists everything it created for disposal; which messages it creates is stated by `Commit.StepCreates` |
| Commit.StepCreates | src/Rebus.AzureServiceBus/AzureServiceBusMessageQueue.cs:513-557 | a convertible operation creates one brokered message per envelope, in order, exactly the ones its call sends, and lists them all for disposal; otherwise, with k the envelopes converted before the first without headers (:539-541), it creates those k and then the half-built message of envelope k (`Messages.Constructed`, built at :591 before the header lookup at :593 raises) and lists none of them for disposal |
| Commit.ExecFlush | src/Rebus.AzureServiceBus/AzureServiceBusMessageQueue.cs:496-559 | the dispose list is a prefix of the created messages; a flush that raises nothing makes one call per planned operation, uses one attempt per operation and puts everything created on the dispose list |
| Commit.FlushBounds | src/Rebus.AzureServiceBus/AzureServiceBusMessageQueue.cs:496-559 | the flush uses at most one attempt per planned operation and never makes more calls than it used attempts |
| Commit.ExecAbortsAfterFault | src/Rebus.AzureServiceBus/AzureServiceBusMessageQueue.cs:502-559 | after an operation raises, no later operation runs |
| Commit.ExecAllSucceed | src/Rebus.AzureServiceBus/AzureServiceBusMessageQueue.cs:496-559 | with no failure, every planned operation goes through once, in plan order, and everything created is on the dispose list |
| Commit.FirstFailureAborts | src/Rebus.AzureServiceBus/AzureServiceBusMessageQueue.cs:513-557 | when operation k is the first to fail, exactly the operations before it took effect and the flush raises for k's destination |
| Commit.FlushOnlySends | src/Rebus.AzureServiceBus/AzureServiceBusMessageQueue.cs:496-559 | the flush only sends; it never completes, abandons or disposes |
| Commit.FlushDisposesAllCreated | src/Rebus.AzureServiceBus/AzureServiceBusMessageQueue.cs:513-543 | when every envelope has headers, every brokered message created is on the dispose list, whatever fails |
| Commit.PartialChunkNotDisposed | src/Rebus.AzureServiceBus/AzureServiceBusMessageQueue.cs:539-543 | a chunk whose second envelope has null headers builds two brokered messages, the first in full and the second up to its constructor, and disposes neither |
| Commit.NullHeaderSendNotDisposed | src/Rebus.AzureServiceBus/AzureServiceBusMessageQueue.cs:513-516 | a single send of an envelope with null headers builds one brokered message up to its constructor, never disposes it, and makes no attempt |
| Commit.CommitFlush | src/Rebus.AzureServiceBus/AzureServiceBusMessageQueue.cs:488-500 | a null batch raises before anything is sent or created and uses no attempt; an empty batch sends nothing and raises nothing |
| Commit.Settle | src/Rebus.AzureServiceBus/AzureServiceBusMessageQueue.cs:562-582 | the outcome is a fault exactly when the flush or Complete raised, and the flush's fault wins; Complete is attempted only after a clean flush; after a fault, Abandon is attempted once and its own failure is swallowed |
| Commit.CommitRun | src/Rebus.AzureServiceBus/AzureServiceBusMessageQueue.cs:483-587 | the commit fails exactly when the flush raised or the Complete attempt failed, with the flush's fault when there was one; one more attempt for the received message, two when Complete fails, none without one |
| Commit.CommitLayout | src/Rebus.AzureServiceBus/AzureServiceBusMessageQueue.cs:483-587 | the commit's log (computed by `Commit.Finish` after the flush) is the flush's calls, then at most one call, the Complete or the abandon of the received message, then the disposal of the whole dispose list, in order, whatever failed |
| Commit.CompletedIffCommitted | src/Rebus.AzureServiceBus/AzureServiceBusMessageQueue.cs:562-565 | the received message is completed exactly when the commit succeeds, and then right after the whole flush |
| Commit.FailedCommitAbandons | src/Rebus.AzureServiceBus/AzureServiceBusMessageQueue.cs:567-582 | a failed commit re-raises the original fault, never completes, and has an abandon in its log exactly when that abandon succeeded |
| Commit.FinishFailed | src/Rebus.AzureServiceBus/AzureServiceBusMessageQueue.cs:567-582 | after a send-only flush, a failing settlement reports the flush's fault, or the Complete failure when the flush was clean, never completes, and abandons exactly when that abandon attempt succeeds |
| Commit.SendOnlyCommit | src/Rebus.AzureServiceBus/AzureServiceBusMessageQueue.cs:485-487 | a commit without a received message neither completes nor abandons, and succeeds exactly when the flush does |
| Commit.CommitDisposesEverything | src/Rebus.AzureServiceBus/AzureServiceBusMessageQueue.cs:583-586 | when every envelope has headers, the commit ends by disposing every brokered message it created, in order, whatever the outcome |
| Commit.Commit250ToOneDestination | src/Rebus.AzureServiceBus/AzureServiceBusMessageQueue.cs:496-586 | a clean commit of 250 envelopes to one destination makes three batch sends (100, 100 and 50 messages), then Complete, then 250 disposals |
| MessageBridge.WorkingMessageContext.constructor | src/Rebus.AzureServiceBus/AzureServiceBusMessageQueue.cs:671-677 | a new slot holds its correlation id and message, neither processed nor signalled |
| MessageBridge.WorkingQueue.constructor | src/Rebus.AzureServiceBus/AzureServiceBusMessageQueue.cs:42 | the working queue starts with no slots and no signalled ids |
| MessageBridge.WorkingQueue.SetCurrentMessageContext | src/Rebus.AzureServiceBus/AzureServiceBusMessageQueue.cs:349-364 | an offer to an occupied queue returns null and changes nothing; otherwise a fresh unprocessed slot with a new correlation id holds the message; at most one slot per queue is kept |
| MessageBridge.WorkingQueue.TryGetMessageFromWorkingQueue | src/Rebus.AzureServiceBus/AzureServiceBusMessageQueue.cs:339-347 | returns the queue's slot without removing it, or null when there is none |
| MessageBridge.WorkingQueue.CompletePreviousMessage | src/Rebus.AzureServiceBus/AzureServiceBusMessageQueue.cs:323-337 | an unprocessed slot is left as it is; a processed one is removed and signalled, and its id joins the signalled ids, which never repeat (signalled exactly once); every other queue's slot keeps its flags |
| QueueClients.QueueClientContext.constructor | src/Rebus.AzureServiceBus/AzureServiceBusMessageQueue.cs:679-690 | a new context holds its client and queue name and is not yet configured for receive events |
| QueueClients.ClientCache.constructor | src/Rebus.AzureServiceBus/AzureServiceBusMessageQueue.cs:41 | the client cache starts empty |
| QueueClients.ClientCache.CreateNewClientContext | src/Rebus.AzureServiceBus/AzureServiceBusMessageQueue.cs:176-180 | a fresh, open client for the queue in a fresh, unconfigured context |
| QueueClients.ClientCache.GetClientContextFor | src/Rebus.AzureServiceBus/AzureServiceBusMessageQueue.cs:163-174 | returns the cached context when its client is open; otherwise stores and returns a fresh one; the result is for dest and open |
| Transport.TransactionContext.constructor | src/Rebus.AzureServiceBus/AzureServiceBusMessageQueue.cs:28-36 | a new context holds no batch, no received message, no renewal time, action or timer, no hooks, and is not renewing |
| Transport.HandOver | src/Rebus.AzureServiceBus/AzureServiceBusMessageQueue.cs:237-320 | a delivery reaches the caller exactly when its body deserialises and either there is no conflict (transactional) or Complete succeeded (non-transactional), as the received message of that id and envelope. Transactional: no backend call. Non-transactional: Complete then Dispose. Any failure: an abandon attempt, whose success alone puts Abandon in the log, then null; the exact failure-case log is stated by `Transport.HandOverFailureCalls` |
| Transport.HandOverFailureCalls | src/Rebus.AzureServiceBus/AzureServiceBusMessageQueue.cs:237-320 | a delivery that is not handed over costs exactly the abandon attempt in a transaction (a conflict included, :239-245); outside one, the Complete and the disposal when Complete succeeded, then the abandon attempt; no other backend call |
| Transport.ConflictNeverHandsOver | src/Rebus.AzureServiceBus/AzureServiceBusMessageQueue.cs:239-245 | a transactional receive after the batch exists returns null, never completes, and abandons |
| Transport.UndeserialisableDeliveryLost | src/Rebus.AzureServiceBus/AzureServiceBusMessageQueue.cs:267-280 | outside a transaction, an undeserialisable delivery is completed first and then returns null |
| Transport.AzureServiceBusMessageQueue.constructor | src/Rebus.AzureServiceBus/AzureServiceBusMessageQueue.cs:41-46 | empty slots and cache; the renewal interval defaults to 4.5 minutes |
| Transport.AzureServiceBusMessageQueue.SetAutomaticPeekLockRenewalInterval | src/Rebus.AzureServiceBus/AzureServiceBusMessageQueue.cs:636-639 | sets the renewal interval |
| Transport.AzureServiceBusMessageQueue.Send | src/Rebus.AzureServiceBus/AzureServiceBusMessageQueue.cs:120-161 | non-transactional: one send attempt of the converted message, then its disposal, or a fault for null headers with no backend call; only dest's client context may change. Transactional: no backend call and no client lookup; (dest, envelope) is appended at the end of the batch; the batch is created and the commit hook added only when absent; nothing else changes |
| Transport.AzureServiceBusMessageQueue.OnMessage | src/Rebus.AzureServiceBus/AzureServiceBusMessageQueue.cs:198-211 | the callback keeps a delivery exactly when the queue's slot is free, in a fresh slot that is the only change to the slots; otherwise it abandons the delivery and the slots are unchanged; no slot is signalled; a kept delivery's slot takes the next correlation id, and a refused one leaves the counter as it was |
| Transport.AzureServiceBusMessageQueue.EnsureClientConfiguredForReceiveEvents | src/Rebus.AzureServiceBus/AzureServiceBusMessageQueue.cs:182-193 | the context ends up marked as configured for receive events |
| Transport.AzureServiceBusMessageQueue.ReceiveMessage | src/Rebus.AzureServiceBus/AzureServiceBusMessageQueue.cs:214-321 | releases a processed slot. With no waiting delivery: null and no backend call. Otherwise marks the slot processed and does what HandOver says; a transactional receive without a batch records the delivery, the renewal time and action, the timer (only for an interval over one second) and the hooks; otherwise the context is unchanged. Other queues' slots and flags, and other queues' client contexts, are unchanged; the correlation-id counter is unchanged |
| Transport.AzureServiceBusMessageQueue.TakeOffered | src/Rebus.AzureServiceBus/AzureServiceBusMessageQueue.cs:218-234 | the slot side of a poll returns the delivery that was waiting: release, configure the input client, take the waiting delivery; only the input queue's slot and client context change; the correlation-id counter is unchanged |
| Transport.AzureServiceBusMessageQueue.ReleaseAndListen | src/Rebus.AzureServiceBus/AzureServiceBusMessageQueue.cs:218-221 | releases a processed input slot and configures the input client, leaving the waiting delivery as it was; only the input queue's slot and client context change; the correlation-id counter is unchanged |
| Transport.AzureServiceBusMessageQueue.ListenOnInputQueue | src/Rebus.AzureServiceBus/AzureServiceBusMessageQueue.cs:220-221 | the input queue's cached context is configured for receive events, and is the same context when its client was open; no other queue's context changes |
| Transport.AzureServiceBusMessageQueue.TakeWaiting | src/Rebus.AzureServiceBus/AzureServiceBusMessageQueue.cs:223-234 | returns the waiting delivery and marks its slot processed before it is handed over; no other slot changes |
| Transport.AzureServiceBusMessageQueue.HandOverDelivery | src/Rebus.AzureServiceBus/AzureServiceBusMessageQueue.cs:237-296 | the hand-over of a taken delivery, as HandOver says, with the context set up only when transactional without a batch |
| Transport.AzureServiceBusMessageQueue.RecordReceived | src/Rebus.AzureServiceBus/AzureServiceBusMessageQueue.cs:247-264 | stores the delivery, an empty batch, now as the renewal time, the renewal action for its id, the timer when the interval exceeds one second, and each hook once |
| Transport.AzureServiceBusMessageQueue.Deliver | src/Rebus.AzureServiceBus/AzureServiceBusMessageQueue.cs:267-296 | the body read, the non-transactional complete and dispose, and the abandon on failure, as HandOver says |
| Transport.AzureServiceBusMessageQueue.SendIndividually | src/Rebus.AzureServiceBus/AzureServiceBusMessageQueue.cs:513-528 | one small-group envelope is converted, put on the dispose list and sent: one flush step; the client cache changes only at dest: no context is dropped, no other queue gains one, and every other cached context stays the same object |
| Transport.AzureServiceBusMessageQueue.SendChunk | src/Rebus.AzureServiceBus/AzureServiceBusMessageQueue.cs:537-557 | one chunk is converted, added to the dispose list and batch-sent: one flush step; the client cache changes only at dest: no context is dropped, no other queue gains one, and every other cached context stays the same object |
| Transport.AzureServiceBusMessageQueue.SendEach | src/Rebus.AzureServiceBus/AzureServiceBusMessageQueue.cs:508-528 | the loop over a small group runs that group's planned operations; the client cache changes only at dest: no context is dropped, no other queue gains one, and every other cached context stays the same object |
| Transport.AzureServiceBusMessageQueue.SendInChunks | src/Rebus.AzureServiceBus/AzureServiceBusMessageQueue.cs:530-557 | the loop over a large group's chunks runs that group's planned operations; the client cache changes only at dest: no context is dropped, no other queue gains one, and every other cached context stays the same object |
| Transport.AzureServiceBusMessageQueue.SendGroup | src/Rebus.AzureServiceBus/AzureServiceBusMessageQueue.cs:502-559 | a group is sent individually under the threshold and in chunks otherwise; the client cache changes only at dest: no context is dropped, no other queue gains one, and every other cached context stays the same object |
| Transport.AzureServiceBusMessageQueue.Flush | src/Rebus.AzureServiceBus/AzureServiceBusMessageQueue.cs:496-560 | the loop over groups does exactly what ExecFlush of the plan says: calls, attempts, dispose list and fault; the client cache changes only at the batch's destinations: no context is dropped, no other queue gains one, and every other cached context stays the same object |
| Transport.AzureServiceBusMessageQueue.FlushPending | src/Rebus.AzureServiceBus/AzureServiceBusMessageQueue.cs:486-500 | a null batch raises before anything is sent; an empty one sends nothing; the client cache changes only at the batch's destinations, so not at all for a null or empty batch |
| Transport.AzureServiceBusMessageQueue.DisposeAll | src/Rebus.AzureServiceBus/AzureServiceBusMessageQueue.cs:583-586 | disposes the dispose list in order, with no attempt used |
| Transport.AzureServiceBusMessageQueue.SettleReceived | src/Rebus.AzureServiceBus/AzureServiceBusMessageQueue.cs:562-582 | completes or abandons the received message, as Settle says |
| Transport.AzureServiceBusMessageQueue.SettleAndDispose | src/Rebus.AzureServiceBus/AzureServiceBusMessageQueue.cs:562-586 | after the flush: the settlement as Settle says, then every message on the dispose list disposed in order |
| Transport.AzureServiceBusMessageQueue.DoCommit | src/Rebus.AzureServiceBus/AzureServiceBusMessageQueue.cs:483-587 | the backend log, the attempts and the outcome are exactly CommitRun's, whose properties are the Commit lemmas above; the client cache changes only at the batch's destinations, so not at all for a null or empty batch |
| Transport.AzureServiceBusMessageQueue.DoRollBack | src/Rebus.AzureServiceBus/AzureServiceBusMessageQueue.cs:450-461 | one abandon attempt on the received message, whose failure is swallowed; nothing without one |
| Transport.AzureServiceBusMessageQueue.DoCleanUp | src/Rebus.AzureServiceBus/AzureServiceBusMessageQueue.cs:463-481 | a running timer is stopped and disposed, then the received message is disposed; nothing else changes and nothing raises |
| Transport.AzureServiceBusMessageQueue.RenewPeekLock | src/Rebus.AzureServiceBus/AzureServiceBusMessageQueue.cs:366-407 | with the renewing flag set, nothing happens. Otherwise one renewal attempt on the received message (none without one); the renewal time becomes now only on success; the flag is clear on exit; other context state is unchanged; nothing raises |

## Left out

- Queue provisioning and management (the constructor's `NamespaceManager` set-up, `EnsureQueueExists`, `Purge`, `Delete`) and the send-only mode with a null input queue: network calls with sleeps.
- The delivery callback's registration through `OnMessageAsync`, the `TaskCompletionSource` continuations and the lock in `EnsureClientConfiguredForReceiveEvents`. The callback is the method `OnMessage`, and a set completion handle is the `signalled` flag. Concurrency between the callback, the timer and the poll is not modelled. In particular the renewal guard's check and set are not atomic in the source (two steps on the context bag), and the model runs them as one sequential step.
- The retrier's internals (backoff schedules, exception classification, lock-lost not being retried). Each retried call is one attempt that succeeds or gives up; `Partition` is modelled as ordered chunking.
- `ScheduleInvocation` and the timer's firing, `DateTime.UtcNow` (a `now` parameter), `TimeSinceLastLockRenewal`, and all logging and tracing.
- `GetBody<Envelope>`: deserialisation is a delivery whose body is present or missing.
- `Dispose` closing the cached clients: foreign I/O. `QueueClient.Close` is modelled, but only to let a cached client be closed.
- Header values are modelled by the text their `ToString` gives. `Guid.NewGuid()` correlation ids are a counter. The header key literals (`Headers.MessageId` and so on) are defined outside this file; the model names them `rebus-msg-id`, `rebus-correlation-id` and `rebus-return-address`, and no property depends on the text.
- `src/Rebus.AzurePersistence/AzureTableStorageSubscriptionStorage.cs`: every operation in it is a call into the Azure Table library.
- The integration tests `src/Rebus.Tests/Integration/TestMessageAudit.cs` and `src/Rebus.Tests/Bugs/DoesNotCreateAndBindErrorQueueTooEarlyWithRabbitMq.cs`: they run against live brokers and assert nothing about this component.
- Disposal of brokered messages and of the received message never raises in the model, so the cleanup's swallowing of a failed dispose shows only as the absence of a fault. Rollback disposes nothing; the failure it swallows is the abandon's, which is modelled.
- Transport.AzureServiceBusMessageQueue.Send: header values are strings in the model, so the `ToString()` of a null header value in `CreateEnvelope` (line 431) never raises. In a transactional send the source raises there after the batch and the commit hook have been created (lines 150-154), leaving both behind; the model returns `Pass` with the envelope appended. `Messages.CreateEnvelope` has the same gap.
