/**
 * The transport itself: the transaction context it keeps its state in, and
 * the queue object whose operations send, receive, commit, roll back, clean
 * up and renew peek locks against the backend.
 */
module Transport {
  import opened Wrappers
  import opened Messages
  import opened Batching
  import opened ServiceBus
  import opened Commit
  import opened MessageBridge
  import opened QueueClients

  /** TimeSpan values are counted in ticks of 100 nanoseconds. */
  const TicksPerSecond: int := 10_000_000
  /** 4.5 minutes. */
  const DefaultPeekLockRenewalInterval: int := 2_700_000_000

  /** The peek-lock renewal timer kept in the context (its firing is not modelled). */
  datatype TimerState = NoTimer | Running(interval: int) | Disposed(interval: int)

  /**
   * The transaction context's items, as typed fields: the pending batch, the
   * received message, the time of the last lock renewal, the renewal action
   * (standing for the message id it renews for), the timer, the renewing
   * flag, and how many commit, rollback and cleanup hooks have been added.
   */
  class TransactionContext {
    const isTransactional: bool
    var batch: Option<Pending>
    var received: Option<Delivery>
    var renewedAt: Option<int>
    var renewAction: Option<string>
    var timer: TimerState
    var renewing: bool
    var commitHooks: nat
    var rollbackHooks: nat
    var cleanupHooks: nat

    /**
     * The commit hook is added exactly once, together with the batch; the
     * rollback and cleanup hooks exactly once, together with the received
     * message, which only a transactional context holds and always alongside
     * a batch, a renewal time and a renewal action for its id.
     */
    ghost predicate Valid()
      reads this
    {
      && commitHooks == (if batch.Some? then 1 else 0)
      && rollbackHooks == (if received.Some? then 1 else 0)
      && cleanupHooks == rollbackHooks
      && (received.Some? ==>
            batch.Some? && renewedAt.Some? && renewAction == Some(received.value.messageId))
      && (received.None? ==> timer == NoTimer && renewAction.None?)
      && (!isTransactional ==> batch.None? && received.None?)
    }

    constructor (isTransactional: bool)
      ensures Valid() && this.isTransactional == isTransactional
      ensures batch.None? && received.None? && renewedAt.None? && !renewing
      ensures renewAction.None? && timer == NoTimer
      ensures commitHooks == 0 && rollbackHooks == 0 && cleanupHooks == 0
    {
      this.isTransactional := isTransactional;
      batch := None;
      received := None;
      renewedAt := None;
      renewAction := None;
      timer := NoTimer;
      renewing := false;
      commitHooks := 0;
      rollbackHooks := 0;
      cleanupHooks := 0;
    }
  }

  /** The backend calls a receive makes once it holds a delivery, and what it returns. */
  datatype HandedOver = HandedOver(calls: seq<Call>, attempts: nat, result: Option<ReceivedTransportMessage>)

  /**
   * Handing a delivery over to the caller. In a transactional context the
   * delivery stays locked for the commit, unless a batch already exists (the
   * state conflict); in a non-transactional one it is completed and disposed
   * before it is returned. Any exception on the way (the conflict, a body that
   * cannot be deserialised, a Complete that raises) is followed by an attempt
   * to abandon the delivery, whose own failure is swallowed, and then turned
   * into a null result.
   */
  function HandOver(isTransactional: bool, conflict: bool, d: Delivery, fails: nat -> bool, start: nat): (r: HandedOver)
    ensures r.result.Some? <==> d.body.Some? && (if isTransactional then !conflict else !fails(start))
    ensures r.result.Some? ==> r.result.value == CreateReceivedTransportMessage(d.messageId, d.body.value)
    ensures r.result.Some? && isTransactional ==> r.calls == [] && r.attempts == start
    ensures r.result.Some? && !isTransactional ==>
      r.calls == [Complete(d), DisposeReceived(d)] && r.attempts == start + 1
    ensures r.result.None? ==>
      && r.attempts == start + (if isTransactional then 1 else 2)
      && (Abandon(d) in r.calls <==> !fails(r.attempts - 1))
      && (Complete(d) in r.calls <==> !isTransactional && !fails(start))
  {
    if isTransactional then
      if conflict || d.body.None? then HandedOver(Try(fails, start, Abandon(d)), start + 1, None)
      else HandedOver([], start, Some(CreateReceivedTransportMessage(d.messageId, d.body.value)))
    else
      var completing := Try(fails, start, Complete(d)) + (if fails(start) then [] else [DisposeReceived(d)]);
      if !fails(start) && d.body.Some? then
        HandedOver(completing, start + 1, Some(CreateReceivedTransportMessage(d.messageId, d.body.value)))
      else
        HandedOver(completing + Try(fails, start + 1, Abandon(d)), start + 2, None)
  }

  /**
   * A delivery that is not handed over costs exactly the abandon attempt in a
   * transaction; outside one, the Complete and the disposal when Complete
   * succeeded, followed by the abandon attempt. No other backend call is made.
   */
  lemma HandOverFailureCalls(isTransactional: bool, conflict: bool, d: Delivery, fails: nat -> bool, start: nat)
    ensures var r := HandOver(isTransactional, conflict, d, fails, start);
      r.result.None? ==>
        r.calls == (if isTransactional || fails(start) then [] else [Complete(d), DisposeReceived(d)])
                   + Try(fails, if isTransactional then start else start + 1, Abandon(d))
  {
  }

  /** A receive in a transaction that has already sent never hands its delivery over. */
  lemma ConflictNeverHandsOver(d: Delivery, fails: nat -> bool, start: nat)
    ensures var r := HandOver(true, true, d, fails, start);
      r.result.None? && Complete(d) !in r.calls && (Abandon(d) in r.calls <==> !fails(start))
  {
  }

  /** As written, a non-transactional delivery whose body cannot be deserialised is
      completed before the failure is noticed, so it is lost rather than redelivered. */
  lemma UndeserialisableDeliveryLost(d: Delivery, fails: nat -> bool, start: nat)
    requires d.body.None? && !fails(start)
    ensures var r := HandOver(false, false, d, fails, start);
      r.result.None? && r.calls[0] == Complete(d)
  {
  }

  /** The destinations a batch addresses, as a set (see DestinationsMembership). */
  function DestinationSet(pending: Pending): set<Destination>
  {
    set q | q in Destinations(pending)
  }

  class AzureServiceBusMessageQueue {
    const inputQueue: string
    const working: WorkingQueue
    const cache: ClientCache
    const bus: Backend
    var peekLockRenewalInterval: int

    ghost predicate Valid()
      reads this, working, working.slots.Values, cache, cache.contexts.Values
    {
      working.Valid() && cache.Valid()
    }

    constructor (inputQueue: string, bus: Backend)
      ensures Valid() && this.inputQueue == inputQueue && this.bus == bus
      ensures fresh(working) && fresh(cache) && working.slots == map[] && cache.contexts == map[]
      ensures peekLockRenewalInterval == DefaultPeekLockRenewalInterval
    {
      this.inputQueue := inputQueue;
      this.bus := bus;
      working := new WorkingQueue();
      cache := new ClientCache();
      peekLockRenewalInterval := DefaultPeekLockRenewalInterval;
    }

    method SetAutomaticPeekLockRenewalInterval(interval: int)
      modifies this
      ensures peekLockRenewalInterval == interval
    {
      peekLockRenewalInterval := interval;
    }

    // ------------------------------------------------------------------ send

    /**
     * Outside a transaction the message is converted and sent at once (one
     * retried attempt through the destination's client), and the brokered
     * message is disposed; a null header dictionary raises before anything is
     * sent. Inside one, nothing reaches the backend: (dest, envelope) is
     * appended to the pending batch, which is created, and the commit hook
     * added, only when it is absent.
     */
    method Send(dest: string, message: TransportMessageToSend, ctx: TransactionContext) returns (outcome: Outcome<Fault>)
      requires Valid() && ctx.Valid()
      modifies cache, bus, ctx
      ensures Valid() && ctx.Valid()
      ensures !ctx.isTransactional ==>
        var e := CreateEnvelope(message);
        && unchanged(ctx)
        && (e.headers.None? ==>
              outcome == Fail(NullHeaders) && bus.log == old(bus.log) && bus.attempts == old(bus.attempts))
        && (e.headers.Some? ==>
              && bus.log == old(bus.log) + Try(bus.fails, old(bus.attempts), Call.Send(dest, Brokered(e)))
                             + [DisposeOutgoing(Brokered(e))]
              && bus.attempts == old(bus.attempts) + 1
              && outcome == (if bus.fails(old(bus.attempts)) then Fail(SendFailed(dest)) else Pass)
              && dest in cache.contexts
              && cache.contexts == old(cache.contexts)[dest := cache.contexts[dest]])
        && (e.headers.None? ==> cache.contexts == old(cache.contexts))
      ensures ctx.isTransactional ==>
        && outcome == Pass
        && bus.log == old(bus.log) && bus.attempts == old(bus.attempts)
        && cache.contexts == old(cache.contexts)
        && ctx.batch == Some(old(ctx.batch).GetOr([]) + [(dest, CreateEnvelope(message))])
        && ctx.commitHooks == 1
        && ctx.received == old(ctx.received) && ctx.renewedAt == old(ctx.renewedAt)
        && ctx.renewAction == old(ctx.renewAction) && ctx.timer == old(ctx.timer)
        && ctx.renewing == old(ctx.renewing)
        && ctx.rollbackHooks == old(ctx.rollbackHooks) && ctx.cleanupHooks == old(ctx.cleanupHooks)
    {
      if !ctx.isTransactional {
        var envelope := CreateEnvelope(message);
        match CreateBrokeredMessage(envelope)
        case Failure(err) =>
          return Fail(err);
        case Success(m) =>
          var clientContext := cache.GetClientContextFor(dest);
          var ok := bus.Attempt(Call.Send(dest, m));
          bus.Dispose(DisposeOutgoing(m));
          return if ok then Pass else Fail(SendFailed(dest));
      }
      if ctx.batch.None? {
        ctx.batch := Some([]);
        ctx.commitHooks := ctx.commitHooks + 1;
      }
      var envelope := CreateEnvelope(message);
      ctx.batch := Some(ctx.batch.value + [(dest, envelope)]);
      return Pass;
    }

    // --------------------------------------------------------------- receive

    /** The delivery waiting in the input queue's slot and not yet handed over, if any. */
    ghost function Offered(): Option<Delivery>
      reads this, working, working.slots.Values
    {
      if inputQueue in working.slots && !working.slots[inputQueue].processed
      then working.slots[inputQueue].message
      else None
    }

    /** The delivery callback: the message is kept in the queue's slot when the
        slot is free, and abandoned without being processed otherwise. */
    method OnMessage(queueName: string, d: Delivery) returns (accepted: bool)
      requires Valid()
      modifies working, bus
      ensures Valid()
      ensures accepted <==> queueName !in old(working.slots)
      ensures working.signalledIds == old(working.signalledIds)
      ensures accepted ==>
        && queueName in working.slots
        && working.slots == old(working.slots)[queueName := working.slots[queueName]]
        && fresh(working.slots[queueName])
        && working.slots[queueName].message == Some(d) && !working.slots[queueName].processed
        && working.slots[queueName].correlationId == old(working.nextCorrelationId)
        && working.nextCorrelationId == old(working.nextCorrelationId) + 1
        && bus.log == old(bus.log) && bus.attempts == old(bus.attempts)
      ensures !accepted ==>
        && working.slots == old(working.slots) && working.nextCorrelationId == old(working.nextCorrelationId)
        && bus.log == old(bus.log) + Try(bus.fails, old(bus.attempts), Abandon(d))
        && bus.attempts == old(bus.attempts) + 1
    {
      var context := working.SetCurrentMessageContext(queueName, d);
      if context != null {
        return true;
      }
      var abandoned := bus.Attempt(Abandon(d));
      return false;
    }

    /** Marks the context as having the delivery callback registered; the registration itself is not modelled. */
    static method EnsureClientConfiguredForReceiveEvents(clientContext: QueueClientContext)
      modifies clientContext
      ensures clientContext.isConfiguredForReceiveEvents
    {
      if clientContext.isConfiguredForReceiveEvents {
        return;
      }
      clientContext.isConfiguredForReceiveEvents := true;
    }

    /**
     * One poll of the input queue. A slot handed over on the previous poll is
     * released first. A waiting delivery is marked processed and handed over
     * as HandOver says; in a transactional context without a batch it is first
     * recorded in the context with the renewal time, the renewal action, the
     * timer (only for an interval above one second) and the three hooks. Every
     * other outcome is a null result with no effect on the backend.
     */
    method ReceiveMessage(ctx: TransactionContext, now: int) returns (m: Option<ReceivedTransportMessage>)
      requires Valid() && ctx.Valid()
      modifies working, working.slots.Values, cache, cache.contexts.Values, bus, ctx
      ensures Valid() && ctx.Valid()
      ensures working.nextCorrelationId == old(working.nextCorrelationId)
      ensures inputQueue in cache.contexts && cache.contexts[inputQueue].isConfiguredForReceiveEvents
      ensures cache.contexts == old(cache.contexts)[inputQueue := cache.contexts[inputQueue]]
      ensures forall q :: q in old(cache.contexts) && q != inputQueue ==>
        cache.contexts[q].isConfiguredForReceiveEvents == old(cache.contexts[q].isConfiguredForReceiveEvents)
      ensures forall q :: q in old(working.slots) && q != inputQueue ==>
        && q in working.slots && working.slots[q] == old(working.slots[q])
        && working.slots[q].processed == old(working.slots[q].processed)
        && working.slots[q].signalled == old(working.slots[q].signalled)
      ensures old(inputQueue in working.slots && working.slots[inputQueue].processed) ==>
        && working.slots == old(working.slots) - {inputQueue}
        && old(working.slots[inputQueue]).signalled
        && working.signalledIds == old(working.signalledIds) + [old(working.slots[inputQueue].correlationId)]
      ensures !old(inputQueue in working.slots && working.slots[inputQueue].processed) ==>
        working.slots == old(working.slots) && working.signalledIds == old(working.signalledIds)
      ensures old(Offered()).None? ==>
        && m.None? && bus.log == old(bus.log) && bus.attempts == old(bus.attempts)
        && unchanged(ctx)
      ensures old(Offered()).Some? ==>
        var d := old(Offered()).value;
        var r := HandOver(ctx.isTransactional, old(ctx.batch).Some?, d, bus.fails, old(bus.attempts));
        && inputQueue in working.slots && working.slots[inputQueue].processed
        && m == r.result
        && bus.log == old(bus.log) + r.calls && bus.attempts == r.attempts
      ensures old(Offered()).Some? && ctx.isTransactional && old(ctx.batch).None? ==>
        var d := old(Offered()).value;
        && ctx.received == Some(d) && ctx.batch == Some([])
        && ctx.renewedAt == Some(now) && ctx.renewAction == Some(d.messageId)
        && ctx.timer == (if peekLockRenewalInterval > TicksPerSecond then Running(peekLockRenewalInterval) else NoTimer)
        && ctx.renewing == old(ctx.renewing)
      ensures !(old(Offered()).Some? && ctx.isTransactional && old(ctx.batch).None?) ==> unchanged(ctx)
    {
      var offered := TakeOffered();
      if offered.None? {
        return None;
      }
      label Taken:
      m := HandOverDelivery(ctx, offered.value, now);
      assert unchanged@Taken(working, cache) && working.slots == old@Taken(working.slots);
    }

    /**
     * The slot side of a poll: releases a slot handed over on the previous
     * poll, makes sure the input queue's client is configured for the
     * delivery callback, and takes the waiting delivery, if any, marking its
     * slot processed.
     */
    method TakeOffered() returns (offered: Option<Delivery>)
      requires Valid()
      modifies working, if inputQueue in working.slots then {working.slots[inputQueue]} else {}
      modifies cache, if inputQueue in cache.contexts then {cache.contexts[inputQueue]} else {}
      ensures Valid()
      ensures working.nextCorrelationId == old(working.nextCorrelationId)
      ensures offered == old(Offered())
      ensures inputQueue in cache.contexts && cache.contexts[inputQueue].isConfiguredForReceiveEvents
      ensures cache.contexts == old(cache.contexts)[inputQueue := cache.contexts[inputQueue]]
      ensures forall q :: q in old(cache.contexts) && q != inputQueue ==>
        cache.contexts[q].isConfiguredForReceiveEvents == old(cache.contexts[q].isConfiguredForReceiveEvents)
      ensures forall q :: q in old(working.slots) && q != inputQueue ==>
        && q in working.slots && working.slots[q] == old(working.slots[q])
        && working.slots[q].processed == old(working.slots[q].processed)
        && working.slots[q].signalled == old(working.slots[q].signalled)
      ensures old(inputQueue in working.slots && working.slots[inputQueue].processed) ==>
        && working.slots == old(working.slots) - {inputQueue}
        && old(working.slots[inputQueue]).signalled
        && working.signalledIds == old(working.signalledIds) + [old(working.slots[inputQueue].correlationId)]
      ensures !old(inputQueue in working.slots && working.slots[inputQueue].processed) ==>
        working.slots == old(working.slots) && working.signalledIds == old(working.signalledIds)
      ensures offered.Some? ==> inputQueue in working.slots && working.slots[inputQueue].processed
    {
      ReleaseAndListen();
      offered := TakeWaiting();
    }

    /** Releases a slot handed over on the previous poll and makes sure the input queue's client is listening. */
    method ReleaseAndListen()
      requires Valid()
      modifies working, if inputQueue in working.slots then {working.slots[inputQueue]} else {}
      modifies cache, if inputQueue in cache.contexts then {cache.contexts[inputQueue]} else {}
      ensures Valid()
      ensures working.nextCorrelationId == old(working.nextCorrelationId)
      ensures Offered() == old(Offered())
      ensures inputQueue in working.slots ==> !working.slots[inputQueue].processed
      ensures inputQueue in cache.contexts && cache.contexts[inputQueue].isConfiguredForReceiveEvents
      ensures cache.contexts == old(cache.contexts)[inputQueue := cache.contexts[inputQueue]]
      ensures forall q :: q in old(cache.contexts) && q != inputQueue ==>
        cache.contexts[q].isConfiguredForReceiveEvents == old(cache.contexts[q].isConfiguredForReceiveEvents)
      ensures forall q :: q in old(working.slots) && q != inputQueue ==>
        && q in working.slots && working.slots[q] == old(working.slots[q])
        && working.slots[q].processed == old(working.slots[q].processed)
        && working.slots[q].signalled == old(working.slots[q].signalled)
      ensures old(inputQueue in working.slots && working.slots[inputQueue].processed) ==>
        && working.slots == old(working.slots) - {inputQueue}
        && old(working.slots[inputQueue]).signalled
        && working.signalledIds == old(working.signalledIds) + [old(working.slots[inputQueue].correlationId)]
      ensures !old(inputQueue in working.slots && working.slots[inputQueue].processed) ==>
        working.slots == old(working.slots) && working.signalledIds == old(working.signalledIds)
    {
      working.CompletePreviousMessage(inputQueue);
      ListenOnInputQueue();
    }

    /** Gets the input queue's client context and makes sure the delivery callback is registered on it. */
    method ListenOnInputQueue()
      requires cache.Valid()
      modifies cache, if inputQueue in cache.contexts then {cache.contexts[inputQueue]} else {}
      ensures cache.Valid()
      ensures inputQueue in cache.contexts && cache.contexts[inputQueue].isConfiguredForReceiveEvents
      ensures cache.contexts == old(cache.contexts)[inputQueue := cache.contexts[inputQueue]]
      ensures forall q :: q in old(cache.contexts) && q != inputQueue ==>
        cache.contexts[q].isConfiguredForReceiveEvents == old(cache.contexts[q].isConfiguredForReceiveEvents)
      ensures inputQueue in old(cache.contexts) && !old(cache.contexts[inputQueue].client.isClosed) ==>
        cache.contexts[inputQueue] == old(cache.contexts[inputQueue])
    {
      var clientContext := cache.GetClientContextFor(inputQueue);
      EnsureClientConfiguredForReceiveEvents(clientContext);
    }

    /** Peeks at the input queue's slot and, when it holds a delivery, marks it processed. */
    method TakeWaiting() returns (offered: Option<Delivery>)
      requires working.Valid()
      requires inputQueue in working.slots ==> !working.slots[inputQueue].processed
      modifies if inputQueue in working.slots then {working.slots[inputQueue]} else {}
      ensures working.Valid()
      ensures offered == old(Offered())
      ensures forall q :: q in working.slots && q != inputQueue ==>
        && working.slots[q].processed == old(working.slots[q].processed)
        && working.slots[q].signalled == old(working.slots[q].signalled)
      ensures offered.Some? ==> inputQueue in working.slots && working.slots[inputQueue].processed
    {
      var messageContext := working.TryGetMessageFromWorkingQueue(inputQueue);
      if messageContext == null {
        return None;
      }
      if messageContext.message.None? {
        return None;
      }
      messageContext.processed := true;
      return messageContext.message;
    }

    /**
     * Lines up the delivery the poll took from the slot: in a transactional
     * context without a batch it is first recorded in the context; then it is
     * handed over as HandOver says.
     */
    method HandOverDelivery(ctx: TransactionContext, d: Delivery, now: int) returns (m: Option<ReceivedTransportMessage>)
      requires Valid() && ctx.Valid()
      modifies bus, ctx
      ensures Valid() && ctx.Valid()
      ensures var r := HandOver(ctx.isTransactional, old(ctx.batch).Some?, d, bus.fails, old(bus.attempts));
        m == r.result && bus.log == old(bus.log) + r.calls && bus.attempts == r.attempts
      ensures ctx.isTransactional && old(ctx.batch).None? ==>
        && ctx.received == Some(d) && ctx.batch == Some([])
        && ctx.renewedAt == Some(now) && ctx.renewAction == Some(d.messageId)
        && ctx.timer == (if peekLockRenewalInterval > TicksPerSecond then Running(peekLockRenewalInterval) else NoTimer)
        && ctx.renewing == old(ctx.renewing)
      ensures !(ctx.isTransactional && old(ctx.batch).None?) ==> unchanged(ctx)
    {
      var conflict := ctx.isTransactional && ctx.batch.Some?;
      if ctx.isTransactional && !conflict {
        RecordReceived(ctx, d, now);
      }
      m := Deliver(ctx.isTransactional, conflict, d);
    }

    /** Records a transactional delivery: the received message, an empty batch, the
        renewal time and action, the timer (only for an interval above one second)
        and the commit, rollback and cleanup hooks. */
    method RecordReceived(ctx: TransactionContext, d: Delivery, now: int)
      requires ctx.Valid() && ctx.isTransactional && ctx.batch.None?
      modifies ctx
      ensures ctx.Valid()
      ensures ctx.received == Some(d) && ctx.batch == Some([])
      ensures ctx.renewedAt == Some(now) && ctx.renewAction == Some(d.messageId)
      ensures ctx.timer == (if peekLockRenewalInterval > TicksPerSecond then Running(peekLockRenewalInterval) else NoTimer)
      ensures ctx.renewing == old(ctx.renewing)
    {
      ctx.received := Some(d);
      ctx.batch := Some([]);
      ctx.renewedAt := Some(now);
      ctx.renewAction := Some(d.messageId);
      if peekLockRenewalInterval > TicksPerSecond {
        ctx.timer := Running(peekLockRenewalInterval);
      }
      ctx.commitHooks := ctx.commitHooks + 1;
      ctx.rollbackHooks := ctx.rollbackHooks + 1;
      ctx.cleanupHooks := ctx.cleanupHooks + 1;
    }

    /** Reads the body and, outside a transaction, completes and disposes the
        delivery; any exception (including the conflict) abandons it and gives null. */
    method Deliver(isTransactional: bool, conflict: bool, d: Delivery) returns (m: Option<ReceivedTransportMessage>)
      modifies bus
      ensures var r := HandOver(isTransactional, conflict, d, bus.fails, old(bus.attempts));
        m == r.result && bus.log == old(bus.log) + r.calls && bus.attempts == r.attempts
    {
      if !(isTransactional && conflict) {
        var body := d.body;
        var failed := false;
        if !isTransactional {
          var completed := bus.Attempt(Complete(d));
          if completed {
            bus.Dispose(DisposeReceived(d));
          }
          failed := !completed;
        }
        if !failed && body.Some? {
          return Some(CreateReceivedTransportMessage(d.messageId, body.value));
        }
      }
      var abandoned := bus.Attempt(Abandon(d));
      return None;
    }

    // ---------------------------------------------------------------- commit

    /** One envelope of a small group: converted, put on the dispose list, and sent. */
    method SendIndividually(dest: Destination, envelope: Envelope, toDispose: seq<BrokeredMessage>,
                            ghost before: seq<Call>, ghost f: Flushed)
      returns (toDispose': seq<BrokeredMessage>, fault: Option<Fault>, ghost g: Flushed)
      requires Valid()
      requires f.fault.None? && bus.log == before + f.calls && bus.attempts == f.attempts && toDispose == f.toDispose
      modifies cache, bus
      ensures Valid()
      ensures KeptExcept(old(cache.contexts), cache.contexts, {dest})
      ensures g == ExecStep(f, SendOne(dest, envelope), bus.fails)
      ensures bus.log == before + g.calls && bus.attempts == g.attempts
      ensures toDispose' == g.toDispose && fault == g.fault
    {
      g := ExecStep(f, SendOne(dest, envelope), bus.fails);
      match CreateBrokeredMessage(envelope)
      case Failure(err) =>
        toDispose' := toDispose;
        fault := Some(err);
      case Success(brokered) =>
        toDispose' := toDispose + [brokered];
        var clientContext := cache.GetClientContextFor(dest);
        var ok := bus.Attempt(Call.Send(dest, brokered));
        fault := if ok then None else Some(SendFailed(dest));
    }

    /** One chunk of a large group: converted as a whole, put on the dispose list, and batch-sent. */
    method SendChunk(dest: Destination, chunk: seq<Envelope>, toDispose: seq<BrokeredMessage>,
                     ghost before: seq<Call>, ghost f: Flushed)
      returns (toDispose': seq<BrokeredMessage>, fault: Option<Fault>, ghost g: Flushed)
      requires Valid()
      requires f.fault.None? && bus.log == before + f.calls && bus.attempts == f.attempts && toDispose == f.toDispose
      modifies cache, bus
      ensures Valid()
      ensures KeptExcept(old(cache.contexts), cache.contexts, {dest})
      ensures g == ExecStep(f, SendMany(dest, chunk), bus.fails)
      ensures bus.log == before + g.calls && bus.attempts == g.attempts
      ensures toDispose' == g.toDispose && fault == g.fault
    {
      g := ExecStep(f, SendMany(dest, chunk), bus.fails);
      var (brokeredMessagesInThisBatch, allConverted) := CreateAll(chunk);
      if !allConverted {
        toDispose' := toDispose;
        fault := Some(NullHeaders);
        return;
      }
      toDispose' := toDispose + brokeredMessagesInThisBatch;
      var clientContext := cache.GetClientContextFor(dest);
      var ok := bus.Attempt(SendBatch(dest, brokeredMessagesInThisBatch));
      fault := if ok then None else Some(SendFailed(dest));
    }

    /** A group of fewer than BatchThreshold envelopes: one send per envelope, in order, until one raises. */
    method SendEach(dest: Destination, messagesForThisRecipient: seq<Envelope>, toDispose: seq<BrokeredMessage>,
                    ghost before: seq<Call>, ghost done: seq<Step>, ghost start: nat)
      returns (toDispose': seq<BrokeredMessage>, fault: Option<Fault>, ghost g: Flushed)
      requires Valid() && |messagesForThisRecipient| < BatchThreshold
      requires var f := ExecFlush(done, bus.fails, start);
        f.fault.None? && bus.log == before + f.calls && bus.attempts == f.attempts && toDispose == f.toDispose
      modifies cache, bus
      ensures Valid()
      ensures KeptExcept(old(cache.contexts), cache.contexts, {dest})
      ensures g == ExecFlush(done + GroupSteps(dest, messagesForThisRecipient), bus.fails, start)
      ensures bus.log == before + g.calls && bus.attempts == g.attempts
      ensures toDispose' == g.toDispose && fault == g.fault
    {
      ghost var steps := GroupSteps(dest, messagesForThisRecipient);
      g := ExecFlush(done, bus.fails, start);
      toDispose' := toDispose;
      fault := None;
      var j := 0;
      assert done + steps[..0] == done;
      while j < |messagesForThisRecipient| && fault.None?
        invariant 0 <= j <= |messagesForThisRecipient| == |steps|
        invariant Valid()
        invariant KeptExcept(old(cache.contexts), cache.contexts, {dest})
        invariant g == ExecFlush(done + steps[..j], bus.fails, start)
        invariant bus.log == before + g.calls && bus.attempts == g.attempts
        invariant toDispose' == g.toDispose && fault == g.fault
      {
        assert steps[j] == SendOne(dest, messagesForThisRecipient[j]);
        ExecExtend(done, steps, j, bus.fails, start);
        ghost var cached := cache.contexts;
        toDispose', fault, g := SendIndividually(dest, messagesForThisRecipient[j], toDispose', before, g);
        KeptWithin(old(cache.contexts), cached, cache.contexts, {dest}, {dest}, {dest});
        j := j + 1;
      }
      ExecFinish(done, steps, j, bus.fails, start);
    }

    /** A group of BatchThreshold envelopes or more: one batch send per chunk of BatchSize, in order, until one raises. */
    method SendInChunks(dest: Destination, messagesForThisRecipient: seq<Envelope>, toDispose: seq<BrokeredMessage>,
                        ghost before: seq<Call>, ghost done: seq<Step>, ghost start: nat)
      returns (toDispose': seq<BrokeredMessage>, fault: Option<Fault>, ghost g: Flushed)
      requires Valid() && |messagesForThisRecipient| >= BatchThreshold
      requires var f := ExecFlush(done, bus.fails, start);
        f.fault.None? && bus.log == before + f.calls && bus.attempts == f.attempts && toDispose == f.toDispose
      modifies cache, bus
      ensures Valid()
      ensures KeptExcept(old(cache.contexts), cache.contexts, {dest})
      ensures g == ExecFlush(done + GroupSteps(dest, messagesForThisRecipient), bus.fails, start)
      ensures bus.log == before + g.calls && bus.attempts == g.attempts
      ensures toDispose' == g.toDispose && fault == g.fault
    {
      ghost var steps := GroupSteps(dest, messagesForThisRecipient);
      var messageBatches := Partition(messagesForThisRecipient, BatchSize);
      g := ExecFlush(done, bus.fails, start);
      toDispose' := toDispose;
      fault := None;
      var j := 0;
      assert done + steps[..0] == done;
      while j < |messageBatches| && fault.None?
        invariant 0 <= j <= |messageBatches| == |steps|
        invariant Valid()
        invariant KeptExcept(old(cache.contexts), cache.contexts, {dest})
        invariant g == ExecFlush(done + steps[..j], bus.fails, start)
        invariant bus.log == before + g.calls && bus.attempts == g.attempts
        invariant toDispose' == g.toDispose && fault == g.fault
      {
        assert steps[j] == SendMany(dest, messageBatches[j]);
        ExecExtend(done, steps, j, bus.fails, start);
        ghost var cached := cache.contexts;
        toDispose', fault, g := SendChunk(dest, messageBatches[j], toDispose', before, g);
        KeptWithin(old(cache.contexts), cached, cache.contexts, {dest}, {dest}, {dest});
        j := j + 1;
      }
      ExecFinish(done, steps, j, bus.fails, start);
    }

    /** One destination's group, sent individually or in chunks by its size. */
    method SendGroup(dest: Destination, messagesForThisRecipient: seq<Envelope>, toDispose: seq<BrokeredMessage>,
                     ghost before: seq<Call>, ghost done: seq<Step>, ghost start: nat)
      returns (toDispose': seq<BrokeredMessage>, fault: Option<Fault>, ghost g: Flushed)
      requires Valid()
      requires var f := ExecFlush(done, bus.fails, start);
        f.fault.None? && bus.log == before + f.calls && bus.attempts == f.attempts && toDispose == f.toDispose
      modifies cache, bus
      ensures Valid()
      ensures KeptExcept(old(cache.contexts), cache.contexts, {dest})
      ensures g == ExecFlush(done + GroupSteps(dest, messagesForThisRecipient), bus.fails, start)
      ensures bus.log == before + g.calls && bus.attempts == g.attempts
      ensures toDispose' == g.toDispose && fault == g.fault
    {
      if |messagesForThisRecipient| < BatchThreshold {
        toDispose', fault, g := SendEach(dest, messagesForThisRecipient, toDispose, before, done, start);
      } else {
        toDispose', fault, g := SendInChunks(dest, messagesForThisRecipient, toDispose, before, done, start);
      }
    }

    /**
     * The flush of a batch: group after group, in order, stopping at the first
     * fault. It does what the plan's run ExecFlush says.
     */
    method Flush(messagesToSend: Pending) returns (toDispose: seq<BrokeredMessage>, fault: Option<Fault>, ghost f: Flushed)
      requires Valid()
      modifies cache, bus
      ensures Valid()
      ensures KeptExcept(old(cache.contexts), cache.contexts, DestinationSet(messagesToSend))
      ensures f == ExecFlush(Plan(messagesToSend), bus.fails, old(bus.attempts))
      ensures bus.log == old(bus.log) + f.calls && bus.attempts == f.attempts
      ensures toDispose == f.toDispose && fault == f.fault
    {
      ghost var before := bus.log;
      ghost var start := bus.attempts;
      var messagesForEachRecipient := GroupBy(messagesToSend);
      f := ExecFlush([], bus.fails, start);
      toDispose := [];
      fault := None;
      var i := 0;
      assert messagesForEachRecipient[..0] == [];
      while i < |messagesForEachRecipient| && fault.None?
        invariant 0 <= i <= |messagesForEachRecipient|
        invariant Valid()
        invariant KeptExcept(old(cache.contexts), cache.contexts, DestinationSet(messagesToSend))
        invariant f == ExecFlush(PlanGroups(messagesForEachRecipient[..i]), bus.fails, start)
        invariant bus.log == before + f.calls && bus.attempts == f.attempts
        invariant toDispose == f.toDispose && fault == f.fault
      {
        var group := messagesForEachRecipient[i];
        PlanGroupsSnoc(messagesForEachRecipient, i);
        ghost var cached := cache.contexts;
        toDispose, fault, f := SendGroup(group.0, group.1, toDispose, before,
                                         PlanGroups(messagesForEachRecipient[..i]), start);
        assert group.0 in DestinationSet(messagesToSend) by {
          assert group.0 == Destinations(messagesToSend)[i];
        }
        KeptWithin(old(cache.contexts), cached, cache.contexts, DestinationSet(messagesToSend), {group.0},
                   DestinationSet(messagesToSend));
        i := i + 1;
      }
      GroupsFinish(messagesForEachRecipient, i, bus.fails, start);
    }

    /** The disposal of every brokered message on the dispose list, in order. */
    method DisposeAll(stuffToDispose: seq<BrokeredMessage>)
      modifies bus
      ensures bus.log == old(bus.log) + Disposals(stuffToDispose) && bus.attempts == old(bus.attempts)
    {
      var k := 0;
      while k < |stuffToDispose|
        invariant 0 <= k <= |stuffToDispose|
        invariant bus.log == old(bus.log) + Disposals(stuffToDispose[..k]) && bus.attempts == old(bus.attempts)
      {
        assert Disposals(stuffToDispose[..k + 1]) == Disposals(stuffToDispose[..k]) + [DisposeOutgoing(stuffToDispose[k])];
        bus.Dispose(DisposeOutgoing(stuffToDispose[k]));
        k := k + 1;
      }
      assert stuffToDispose[..k] == stuffToDispose;
    }

    /** After the flush: completes the received message when nothing raised, and
        abandons it (ignoring a failure to do so) when anything did. */
    method SettleReceived(receivedMessageOrNull: Option<Delivery>, flushFault: Option<Fault>) returns (fault: Option<Fault>)
      modifies bus
      ensures var s := Settle(flushFault, receivedMessageOrNull, bus.fails, old(bus.attempts));
        bus.log == old(bus.log) + s.calls && bus.attempts == s.attempts && fault == s.fault
    {
      fault := flushFault;
      if fault.None? && receivedMessageOrNull.Some? {
        var completed := bus.Attempt(Complete(receivedMessageOrNull.value));
        if !completed {
          fault := Some(CompleteFailed);
        }
      }
      if fault.Some? && receivedMessageOrNull.Some? {
        var abandoned := bus.Attempt(Abandon(receivedMessageOrNull.value));
      }
    }

    /**
     * The commit hook: flushes the batch, then completes the received message;
     * on any fault abandons it (ignoring a failure to do so) and re-raises;
     * finally disposes every brokered message on the dispose list. It does
     * exactly what CommitRun says.
     */
    method DoCommit(ctx: TransactionContext) returns (outcome: Outcome<Fault>)
      requires Valid()
      modifies cache, bus
      ensures Valid()
      ensures KeptExcept(old(cache.contexts), cache.contexts,
                         if ctx.batch.Some? then DestinationSet(ctx.batch.value) else {})
      ensures var r := CommitRun(ctx.batch, ctx.received, bus.fails, old(bus.attempts));
        bus.log == old(bus.log) + r.calls && bus.attempts == r.attempts && outcome == r.outcome
    {
      ghost var start := bus.attempts;
      var receivedMessageOrNull := ctx.received;
      var messagesToSendOrNull := ctx.batch;
      var stuffToDispose, fault, f := FlushPending(messagesToSendOrNull);
      ghost var flushed := bus.log;
      fault := SettleAndDispose(receivedMessageOrNull, fault, stuffToDispose);
      ghost var s := Settle(f.fault, receivedMessageOrNull, bus.fails, f.attempts);
      outcome := if fault.Some? then Fail(fault.value) else Pass;
      AppendAssoc(old(bus.log), f.calls, s.calls, Disposals(f.toDispose));
    }

    /** The commit's log is regrouped without an argument over indices. */
    static lemma AppendAssoc(a: seq<Call>, b: seq<Call>, c: seq<Call>, d: seq<Call>)
      ensures a + b + c + d == a + (b + c + d)
    {
    }

    /** What the commit does after the flush: the settlement of the received
        message, then the disposal of the dispose list. */
    method SettleAndDispose(receivedMessageOrNull: Option<Delivery>, flushFault: Option<Fault>,
                            stuffToDispose: seq<BrokeredMessage>) returns (fault: Option<Fault>)
      requires Valid()
      modifies bus
      ensures Valid()
      ensures var s := Settle(flushFault, receivedMessageOrNull, bus.fails, old(bus.attempts));
        && bus.log == old(bus.log) + s.calls + Disposals(stuffToDispose)
        && bus.attempts == s.attempts && fault == s.fault
    {
      fault := SettleReceived(receivedMessageOrNull, flushFault);
      DisposeAll(stuffToDispose);
    }

    /** The flush as the commit runs it: a null batch raises at once, an empty one sends nothing. */
    method FlushPending(messagesToSendOrNull: Option<Pending>)
      returns (toDispose: seq<BrokeredMessage>, fault: Option<Fault>, ghost f: Flushed)
      requires Valid()
      modifies cache, bus
      ensures Valid()
      ensures KeptExcept(old(cache.contexts), cache.contexts,
                         if messagesToSendOrNull.Some? then DestinationSet(messagesToSendOrNull.value) else {})
      ensures f == CommitFlush(messagesToSendOrNull, bus.fails, old(bus.attempts))
      ensures bus.log == old(bus.log) + f.calls && bus.attempts == f.attempts
      ensures toDispose == f.toDispose && fault == f.fault
    {
      f := CommitFlush(messagesToSendOrNull, bus.fails, bus.attempts);
      toDispose := [];
      if messagesToSendOrNull.None? {
        fault := Some(NoPendingBatch);
        return;
      }
      var messagesToSend := messagesToSendOrNull.value;
      if |messagesToSend| > 0 {
        toDispose, fault, f := Flush(messagesToSend);
      } else {
        fault := None;
        assert GroupBy(messagesToSend) == [];
        assert Plan(messagesToSend) == [];
      }
    }

    // ------------------------------------------------------ rollback, cleanup

    /** The rollback hook: abandons the received message; a failure to do so is swallowed. */
    method DoRollBack(ctx: TransactionContext)
      modifies bus
      ensures ctx.received.Some? ==>
        bus.log == old(bus.log) + Try(bus.fails, old(bus.attempts), Abandon(ctx.received.value))
        && bus.attempts == old(bus.attempts) + 1
      ensures ctx.received.None? ==> bus.log == old(bus.log) && bus.attempts == old(bus.attempts)
    {
      if ctx.received.Some? {
        var abandoned := bus.Attempt(Abandon(ctx.received.value));
      }
    }

    /** The cleanup hook: stops and disposes the renewal timer, then disposes the
        received message (a failure of which is swallowed). */
    method DoCleanUp(ctx: TransactionContext)
      requires ctx.Valid()
      modifies ctx, bus
      ensures ctx.Valid()
      ensures ctx.timer == (if old(ctx.timer).Running? then Disposed(old(ctx.timer).interval) else old(ctx.timer))
      ensures ctx.batch == old(ctx.batch) && ctx.received == old(ctx.received)
      ensures ctx.renewedAt == old(ctx.renewedAt) && ctx.renewAction == old(ctx.renewAction)
      ensures ctx.renewing == old(ctx.renewing)
      ensures ctx.commitHooks == old(ctx.commitHooks) && ctx.rollbackHooks == old(ctx.rollbackHooks)
      ensures ctx.cleanupHooks == old(ctx.cleanupHooks)
      ensures ctx.received.Some? ==> bus.log == old(bus.log) + [DisposeReceived(ctx.received.value)]
      ensures ctx.received.None? ==> bus.log == old(bus.log)
      ensures bus.attempts == old(bus.attempts)
    {
      if ctx.timer.Running? {
        ctx.timer := Disposed(ctx.timer.interval);
      }
      if ctx.received.Some? {
        bus.Dispose(DisposeReceived(ctx.received.value));
      }
    }

    // --------------------------------------------------------------- renewal

    /**
     * Renews the peek lock on the received message, single-flight: when a
     * renewal is already in progress nothing happens; otherwise the flag is
     * set, one retried RenewLock is attempted, the renewal time is updated only
     * when it succeeds, and the flag is cleared whatever happened. It never raises.
     */
    method RenewPeekLock(ctx: TransactionContext, messageId: string, now: int)
      requires ctx.Valid()
      modifies ctx, bus
      ensures ctx.Valid()
      ensures old(ctx.renewing) ==>
        unchanged(ctx) && bus.log == old(bus.log) && bus.attempts == old(bus.attempts)
      ensures !old(ctx.renewing) ==>
        && !ctx.renewing
        && ctx.batch == old(ctx.batch) && ctx.received == old(ctx.received)
        && ctx.renewAction == old(ctx.renewAction) && ctx.timer == old(ctx.timer)
        && ctx.commitHooks == old(ctx.commitHooks) && ctx.rollbackHooks == old(ctx.rollbackHooks)
        && ctx.cleanupHooks == old(ctx.cleanupHooks)
      ensures !old(ctx.renewing) && ctx.received.Some? ==>
        && bus.log == old(bus.log) + Try(bus.fails, old(bus.attempts), RenewLock(ctx.received.value))
        && bus.attempts == old(bus.attempts) + 1
        && ctx.renewedAt == (if bus.fails(old(bus.attempts)) then old(ctx.renewedAt) else Some(now))
      ensures !old(ctx.renewing) && ctx.received.None? ==>
        bus.log == old(bus.log) && bus.attempts == old(bus.attempts) && ctx.renewedAt == old(ctx.renewedAt)
    {
      if ctx.renewing {
        return;
      }
      ctx.renewing := true;
      var messageToRenew := ctx.received;
      if messageToRenew.Some? {
        var renewed := bus.Attempt(RenewLock(messageToRenew.value));
        if renewed {
          ctx.renewedAt := Some(now);
        }
      }
      ctx.renewing := false;
    }
  }
}
