/**
 * The push-to-pull bridge: the backend's delivery callback offers each
 * message into a per-queue working slot, the polling receive peeks at the
 * slot, marks it processed, and on its next call removes a processed slot and
 * signals the callback's completion handle so the backend may deliver the
 * next message. At most one slot exists per queue name.
 */
module MessageBridge {
  import opened Wrappers
  import opened ServiceBus

  /** One in-flight delivery. `signalled` is whether its completion handle has been set. */
  class WorkingMessageContext {
    const correlationId: nat
    const message: Option<Delivery>
    var processed: bool
    var signalled: bool

    constructor (correlationId: nat, message: Option<Delivery>)
      ensures this.correlationId == correlationId && this.message == message
      ensures !processed && !signalled
    {
      this.correlationId := correlationId;
      this.message := message;
      processed := false;
      signalled := false;
    }
  }

  /** The dictionary of working slots, keyed by input queue name. */
  class WorkingQueue {
    var slots: map<string, WorkingMessageContext>
    /** Stands for Guid.NewGuid(): the next fresh correlation id. */
    var nextCorrelationId: nat
    /** The correlation ids whose completion handles were set, in order. */
    ghost var signalledIds: seq<nat>

    ghost predicate Valid()
      reads this, slots.Values
    {
      && (forall q :: q in slots ==>
            !slots[q].signalled && slots[q].correlationId < nextCorrelationId &&
            slots[q].correlationId !in signalledIds)
      && (forall q, q' :: q in slots && q' in slots && q != q' ==>
            slots[q].correlationId != slots[q'].correlationId)
      && (forall k :: 0 <= k < |signalledIds| ==> signalledIds[k] < nextCorrelationId)
      && (forall k, l :: 0 <= k < l < |signalledIds| ==> signalledIds[k] != signalledIds[l])
    }

    constructor ()
      ensures Valid() && slots == map[] && signalledIds == []
    {
      slots := map[];
      nextCorrelationId := 0;
      signalledIds := [];
    }

    /**
     * Offers a delivery for queue q. When q already has a slot the offer is
     * refused (null) and nothing changes; otherwise a fresh, unprocessed slot
     * holding the message is added.
     */
    method SetCurrentMessageContext(q: string, message: Delivery) returns (context: WorkingMessageContext?)
      requires Valid()
      modifies this
      ensures Valid()
      ensures signalledIds == old(signalledIds)
      ensures q in old(slots) ==>
        context == null && slots == old(slots) && nextCorrelationId == old(nextCorrelationId)
      ensures q !in old(slots) ==>
        && context != null && fresh(context)
        && slots == old(slots)[q := context]
        && context.message == Some(message) && !context.processed && !context.signalled
        && context.correlationId == old(nextCorrelationId)
        && nextCorrelationId == old(nextCorrelationId) + 1
    {
      if q in slots {
        return null;
      }
      context := new WorkingMessageContext(nextCorrelationId, Some(message));
      slots := slots[q := context];
      nextCorrelationId := nextCorrelationId + 1;
    }

    /** Peeks at q's slot without removing it. */
    method TryGetMessageFromWorkingQueue(q: string) returns (context: WorkingMessageContext?)
      ensures q in slots ==> context == slots[q]
      ensures q !in slots ==> context == null
    {
      if q in slots {
        context := slots[q];
      } else {
        context := null;
      }
    }

    /**
     * Before each poll: a processed slot for q is removed and its completion
     * handle set (once: its id joins signalledIds, which never repeats an id);
     * a slot not yet processed, or no slot, leaves everything as it was.
     */
    method CompletePreviousMessage(q: string)
      requires Valid()
      modifies this, if q in slots then {slots[q]} else {}
      ensures Valid()
      ensures nextCorrelationId == old(nextCorrelationId)
      ensures q in old(slots) && old(slots[q].processed) ==>
        && slots == old(slots) - {q}
        && old(slots[q]).signalled
        && signalledIds == old(signalledIds) + [old(slots[q].correlationId)]
      ensures !(q in old(slots) && old(slots[q].processed)) ==>
        && slots == old(slots)
        && signalledIds == old(signalledIds)
        && (q in slots ==> !slots[q].signalled)
      ensures q in slots ==> !slots[q].processed
      ensures forall q' :: q' in old(slots) && q' != q ==>
        && q' in slots && slots[q'] == old(slots[q'])
        && slots[q'].processed == old(slots[q'].processed)
        && slots[q'].signalled == old(slots[q'].signalled)
    {
      if q !in slots {
        return;
      }
      var context := slots[q];
      if !context.processed {
        return;
      }
      slots := slots - {q};
      context.signalled := true;
      signalledIds := signalledIds + [context.correlationId];
    }
  }
}
