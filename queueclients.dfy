/**
 * The cache of queue clients, one context per queue name. A cached client
 * that has been closed (for instance because its connection faulted) is
 * replaced by a fresh one on the next lookup; an open one is reused.
 */
module QueueClients {

  class QueueClient {
    const queueName: string
    var isClosed: bool

    constructor (queueName: string)
      ensures this.queueName == queueName && !isClosed
    {
      this.queueName := queueName;
      isClosed := false;
    }

    method Close()
      modifies this
      ensures isClosed
    {
      isClosed := true;
    }
  }

  class QueueClientContext {
    const client: QueueClient
    const queueName: string
    /** Whether the delivery callback has been registered on the client. */
    var isConfiguredForReceiveEvents: bool

    constructor (client: QueueClient, queueName: string)
      ensures this.client == client && this.queueName == queueName
      ensures !isConfiguredForReceiveEvents
    {
      this.client := client;
      this.queueName := queueName;
      isConfiguredForReceiveEvents := false;
    }
  }

  /**
   * From before to after, only the queues in touched may have gained or changed
   * a cached context: no queue loses its context, no other queue gains one, and
   * every other cached context stays, as the same object.
   */
  predicate KeptExcept(before: map<string, QueueClientContext>, after: map<string, QueueClientContext>,
                       touched: set<string>)
  {
    && before.Keys <= after.Keys
    && after.Keys <= before.Keys + touched
    && forall q :: q in before && q !in touched ==> after[q] == before[q]
  }

  /** Two steps that each touch only queues of touched together touch only those. */
  lemma KeptWithin(a: map<string, QueueClientContext>, b: map<string, QueueClientContext>,
                   c: map<string, QueueClientContext>, s: set<string>, t: set<string>, touched: set<string>)
    requires KeptExcept(a, b, s) && KeptExcept(b, c, t) && s <= touched && t <= touched
    ensures KeptExcept(a, c, touched)
  {
  }

  class ClientCache {
    var contexts: map<string, QueueClientContext>

    /** Every cached context is for the queue it is cached under. */
    ghost predicate Valid()
      reads this, contexts.Values
    {
      forall q :: q in contexts ==> contexts[q].queueName == q && contexts[q].client.queueName == q
    }

    constructor ()
      ensures Valid() && contexts == map[]
    {
      contexts := map[];
    }

    /** A new peek-lock client for the queue, wrapped in a fresh context. */
    static method CreateNewClientContext(queueName: string) returns (context: QueueClientContext)
      ensures fresh(context) && fresh(context.client)
      ensures context.queueName == queueName && context.client.queueName == queueName
      ensures !context.client.isClosed && !context.isConfiguredForReceiveEvents
    {
      var client := new QueueClient(queueName);
      context := new QueueClientContext(client, queueName);
    }

    /**
     * The context for dest, with an open client: the cached one if its client
     * is open, otherwise a fresh context that replaces it in the cache.
     */
    method GetClientContextFor(dest: string) returns (context: QueueClientContext)
      requires Valid()
      modifies this
      ensures Valid()
      ensures contexts == old(contexts)[dest := context]
      ensures context.queueName == dest && !context.client.isClosed
      ensures dest in old(contexts) && !old(contexts[dest].client.isClosed) ==> context == old(contexts[dest])
      ensures !(dest in old(contexts) && !old(contexts[dest].client.isClosed)) ==>
        fresh(context) && fresh(context.client) && !context.isConfiguredForReceiveEvents
    {
      if dest !in contexts {
        context := CreateNewClientContext(dest);
        contexts := contexts[dest := context];
      } else {
        context := contexts[dest];
      }
      if !context.client.isClosed {
        return;
      }
      context := CreateNewClientContext(dest);
      contexts := contexts[dest := context];
    }
  }
}
