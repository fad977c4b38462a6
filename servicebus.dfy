/**
 * The backend as the transport sees it: a log of the calls that took effect,
 * and an environment that decides which call fails. Every fallible call
 * (a send or batch send through the retrier, taken as one opaque attempt that
 * either succeeds or gives up; Complete, Abandon, RenewLock) consumes one
 * attempt number k, and fails exactly when fails(k) holds. Disposing a
 * brokered or received message never fails and consumes no attempt.
 */
module ServiceBus {
  import opened Wrappers
  import opened Messages

  /** A message delivered by the backend under a peek lock. `body` is None when
      GetBody<Envelope>() cannot deserialise it. */
  datatype Delivery = Delivery(lockToken: nat, messageId: string, body: Option<Envelope>)

  datatype Call =
    | Send(dest: string, message: BrokeredMessage)
    | SendBatch(dest: string, messages: seq<BrokeredMessage>)
    | Complete(delivery: Delivery)
    | Abandon(delivery: Delivery)
    | RenewLock(delivery: Delivery)
    | DisposeReceived(delivery: Delivery)
    | DisposeOutgoing(message: BrokeredMessage)

  /** The calls that attempt number k adds to the log: c, unless it fails. */
  function Try(fails: nat -> bool, k: nat, c: Call): (calls: seq<Call>)
    ensures calls == [] || calls == [c]
    ensures calls == [c] <==> !fails(k)
  {
    if fails(k) then [] else [c]
  }

  /** Disposal of each outgoing brokered message, in order. */
  function Disposals(messages: seq<BrokeredMessage>): (calls: seq<Call>)
    ensures |calls| == |messages|
    ensures forall i :: 0 <= i < |messages| ==> calls[i] == DisposeOutgoing(messages[i])
  {
    seq(|messages|, i requires 0 <= i < |messages| => DisposeOutgoing(messages[i]))
  }

  class Backend {
    var log: seq<Call>
    var attempts: nat
    const fails: nat -> bool

    constructor (fails: nat -> bool)
      ensures log == [] && attempts == 0 && this.fails == fails
    {
      log := [];
      attempts := 0;
      this.fails := fails;
    }

    /** Issues a fallible call; `ok` is false when it raised. */
    method Attempt(c: Call) returns (ok: bool)
      modifies this
      ensures ok == !fails(old(attempts))
      ensures attempts == old(attempts) + 1
      ensures log == old(log) + Try(fails, old(attempts), c)
    {
      ok := !fails(attempts);
      log := log + Try(fails, attempts, c);
      attempts := attempts + 1;
    }

    /** Disposes a brokered message, outgoing or received (never raises). */
    method Dispose(c: Call)
      requires c.DisposeOutgoing? || c.DisposeReceived?
      modifies this
      ensures attempts == old(attempts)
      ensures log == old(log) + [c]
    {
      log := log + [c];
    }
  }
}
