/**
 * The message shapes of the transport and the three conversions between them:
 * the bus core's outgoing message becomes an Envelope (CreateEnvelope), an
 * Envelope travels inside a brokered message (CreateBrokeredMessage), and a
 * received Envelope becomes the bus core's received message
 * (CreateReceivedTransportMessage).
 */
module Messages {
  import opened Wrappers

  newtype byte = x: int | 0 <= x < 256

  /** Header keys promoted to first-class brokered-message properties. */
  const MessageIdHeader: string := "rebus-msg-id"
  const CorrelationIdHeader: string := "rebus-correlation-id"
  const ReturnAddressHeader: string := "rebus-return-address"

  /** The bus core's outgoing message; `headers` is None when the dictionary is null.
      A header value stands for the text its ToString() gives. */
  datatype TransportMessageToSend = TransportMessageToSend(
    body: seq<byte>, headers: Option<map<string, string>>, labelText: string)

  /** What travels on the wire as the body of a brokered message. */
  datatype Envelope = Envelope(
    body: seq<byte>, headers: Option<map<string, string>>, labelText: string)

  /** The message handed to the bus core by ReceiveMessage. */
  datatype ReceivedTransportMessage = ReceivedTransportMessage(
    id: string, headers: map<string, string>, body: seq<byte>, labelText: string)

  /** An outgoing brokered message: the serialised envelope plus the properties
      set on it (None = left at the backend's default). */
  datatype BrokeredMessage = BrokeredMessage(
    content: Envelope, messageId: Option<string>, correlationId: Option<string>,
    replyTo: Option<string>, labelText: string)

  /** The exceptions the modelled code can raise. */
  datatype Fault =
    | NullHeaders             // a NullReferenceException from a header lookup on a null dictionary
    | SendFailed(dest: string) // the retrier gave up on a send or batch send to dest
    | NoPendingBatch          // the pending batch is null when a commit runs
    | CompleteFailed          // completing the received message threw

  /** Looks a header up: Some(value) when the key is present. */
  function Lookup(headers: map<string, string>, key: string): (r: Option<string>)
    ensures r.Some? <==> key in headers
    ensures r.Some? ==> r.value == headers[key]
  {
    if key in headers then Some(headers[key]) else None
  }

  /** Copies body and label and converts the header dictionary, keeping null as null. */
  function CreateEnvelope(message: TransportMessageToSend): (e: Envelope)
    ensures e.body == message.body && e.labelText == message.labelText
    ensures e.headers.Some? <==> message.headers.Some?
    ensures message.headers.Some? ==>
      e.headers.value.Keys == message.headers.value.Keys &&
      forall k :: k in message.headers.value ==> e.headers.value[k] == message.headers.value[k]
  {
    Envelope(message.body,
             match message.headers
             case None => None
             case Some(h) => Some(map k | k in h :: h[k]),
             message.labelText)
  }

  /** Builds the received message; a null header dictionary becomes an empty one. */
  function CreateReceivedTransportMessage(messageId: string, envelope: Envelope): (m: ReceivedTransportMessage)
    ensures m.id == messageId && m.body == envelope.body && m.labelText == envelope.labelText
    ensures envelope.headers.None? ==> m.headers == map[]
    ensures envelope.headers.Some? ==>
      m.headers.Keys == envelope.headers.value.Keys &&
      forall k :: k in m.headers ==> m.headers[k] == envelope.headers.value[k]
  {
    ReceivedTransportMessage(
      messageId,
      match envelope.headers
      case None => map[]
      case Some(h) => map k | k in h :: h[k],
      envelope.body,
      envelope.labelText)
  }

  /** Wraps the envelope and promotes the id, correlation id and return address
      headers that are present; a null header dictionary raises. */
  function CreateBrokeredMessage(envelope: Envelope): (r: Result<BrokeredMessage, Fault>)
    ensures r.Failure? <==> envelope.headers.None?
    ensures r.Failure? ==> r.error == NullHeaders
    ensures r.Success? ==>
      var h := envelope.headers.value;
      && r.value.content == envelope
      && r.value.labelText == envelope.labelText
      && (r.value.messageId.Some? <==> MessageIdHeader in h)
      && (r.value.correlationId.Some? <==> CorrelationIdHeader in h)
      && (r.value.replyTo.Some? <==> ReturnAddressHeader in h)
      && (MessageIdHeader in h ==> r.value.messageId.value == h[MessageIdHeader])
      && (CorrelationIdHeader in h ==> r.value.correlationId.value == h[CorrelationIdHeader])
      && (ReturnAddressHeader in h ==> r.value.replyTo.value == h[ReturnAddressHeader])
  {
    match envelope.headers
    case None => Failure(NullHeaders)
    case Some(h) =>
      Success(BrokeredMessage(envelope, Lookup(h, MessageIdHeader), Lookup(h, CorrelationIdHeader),
                              Lookup(h, ReturnAddressHeader), envelope.labelText))
  }

  /** The brokered message as its constructor leaves it, before any property or
      the label is set: what exists when a header lookup on a null dictionary
      raises. */
  function Constructed(envelope: Envelope): BrokeredMessage
  {
    BrokeredMessage(envelope, None, None, None, "")
  }

  /** True when every envelope can be wrapped in a brokered message. */
  predicate AllHaveHeaders(envelopes: seq<Envelope>) {
    forall i :: 0 <= i < |envelopes| ==> envelopes[i].headers.Some?
  }

  /** The brokered message for an envelope that has headers. */
  function Brokered(envelope: Envelope): BrokeredMessage
    requires envelope.headers.Some?
  {
    CreateBrokeredMessage(envelope).value
  }

  /**
   * End to end: a message with headers that is sent and then received (its
   * id being the brokered message's MessageId, or the id the backend assigns
   * when none was set) arrives with the body, label and headers it was sent
   * with, and with the id its message-id header named.
   */
  lemma SendReceiveRoundTrip(message: TransportMessageToSend, assignedId: string)
    requires message.headers.Some?
    ensures CreateBrokeredMessage(CreateEnvelope(message)).Success?
    ensures
      var bm := CreateBrokeredMessage(CreateEnvelope(message)).value;
      var received := CreateReceivedTransportMessage(bm.messageId.GetOr(assignedId), bm.content);
      && received.body == message.body
      && received.labelText == message.labelText
      && received.headers == message.headers.value
      && (MessageIdHeader in message.headers.value ==> received.id == message.headers.value[MessageIdHeader])
      && (MessageIdHeader !in message.headers.value ==> received.id == assignedId)
  {
  }

  /** A message sent with a null header dictionary can never be put on the wire. */
  lemma NullHeadersNeverSent(message: TransportMessageToSend)
    requires message.headers.None?
    ensures CreateBrokeredMessage(CreateEnvelope(message)) == Failure(NullHeaders)
  {
  }
}
