/**
 * Properties of the ECIES session that relate several operations: a client and a server
 * handshake against each other, and payloads cross an established session unchanged and
 * in order.
 *
 * The cryptographic codec is not part of this model. Where two sessions talk to each
 * other, `Deliver` stands for a matching, honest pair of codecs: what one side's codec
 * encodes, the other side's codec decodes to the corresponding ingress value.
 */
module EciesProperties {
  import opened Wrappers
  import opened EciesTypes
  import opened EciesStream

  /** The ingress value a matching codec decodes from one egress value of `sender`. */
  function Decoded(v: EgressValue, sender: PeerId): IngressValue
  {
    match v
    case Auth => AuthReceive(sender)
    case Ack => IngressValue.Ack
    case Message(body) => IngressValue.Message(body)
  }

  /** The receiver's ingress queue for everything `sender` wrote, in order. */
  function Deliver(egress: seq<EgressValue>, sender: PeerId): (ingress: seq<Result<IngressValue, ECIESError>>)
    ensures |ingress| == |egress|
    ensures forall i :: 0 <= i < |egress| ==> ingress[i] == Success(Decoded(egress[i], sender))
  {
    seq(|egress|, i requires 0 <= i < |egress| => Success(Decoded(egress[i], sender)))
  }

  /** The egress values a session writes for a sequence of payloads. */
  function Messages(payloads: seq<Bytes>): (frames: seq<EgressValue>)
    ensures |frames| == |payloads|
    ensures forall i :: 0 <= i < |payloads| ==> frames[i] == EgressValue.Message(payloads[i])
  {
    seq(|payloads|, i requires 0 <= i < |payloads| => EgressValue.Message(payloads[i]))
  }

  /** What successive polls of an established session yield, one per queued value. */
  function Received(ingress: seq<Result<IngressValue, ECIESError>>): (items: seq<Option<Result<Bytes, IoError>>>)
    ensures |items| == |ingress|
    ensures forall i :: 0 <= i < |ingress| ==> items[i] == Classify(Some(ingress[i]))
  {
    seq(|ingress|, i requires 0 <= i < |ingress| => Classify(Some(ingress[i])))
  }

  /** The items a receiver should see for a sequence of payloads: each one, unchanged. */
  function Payloads(payloads: seq<Bytes>): (items: seq<Option<Result<Bytes, IoError>>>)
    ensures |items| == |payloads|
    ensures forall i :: 0 <= i < |payloads| ==> items[i] == Some(Success(payloads[i]))
  {
    seq(|payloads|, i requires 0 <= i < |payloads| => Some(Success(payloads[i])))
  }

  /**
   * A client and a server whose codecs match complete the handshake against each other:
   * whatever else may follow on either queue, the client establishes a session with the
   * id it asked for and the server one with the client's id, each consuming exactly the
   * one handshake value the other wrote.
   */
  lemma HandshakesAgree(clientId: PeerId, serverId: PeerId,
                        toServer: seq<Result<IngressValue, ECIESError>>, toClient: seq<Result<IngressValue, ECIESError>>,
                        laterToServer: seq<Result<IngressValue, ECIESError>>, laterToClient: seq<Result<IngressValue, ECIESError>>)
    requires toServer == Deliver(ConnectSpec(None, None, toClient, serverId).written, clientId) + laterToServer
    requires toClient == Deliver(IncomingSpec(None, None, toServer).written, serverId) + laterToClient
    ensures ConnectSpec(None, None, toClient, serverId).outcome == Success(serverId)
    ensures IncomingSpec(None, None, toServer).outcome == Success(clientId)
    ensures toClient[ConnectSpec(None, None, toClient, serverId).consumed..] == laterToClient
    ensures toServer[IncomingSpec(None, None, toServer).consumed..] == laterToServer
  {
  }

  /**
   * Payloads written through one session arrive at the peer's session byte-identical and
   * in the order they were sent.
   */
  lemma MessagesRoundTrip(payloads: seq<Bytes>, sender: PeerId)
    ensures Received(Deliver(Messages(payloads), sender)) == Payloads(payloads)
  {
  }

  /**
   * The client side: connect over a transport whose ingress is what the server wrote,
   * then send every payload through the session. The session exists exactly when the
   * server's first value is an Ack; the log then holds one Auth followed by the payloads
   * in order, and otherwise the Auth alone.
   */
  method ClientSends(clientKey: SecretKey, serverId: PeerId, payloads: seq<Bytes>, fromServer: seq<EgressValue>)
    returns (clientRemote: Option<PeerId>, clientFrames: seq<EgressValue>)
    ensures clientRemote.Some? <==> fromServer != [] && fromServer[0] == EgressValue.Ack
    ensures clientRemote.Some? ==> clientRemote.value == serverId && clientFrames == [EgressValue.Auth] + Messages(payloads)
    ensures clientRemote.None? ==> clientFrames == [EgressValue.Auth]
  {
    var toClient := new Transport(Deliver(fromServer, serverId), None);
    var connected := ECIESStream.Connect(toClient, clientKey, serverId, None);
    if connected.Failure? {
      return None, toClient.egress;
    }
    var client := connected.value;
    clientRemote := Some(client.RemoteId());

    var i := 0;
    while i < |payloads|
      invariant 0 <= i <= |payloads|
      invariant client.Valid()
      invariant toClient.egress == [EgressValue.Auth] + Messages(payloads[..i])
    {
      var sent := client.Send(payloads[i]);
      assert Messages(payloads[..i + 1]) == Messages(payloads[..i]) + [EgressValue.Message(payloads[i])];
      i := i + 1;
    }
    assert payloads[..i] == payloads;
    clientFrames := toClient.egress;
  }

  /**
   * The server side: accept what a client wrote (one Auth, then payloads), answer with
   * one Ack and poll every payload back, unchanged and in order.
   */
  method ServerReceives(serverKey: SecretKey, clientId: PeerId, payloads: seq<Bytes>)
    returns (serverRemote: PeerId, serverFrames: seq<EgressValue>, received: seq<Option<Result<Bytes, IoError>>>)
    ensures serverRemote == clientId
    ensures serverFrames == [EgressValue.Ack]
    ensures received == Payloads(payloads)
  {
    var toServer := new Transport(Deliver([EgressValue.Auth] + Messages(payloads), clientId), None);
    var accepted := ECIESStream.Incoming(toServer, serverKey, None);
    var server := accepted.value;
    serverRemote := server.RemoteId();
    serverFrames := toServer.egress;
    assert toServer.ingress == Deliver(Messages(payloads), clientId);

    received := [];
    while |received| < |payloads|
      invariant |received| <= |payloads|
      invariant server.Valid()
      invariant toServer.ingress == Deliver(Messages(payloads[|received|..]), clientId)
      invariant received == Payloads(payloads[..|received|])
    {
      var item := server.PollNext();
      assert payloads[|received|..][0] == payloads[|received|];
      assert payloads[|received|..][1..] == payloads[|received| + 1..];
      received := received + [item];
    }
    assert payloads[..|received|] == payloads;
  }

  /**
   * A full exchange: the server accepts what the client writes (one Auth, then the
   * payloads) and polls every payload back; the client connects over what the server
   * wrote, reads its Ack and sends every payload. Each side knows the other's id, and
   * the client's log is exactly what the server was given.
   */
  method ExchangeMessages(clientKey: SecretKey, serverKey: SecretKey, clientId: PeerId, serverId: PeerId,
                          payloads: seq<Bytes>)
    returns (clientRemote: Option<PeerId>, serverRemote: PeerId,
             clientFrames: seq<EgressValue>, serverFrames: seq<EgressValue>,
             received: seq<Option<Result<Bytes, IoError>>>)
    ensures clientRemote == Some(serverId) && serverRemote == clientId
    ensures clientFrames == [EgressValue.Auth] + Messages(payloads)
    ensures serverFrames == [EgressValue.Ack]
    ensures received == Payloads(payloads)
  {
    serverRemote, serverFrames, received := ServerReceives(serverKey, clientId, payloads);
    clientRemote, clientFrames := ClientSends(clientKey, serverId, payloads, serverFrames);
  }

  /** "hello" as bytes. */
  const Hello: Bytes := [0x68, 0x65, 0x6c, 0x6c, 0x6f]

  /** The repository's own round trip: the server's first item is the client's "hello". */
  method CanWriteAndRead(clientKey: SecretKey, serverKey: SecretKey, clientId: PeerId, serverId: PeerId)
    returns (message: Option<Result<Bytes, IoError>>)
    ensures message == Some(Success(Hello))
  {
    var clientRemote, serverRemote, clientFrames, serverFrames, received :=
      ExchangeMessages(clientKey, serverKey, clientId, serverId, [Hello]);
    message := received[0];
  }
}
