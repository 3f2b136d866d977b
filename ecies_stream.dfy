/**
 * The ECIES session stream: the two handshake roles, and the established session as a
 * stream of message payloads and a sink of message payloads.
 */
module EciesStream {
  import opened Wrappers
  import opened EciesTypes

  /**
   * What one handshake attempt does: how it ends (the remote id of the new session, or
   * the error), the egress values it wrote, and how many ingress values it consumed.
   */
  datatype Handshake = Handshake(outcome: Result<PeerId, ECIESError>, written: seq<EgressValue>, consumed: nat)

  /**
   * The initiator's handshake (`connect`): build the client codec, send one Auth, read one
   * ingress value, and succeed only on Ack. `setup` is the failure of the client codec's
   * construction, if any; `writeFault` that of the transport's writes.
   */
  function ConnectSpec(setup: Option<ECIESError>, writeFault: Option<IoError>,
                       ingress: seq<Result<IngressValue, ECIESError>>, remoteId: PeerId): (h: Handshake)
    // a codec that cannot be built fails the call before anything is written or read
    ensures setup.Some? ==> h == Handshake(Failure(IO(InvalidHandshakeSetup)), [], 0)
    // a failed Auth write returns the transport's error, and nothing is read
    ensures setup.None? && writeFault.Some? ==> h == Handshake(Failure(IO(writeFault.value)), [], 0)
    // at most one Auth is written, and the single read happens only after it
    ensures h.written == [] || h.written == [EgressValue.Auth]
    ensures h.consumed <= 1 && h.consumed <= |ingress|
    ensures h.consumed == 1 ==> h.written == [EgressValue.Auth]
    ensures setup.None? && writeFault.None? ==> h.written == [EgressValue.Auth] && h.consumed == (if ingress == [] then 0 else 1)
    // success exactly on an Ack, and the session keeps the caller's id
    ensures h.outcome.Success? <==> setup.None? && writeFault.None? && Head(ingress) == Some(Success(IngressValue.Ack))
    ensures h.outcome.Success? ==> h.outcome.value == remoteId
    // a decode or I/O error on the read is returned as it is
    ensures setup.None? && writeFault.None? && ingress != [] && ingress[0].Failure? ==>
              h.outcome == Failure(ingress[0].error)
    // anything else read, or end of stream, is an invalid handshake carrying what was seen
    ensures setup.None? && writeFault.None? && ingress == [] ==>
              h.outcome == Failure(InvalidHandshake(IngressValue.Ack, None))
    ensures setup.None? && writeFault.None? && ingress != [] && ingress[0].Success? && ingress[0].value != IngressValue.Ack ==>
              h.outcome == Failure(InvalidHandshake(IngressValue.Ack, Some(ingress[0].value)))
  {
    if setup.Some? then Handshake(Failure(IO(InvalidHandshakeSetup)), [], 0)
    else if writeFault.Some? then Handshake(Failure(IO(writeFault.value)), [], 0)
    else
      var consumed := if ingress == [] then 0 else 1;
      match TryNextOf(Head(ingress))
      case Failure(e) => Handshake(Failure(e), [EgressValue.Auth], consumed)
      case Success(msg) =>
        if msg == Some(IngressValue.Ack) then Handshake(Success(remoteId), [EgressValue.Auth], consumed)
        else Handshake(Failure(InvalidHandshake(IngressValue.Ack, msg)), [EgressValue.Auth], consumed)
  }

  /**
   * The responder's handshake (`incoming`): build the server codec, read one ingress
   * value, accept only AuthReceive(id), then send one Ack. `setup` is the failure of the
   * server codec's construction, if any.
   */
  function IncomingSpec(setup: Option<ECIESError>, writeFault: Option<IoError>,
                        ingress: seq<Result<IngressValue, ECIESError>>): (h: Handshake)
    // a codec that cannot be built fails the call, with its own error, before any I/O
    ensures setup.Some? ==> h == Handshake(Failure(setup.value), [], 0)
    ensures h.consumed <= 1 && h.consumed <= |ingress|
    // past a working codec, `try_next` takes exactly one value whatever it holds
    ensures setup.None? ==> h.consumed == (if ingress == [] then 0 else 1)
    // it reads before it writes, and writes one Ack or nothing
    ensures h.written == [] || (h.written == [EgressValue.Ack] && h.consumed == 1)
    // success exactly on AuthReceive, with the id that message carried
    ensures h.outcome.Success? <==>
              setup.None? && writeFault.None? && ingress != [] && ingress[0].Success? && ingress[0].value.AuthReceive?
    ensures h.outcome.Success? ==> h.written == [EgressValue.Ack] && h.outcome.value == ingress[0].value.id
    ensures h.outcome.Failure? ==> h.written == []
    // a failed Ack write, after a valid AuthReceive was read, returns the transport's error
    ensures setup.None? && writeFault.Some? && ingress != [] && ingress[0].Success? && ingress[0].value.AuthReceive? ==>
              h == Handshake(Failure(IO(writeFault.value)), [], 1)
    // a decode or I/O error on the read is returned as it is
    ensures setup.None? && ingress != [] && ingress[0].Failure? ==> h.outcome == Failure(ingress[0].error)
    // anything else read, or end of stream, is an invalid handshake expecting AuthReceive of the zero id
    ensures setup.None? && ingress == [] ==>
              h.outcome == Failure(InvalidHandshake(AuthReceive(DefaultPeerId), None))
    ensures setup.None? && ingress != [] && ingress[0].Success? && !ingress[0].value.AuthReceive? ==>
              h.outcome == Failure(InvalidHandshake(AuthReceive(DefaultPeerId), Some(ingress[0].value)))
  {
    if setup.Some? then Handshake(Failure(setup.value), [], 0)
    else
      var consumed := if ingress == [] then 0 else 1;
      match TryNextOf(Head(ingress))
      case Failure(e) => Handshake(Failure(e), [], consumed)
      case Success(msg) =>
        if msg.Some? && msg.value.AuthReceive? then
          if writeFault.Some? then Handshake(Failure(IO(writeFault.value)), [], consumed)
          else Handshake(Success(msg.value.id), [EgressValue.Ack], consumed)
        else Handshake(Failure(InvalidHandshake(AuthReceive(DefaultPeerId), msg)), [], consumed)
  }

  /**
   * `poll_next` of an established session: a Message yields its payload unchanged, end
   * of stream ends the stream, and every other item (Ack, AuthReceive, or a decoder
   * error) becomes a protocol error that carries it.
   */
  function Classify(polled: Option<Result<IngressValue, ECIESError>>): (item: Option<Result<Bytes, IoError>>)
    ensures item.None? <==> polled.None?
    ensures item.Some? && item.value.Success? <==>
              polled.Some? && polled.value.Success? && polled.value.value.Message?
    ensures item.Some? && item.value.Success? ==> item.value.value == polled.value.value.body
    ensures item.Some? && item.value.Failure? ==> item.value.error == UnexpectedIngress(polled.value)
  {
    match polled
    case Some(other) =>
      if other.Success? && other.value.Message? then Some(Success(other.value.body))
      else Some(Failure(UnexpectedIngress(other)))
    case None => None
  }

  /** An established session: the framed transport and the negotiated remote id. */
  class ECIESStream {
    const stream: Transport
    const codec: ECIESCodec
    const remoteId: PeerId
    /** How many egress values the handshake left in the log. */
    ghost const handshakeFrames: nat

    /** After the handshake, only Message values are written. */
    ghost predicate Valid()
      reads stream
    {
      && handshakeFrames <= |stream.egress|
      && forall i :: handshakeFrames <= i < |stream.egress| ==> stream.egress[i].Message?
    }

    /** The session a successful handshake builds; in this model only `Connect` and `Incoming` call it. */
    constructor Established(stream: Transport, codec: ECIESCodec, remoteId: PeerId)
      ensures this.stream == stream && this.codec == codec && this.remoteId == remoteId
      ensures handshakeFrames == |stream.egress| && Valid()
    {
      this.stream := stream;
      this.codec := codec;
      this.remoteId := remoteId;
      handshakeFrames := |stream.egress|;
    }

    /** `remote_id`: fixed when the session is built (a constant field). */
    function RemoteId(): (id: PeerId)
      ensures id == remoteId
    {
      remoteId
    }

    /** `connect`: the initiator's handshake over `transport`. */
    static method Connect(transport: Transport, secretKey: SecretKey, remoteId: PeerId, setup: Option<ECIESError>)
      returns (r: Result<ECIESStream, ECIESError>)
      modifies transport
      ensures var h := ConnectSpec(setup, transport.writeFault, old(transport.ingress), remoteId);
        && transport.egress == old(transport.egress) + h.written
        && transport.ingress == old(transport.ingress)[h.consumed..]
        && (r.Success? <==> h.outcome.Success?)
        && (r.Failure? ==> r.error == h.outcome.error)
        && (r.Success? ==> && fresh(r.value) && r.value.stream == transport && r.value.RemoteId() == h.outcome.value
                           && r.value.codec == ECIESCodec(secretKey, Client(remoteId))
                           && r.value.handshakeFrames == |transport.egress| && r.value.Valid())
    {
      if setup.Some? {
        return Failure(IO(InvalidHandshakeSetup));
      }
      var codec := ECIESCodec(secretKey, Client(remoteId));
      var sent := transport.Send(EgressValue.Auth);
      if sent.Failure? {
        return Failure(IO(sent.error));
      }
      var msg := transport.TryNext();
      if msg.Failure? {
        return Failure(msg.error);
      }
      if msg.value == Some(IngressValue.Ack) {
        var session := new ECIESStream.Established(transport, codec, remoteId);
        return Success(session);
      }
      return Failure(InvalidHandshake(IngressValue.Ack, msg.value));
    }

    /** `incoming`: the responder's handshake over a just-accepted `transport`. */
    static method Incoming(transport: Transport, secretKey: SecretKey, setup: Option<ECIESError>)
      returns (r: Result<ECIESStream, ECIESError>)
      modifies transport
      ensures var h := IncomingSpec(setup, transport.writeFault, old(transport.ingress));
        && transport.egress == old(transport.egress) + h.written
        && transport.ingress == old(transport.ingress)[h.consumed..]
        && (r.Success? <==> h.outcome.Success?)
        && (r.Failure? ==> r.error == h.outcome.error)
        && (r.Success? ==> && fresh(r.value) && r.value.stream == transport && r.value.RemoteId() == h.outcome.value
                           && r.value.codec == ECIESCodec(secretKey, Server)
                           && r.value.handshakeFrames == |transport.egress| && r.value.Valid())
    {
      if setup.Some? {
        return Failure(setup.value);
      }
      var codec := ECIESCodec(secretKey, Server);
      var msg := transport.TryNext();
      if msg.Failure? {
        return Failure(msg.error);
      }
      if !(msg.value.Some? && msg.value.value.AuthReceive?) {
        return Failure(InvalidHandshake(AuthReceive(DefaultPeerId), msg.value));
      }
      var id := msg.value.value.id;
      var sent := transport.Send(EgressValue.Ack);
      if sent.Failure? {
        return Failure(IO(sent.error));
      }
      var session := new ECIESStream.Established(transport, codec, id);
      return Success(session);
    }

    /** `Stream::poll_next`: the next payload, end of stream, or a protocol error. */
    method PollNext() returns (item: Option<Result<Bytes, IoError>>)
      requires Valid()
      modifies stream
      ensures Valid()
      ensures item == Classify(Head(old(stream.ingress)))
      ensures stream.ingress == Rest(old(stream.ingress)) && stream.egress == old(stream.egress)
    {
      var polled := stream.PollNext();
      item := Classify(polled);
    }

    /** `Sink::poll_ready`: delegated; writes nothing. */
    method PollReady() returns (r: Result<(), IoError>)
      ensures r == WriteStatus(stream.writeFault)
    {
      r := stream.PollReady();
    }

    /** `Sink::start_send`: the payload is written as exactly one Message value. */
    method StartSend(item: Bytes) returns (r: Result<(), IoError>)
      requires Valid()
      modifies stream
      ensures Valid()
      ensures r == WriteStatus(stream.writeFault)
      ensures stream.egress == if r.Success? then old(stream.egress) + [EgressValue.Message(item)] else old(stream.egress)
      ensures stream.ingress == old(stream.ingress)
    {
      r := stream.StartSend(EgressValue.Message(item));
    }

    /** `Sink::poll_flush`: delegated; writes nothing. */
    method PollFlush() returns (r: Result<(), IoError>)
      ensures r == WriteStatus(stream.writeFault)
    {
      r := stream.PollFlush();
    }

    /** `Sink::poll_close`: delegated; writes nothing. */
    method PollClose() returns (r: Result<(), IoError>)
      ensures r == WriteStatus(stream.writeFault)
    {
      r := stream.PollClose();
    }

    /** `SinkExt::send` over the session's sink: ready, start_send, flush. */
    method Send(item: Bytes) returns (r: Result<(), IoError>)
      requires Valid()
      modifies stream
      ensures Valid()
      ensures r == WriteStatus(stream.writeFault)
      ensures stream.egress == if r.Success? then old(stream.egress) + [EgressValue.Message(item)] else old(stream.egress)
      ensures stream.ingress == old(stream.ingress)
    {
      r := PollReady();
      if r.Failure? {
        return;
      }
      r := StartSend(item);
      if r.Failure? {
        return;
      }
      r := PollFlush();
    }
  }
}
