/**
 * Values, errors and the framed transport that the ECIES session stream is built on.
 *
 * The cryptographic codec (key agreement, authenticated framing) is not part of this
 * model: a `Transport` stands for the raw byte stream seen through the codec, that is,
 * a queue of already-decoded ingress results and a log of accepted egress values.
 */
module EciesTypes {
  import opened Wrappers

  /** A node identity: a 512-bit public key. */
  type PeerId = bv512

  /** `PeerId::default()`, the all-zero identity. */
  const DefaultPeerId: PeerId := 0

  /** An opaque message payload. */
  type Bytes = seq<bv8>

  /** The local node's private key; only handed to the codec. */
  datatype SecretKey = SecretKey(scalar: nat)

  /** A client codec knows whom it expects to reach; a server codec learns it. */
  datatype Role = Client(expected: PeerId) | Server

  /** The codec a handshake builds; its cryptographic state is not modelled. */
  datatype ECIESCodec = ECIESCodec(secretKey: SecretKey, role: Role)

  /** Values the codec decodes from the peer. */
  datatype IngressValue = Ack | AuthReceive(id: PeerId) | Message(body: Bytes)

  /** Values the session hands to the codec for the peer. */
  datatype EgressValue = Auth | Ack | Message(body: Bytes)

  /** The `io::Error`s this layer produces or forwards. */
  datatype IoError =
    | InvalidHandshakeSetup
      // the "invalid handshake" error that replaces a failed client codec construction
    | UnexpectedIngress(received: Result<IngressValue, ECIESError>)
      // "ECIES stream protocol error: expected message, received ..."
    | TransportFailure(code: nat)
      // a failure of the underlying byte stream

  /** `ECIESError`: the handshake's error type and the decoder's error type. */
  datatype ECIESError =
    | IO(cause: IoError)
    | InvalidHandshake(expected: IngressValue, msg: Option<IngressValue>)
    | Codec(code: nat)
      // an error raised inside the codec (bad key, failed decryption, malformed frame)

  /** The next item of a queue: `None` once it is exhausted (end of stream). */
  function Head<T>(q: seq<T>): (item: Option<T>)
    ensures item.None? <==> q == []
    ensures item.Some? ==> item.value == q[0]
  {
    if q == [] then None else Some(q[0])
  }

  /** The queue after one poll; an exhausted queue stays exhausted. */
  function Rest<T>(q: seq<T>): (rest: seq<T>)
    ensures q == [] ==> rest == []
    ensures q != [] ==> [q[0]] + rest == q
  {
    if q == [] then [] else q[1..]
  }

  /** `TryStreamExt::try_next`: an item's error becomes the call's error. */
  function TryNextOf(item: Option<Result<IngressValue, ECIESError>>): (r: Result<Option<IngressValue>, ECIESError>)
    ensures r.Failure? <==> item.Some? && item.value.Failure?
    ensures r.Failure? ==> r.error == item.value.error
    ensures r.Success? ==> (r.value.None? <==> item.None?)
    ensures r.Success? && r.value.Some? ==> item == Some(Success(r.value.value))
  {
    match item
    case None => Success(None)
    case Some(Success(v)) => Success(Some(v))
    case Some(Failure(e)) => Failure(e)
  }

  /** The outcome of a write-side operation on a transport with the given fault. */
  function WriteStatus(fault: Option<IoError>): Result<(), IoError>
  {
    if fault.Some? then Failure(fault.value) else Success(())
  }

  /**
   * `Framed<Io, ECIESCodec>`: the duplex adapter the session owns. Ingress is consumed
   * in order, egress is appended in order; `writeFault` is the fixed outcome of every
   * write (a failing write accepts no frame).
   */
  class Transport {
    var ingress: seq<Result<IngressValue, ECIESError>>
    var egress: seq<EgressValue>
    const writeFault: Option<IoError>

    constructor (ingress: seq<Result<IngressValue, ECIESError>>, writeFault: Option<IoError>)
      ensures this.ingress == ingress && egress == [] && this.writeFault == writeFault
    {
      this.ingress := ingress;
      egress := [];
      this.writeFault := writeFault;
    }

    /** `Stream::poll_next`, taken as one step that yields the next decoded item. */
    method PollNext() returns (item: Option<Result<IngressValue, ECIESError>>)
      modifies this
      ensures item == Head(old(ingress))
      ensures ingress == Rest(old(ingress)) && egress == old(egress)
    {
      item := Head(ingress);
      ingress := Rest(ingress);
    }

    /** `TryStreamExt::try_next`. */
    method TryNext() returns (r: Result<Option<IngressValue>, ECIESError>)
      modifies this
      ensures r == TryNextOf(Head(old(ingress)))
      ensures ingress == Rest(old(ingress)) && egress == old(egress)
    {
      var item := PollNext();
      r := TryNextOf(item);
    }

    /** `Sink::poll_ready`. */
    method PollReady() returns (r: Result<(), IoError>)
      ensures r == WriteStatus(writeFault)
    {
      r := WriteStatus(writeFault);
    }

    /** `Sink::start_send`: the value joins the egress log unless writing fails. */
    method StartSend(v: EgressValue) returns (r: Result<(), IoError>)
      modifies this
      ensures r == WriteStatus(writeFault)
      ensures egress == if r.Success? then old(egress) + [v] else old(egress)
      ensures ingress == old(ingress)
    {
      r := WriteStatus(writeFault);
      if r.Success? {
        egress := egress + [v];
      }
    }

    /** `Sink::poll_flush`. */
    method PollFlush() returns (r: Result<(), IoError>)
      ensures r == WriteStatus(writeFault)
    {
      r := WriteStatus(writeFault);
    }

    /** `Sink::poll_close`. */
    method PollClose() returns (r: Result<(), IoError>)
      ensures r == WriteStatus(writeFault)
    {
      r := WriteStatus(writeFault);
    }

    /** `SinkExt::send`: ready, then start_send, then flush. */
    method Send(v: EgressValue) returns (r: Result<(), IoError>)
      modifies this
      ensures r == WriteStatus(writeFault)
      ensures egress == if r.Success? then old(egress) + [v] else old(egress)
      ensures ingress == old(ingress)
    {
      r := PollReady();
      if r.Failure? {
        return;
      }
      r := StartSend(v);
      if r.Failure? {
        return;
      }
      r := PollFlush();
    }
  }
}
