/**
 The messages of a stream between two nodes: an opcode byte and a packet.
 */
module Messages {
  import opened Basics
  import opened Packets
  import opened ServicePackets
  import opened DataPackets

  const HANDSHAKE: byte := 0
  const SERVICE_REQUEST: byte := 1
  const SERVICE_RESPONSE: byte := 2
  const DATA: byte := 3
  const FIND_NODE_REQUEST: byte := 4

  datatype Message = Req(q: Request) | Res(s: Response) | Dat(d: Data)
  {
    function Id(): u32
    {
      match this
      case Req(q) => q.streamId
      case Res(s) => s.streamId
      case Dat(d) => d.streamId
    }
  }

  /** A frame that encodes a message, its headers in some order. */
  ghost predicate Encodes(b: Bytes, m: Message)
  {
    match m
    case Req(q) => exists order :: Iterates(order, q.headers) && b == [SERVICE_REQUEST] + EncodeRequest(q, order)
    case Res(s) => exists order :: Iterates(order, s.headers) && b == [SERVICE_RESPONSE] + EncodeResponse(s, order)
    case Dat(d) => b == [DATA] + EncodeData(d)
  }

  datatype Incoming = Got(m: Message) | NoOpcode | Malformed | Crash | NotAStreamMessage(opcode: byte)

  function Lifted<T>(d: Decoded<T>, wrap: T -> Message): Incoming
  {
    match d
    case Packet(p) => Got(wrap(p))
    case Panics => Crash
    case _ => Malformed
  }

  /** What the dispatcher makes of a frame. */
  function Receive(b: Bytes): Incoming
  {
    if |b| < 1 then NoOpcode
    else if b[0] == SERVICE_REQUEST then Lifted(DecodeRequest(b[1..]), q => Req(q))
    else if b[0] == SERVICE_RESPONSE then Lifted(DecodeResponse(b[1..]), s => Res(s))
    else if b[0] == DATA then Lifted(DecodeData(b[1..]), d => Dat(d))
    else NotAStreamMessage(b[0])
  }

  predicate MessageFits(m: Message)
  {
    match m
    case Req(q) => RequestFits(q)
    case Res(s) => HeadersFit(s.headers)
    case Dat(d) => |d.data| < TWO16
  }

  /** What a message is read as: nil headers are empty ones. */
  function AsRead(m: Message): Message
  {
    match m
    case Req(q) => Req(q.(headers := Some(NilIsEmpty(q.headers))))
    case Res(s) => Res(s.(headers := Some(NilIsEmpty(s.headers))))
    case Dat(d) => m
  }

  /** A frame is read as the message it encodes if and only if the message is within the limits of its length fields. */
  lemma ReceivedAsSent(b: Bytes, m: Message)
    requires Encodes(b, m)
    ensures MessageFits(m) <==> Receive(b) == Got(AsRead(m))
  {
    match m
    case Req(q) =>
      var order :| Iterates(order, q.headers) && b == [SERVICE_REQUEST] + EncodeRequest(q, order);
      assert b[1..] == EncodeRequest(q, order) + [];
      RequestRoundTrip(q, order, []);
    case Res(s) =>
      var order :| Iterates(order, s.headers) && b == [SERVICE_RESPONSE] + EncodeResponse(s, order);
      assert b[1..] == EncodeResponse(s, order) + [];
      ResponseRoundTrip(s, order, []);
    case Dat(d) =>
      assert b[1..] == EncodeData(d);
      EncodingIsAccepted(d);
  }
}
