/**
 One connection's streams: the table of a Provider, every stream it ever made,
 and what the dispatcher does to them for each frame it receives.
 */
module Streams {
  import opened Basics
  import P = Packets
  import opened ServicePackets
  import opened DataPackets
  import opened Messages

  const CHUNK: nat := 2048

  /** Why a pipe was closed. */
  datatype Reason = EndOfStream | Overlong | PipeClosed | SendFailed | BodyFailed | Disconnected | ReaderClosed

  /**
   A stream: the response header received, the bytes handed to its pipe, why the
   pipe was closed, and the wait group its Push waits on with its one-shot release.
   */
  datatype StreamState = StreamState(id: u32, header: Option<Response>, pipe: Bytes, closed: Option<Reason>, once: bool,
      wg: int)

  /** `streams` gives for an id the place in `made` of the stream it stands for. */
  datatype Table = Table(made: seq<StreamState>, streams: map<u32, nat>, counter: u32)

  predicate Valid(t: Table)
  {
    forall id | id in t.streams :: t.streams[id] < |t.made| && t.made[t.streams[id]].id == id
  }

  function NewStream(id: u32): StreamState
  {
    StreamState(id, None, [], None, false, 1)
  }

  function Signal(s: StreamState): StreamState
  {
    if s.once then s else s.(once := true, wg := s.wg - 1)
  }

  /** io.Pipe keeps the first error it is closed with. */
  function ClosePipe(s: StreamState, why: Reason): StreamState
  {
    if s.closed.Some? then s else s.(closed := Some(why))
  }

  function Add(t: Table, id: u32): Table
  {
    t.(made := t.made + [NewStream(id)], streams := t.streams[id := |t.made|])
  }

  /** The new stream is the last one made. */
  function NextStream(t: Table): Table
  {
    Add(t, t.counter).(counter := (t.counter + 2) % TWO32)
  }

  /** The stream, and whether it was created. */
  function Register(t: Table, id: u32): (Table, nat, bool)
  {
    if id in t.streams then (t, t.streams[id], false) else (Add(t, id), |t.made|, true)
  }

  function CloseStream(t: Table, k: nat, why: Reason): Table
    requires k < |t.made|
  {
    t.(made := t.made[k := Signal(ClosePipe(t.made[k], why))], streams := t.streams - {t.made[k].id})
  }

  predicate InTable(t: Table, k: nat)
  {
    k < |t.made| && t.made[k].id in t.streams && t.streams[t.made[k].id] == k
  }

  function CloseAll(t: Table): Table
  {
    t.(made := seq(|t.made|, k requires 0 <= k < |t.made| => if InTable(t, k)
        then Signal(ClosePipe(t.made[k], Disconnected)) else t.made[k]),
       streams := map[])
  }

  /** The handler, or the caller of Push, closes the pipe's reading end. */
  function CloseReader(t: Table, k: nat): Table
    requires k < |t.made|
  {
    t.(made := t.made[k := ClosePipe(t.made[k], ReaderClosed)])
  }

  // ----- the dispatcher

  datatype Failure = NoOpcode | UnknownOpcode | Malformed | StreamTaken | NoSuchStream | TooLong | WriteFailed

  /**
   Nil, an error, a response to send, a handler to start on a stream, a panic,
   or a message that is not about streams: a handshake, or a request for nodes.
   */
  datatype Outcome =
    | Done | Fails(e: Failure) | Answer(s: Response) | Serve(id: u32, service: Bytes) | Panics | Elsewhere

  function FirstOffered(services: seq<Bytes>, offered: set<Bytes>): Option<Bytes>
  {
    if services == [] then None
    else if services[0] in offered then Some(services[0])
    else FirstOffered(services[1..], offered)
  }

  /** `named`: the peer has announced an id, which the handler's context is given without a nil test. */
  function HandleRequest(t: Table, q: Request, offered: set<Bytes>, named: bool): (Table, Outcome)
  {
    var (t', _, created) := Register(t, q.streamId);
    if !created then (t, Fails(StreamTaken))
    else
      match FirstOffered(q.services, offered)
      case None => (t', Answer(Response(q.streamId, false, None)))
      case Some(service) => (t', if named then Serve(q.streamId, service) else Panics)
  }

  function HandleResponse(t: Table, s: Response): (Table, Outcome)
    requires Valid(t)
  {
    if s.streamId !in t.streams then (t, Fails(NoSuchStream))
    else
      var k := t.streams[s.streamId];
      (t.(made := t.made[k := Signal(t.made[k].(header := Some(s)))]), Done)
  }

  function HandleData(t: Table, d: Data): (Table, Outcome)
    requires Valid(t)
  {
    if d.streamId !in t.streams then (t, Fails(NoSuchStream))
    else
      var k := t.streams[d.streamId];
      if |d.data| > CHUNK then (CloseStream(t, k, Overlong), Fails(TooLong))
      else if |d.data| == 0 then (CloseStream(t, k, EndOfStream), Done)
      else if t.made[k].closed.Some? then (CloseStream(t, k, PipeClosed), Fails(WriteFailed))
      else (t.(made := t.made[k := t.made[k].(pipe := t.made[k].pipe + d.data)]), Done)
  }

  function HandleOne(t: Table, m: Message, offered: set<Bytes>, named: bool): (Table, Outcome)
    requires Valid(t)
  {
    match m
    case Req(q) => HandleRequest(t, q, offered, named)
    case Res(s) => HandleResponse(t, s)
    case Dat(d) => HandleData(t, d)
  }

  /** A frame on a connection whose handshake was received. */
  function HandleFrame(t: Table, b: Bytes, offered: set<Bytes>, named: bool): (Table, Outcome)
    requires Valid(t)
  {
    match Receive(b)
    case Got(m) => HandleOne(t, m, offered, named)
    case NoOpcode => (t, Fails(Failure.NoOpcode))
    case Malformed => (t, Fails(Failure.Malformed))
    case Crash => (t, Panics)
    case NotAStreamMessage(op) =>
      (t, if op == HANDSHAKE || op == FIND_NODE_REQUEST then Elsewhere else Fails(UnknownOpcode))
  }

  lemma HandlingKeepsValid(t: Table, m: Message, offered: set<Bytes>, named: bool)
    requires Valid(t)
    ensures Valid(HandleOne(t, m, offered, named).0)
  {
  }

  // ----- when the dispatcher panics

  lemma {:induction false} FirstOfferedIs(services: seq<Bytes>, offered: set<Bytes>)
    ensures FirstOffered(services, offered).Some? <==> exists x | x in services :: x in offered
  {
    if services != [] {
      FirstOfferedIs(services[1..], offered);
      assert services == [services[0]] + services[1..];
    }
  }

  /** A request under an id not in use, for a service this node offers. */
  predicate WouldServe(t: Table, m: Message, offered: set<Bytes>)
  {
    m.Req? && m.q.streamId !in t.streams && exists x | x in m.q.services :: x in offered
  }

  /**
   The dispatcher panics if and only if the frame is a service request of exactly 4
   bytes, or is one it would serve from a peer that has announced no id.
   */
  lemma PanicsExactlyWhen(t: Table, b: Bytes, offered: set<Bytes>, named: bool)
    requires Valid(t)
    ensures HandleFrame(t, b, offered, named).1.Panics?
      <==> (|b| == 5 && b[0] == SERVICE_REQUEST) || (!named && Receive(b).Got? && WouldServe(t, Receive(b).m, offered))
  {
    if Receive(b).Got? && Receive(b).m.Req? {
      FirstOfferedIs(Receive(b).m.q.services, offered);
    }
  }

  /** Without an id the peer's frames do all else they do with one. */
  lemma IdMattersToServingOnly(t: Table, b: Bytes, offered: set<Bytes>)
    requires Valid(t)
    ensures HandleFrame(t, b, offered, false).0 == HandleFrame(t, b, offered, true).0
    ensures !HandleFrame(t, b, offered, false).1.Panics?
        ==> HandleFrame(t, b, offered, false) == HandleFrame(t, b, offered, true)
    ensures HandleFrame(t, b, offered, true).1.Panics? ==> HandleFrame(t, b, offered, false).1.Panics?
  {
  }

  /**
   Every frame that asks under a fresh id for a service on offer is served to a peer with an id, and
   panics for one without.
   */
  lemma AnonymousRequestPanics(t: Table, b: Bytes, q: Request, offered: set<Bytes>)
    requires Valid(t) && Encodes(b, Req(q)) && RequestFits(q) && WouldServe(t, Req(q), offered)
    ensures HandleFrame(t, b, offered, false).1.Panics?
    ensures HandleFrame(t, b, offered, true).1.Serve? && HandleFrame(t, b, offered, true).1.id == q.streamId
  {
    ReceivedAsSent(b, Req(q));
    FirstOfferedIs(q.services, offered);
  }

  /** Ten bytes: the opcode, stream id 0, one service named by one byte, no headers. */
  lemma TenBytesPanic(offered: set<Bytes>)
    requires [65] in offered
    ensures HandleFrame(Table([], map[], 1), [SERVICE_REQUEST, 0, 0, 0, 0, 1, 1, 65, 0, 0], offered, false).1.Panics?
  {
    var q := Request(0, [[65]], None);
    var b := [SERVICE_REQUEST, 0, 0, 0, 0, 1, 1, 65, 0, 0];
    assert Encodes(b, Req(q)) by {
      assert |q.services[1..]| == 0;
      assert P.Str8(q.services[0]) == [1, 65] && P.AllStr8(q.services) == [1, 65];
      assert P.Iterates([], q.headers) && b == [SERVICE_REQUEST] + EncodeRequest(q, []);
    }
    AnonymousRequestPanics(Table([], map[], 1), b, q, offered);
  }
}
