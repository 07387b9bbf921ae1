/**
 What each operation on the streams of a connection does, told in full and without
 the functions that compute it: which stream changes and how, and what is answered.
 */
module StreamOutcomes {
  import opened Basics
  import opened ServicePackets
  import opened DataPackets
  import P = Packets
  import opened Messages
  import opened Streams

  /** x' is x with its pipe closed, for this reason unless it was before, and its waiter released. */
  predicate IsClosed(x: StreamState, x': StreamState, why: Reason)
  {
    x' == x.(closed := Some(if x.closed.Some? then x.closed.value else why), once := true,
             wg := if x.once then x.wg else x.wg - 1)
  }

  /** x' is x with its pipe closed, and nothing else changed. */
  predicate IsPipeClosed(x: StreamState, x': StreamState, why: Reason)
  {
    x' == x.(closed := Some(if x.closed.Some? then x.closed.value else why))
  }

  /** No stream but the one at k differs, and no id but that one's may have gone. */
  predicate OnlyAt(t: Table, t': Table, k: nat)
    requires k < |t.made|
  {
    && |t'.made| == |t.made| && t'.counter == t.counter
    && (forall j | 0 <= j < |t.made| && j != k :: t'.made[j] == t.made[j])
    && (t'.streams == t.streams || t'.streams == t.streams - {t.made[k].id})
  }

  /** The stream at k is closed, released and dropped from the table, and no other is touched. */
  predicate ClosesAt(t: Table, t': Table, k: nat, why: Reason)
    requires k < |t.made|
  {
    OnlyAt(t, t', k) && IsClosed(t.made[k], t'.made[k], why) && t'.streams == t.streams - {t.made[k].id}
  }

  /** One more stream, with its own pipe, no header and a waiter to be released, under the id. */
  predicate IsMade(t: Table, t': Table, id: u32)
  {
    && t'.made == t.made + [StreamState(id, None, [], None, false, 1)]
    && t'.streams == t.streams[id := |t.made|]
  }

  // ----- the table

  lemma NextStreamOutcome(t: Table)
    ensures var t' := NextStream(t); IsMade(t, t', t.counter) && t'.counter == (t.counter + 2) % 0x1_0000_0000
  {
  }

  lemma CloseStreamOutcome(t: Table, k: nat, why: Reason)
    requires k < |t.made|
    ensures ClosesAt(t, CloseStream(t, k, why), k, why)
  {
  }

  lemma CloseReaderOutcome(t: Table, k: nat)
    requires k < |t.made|
    ensures var t' := CloseReader(t, k);
      OnlyAt(t, t', k) && IsPipeClosed(t.made[k], t'.made[k], ReaderClosed) && t'.streams == t.streams
  {
  }

  /** Provider.Close: the listed streams, all of them and no others, for want of a connection. */
  lemma CloseAllOutcome(t: Table)
    ensures var t' := CloseAll(t); |t'.made| == |t.made| && t'.streams == map[] && t'.counter == t.counter
    ensures forall k | 0 <= k < |t.made| ::
              if t.made[k].id in t.streams && t.streams[t.made[k].id] == k
              then IsClosed(t.made[k], CloseAll(t).made[k], Disconnected)
              else CloseAll(t).made[k] == t.made[k]
  {
  }

  // ----- a service request

  /** The service at k is the first that is offered. */
  predicate IsFirstOffer(services: seq<Bytes>, offered: set<Bytes>, k: nat)
  {
    k < |services| && services[k] in offered && forall j | 0 <= j < k :: services[j] !in offered
  }

  lemma {:induction false} FirstOfferedIsFirst(services: seq<Bytes>, offered: set<Bytes>)
    ensures match FirstOffered(services, offered)
      case None => forall j | 0 <= j < |services| :: services[j] !in offered
      case Some(x) => exists k: nat :: IsFirstOffer(services, offered, k) && services[k] == x
  {
    if services != [] {
      var rest := services[1..];
      FirstOfferedIsFirst(rest, offered);
      if services[0] in offered {
        assert IsFirstOffer(services, offered, 0);
      } else if FirstOffered(rest, offered).Some? {
        var k: nat :| IsFirstOffer(rest, offered, k) && rest[k] == FirstOffered(rest, offered).value;
        LaterOffer(services, offered, k);
      } else {
        forall j | 0 <= j < |services| ensures services[j] !in offered {
          assert j > 0 ==> rest[j - 1] !in offered;
        }
      }
    }
  }

  lemma LaterOffer(services: seq<Bytes>, offered: set<Bytes>, k: nat)
    requires services != [] && services[0] !in offered && IsFirstOffer(services[1..], offered, k)
    ensures IsFirstOffer(services, offered, k + 1) && services[k + 1] == services[1..][k]
  {
    forall j | 0 <= j < k + 1 ensures services[j] !in offered {
      assert j > 0 ==> services[1..][j - 1] !in offered;
    }
  }

  lemma OneFirstOffer(services: seq<Bytes>, offered: set<Bytes>, j: nat, k: nat)
    requires IsFirstOffer(services, offered, j) && IsFirstOffer(services, offered, k)
    ensures j == k
  {
  }

  /** An id in use is refused and nothing changes; else a stream is made for it, whatever becomes of the request. */
  lemma RequestStream(t: Table, q: Request, offered: set<Bytes>, named: bool)
    ensures var (t', o) := HandleRequest(t, q, offered, named);
      if q.streamId in t.streams then t' == t && o == Fails(StreamTaken)
      else IsMade(t, t', q.streamId) && t'.counter == t.counter && o != Fails(StreamTaken)
  {
  }

  /**
   A request is served by the handler of the first of its services that is offered, if
   its id is fresh and the peer has an id, and it panics if the peer has none; it is
   answered, as not handled and without headers, if and only if the id is fresh and
   none of its services is offered.
   */
  lemma RequestOutcome(t: Table, q: Request, offered: set<Bytes>, named: bool)
    ensures var o := HandleRequest(t, q, offered, named).1;
      && (forall k: nat | IsFirstOffer(q.services, offered, k) && q.streamId !in t.streams ::
            o == if named then Serve(q.streamId, q.services[k]) else Panics)
      && (o.Serve? || o.Panics? <==> q.streamId !in t.streams && exists x :: x in q.services && x in offered)
      && (o.Answer? <==> q.streamId !in t.streams && forall x :: x in q.services ==> x !in offered)
      && (o.Answer? ==> o.s.streamId == q.streamId && o.s.handled == false && o.s.headers == None)
  {
    FirstOfferedIsFirst(q.services, offered);
    forall k: nat | IsFirstOffer(q.services, offered, k)
      ensures FirstOffered(q.services, offered) == Some(q.services[k])
    {
      FirstOfferIs(q.services, offered, k);
    }
  }

  lemma FirstOfferIs(services: seq<Bytes>, offered: set<Bytes>, k: nat)
    requires IsFirstOffer(services, offered, k)
    ensures FirstOffered(services, offered) == Some(services[k])
  {
    FirstOfferedIsFirst(services, offered);
    if FirstOffered(services, offered).Some? {
      var j: nat :| IsFirstOffer(services, offered, j) && services[j] == FirstOffered(services, offered).value;
      OneFirstOffer(services, offered, j, k);
    }
  }

  // ----- a service response

  /** The response goes to the stream listed under its id, whose waiter is released, and to no other. */
  lemma ResponseOutcome(t: Table, s: Response)
    requires Valid(t)
    ensures var (t', o) := HandleResponse(t, s);
      if s.streamId !in t.streams then t' == t && o == Fails(NoSuchStream)
      else
        var k := t.streams[s.streamId]; var x := t.made[k];
        && o == Done && OnlyAt(t, t', k) && t'.streams == t.streams
        && t'.made[k] == x.(header := Some(s), once := true, wg := if x.once then x.wg else x.wg - 1)
  {
  }

  // ----- a data packet

  /**
   The bytes of a packet reach the pipe of the stream listed under its id if and only if
   there are between 1 and 2048 of them and the pipe is open; then nothing else changes.
   In every other case the pipe keeps what it has and the stream is closed, released
   and dropped: without an error for an empty packet, and with one for a longer one and
   for a pipe that was closed already.
   */
  lemma DataOutcome(t: Table, d: Data)
    requires Valid(t)
    ensures var (t', o) := HandleData(t, d);
      if d.streamId !in t.streams then t' == t && o == Fails(NoSuchStream)
      else
        var k := t.streams[d.streamId]; var x := t.made[k];
        && (|d.data| > 2048 ==> o == Fails(TooLong) && ClosesAt(t, t', k, Overlong))
        && (|d.data| == 0 ==> o == Done && ClosesAt(t, t', k, EndOfStream))
        && (0 < |d.data| <= 2048 && x.closed.Some? ==> o == Fails(WriteFailed) && ClosesAt(t, t', k, PipeClosed))
        && (0 < |d.data| <= 2048 && x.closed.None? ==>
              o == Done && OnlyAt(t, t', k) && t'.streams == t.streams && t'.made[k] == x.(pipe := x.pipe + d.data))
  {
  }

  // ----- a frame

  /** What is made of a frame by its first byte and by whether the rest is a packet of its kind. */
  lemma FrameOutcome(t: Table, b: Bytes, offered: set<Bytes>, named: bool)
    requires Valid(t)
    ensures var (t', o) := HandleFrame(t, b, offered, named);
      && (b == [] ==> t' == t && o == Fails(Failure.NoOpcode))
      && (b != [] && (b[0] == 0 || b[0] == 4) ==> t' == t && o == Elsewhere)
      && (b != [] && b[0] >= 5 ==> t' == t && o == Fails(UnknownOpcode))
      && (b != [] && 1 <= b[0] <= 3 && Receive(b) == Incoming.Malformed ==> t' == t && o == Fails(Failure.Malformed))
      && (b != [] && 1 <= b[0] <= 3 && Receive(b) == Crash ==> t' == t && o == Panics)
  {
  }

  /** The opcode decides which packet the rest must be: 1 a service request, 2 a service response, 3 data. */
  lemma FrameIsRead(t: Table, b: Bytes, offered: set<Bytes>, named: bool)
    requires Valid(t) && b != []
    ensures b[0] == 1 ==>
      match DecodeRequest(b[1..])
      case Packet(q) => HandleFrame(t, b, offered, named) == HandleRequest(t, q, offered, named)
      case Panics => HandleFrame(t, b, offered, named) == (t, Outcome.Panics)
      case _ => HandleFrame(t, b, offered, named) == (t, Fails(Failure.Malformed))
    ensures b[0] == 2 ==>
      match DecodeResponse(b[1..])
      case Packet(s) => HandleFrame(t, b, offered, named) == HandleResponse(t, s)
      case _ => HandleFrame(t, b, offered, named) == (t, Fails(Failure.Malformed))
    ensures b[0] == 3 ==>
      match DecodeData(b[1..])
      case Packet(d) => HandleFrame(t, b, offered, named) == HandleData(t, d)
      case _ => HandleFrame(t, b, offered, named) == (t, Fails(Failure.Malformed))
  {
  }

  /** So a frame that encodes a request has the request's outcome, by the first of the services it lists. */
  lemma RequestFrameOutcome(t: Table, b: Bytes, q: Request, offered: set<Bytes>, named: bool, k: nat)
    requires Valid(t) && Encodes(b, Req(q)) && RequestFits(q) && q.streamId !in t.streams
    requires IsFirstOffer(q.services, offered, k)
    ensures HandleFrame(t, b, offered, named).1 == if named then Serve(q.streamId, q.services[k]) else Panics
  {
    ReceivedAsSent(b, Req(q));
    RequestOutcome(t, q.(headers := Some(P.NilIsEmpty(q.headers))), offered, named);
  }
}
