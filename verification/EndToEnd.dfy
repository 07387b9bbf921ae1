/**
 From the senders' bodies to the receiver's pipes: the frames of any number of
 streams, encoded with their headers in any order and interleaved in any way.
 */
module EndToEnd {
  import opened Basics
  import opened ServicePackets
  import opened Messages
  import opened Streams
  import opened Traces
  import opened Demux

  datatype Happening = Opens | Frame(b: Bytes)

  /** The receiver's table after these, or none once a frame has been refused. */
  function AfterFrames(first: u32, hs: seq<Happening>, offered: set<Bytes>): (r: Option<Table>)
    ensures r.Some? ==> Valid(r.value)
  {
    if hs == [] then Some(Table([], map[], first))
    else
      match AfterFrames(first, hs[..|hs| - 1], offered)
      case None => None
      case Some(t) => Take(t, hs[|hs| - 1], offered)
  }

  function Take(t: Table, h: Happening, offered: set<Bytes>): (r: Option<Table>)
    requires Valid(t)
    ensures r.Some? ==> Valid(r.value)
  {
    match h
    case Opens => Some(NextStream(t))
    case Frame(b) =>
      FramesKeepValid(t, b, offered);
      var (t', o) := HandleFrame(t, b, offered, true);
      if o.Fails? || o.Panics? then None else Some(t')
  }

  lemma FramesKeepValid(t: Table, b: Bytes, offered: set<Bytes>)
    requires Valid(t)
    ensures Valid(HandleFrame(t, b, offered, true).0)
  {
    match Receive(b)
    case Got(m) => HandlingKeepsValid(t, m, offered, true);
    case _ =>
  }

  /** The frame encodes a message within its limits, which is read as that of the event. */
  ghost predicate Carries(h: Happening, e: Event)
  {
    match e
    case Local => h.Opens?
    case Arrive(m) => h.Frame? && exists x :: Encodes(h.b, x) && MessageFits(x) && m == AsRead(x)
  }

  ghost predicate AllCarry(hs: seq<Happening>, events: seq<Event>)
  {
    |hs| == |events| && forall k | 0 <= k < |hs| :: Carries(hs[k], events[k])
  }

  lemma TakesTheMessage(t: Table, h: Happening, e: Event, offered: set<Bytes>)
    requires Valid(t) && Carries(h, e)
    ensures Take(t, h, offered) == Step(t, e, offered)
  {
    if e.Arrive? {
      var x :| Encodes(h.b, x) && MessageFits(x) && e.m == AsRead(x);
      ReceivedAsSent(h.b, x);
    }
  }

  /** Whatever order each header table was encoded in, the frames do what their messages say. */
  lemma {:induction false} FramesAreTheirMessages(first: u32, hs: seq<Happening>, events: seq<Event>,
                                                  offered: set<Bytes>)
    requires AllCarry(hs, events)
    ensures AfterFrames(first, hs, offered) == After(first, events, offered)
  {
    if hs != [] {
      var n := |hs| - 1;
      FramesAreTheirMessages(first, hs[..n], events[..n], offered);
      var r := After(first, events[..n], offered);
      if r.Some? {
        TakesTheMessage(r.value, hs[n], events[n], offered);
      }
    }
  }

  // ----- the senders

  /** A handler's run, a Push, or the answer to a request no handler takes. */
  datatype Sender = Handles(actions: seq<Action>) | Pushes(q: Request, body: seq<Reading>) | Declines

  predicate Reads(body: seq<Reading>)
  {
    (forall r | r in body :: |r.data| <= CHUNK) && !ReadsNothing(body)
  }

  predicate Sound(id: u32, s: Sender)
  {
    s.Pushes? ==> s.q.streamId == id && Reads(s.body)
  }

  /** All a sender sends. */
  function Sends(id: u32, s: Sender): seq<Message>
  {
    match s
    case Handles(actions) => HandlerTrace(id, actions)
    case Pushes(q, body) => PushTrace(q, body)
    case Declines => [Res(Response(id, false, None))]
  }

  /** The bytes it means to convey. */
  function BytesMeant(s: Sender): Bytes
  {
    match s
    case Handles(actions) => Written(actions)
    case Pushes(_, body) => BodyBytes(body)
    case Declines => []
  }

  /** Whether it says so when it is done: not after writing nothing, or when reading the body fails. */
  predicate SaysWhenDone(s: Sender)
  {
    match s
    case Handles(actions) => Written(actions) != []
    case Pushes(_, body) => !ReadsBroken(body)
    case Declines => false
  }

  lemma SenderIsAccepted(id: u32, s: Sender)
    requires Sound(id, s)
    ensures var tr := Sends(id, s); IsTrace(tr) && Payload(tr) == BytesMeant(s) && (Ended(tr) <==> SaysWhenDone(s))
  {
    match s
    case Handles(actions) => HandlerTraceIsAccepted(id, actions);
    case Pushes(q, body) => PushTraceIsAccepted(q, body);
    case Declines => assert Payload(Sends(id, s)[..0]) == [];
  }

  function AllAsRead(ms: seq<Message>): (r: seq<Message>)
    ensures |r| == |ms| && forall i | 0 <= i < |ms| :: r[i] == AsRead(ms[i])
  {
    seq(|ms|, i requires 0 <= i < |ms| => AsRead(ms[i]))
  }

  lemma {:induction false} ReadingKeepsPayload(ms: seq<Message>)
    ensures Payload(AllAsRead(ms)) == Payload(ms)
  {
    if ms != [] {
      var n := |ms| - 1;
      ReadingKeepsPayload(ms[..n]);
      assert AllAsRead(ms)[..n] == AllAsRead(ms[..n]);
      assert DataOf(AllAsRead(ms)[n]) == DataOf(ms[n]);
    }
  }

  lemma ReadingKeepsTrace(ms: seq<Message>)
    ensures IsTrace(AllAsRead(ms)) <==> IsTrace(ms)
    ensures Ended(AllAsRead(ms)) <==> Ended(ms)
  {
    var r := AllAsRead(ms);
    forall i | 0 <= i < |ms| ensures r[i].Dat? == ms[i].Dat? && (ms[i].Dat? ==> r[i] == ms[i]) {}
  }

  lemma {:induction false} PayloadPrefix(a: seq<Message>, b: seq<Message>)
    requires a <= b
    ensures Payload(a) <= Payload(b)
  {
    if |a| < |b| {
      PayloadPrefix(a, b[..|b| - 1]);
    } else {
      assert a == b;
    }
  }

  lemma EndedIsAll(a: seq<Message>, b: seq<Message>)
    requires a <= b && IsTrace(b) && Ended(a)
    ensures a == b
  {
    assert b[|a| - 1] == a[|a| - 1];
  }

  /** What a receiver's pipe holds, against what the sender means to convey. */
  predicate Delivered(s: StreamState, sender: Sender, arrivedAll: bool)
  {
    && s.pipe <= BytesMeant(sender)
    && (s.closed.Some? ==> s.closed == Some(EndOfStream) && s.pipe == BytesMeant(sender) && SaysWhenDone(sender))
    && (arrivedAll ==> s.pipe == BytesMeant(sender) && (s.closed.Some? <==> SaysWhenDone(sender)))
  }

  lemma PrefixIsDelivered(s: StreamState, id: u32, sender: Sender, tr: seq<Message>)
    requires Sound(id, sender) && tr <= AllAsRead(Sends(id, sender)) && StreamOk(s, tr)
    ensures Delivered(s, sender, tr == AllAsRead(Sends(id, sender)))
  {
    var all := AllAsRead(Sends(id, sender));
    SenderIsAccepted(id, sender);
    ReadingKeepsPayload(Sends(id, sender));
    ReadingKeepsTrace(Sends(id, sender));
    PayloadPrefix(tr, all);
    if Ended(tr) {
      EndedIsAll(tr, all);
    }
  }

  /**
   Every stream that shows up has a sender, and of each sender's messages a prefix has arrived, in
   order (OrderedDeliveryInterleaves).
   */
  ghost predicate Interleaves(events: seq<Event>, senders: map<u32, Sender>)
  {
    && (forall id | id in senders :: Sound(id, senders[id]))
    && (forall id: u32 :: Arrived(events, senders, id))
  }

  ghost predicate Arrived(events: seq<Event>, senders: map<u32, Sender>, id: u32)
  {
    if id in senders then Trace(events, id) <= AllAsRead(Sends(id, senders[id])) else Trace(events, id) == []
  }

  // ----- where that comes from: a connection that keeps the order of acceptance

  function Arrivals(events: seq<Event>): seq<Message>
  {
    if events == [] then []
    else
      var n := |events| - 1;
      if events[n].Arrive? then Arrivals(events[..n]) + [events[n].m] else Arrivals(events[..n])
  }

  function OfStream(ms: seq<Message>, id: u32): seq<Message>
  {
    if ms == [] then []
    else
      var n := |ms| - 1;
      if ms[n].Id() == id then OfStream(ms[..n], id) + [ms[n]] else OfStream(ms[..n], id)
  }

  lemma {:induction false} TraceIsOfArrivals(events: seq<Event>, id: u32)
    ensures Trace(events, id) == OfStream(Arrivals(events), id)
  {
    if events != [] {
      var n := |events| - 1;
      TraceIsOfArrivals(events[..n], id);
      if events[n].Arrive? {
        var ms := Arrivals(events[..n]);
        assert (ms + [events[n].m])[..|ms|] == ms;
      }
      assert Trace(events[..n], id) + [] == Trace(events[..n], id);
    }
  }

  lemma {:induction false} OfStreamPrefix(a: seq<Message>, b: seq<Message>, id: u32)
    requires a <= b
    ensures OfStream(a, id) <= OfStream(b, id)
  {
    if |a| < |b| {
      OfStreamPrefix(a, b[..|b| - 1], id);
    } else {
      assert a == b;
    }
  }

  lemma {:induction false} OfStreamAsRead(ms: seq<Message>, id: u32)
    ensures OfStream(AllAsRead(ms), id) == AllAsRead(OfStream(ms, id))
  {
    if ms != [] {
      var n := |ms| - 1;
      OfStreamAsRead(ms[..n], id);
      assert AllAsRead(ms)[..n] == AllAsRead(ms[..n]);
      assert AsRead(ms[n]).Id() == ms[n].Id();
    }
  }

  lemma AsReadPrefix(a: seq<Message>, b: seq<Message>)
    requires a <= b
    ensures AllAsRead(a) <= AllAsRead(b)
  {
  }

  /**
   If a connection delivers what it accepted in order, and it accepted each sender's
   messages in the order they were sent, then the arrivals interleave the senders.
   */
  lemma OrderedDeliveryInterleaves(events: seq<Event>, accepted: seq<Message>, n: nat, senders: map<u32, Sender>)
    requires n <= |accepted| && Arrivals(events) == AllAsRead(accepted[..n])
    requires forall id | id in senders :: Sound(id, senders[id]) && OfStream(accepted, id) <= Sends(id, senders[id])
    requires forall m | m in accepted :: m.Id() in senders
    ensures Interleaves(events, senders)
  {
    forall id: u32 ensures Arrived(events, senders, id) {
      TraceIsOfArrivals(events, id);
      OfStreamAsRead(accepted[..n], id);
      if id in senders {
        OfStreamPrefix(accepted[..n], accepted, id);
        AsReadPrefix(OfStream(accepted[..n], id), Sends(id, senders[id]));
      } else {
        NoneOfStream(accepted[..n], id);
      }
    }
  }

  lemma {:induction false} NoneOfStream(ms: seq<Message>, id: u32)
    requires forall m | m in ms :: m.Id() != id
    ensures OfStream(ms, id) == []
  {
    if ms != [] {
      NoneOfStream(ms[..|ms| - 1], id);
    }
  }

  lemma PrefixIsTrace(a: seq<Message>, b: seq<Message>)
    requires a <= b && IsTrace(b)
    ensures IsTrace(a)
  {
    assert b == a + b[|a|..];
    TracePrefix(a, b[|a|..]);
  }

  lemma InterleavedIsOrderly(events: seq<Event>, senders: map<u32, Sender>, id: u32)
    requires Interleaves(events, senders)
    ensures IsTrace(Trace(events, id))
  {
    assert Arrived(events, senders, id);
    if id in senders {
      var all := AllAsRead(Sends(id, senders[id]));
      SenderIsAccepted(id, senders[id]);
      ReadingKeepsTrace(Sends(id, senders[id]));
      PrefixIsTrace(Trace(events, id), all);
    }
  }

  /**
   Whatever the number of streams and however their frames interleave: no frame is
   refused; every pipe holds a prefix of its own sender's bytes, and all of them
   once it is closed or once all of the sender's frames have arrived; and it is
   closed by its own sender's terminator alone.
   */
  lemma EachPipeGetsItsSendersBytes(first: u32, hs: seq<Happening>, events: seq<Event>, senders: map<u32, Sender>,
                                    offered: set<Bytes>)
    requires first <= 1 && AllCarry(hs, events) && Interleaves(events, senders)
    requires forall k | 0 <= k < |events| :: Fair(first, events[..k], events[k])
    ensures var r := AfterFrames(first, hs, offered);
      && r.Some? && DistinctIds(r.value)
      && MadeAreOpened(r.value, first, events)
    ensures forall s | s in AfterFrames(first, hs, offered).value.made :: (
        if s.id in senders
        then Delivered(s, senders[s.id], Trace(events, s.id) == AllAsRead(Sends(s.id, senders[s.id])))
        else s.pipe == [] && s.closed.None?)
  {
    forall id: u32 ensures IsTrace(Trace(events, id)) { InterleavedIsOrderly(events, senders, id); }
    EveryInterleavingIsDemultiplexed(first, events, offered);
    FramesAreTheirMessages(first, hs, events, offered);
    var t := AfterFrames(first, hs, offered).value;
    forall s | s in t.made
      ensures if s.id in senders
          then Delivered(s, senders[s.id], Trace(events, s.id) == AllAsRead(Sends(s.id, senders[s.id])))
              else s.pipe == [] && s.closed.None?
    {
      var k :| 0 <= k < |t.made| && t.made[k] == s;
      var tr := Trace(events, s.id);
      assert Fine(t, k, tr);
      assert Arrived(events, senders, s.id);
      if s.id in senders {
        PrefixIsDelivered(s, s.id, senders[s.id], tr);
      }
    }
  }
}
