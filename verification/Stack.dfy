/**
 The two layers put together: streams whose messages are the plain frames of two
 joined connections.  What the dispatcher of one end is handed is what its read loop
 hands to the handler, and that is what the other end's senders had accepted.
 */
module Stack {
  import opened Basics
  import opened Messages
  import opened Streams
  import opened Seqno
  import D = Demux
  import E = EndToEnd
  import M = Mux
  import W = Writer
  import WP = WriterProofs
  import L = Link
  import LO = LinkOrder

  function Bodies(fs: seq<W.Frame>): (bs: seq<Bytes>)
    ensures |bs| == |fs| && forall i | 0 <= i < |fs| :: bs[i] == fs[i].body
  {
    seq(|fs|, i requires 0 <= i < |fs| => fs[i].body)
  }

  /** The frames among what happens to a dispatcher, in order. */
  function FramesAmong(hs: seq<E.Happening>): seq<Bytes>
  {
    if hs == [] then []
    else
      var n := |hs| - 1;
      if hs[n].Frame? then FramesAmong(hs[..n]) + [hs[n].b] else FramesAmong(hs[..n])
  }

  /** Frames that encode messages within their limits. */
  ghost predicate Carry(bs: seq<Bytes>, ms: seq<Message>)
  {
    |bs| <= |ms| && forall i | 0 <= i < |bs| :: Encodes(bs[i], ms[i]) && MessageFits(ms[i])
  }

  /** What happens to the dispatcher, with the i-th frame read as the i-th message. */
  function EventsOf(hs: seq<E.Happening>, ms: seq<Message>): seq<D.Event>
    requires |FramesAmong(hs)| <= |ms|
  {
    if hs == [] then []
    else
      var n := |hs| - 1;
      EventsOf(hs[..n], ms) + [if hs[n].Frame? then D.Arrive(AsRead(ms[|FramesAmong(hs[..n])|])) else D.Local]
  }

  lemma {:induction false} EventsCarry(hs: seq<E.Happening>, ms: seq<Message>)
    requires Carry(FramesAmong(hs), ms)
    ensures E.AllCarry(hs, EventsOf(hs, ms))
  {
    if hs != [] {
      var n := |hs| - 1;
      FramesFront(hs);
      EventsCarry(hs[..n], ms);
      LastCarries(hs, ms);
    }
  }

  lemma FramesFront(hs: seq<E.Happening>)
    requires hs != []
    ensures FramesAmong(hs[..|hs| - 1]) <= FramesAmong(hs)
  {
  }

  lemma LastCarries(hs: seq<E.Happening>, ms: seq<Message>)
    requires hs != [] && Carry(FramesAmong(hs), ms)
    ensures |EventsOf(hs, ms)| > 0 && E.Carries(hs[|hs| - 1], EventsOf(hs, ms)[|EventsOf(hs, ms)| - 1])
  {
    var n := |hs| - 1;
    if hs[n].Frame? {
      var k := |FramesAmong(hs[..n])|;
      assert FramesAmong(hs)[k] == hs[n].b;
      assert Encodes(hs[n].b, ms[k]) && MessageFits(ms[k]);
    }
  }

  lemma {:induction false} ArrivalsOf(hs: seq<E.Happening>, ms: seq<Message>)
    requires |FramesAmong(hs)| <= |ms|
    ensures E.Arrivals(EventsOf(hs, ms)) == E.AllAsRead(ms[..|FramesAmong(hs)|])
  {
    if hs != [] {
      var n := |hs| - 1;
      var front, k := EventsOf(hs[..n], ms), |FramesAmong(hs[..n])|;
      ArrivalsOf(hs[..n], ms);
      assert EventsOf(hs, ms)[..|front|] == front;
      if hs[n].Frame? {
        assert E.AllAsRead(ms[..k + 1]) == E.AllAsRead(ms[..k]) + [AsRead(ms[k])];
      }
    }
  }

  lemma {:induction false} PlainPrefix(fs: seq<W.Frame>, n: nat)
    requires n <= |fs|
    ensures LO.Plain(fs[..n]) <= LO.Plain(fs)
  {
    if n < |fs| {
      var front := fs[..|fs| - 1];
      PlainPrefix(front, n);
      assert front[..n] == fs[..n];
    } else {
      assert fs[..n] == fs;
    }
  }

  /** Of the plain frames x accepted, y's handler got the first ones. */
  lemma HandlerGetsTheFirst(x: M.State, y: M.State)
    requires LO.GetsPlainOf(y, x)
    ensures LO.Plain(LO.HandledFrames(y.r.handled)) <= LO.Plain(WP.Frames(x.w.hist.log))
  {
    var n := |LO.Routed(y.r)|;
    PlainPrefix(WP.Frames(x.w.hist.log), n);
    assert WP.Frames(x.w.hist.log)[..n] == WP.Frames(x.w.hist.log[..n]);
  }

  /** The plain frames x has accepted are these messages, those of each stream in the order its sender sends them. */
  ghost predicate SendsStreams(x: M.State, ms: seq<Message>, senders: map<u32, E.Sender>)
  {
    && |ms| == |LO.Plain(WP.Frames(x.w.hist.log))| && Carry(Bodies(LO.Plain(WP.Frames(x.w.hist.log))), ms)
    && (forall id | id in senders :: E.Sound(id, senders[id]) && E.OfStream(ms, id) <= E.Sends(id, senders[id]))
    && (forall m | m in ms :: m.Id() in senders)
  }

  /** The frames among these are those y's handler was called with. */
  ghost predicate IsDispatched(y: M.State, hs: seq<E.Happening>)
  {
    FramesAmong(hs) == Bodies(LO.Plain(LO.HandledFrames(y.r.handled)))
  }

  /** The dispatched frames are the first of the messages. */
  lemma DispatchedCarry(x: M.State, y: M.State, hs: seq<E.Happening>, ms: seq<Message>, senders: map<u32, E.Sender>)
    requires LO.GetsPlainOf(y, x) && SendsStreams(x, ms, senders) && IsDispatched(y, hs)
    ensures Carry(FramesAmong(hs), ms)
  {
    HandlerGetsTheFirst(x, y);
    var all, got := LO.Plain(WP.Frames(x.w.hist.log)), LO.Plain(LO.HandledFrames(y.r.handled));
    forall i | 0 <= i < |got| ensures Encodes(FramesAmong(hs)[i], ms[i]) && MessageFits(ms[i]) {
      assert got[i] == all[i];
      assert Bodies(all)[i] == FramesAmong(hs)[i];
    }
  }

  /** Every pipe has a prefix of its own sender's bytes, all once it is closed or all has come, and no other end. */
  ghost predicate AllDelivered(t: Table, events: seq<D.Event>, senders: map<u32, E.Sender>)
  {
    forall s | s in t.made ::
      if s.id in senders then
        E.Delivered(s, senders[s.id], D.Trace(events, s.id) == E.AllAsRead(E.Sends(s.id, senders[s.id])))
      else s.pipe == [] && s.closed.None?
  }

  /** The peer opens streams under its own ids and answers only what was asked. */
  ghost predicate FairThroughout(first: u32, events: seq<D.Event>)
  {
    forall k | 0 <= k < |events| :: D.Fair(first, events[..k], events[k])
  }

  /** One direction of the link. */
  lemma PipesOverHalf(x: M.State, y: M.State, hs: seq<E.Happening>, ms: seq<Message>, senders: map<u32, E.Sender>,
                      first: u32, offered: set<Bytes>)
    requires LO.GetsPlainOf(y, x) && SendsStreams(x, ms, senders) && IsDispatched(y, hs) && first <= 1
    requires |FramesAmong(hs)| <= |ms| && FairThroughout(first, EventsOf(hs, ms))
    ensures var r := E.AfterFrames(first, hs, offered); r.Some? && AllDelivered(r.value, EventsOf(hs, ms), senders)
  {
    var events := EventsOf(hs, ms);
    DispatchedCarry(x, y, hs, ms, senders);
    EventsCarry(hs, ms);
    ArrivalsOf(hs, ms);
    E.OrderedDeliveryInterleaves(events, ms, |FramesAmong(hs)|, senders);
    E.EachPipeGetsItsSendersBytes(first, hs, events, senders, offered);
  }

  ghost function SendingEnd(s: L.State, toServer: bool): M.State
  {
    if toServer then s.client else s.server
  }

  ghost function ReceivingEnd(s: L.State, toServer: bool): M.State
  {
    if toServer then s.server else s.client
  }

  lemma EndsInOrder(ts: seq<L.Step>, toServer: bool)
    requires L.After(ts).Some? && L.FewRequests(L.After(ts).value)
    ensures var s := L.After(ts).value; LO.GetsPlainOf(ReceivingEnd(s, toServer), SendingEnd(s, toServer))
  {
    LO.PlainMessagesArriveInOrder(ts);
  }

  /**
   In every run of two joined connections whose plain frames are stream messages, in
   whatever order the senders' frames were accepted: the dispatcher at the other end,
   handed the frames its read loop hands it while it opens streams of its own, refuses
   none, and every pipe gets its own sender's bytes.
   */
  lemma EveryPipeOverALink(ts: seq<L.Step>, toServer: bool, hs: seq<E.Happening>, ms: seq<Message>,
                           senders: map<u32, E.Sender>,
                           first: u32, offered: set<Bytes>)
    requires L.After(ts).Some? && L.FewRequests(L.After(ts).value) && first <= 1
    requires SendsStreams(SendingEnd(L.After(ts).value, toServer), ms, senders)
    requires IsDispatched(ReceivingEnd(L.After(ts).value, toServer), hs)
    requires |FramesAmong(hs)| <= |ms| && FairThroughout(first, EventsOf(hs, ms))
    ensures var r := E.AfterFrames(first, hs, offered); r.Some? && AllDelivered(r.value, EventsOf(hs, ms), senders)
  {
    EndsInOrder(ts, toServer);
    var s := L.After(ts).value;
    PipesOverHalf(SendingEnd(s, toServer), ReceivingEnd(s, toServer), hs, ms, senders, first, offered);
  }
}
