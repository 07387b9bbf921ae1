/**
 Plain messages, numbered 0, carry the streams: between two joined ends each end's
 handler gets those the other end had accepted, all of them and in order, up to what
 has been read.
 */
module LinkOrder {
  import opened Basics
  import M = Mux
  import I = MuxInv
  import E = MuxEffects
  import MT = MuxTheorems
  import W = Writer
  import WP = WriterProofs
  import L = Link
  import Seqno

  function Plain(fs: seq<W.Frame>): seq<W.Frame>
  {
    if fs == [] then []
    else
      var n := |fs| - 1;
      if fs[n].seqno == 0 then Plain(fs[..n]) + [fs[n]] else Plain(fs[..n])
  }

  function HandledFrames(hs: seq<M.Invocation>): (fs: seq<W.Frame>)
    ensures |fs| == |hs| && forall i | 0 <= i < |hs| :: fs[i] == hs[i].frame
  {
    seq(|hs|, i requires 0 <= i < |hs| => hs[i].frame)
  }

  /** The frames of the messages that have a number. */
  function ReadFrames(inbox: seq<Bytes>): seq<W.Frame>
  {
    if inbox == [] then []
    else
      var n := |inbox| - 1;
      if |inbox[n]| < 4 then ReadFrames(inbox[..n]) else ReadFrames(inbox[..n]) + [M.Parse(inbox[n])]
  }

  /** The messages readLoop has dealt with: all it has read but the one it is about to look up. */
  function Routed(r: M.ReadSide): seq<Bytes>
  {
    if r.rd.Routing? && |r.inbox| > 0 then r.inbox[..|r.inbox| - 1] else r.inbox
  }

  ghost predicate PlainOk(r: M.ReadSide)
  {
    Plain(HandledFrames(r.handled)) == Plain(ReadFrames(Routed(r)))
  }

  lemma PlainNext(fs: seq<W.Frame>, f: W.Frame)
    ensures Plain(fs + [f]) == if f.seqno == 0 then Plain(fs) + [f] else Plain(fs)
  {
    assert (fs + [f])[..|fs|] == fs;
  }

  lemma ReadNext(inbox: seq<Bytes>, b: Bytes)
    ensures ReadFrames(inbox + [b]) == if |b| < 4 then ReadFrames(inbox) else ReadFrames(inbox) + [M.Parse(b)]
  {
    assert (inbox + [b])[..|inbox|] == inbox;
  }

  lemma ReadKeepsPlain(r: M.ReadSide, b: Bytes)
    requires PlainOk(r) && r.rd.Reading?
    ensures PlainOk(M.DoRead(r, b))
  {
    ReadNext(r.inbox, b);
    assert (r.inbox + [b])[..|r.inbox|] == r.inbox;
  }

  lemma RouteKeepsPlain(s: M.State)
    requires M.Enabled(s, M.Route) && PlainOk(s.r) && I.ReadOk(s.r)
    ensures PlainOk(M.DoRoute(s).r)
  {
    var r, r' := s.r, M.DoRoute(s).r;
    E.RouteEffect(s);
    var n := |r.inbox| - 1;
    ReadNext(r.inbox[..n], r.inbox[n]);
    assert r.inbox == r.inbox[..n] + [r.inbox[n]];
    PlainNext(ReadFrames(r.inbox[..n]), r.rd.f);
    PlainNext(HandledFrames(r.handled), r.rd.f);
    if r'.rd.Handling? {
      assert HandledFrames(r'.handled) == HandledFrames(r.handled) + [r.rd.f];
    }
  }

  lemma StaysInHand(s: M.State, t: M.Step)
    requires M.Enabled(s, t) && !t.Read? && !t.Route?
    ensures M.Next(s, t).r.rd.Routing? <==> s.r.rd.Routing?
  {
  }

  lemma StepKeepsPlain(s: M.State, t: M.Step)
    requires M.Enabled(s, t) && PlainOk(s.r) && I.ReadOk(s.r)
    ensures PlainOk(M.Next(s, t).r)
  {
    if t.Read? {
      ReadKeepsPlain(s.r, t.bytes);
    } else if t.Route? {
      RouteKeepsPlain(s);
    } else {
      StaysInHand(s, t);
      E.ReaderEffect(s, t);
      assert HandledFrames(M.Next(s, t).r.handled) == HandledFrames(s.r.handled);
    }
  }

  /** Whatever the peer sends: the handler gets the plain messages, all of them and in order. */
  lemma {:induction false} PlainAreHandled(offset: nat, ts: seq<M.Step>)
    requires Seqno.IsOffset(offset) && M.After(offset, ts).Some?
    ensures PlainOk(M.After(offset, ts).value.r)
  {
    if ts != [] {
      var n := |ts| - 1;
      PlainAreHandled(offset, ts[..n]);
      MT.RunKeepsInv(offset, ts[..n]);
      StepKeepsPlain(M.After(offset, ts[..n]).value, ts[n]);
    }
  }

  lemma {:induction false} LinkedPlain(ts: seq<L.Step>)
    requires L.After(ts).Some? && L.FewRequests(L.After(ts).value)
    ensures PlainOk(L.After(ts).value.client.r) && PlainOk(L.After(ts).value.server.r)
  {
    if ts != [] {
      var n := |ts| - 1;
      var s := L.After(ts[..n]).value;
      FewBefore(s, ts[n]);
      LinkedPlain(ts[..n]);
      L.RunKeepsInv(ts[..n]);
      match ts[n]
      case AtClient(t) => StepKeepsPlain(s.client, t);
      case AtServer(t) => StepKeepsPlain(s.server, t);
    }
  }

  lemma FewBefore(s: L.State, t: L.Step)
    requires L.Enabled(s, t) && L.FewRequests(L.Next(s, t))
    ensures L.FewRequests(s)
  {
    match t
    case AtClient(u) => MT.IssuedGrows(s.client, u);
    case AtServer(u) => MT.IssuedGrows(s.server, u);
  }

  // ----- what was read is what was accepted

  lemma {:induction false} ParsedAreFrames(inbox: seq<Bytes>, log: seq<W.Entry>, n: nat)
    requires n <= |inbox| && n <= |log|
    requires forall i | 0 <= i < n :: |inbox[i]| >= 4 && M.Parse(inbox[i]) == log[i].frame
    ensures ReadFrames(inbox[..n]) == WP.Frames(log[..n])
  {
    if n > 0 {
      ParsedAreFrames(inbox, log, n - 1);
      ReadNext(inbox[..n - 1], inbox[n - 1]);
      assert inbox[..n] == inbox[..n - 1] + [inbox[n - 1]];
      assert WP.Frames(log[..n]) == WP.Frames(log[..n - 1]) + [log[n - 1].frame];
    }
  }

  lemma ReadIsAccepted(x: M.State, y: M.State, n: nat)
    requires L.Sound(y) && x.r.inbox <= y.w.hist.wire && n <= |x.r.inbox|
    ensures n <= |y.w.hist.log| && ReadFrames(x.r.inbox[..n]) == WP.Frames(y.w.hist.log[..n])
  {
    forall i | 0 <= i < n ensures i < |y.w.hist.log| && |x.r.inbox[i]| >= 4
        && M.Parse(x.r.inbox[i]) == y.w.hist.log[i].frame {
      L.MessageIsFrame(x, y, i);
    }
    if n > 0 {
      assert n - 1 < |y.w.hist.log|;
    }
    ParsedAreFrames(x.r.inbox, y.w.hist.log, n);
  }

  /**
   The plain frames x's handler got are those among the first n that y had accepted, n being the
   messages x has dealt with.
   */
  ghost predicate GetsPlainOf(x: M.State, y: M.State)
  {
    var n := |Routed(x.r)|;
    n <= |y.w.hist.log| && Plain(HandledFrames(x.r.handled)) == Plain(WP.Frames(y.w.hist.log[..n]))
  }

  lemma EndGetsPlain(x: M.State, y: M.State)
    requires L.Ends(x, y) && L.Half(x, y) && PlainOk(x.r)
    ensures GetsPlainOf(x, y)
  {
    L.InvIsSound(y);
    var n := |Routed(x.r)|;
    assert Routed(x.r) == x.r.inbox[..n];
    ReadIsAccepted(x, y, n);
  }

  /**
   In every interleaving of the two ends each end's handler gets exactly the plain
   frames the other end had accepted, in the order of their acceptance, up to what
   it has read: none is lost, repeated, reordered or mistaken for a reply.
   */
  lemma PlainMessagesArriveInOrder(ts: seq<L.Step>)
    requires L.After(ts).Some? && L.FewRequests(L.After(ts).value)
    ensures var s := L.After(ts).value; GetsPlainOf(s.server, s.client) && GetsPlainOf(s.client, s.server)
  {
    L.RunKeepsInv(ts);
    LinkedPlain(ts);
    var s := L.After(ts).value;
    EndGetsPlain(s.server, s.client);
    EndGetsPlain(s.client, s.server);
  }
}
