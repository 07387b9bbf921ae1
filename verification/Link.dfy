/**
 Two connections joined: what one end's conn.Write took is what the other end
 reads, in order.  The ends count their requests 1, 3, 5, ... and 2, 4, 6, ....
 Each end moves by any step of `Mux`, in any interleaving, and may fail at any
 time.  A handler replies at most once, before it returns.
 */
module Link {
  import opened Basics
  import M = Mux
  import I = MuxInv
  import W = Writer
  import MT = MuxTheorems
  import CP = MuxCallProofs
  import E = MuxEffects
  import Seqno

  datatype State = State(client: M.State, server: M.State)

  datatype Step = AtClient(t: M.Step) | AtServer(t: M.Step)

  const Start := State(M.Start(Seqno.CLIENT_OFFSET), M.Start(Seqno.SERVER_OFFSET))

  /** A step of x beside y: a Read returns the next message y has written. */
  ghost predicate EndEnabled(x: M.State, y: M.State, t: M.Step)
  {
    M.Enabled(x, t) &&
    (t.Read? ==> |x.r.inbox| < |y.w.hist.wire| && t.bytes == y.w.hist.wire[|x.r.inbox|])
  }

  ghost predicate Enabled(s: State, t: Step)
  {
    match t
    case AtClient(u) => EndEnabled(s.client, s.server, u)
    case AtServer(u) => EndEnabled(s.server, s.client, u)
  }

  ghost function Next(s: State, t: Step): State
    requires Enabled(s, t)
  {
    match t
    case AtClient(u) => s.(client := M.Next(s.client, u))
    case AtServer(u) => s.(server := M.Next(s.server, u))
  }

  ghost function After(ts: seq<Step>): Option<State>
  {
    if ts == [] then Some(Start)
    else
      var n := |ts| - 1;
      var r := After(ts[..n]);
      if r.Some? && Enabled(r.value, ts[n]) then Some(Next(r.value, ts[n])) else None
  }

  /** Neither end has numbered 2^31 - 1 requests or more. */
  predicate FewRequests(s: State)
  {
    |s.client.t.issued| < Seqno.HALF && |s.server.t.issued| < Seqno.HALF
  }

  // ----- the invariant that joins the ends

  /** Message n of x is a reply of y, to request c of x. */
  ghost predicate Answers(x: M.State, y: M.State, n: nat, c: nat)
  {
    && n < |y.origin| && y.origin[n].Rep? && y.origin[n].h < |y.r.handled|
    && var v := y.r.handled[y.origin[n].h];
       v.n < |x.origin| && x.origin[v.n] == M.Req(c)
  }

  /** x's requests as y sees them, and y's replies as x sees them. */
  ghost predicate Half(x: M.State, y: M.State)
  {
    && x.r.inbox <= y.w.hist.wire
    // y's handler is called for requests and plain messages only
    && (forall h | 0 <= h < |y.r.handled| && y.r.handled[h].frame.seqno != 0 ::
          y.r.handled[h].n < |x.origin| && x.origin[y.r.handled[h].n].Req?)
    // x completes a request with its own reply only
    && (forall c | c in x.calls && x.calls[c].taker.Message? :: Answers(x, y, x.calls[c].taker.n, c))
    && (forall c | c in x.calls && x.calls[c].taker.Message? && x.r.rd.Routing? :: x.calls[c].taker.n < |x.r.inbox| - 1)
    && (forall c | c in x.calls && x.calls[c].taker.Close? :: x.r.rd.Stopped?)
  }

  ghost predicate Ends(x: M.State, y: M.State)
  {
    && I.Inv(x) && I.Inv(y) && |x.t.issued| < Seqno.HALF && |y.t.issued| < Seqno.HALF
    && x.offset % 2 != y.offset % 2
  }

  ghost predicate Inv(s: State)
  {
    FewRequests(s) ==> Ends(s.client, s.server) && Half(s.client, s.server) && Half(s.server, s.client)
  }

  // ----- one end, as far as the other can see it

  ghost predicate Sound(y: M.State)
  {
    && Seqno.IsOffset(y.offset) && |y.t.issued| < Seqno.HALF && I.EachOk(y) && I.ReadOk(y.r)
    && I.OriginOk(y.origin, y.w.hist.log, y.calls, y.r.handled) && W.Fifo(y.w.loop, y.w.hist)
  }

  lemma InvIsSound(y: M.State)
    requires I.Inv(y) && |y.t.issued| < Seqno.HALF
    ensures Sound(y)
  {
  }

  /** The number of an accepted frame fits its 4 bytes; a request's has its own end's parity. */
  lemma LogNumbers(y: M.State, n: nat)
    requires Sound(y) && n < |y.origin|
    ensures y.w.hist.log[n].frame.seqno < TWO32
    ensures y.origin[n].Req? ==> y.w.hist.log[n].frame.seqno % 2 == y.offset % 2
  {
    assert I.OriginAt(n, y.w.hist.log[n], y.origin[n], y.calls, y.r.handled);
    match y.origin[n]
    case Plain =>
    case Req(c) =>
      assert I.CallOk(c, y.calls[c], y.t, y.offset, y.r, y.o, y.fault);
      CP.NumbersDiffer(y, c, c);
    case Rep(h) => assert I.Heard(y.r, y.r.handled[h]);
  }

  /** What x read as its n-th message is the frame y had accepted n-th. */
  lemma MessageIsFrame(x: M.State, y: M.State, n: nat)
    requires Sound(y) && x.r.inbox <= y.w.hist.wire && n < |x.r.inbox|
    ensures n < |y.origin| == |y.w.hist.log| && |x.r.inbox[n]| >= 4 && M.Parse(x.r.inbox[n]) == y.w.hist.log[n].frame
  {
    LogNumbers(y, n);
    var f := y.w.hist.log[n].frame;
    assert x.r.inbox[n] == W.Wire(f);
    WireIsParsed(f);
  }

  lemma WireIsParsed(f: W.Frame)
    requires f.seqno < TWO32
    ensures |W.Wire(f)| >= 4 && M.Parse(W.Wire(f)) == f
  {
    BE32RoundTrip(f.seqno, f.body);
  }

  /** A reply of y with a number other than 0 answers the request of x with that number. */
  lemma ReplyAnswers(x: M.State, y: M.State, n: nat, c: nat)
    requires Sound(x) && Sound(y) && Half(x, y) && y.r.inbox <= x.w.hist.wire
    requires n < |y.origin| && y.origin[n].Rep? && y.w.hist.log[n].frame.seqno != 0
    requires c in x.calls && x.calls[c].num > 0 && x.calls[c].seqno == y.w.hist.log[n].frame.seqno
    ensures Answers(x, y, n, c)
  {
    assert I.OriginAt(n, y.w.hist.log[n], y.origin[n], y.calls, y.r.handled);
    var v := y.r.handled[y.origin[n].h];
    assert I.Heard(y.r, v);
    MessageIsFrame(y, x, v.n);
    var d := x.origin[v.n].c;
    assert I.OriginAt(v.n, x.w.hist.log[v.n], x.origin[v.n], x.calls, x.r.handled);
    assert I.CallOk(d, x.calls[d], x.t, x.offset, x.r, x.o, x.fault);
    CP.NumbersDiffer(x, d, c);
  }

  // ----- routing: the heart of the matter

  ghost predicate Routing(x: M.State, y: M.State)
  {
    && Sound(x) && Sound(y) && x.offset % 2 != y.offset % 2 && Half(x, y) && y.r.inbox <= x.w.hist.wire
    && x.r.rd.Routing? && !x.fault && I.Listing(x.t, x.o, x.calls, x.offset) && I.AllListed(x.t, x.calls)
  }

  /** A message found in reqs is the peer's reply to just that request. */
  lemma FoundIsReply(x: M.State, y: M.State, c: nat)
    requires Routing(x, y) && x.r.rd.f.seqno in x.t.reqs && c == x.o.heap[x.t.reqs[x.r.rd.f.seqno]].owner
    ensures Answers(x, y, |x.r.inbox| - 1, c)
  {
    var n, q := |x.r.inbox| - 1, x.r.rd.f.seqno;
    assert I.EntryOk(q, x.t.reqs[q], x.o, x.calls);
    CP.NumbersDiffer(x, c, c);
    MessageIsFrame(x, y, n);
    LogNumbers(y, n);
    assert I.OriginAt(n, y.w.hist.log[n], y.origin[n], y.calls, y.r.handled);
    ReplyAnswers(x, y, n, c);
  }

  /** The request that a reply answers is still in reqs when the reply comes. */
  lemma ReplyIsFound(x: M.State, y: M.State)
    requires Routing(x, y) && x.r.rd.f.seqno != 0 && y.origin[|x.r.inbox| - 1].Rep?
    requires |x.r.inbox| <= |y.origin|
    ensures x.r.rd.f.seqno in x.t.reqs
  {
    var n := |x.r.inbox| - 1;
    MessageIsFrame(x, y, n);
    assert I.OriginAt(n, y.w.hist.log[n], y.origin[n], y.calls, y.r.handled);
    var h := y.origin[n].h;
    var v := y.r.handled[h];
    assert I.Heard(y.r, v);
    MessageIsFrame(y, x, v.n);
    var c := x.origin[v.n].c;
    assert I.OriginAt(v.n, x.w.hist.log[v.n], x.origin[v.n], x.calls, x.r.handled);
    NotYetTaken(x, y, n, h, c);
    assert I.CallOk(c, x.calls[c], x.t, x.offset, x.r, x.o, x.fault);
  }

  lemma NotYetTaken(x: M.State, y: M.State, n: nat, h: nat, c: nat)
    requires Routing(x, y) && n == |x.r.inbox| - 1 && n < |y.origin| && y.origin[n] == M.Rep(h)
    requires h < |y.r.handled| && y.r.handled[h].n < |x.origin| && x.origin[y.r.handled[h].n] == M.Req(c)
    ensures c in x.calls && x.calls[c].taker.Nobody?
  {
    var k := y.r.handled[h].n;
    assert I.OriginAt(k, x.w.hist.log[k], x.origin[k], x.calls, x.r.handled);
    assert I.OriginAt(n, y.w.hist.log[n], y.origin[n], y.calls, y.r.handled);
    assert x.calls[c].taker.Message? ==> Answers(x, y, x.calls[c].taker.n, c);
  }

  /** A message not found in reqs is a plain message or a request of the peer. */
  lemma UnfoundIsRequest(x: M.State, y: M.State)
    requires Routing(x, y) && x.r.rd.f.seqno !in x.t.reqs && x.r.rd.f.seqno != 0
    ensures |x.r.inbox| <= |y.origin| && y.origin[|x.r.inbox| - 1].Req?
  {
    var n := |x.r.inbox| - 1;
    MessageIsFrame(x, y, n);
    assert I.OriginAt(n, y.w.hist.log[n], y.origin[n], y.calls, y.r.handled);
    if y.origin[n].Rep? { ReplyIsFound(x, y); }
  }

  // ----- every step keeps both halves

  /** Half, when the ends only grow: more written, more read, replies added, no new taker. */
  lemma HalfGrows(x: M.State, y: M.State, x': M.State, y': M.State)
    requires Half(x, y) && E.WireGrows(x, x') && E.WireGrows(y, y') && E.TakersStay(x, x')
    requires E.HandledGrows(y.r, y'.r) && |y'.r.handled| == |y.r.handled|
    requires x'.r.inbox <= y'.w.hist.wire && |x'.r.inbox| >= |x.r.inbox|
    requires x'.r.rd.Routing?
        ==> x'.r == x.r || forall c | c in x.calls && x.calls[c].taker.Message? :: x.calls[c].taker.n < |x'.r.inbox| - 1
    requires x'.r.rd.Routing? && x'.r.rd == x.r.rd ==> |x'.r.inbox| == |x.r.inbox|
    requires x.r.rd.Stopped? ==> x'.r.rd.Stopped?
    ensures Half(x', y')
  {
    forall c | c in x'.calls && x'.calls[c].taker.Message? ensures Answers(x', y', x'.calls[c].taker.n, c) {
      assert Answers(x, y, x.calls[c].taker.n, c);
    }
  }

  lemma OwnStepKeepsHalf(x: M.State, y: M.State, t: M.Step)
    requires I.EachOk(x) && Half(x, y) && EndEnabled(x, y, t) && !t.Route? && !t.CloseRequest?
    ensures Half(M.Next(x, t), y)
  {
    var x' := M.Next(x, t);
    E.WriteEffect(x, t);
    E.ReaderEffect(x, t);
    E.TakerEffect(x, t);
    forall c | c in x.calls && x.calls[c].taker.Message? ensures x.calls[c].taker.n < |x.r.inbox| {
      assert I.CallOk(c, x.calls[c], x.t, x.offset, x.r, x.o, x.fault);
    }
    HalfGrows(x, y, x', y);
  }

  lemma CloseStepKeepsHalf(x: M.State, y: M.State, q: nat)
    requires Half(x, y) && M.Enabled(x, M.CloseRequest(q)) && x.r.rd.Stopped?
    ensures Half(M.Next(x, M.CloseRequest(q)), y)
  {
    var x' := M.Next(x, M.CloseRequest(q));
    E.CloseEffect(x, q);
    E.WriteEffect(x, M.CloseRequest(q));
    E.ReaderEffect(x, M.CloseRequest(q));
    forall c | c in x'.calls && x'.calls[c].taker.Message? ensures Answers(x', y, x'.calls[c].taker.n, c) {
      assert Answers(x, y, x.calls[c].taker.n, c);
    }
  }

  lemma TakingKeepsHalf(x: M.State, y: M.State)
    requires Half(x, y) && M.Enabled(x, M.Route)
    requires x.r.rd.f.seqno in x.t.reqs && x.t.reqs[x.r.rd.f.seqno] in x.o.heap
         ==> Answers(x, y, |x.r.inbox| - 1, x.o.heap[x.t.reqs[x.r.rd.f.seqno]].owner)
    ensures Half(M.DoRoute(x), y)
  {
    var x' := M.DoRoute(x);
    E.RouteEffect(x);
    forall c | c in x'.calls && x'.calls[c].taker.Message? ensures Answers(x', y, x'.calls[c].taker.n, c) {
      if x.calls[c].taker.Message? { assert Answers(x, y, x.calls[c].taker.n, c); }
    }
  }

  lemma RouteKeepsHalf(x: M.State, y: M.State)
    requires Routing(x, y) && M.Enabled(x, M.Route)
    ensures Half(M.DoRoute(x), y)
  {
    if x.r.rd.f.seqno in x.t.reqs { FoundIsReply(x, y, x.o.heap[x.t.reqs[x.r.rd.f.seqno]].owner); }
    TakingKeepsHalf(x, y);
  }

  /** The other direction: what y asked of x, when x moves. */
  lemma PeerStepKeepsHalf(y: M.State, x: M.State, t: M.Step)
    requires Half(y, x) && M.Enabled(x, t) && !t.Route?
    ensures Half(y, M.Next(x, t))
  {
    E.WriteEffect(x, t);
    E.ReaderEffect(x, t);
    HalfGrows(y, x, y, M.Next(x, t));
  }

  lemma PeerRouteKeepsHalf(y: M.State, x: M.State)
    requires Half(y, x) && Routing(x, y) && M.Enabled(x, M.Route)
    ensures Half(y, M.Next(x, M.Route))
  {
    var x' := M.Next(x, M.Route);
    E.RouteEffect(x);
    HandlerHearsRequests(x, y);
    forall c | c in y.calls && y.calls[c].taker.Message? ensures Answers(y, x', y.calls[c].taker.n, c) {
      assert Answers(y, x, y.calls[c].taker.n, c);
    }
  }

  /** The message that routing hands to x's handler is plain, or a request of y. */
  lemma HandlerHearsRequests(x: M.State, y: M.State)
    requires Half(y, x) && Routing(x, y) && M.Enabled(x, M.Route)
    ensures var r' := M.DoRoute(x).r;
      forall h | 0 <= h < |r'.handled| && r'.handled[h].frame.seqno != 0 :: r'.handled[h].n < |y.origin|
          && y.origin[r'.handled[h].n].Req?
  {
    E.RouteEffect(x);
    if x.r.rd.f.seqno !in x.t.reqs && x.r.rd.f.seqno != 0 { UnfoundIsRequest(x, y); }
    EntriesFound(x);
  }

  lemma EntriesFound(x: M.State)
    requires Sound(x) && x.r.rd.Routing? && I.Listing(x.t, x.o, x.calls, x.offset)
    ensures x.r.rd.f.seqno in x.t.reqs ==> E.Found(x)
  {
    if x.r.rd.f.seqno in x.t.reqs { assert I.EntryOk(x.r.rd.f.seqno, x.t.reqs[x.r.rd.f.seqno], x.o, x.calls); }
  }

  lemma EndStep(x: M.State, y: M.State, t: M.Step)
    requires Ends(x, y) && Half(x, y) && Half(y, x) && EndEnabled(x, y, t)
    ensures Half(M.Next(x, t), y) && Half(y, M.Next(x, t))
  {
    InvIsSound(x);
    InvIsSound(y);
    if t.Route? {
      RouteKeepsHalf(x, y);
      PeerRouteKeepsHalf(y, x);
    } else {
      if t.CloseRequest? { CloseStepKeepsHalf(x, y, t.q); } else { OwnStepKeepsHalf(x, y, t); }
      PeerStepKeepsHalf(y, x, t);
    }
  }

  lemma StepKeepsInv(s: State, t: Step)
    requires Inv(s) && Enabled(s, t)
    ensures Inv(Next(s, t))
  {
    match t
    case AtClient(u) =>
      MT.IssuedGrows(s.client, u);
      if FewRequests(Next(s, t)) {
        E.OffsetStays(s.client, u);
        MT.StepKeepsInv(s.client, u);
        EndStep(s.client, s.server, u);
      }
    case AtServer(u) =>
      MT.IssuedGrows(s.server, u);
      if FewRequests(Next(s, t)) {
        E.OffsetStays(s.server, u);
        MT.StepKeepsInv(s.server, u);
        EndStep(s.server, s.client, u);
      }
  }

  lemma {:induction false} RunKeepsInv(ts: seq<Step>)
    requires After(ts).Some?
    ensures Inv(After(ts).value)
  {
    if ts == [] {
      assert I.Inv(Start.client) && I.Inv(Start.server);
    } else {
      var n := |ts| - 1;
      RunKeepsInv(ts[..n]);
      StepKeepsInv(After(ts[..n]).value, ts[n]);
    }
  }

  // ----- what a caller of Request gets

  /** Invocation h of y's handler was for request c of x and no other message, and replied body. */
  ghost predicate RepliedTo(x: M.State, y: M.State, c: nat, h: nat, body: Bytes)
    requires c in x.calls
  {
    && h < |y.r.handled| && x.calls[c].ticket == Some(y.r.handled[h].n)
    && y.r.handled[h].frame == W.Frame(x.calls[c].seqno, x.calls[c].payload)
    && y.r.handled[h].reply == Some(body)
  }

  lemma RequestGetsItsReply(x: M.State, y: M.State, c: nat, body: Bytes) returns (h: nat)
    requires Ends(x, y) && Half(x, y) && Half(y, x) && c in x.calls && x.calls[c].pc == M.Returned(M.Ok(body))
    ensures RepliedTo(x, y, c, h, body)
  {
    InvIsSound(x);
    InvIsSound(y);
    assert I.CallOk(c, x.calls[c], x.t, x.offset, x.r, x.o, x.fault);
    var n := x.calls[c].taker.n;
    assert Answers(x, y, n, c);
    h := y.origin[n].h;
    MessageIsFrame(x, y, n);
    assert I.OriginAt(n, y.w.hist.log[n], y.origin[n], y.calls, y.r.handled);
    var v := y.r.handled[h];
    assert I.Heard(y.r, v);
    MessageIsFrame(y, x, v.n);
    assert I.OriginAt(v.n, x.w.hist.log[v.n], x.origin[v.n], x.calls, x.r.handled);
  }

  /**
   In every interleaving of the two ends, a Request that returns without error
   returns exactly the bytes the peer's handler replied to that same request.
   */
  lemma EveryRequestGetsItsReply(ts: seq<Step>, c: nat, body: Bytes)
    requires After(ts).Some? && FewRequests(After(ts).value)
    ensures var s := After(ts).value;
      && (c in s.client.calls && s.client.calls[c].pc == M.Returned(M.Ok(body)) ==>
            exists h :: RepliedTo(s.client, s.server, c, h, body))
      && (c in s.server.calls && s.server.calls[c].pc == M.Returned(M.Ok(body)) ==>
            exists h :: RepliedTo(s.server, s.client, c, h, body))
  {
    RunKeepsInv(ts);
    var s := After(ts).value;
    if c in s.client.calls && s.client.calls[c].pc == M.Returned(M.Ok(body)) {
      var h := RequestGetsItsReply(s.client, s.server, c, body);
    }
    if c in s.server.calls && s.server.calls[c].pc == M.Returned(M.Ok(body)) {
      var h := RequestGetsItsReply(s.server, s.client, c, body);
    }
  }

  lemma TakenWasAccepted(x: M.State, y: M.State, c: nat)
    requires Sound(x) && Half(x, y) && c in x.calls && x.calls[c].taker.Message?
    ensures x.calls[c].ticket.Some?
  {
    assert Answers(x, y, x.calls[c].taker.n, c);
    var k := y.r.handled[y.origin[x.calls[c].taker.n].h].n;
    assert I.OriginAt(k, x.w.hist.log[k], x.origin[k], x.calls, x.r.handled);
  }

  lemma FaultNeedsClose(x: M.State, y: M.State) returns (c: nat)
    requires Ends(x, y) && Half(x, y) && x.fault
    ensures c in x.calls && x.calls[c].ticket.None? && x.calls[c].taker.Close?
  {
    InvIsSound(x);
    c :| c in x.calls && |x.calls[c].done| >= 2;
    if x.calls[c].taker.Message? { TakenWasAccepted(x, y, c); }
    assert I.CallOk(c, x.calls[c], x.t, x.offset, x.r, x.o, x.fault);
  }

  /** Between two such ends a fault comes only from close finding a refused request in reqs. */
  lemma FaultsComeFromClose(ts: seq<Step>)
    requires After(ts).Some? && FewRequests(After(ts).value)
    ensures var s := After(ts).value;
      && (s.client.fault ==> exists c ::
            c in s.client.calls && s.client.calls[c].ticket.None? && s.client.calls[c].taker.Close?)
      && (s.server.fault ==> exists c ::
            c in s.server.calls && s.server.calls[c].ticket.None? && s.server.calls[c].taker.Close?)
  {
    RunKeepsInv(ts);
    var s := After(ts).value;
    if s.client.fault { var c := FaultNeedsClose(s.client, s.server); }
    if s.server.fault { var c := FaultNeedsClose(s.server, s.client); }
  }

  /**
   No request of the peer is taken for a reply, no reply for a request, and a
   request reaches the peer's handler at most once.
   */
  lemma NothingIsMistaken(ts: seq<Step>)
    requires After(ts).Some? && FewRequests(After(ts).value)
    ensures var x, y := After(ts).value.client, After(ts).value.server;
      && (forall c | c in x.calls && x.calls[c].taker.Message? :: Answers(x, y, x.calls[c].taker.n, c))
      && (forall c | c in y.calls && y.calls[c].taker.Message? :: Answers(y, x, y.calls[c].taker.n, c))
      && (forall h | 0 <= h < |y.r.handled| && y.r.handled[h].frame.seqno != 0 ::
            y.r.handled[h].n < |x.origin| && x.origin[y.r.handled[h].n].Req?)
      && (forall h | 0 <= h < |x.r.handled| && x.r.handled[h].frame.seqno != 0 ::
            x.r.handled[h].n < |y.origin| && y.origin[x.r.handled[h].n].Req?)
      && (forall g, h | 0 <= g < h < |y.r.handled| :: y.r.handled[g].n < y.r.handled[h].n)
      && (forall g, h | 0 <= g < h < |x.r.handled| :: x.r.handled[g].n < x.r.handled[h].n)
  {
    RunKeepsInv(ts);
  }
}
