module MuxProofs {
  import opened Basics
  import opened Mux
  import opened MuxInv
  import W = Writer
  import WP = WriterProofs
  import ME = MuxEffects

  // ----- Base

  /** Base looks at the write half only through its own invariant, its log, and how far it is. */
  lemma WriterFrame(s: State, w: W.State)
    requires Base(s) && W.Inv(w) && w.hist.log == s.w.hist.log && w.loop.done == s.w.loop.done
    requires s.w.loop.pc.Exited? || s.w.loop.pc.Closing? || s.w.loop.pc.Closed? ==> w.loop.pc == s.w.loop.pc
    requires w.loop.pc.Closing? || w.loop.pc.Closed? ==> w.loop.pc == s.w.loop.pc
    ensures Base(s.(w := w))
  {
  }

  lemma WriteKeepsBase(s: State, ws: W.Step)
    requires Base(s) && Enabled(s, Write(ws))
    ensures Base(s.(w := W.Next(s.w, ws)))
  {
    WP.StepKeepsInv(s.w, ws);
    WP.InternalStep(s.w, ws);
    WriterFrame(s, W.Next(s.w, ws));
  }

  /** The calls differ at most by a new call without a ticket, or in what an origin does not look at. */
  predicate SameTickets(calls: map<nat, Call>, calls': map<nat, Call>)
  {
    && (forall c | c in calls :: c in calls')
    && (forall c | c in calls' :: if c !in calls then calls'[c].ticket.None?
          else calls'[c].ticket == calls[c].ticket && calls'[c].payload == calls[c].payload
               && (calls[c].ticket.Some?
                   ==> calls'[c].seqno == calls[c].seqno && (calls'[c].pc == calls[c].pc || calls'[c].pc.Returned?)))
  }

  lemma OriginFrame(origin: seq<Origin>, log: seq<W.Entry>, calls: map<nat, Call>, calls': map<nat, Call>,
                    handled: seq<Invocation>)
    requires OriginOk(origin, log, calls, handled) && SameTickets(calls, calls')
    ensures OriginOk(origin, log, calls', handled)
  {
    assert forall k: nat | k < |origin| ::
          OriginAt(k, log[k], origin[k], calls, handled) ==> OriginAt(k, log[k], origin[k], calls', handled);
  }

  /** A plain write extends the log and origin by one. */
  lemma SendKeepsOrigin(origin: seq<Origin>, log: seq<W.Entry>, calls: map<nat, Call>, handled: seq<Invocation>,
                        x: W.Entry)
    requires OriginOk(origin, log, calls, handled) && x.frame.seqno == 0
    ensures OriginOk(origin + [Plain], log + [x], calls, handled)
  {
    forall k: nat | k < |origin| + 1
      ensures OriginAt(k, (log + [x])[k], (origin + [Plain])[k], calls, handled)
    {
      if k < |origin| { assert OriginAt(k, log[k], origin[k], calls, handled); }
    }
  }

  lemma RequestKeepsOrigin(origin: seq<Origin>, log: seq<W.Entry>, calls: map<nat, Call>, handled: seq<Invocation>,
                           x: W.Entry, c: nat)
    requires OriginOk(origin, log, calls, handled) && c in calls && calls[c].ticket.None?
    requires x.frame == W.Frame(calls[c].seqno, calls[c].payload) && !x.wait
    ensures OriginOk(origin + [Req(c)], log
        + [x], calls[c := calls[c].(pc := Accepted, ticket := Some(|log|))], handled)
  {
    var calls' := calls[c := calls[c].(pc := Accepted, ticket := Some(|log|))];
    forall k: nat | k < |origin| + 1
      ensures OriginAt(k, (log + [x])[k], (origin + [Req(c)])[k], calls', handled)
    {
      if k < |origin| { assert OriginAt(k, log[k], origin[k], calls, handled); }
    }
  }

  lemma ReplyKeepsOrigin(origin: seq<Origin>, log: seq<W.Entry>, calls: map<nat, Call>, handled: seq<Invocation>,
                         x: W.Entry, h: nat)
    requires OriginOk(origin, log, calls, handled) && h < |handled| && handled[h].ticket.None?
    requires x.frame.seqno == handled[h].frame.seqno && x.wait
    ensures OriginOk(origin + [Rep(h)], log + [x], calls,
                     handled[h := handled[h].(reply := Some(x.frame.body), ticket := Some(|log|))])
  {
    var handled' := handled[h := handled[h].(reply := Some(x.frame.body), ticket := Some(|log|))];
    forall k: nat | k < |origin| + 1
      ensures OriginAt(k, (log + [x])[k], (origin + [Rep(h)])[k], calls, handled')
    {
      if k < |origin| { assert OriginAt(k, log[k], origin[k], calls, handled); }
    }
  }

  lemma SendRequestKeepsBase(s: State, c: nat, pw: nat, buf: nat)
    requires Base(s) && Enabled(s, SendRequest(c, pw, buf))
    ensures Base(DoSendRequest(s, c, pw, buf))
  {
    var x := s.calls[c];
    if s.w.loop.done {
      OriginFrame(s.origin, s.w.hist.log, s.calls, s.calls[c := x.(pc := Refused)], s.r.handled);
    } else {
      WP.AcceptKeepsInv(s.w, W.Frame(x.seqno, x.payload), false, pw, buf);
      RequestKeepsOrigin(s.origin, s.w.hist.log, s.calls, s.r.handled,
          W.Entry(W.Frame(x.seqno, x.payload), false, pw, buf), c);
    }
  }

  lemma SendKeepsBase(s: State, body: Bytes, wait: bool, pw: nat, buf: nat)
    requires Base(s) && Enabled(s, Send(body, wait, pw, buf))
    ensures Base(Next(s, Send(body, wait, pw, buf)))
  {
    WP.AcceptKeepsInv(s.w, W.Frame(0, body), wait, pw, buf);
    SendKeepsOrigin(s.origin, s.w.hist.log, s.calls, s.r.handled, W.Entry(W.Frame(0, body), wait, pw, buf));
  }

  lemma ReplyKeepsBase(s: State, body: Bytes, pw: nat, buf: nat)
    requires Base(s) && Enabled(s, Reply(body, pw, buf))
    ensures Base(DoReply(s, body, pw, buf))
  {
    var h := |s.r.handled| - 1;
    var f := W.Frame(s.r.handled[h].frame.seqno, body);
    WP.AcceptKeepsInv(s.w, f, true, pw, buf);
    ReplyKeepsOrigin(s.origin, s.w.hist.log, s.calls, s.r.handled, W.Entry(f, true, pw, buf), h);
  }

  lemma ShutKeepsBase(s: State)
    requires Base(s) && Enabled(s, ShutWriter)
    ensures Base(DoShutWriter(s))
  {
    WP.LoopStepKeepsInv(s.w, W.DoCloseWriter);
  }

  lemma CloseKeepsBase(s: State, t: Step)
    requires Base(s) && Enabled(s, t) && (t.BeginClose? || t.EndWrites?)
    ensures Base(Next(s, t))
  {
    if t.BeginClose? { WP.LoopStepKeepsInv(s.w, W.DoBeginClose(s.sup.e)); }
    else { WP.LoopStepKeepsInv(s.w, W.DoEndPass); }
  }

  lemma HandlerKeepsOrigin(origin: seq<Origin>, log: seq<W.Entry>, calls: map<nat, Call>, handled: seq<Invocation>,
                           v: Invocation)
    requires OriginOk(origin, log, calls, handled) && v.ticket.None?
    ensures OriginOk(origin, log, calls, handled + [v])
  {
    assert forall k: nat | k < |origin| ::
      OriginAt(k, log[k], origin[k], calls, handled) ==> OriginAt(k, log[k], origin[k], calls, handled + [v]);
  }

  /** Steps of the calls and the reader keep Base: they leave tickets, and numbers of ticket holders, alone. */
  lemma CallStepKeepsBase(s: State, s': State)
    requires Base(s) && s'.w == s.w && s'.sup == s.sup && s'.offset == s.offset && s'.origin == s.origin
    requires SupOk(s'.sup, s'.w.loop, s'.r.rd) && ReadOk(s'.r) && SameTickets(s.calls, s'.calls)
    requires |s'.r.handled| >= |s.r.handled| && s'.r.handled[..|s.r.handled|] == s.r.handled
    requires |s'.r.handled| <= |s.r.handled| + 1
    requires |s'.r.handled| == |s.r.handled| + 1 ==> s'.r.handled[|s.r.handled|].ticket.None?
    ensures Base(s')
  {
    OriginFrame(s.origin, s.w.hist.log, s.calls, s'.calls, s.r.handled);
    if |s'.r.handled| == |s.r.handled| {
      assert s'.r.handled == s.r.handled;
    } else {
      HandlerKeepsOrigin(s.origin, s.w.hist.log, s'.calls, s.r.handled, s'.r.handled[|s.r.handled|]);
      assert s'.r.handled == s.r.handled + [s'.r.handled[|s.r.handled|]];
    }
  }

  lemma ReadSideKeepsBase(s: State, t: Step)
    requires Base(s) && Enabled(s, t) && (t.Read? || t.ReadFail? || t.HandlerReturn?)
    ensures Base(Next(s, t))
  {
  }

  lemma SupStepKeepsBase(s: State, t: Step)
    requires Base(s) && Enabled(s, t)
    requires t.Stop? || t.SeeWriter? || t.SeeReader? || t.JoinTheWriter? || t.JoinTheReader? || t.EndClose?
    ensures Base(Next(s, t))
  {
  }

  lemma CallHandlerKeepsReadOk(r: ReadSide)
    requires ReadOk(r) && r.rd.Routing?
    ensures ReadOk(CallHandler(r))
  {
  }

  lemma RouteKeepsBase(s: State)
    requires Base(s) && Enabled(s, Route)
    ensures Base(DoRoute(s))
  {
    CallHandlerKeepsReadOk(s.r);
    ME.RouteEffect(s);
    CallStepKeepsBase(s, DoRoute(s));
  }

  lemma DeliverKeepsBase(s: State)
    requires Base(s) && Enabled(s, Deliver)
    ensures Base(Next(s, Deliver))
  {
    CallStepKeepsBase(s, Next(s, Deliver));
  }

  lemma CallsEffect(s: State, t: Step)
    requires Enabled(s, t)
    requires t.Request? || t.Number? || t.List? || t.OwnDone? || t.Unlist? || t.Finish? || t.CloseRequest?
    requires forall c | c in s.calls && s.calls[c].ticket.Some? :: s.calls[c].pc.Accepted? || s.calls[c].pc.Returned?
    ensures var s' := Next(s, t);
      && s'.w == s.w && s'.sup == s.sup && s'.offset == s.offset && s'.origin == s.origin && s'.r == s.r
      && SameTickets(s.calls, s'.calls)
  {
  }

  lemma CallsKeepBase(s: State, t: Step)
    requires Base(s) && Enabled(s, t)
    requires t.Request? || t.Number? || t.List? || t.OwnDone? || t.Unlist? || t.Finish? || t.CloseRequest?
    ensures Base(Next(s, t))
  {
    CallsEffect(s, t);
    CallStepKeepsBase(s, Next(s, t));
  }

  lemma LoopStepKeepsBase(s: State, t: Step)
    requires Base(s) && Enabled(s, t)
    requires t.Read? || t.ReadFail? || t.HandlerReturn? || t.Route? || t.Deliver? || t.Write? || t.ShutWriter?
        || t.BeginClose? || t.EndWrites?
    ensures Base(Next(s, t))
  {
    if t.Route? { RouteKeepsBase(s); }
    else if t.Deliver? { DeliverKeepsBase(s); }
    else if t.Write? { WriteKeepsBase(s, t.ws); }
    else if t.ShutWriter? { ShutKeepsBase(s); }
    else if t.BeginClose? || t.EndWrites? { CloseKeepsBase(s, t); }
    else { ReadSideKeepsBase(s, t); }
  }

  lemma SenderStepKeepsBase(s: State, t: Step)
    requires Base(s) && Enabled(s, t)
    requires t.SendRequest? || t.Send? || t.Reply?
    ensures Base(Next(s, t))
  {
    match t
    case SendRequest(c, pw, buf) => SendRequestKeepsBase(s, c, pw, buf);
    case Send(body, wait, pw, buf) => SendKeepsBase(s, body, wait, pw, buf);
    case Reply(body, pw, buf) => ReplyKeepsBase(s, body, pw, buf);
  }

  lemma StepKeepsBase(s: State, t: Step)
    requires Base(s) && Enabled(s, t)
    ensures Base(Next(s, t))
  {
    if t.Request? || t.Number? || t.List? || t.OwnDone? || t.Unlist? || t.Finish? || t.CloseRequest? {
      CallsKeepBase(s, t);
    } else if t.SendRequest? || t.Send? || t.Reply? {
      SenderStepKeepsBase(s, t);
    } else if t.Stop? || t.SeeWriter? || t.SeeReader? || t.JoinTheWriter? || t.JoinTheReader? || t.EndClose? {
      SupStepKeepsBase(s, t);
    } else {
      LoopStepKeepsBase(s, t);
    }
  }
}
