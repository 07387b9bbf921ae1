/** Which error each failed write and each request that close completes is told, in every run. */
module MuxVerdicts {
  import opened Basics
  import opened Mux
  import opened MuxErrors
  import I = MuxInv
  import MT = MuxTheorems
  import W = Writer
  import Seqno

  /** How many writes close has completed so far. */
  function Walked(q: W.Loop): nat
  {
    if q.pc.Closing? || q.pc.Closed? then q.i else 0
  }

  /** The failed writes got we from writeLoop, and the last n got he from close. */
  ghost predicate Told(outcome: seq<Option<Error>>, n: nat, we: Option<Error>, he: Option<Error>)
  {
    && n <= |outcome|
    && (forall k | 0 <= k < |outcome| - n && outcome[k].Some? :: outcome[k] == we)
    && (forall k | |outcome| - n <= k < |outcome| :: outcome[k] == he && he.Some?)
  }

  /** What close is told, once it runs. */
  function Closes(sup: Sup): Option<Error>
  {
    if sup.CloseWrites? || sup.CloseReqs? || sup.Over? then Some(sup.e) else None
  }

  lemma InternalTold(w: W.State, ws: W.Step, we: Option<Error>, he: Option<Error>)
    requires W.Enabled(w, ws) && AtWriter(w.loop.pc, we) && !W.Next(w, ws).fault
    requires !ws.DoAccept? && !ws.DoCloseWriter? && !ws.DoBeginClose? && (ws.DoEndPass? ==> !w.loop.pc.Closing?)
    requires w.loop.pc.Closing? ==> he == Some(w.loop.pc.e)
    requires Told(w.hist.outcome, Walked(w.loop), we, he)
    ensures var w' := W.Next(w, ws);
      Told(w'.hist.outcome, Walked(w'.loop), if we.Some? then we else WriteFailure(Write(ws)), he)
  {
  }

  lemma StepTold(s: State, t: Step, saw: bool, we: Option<Error>, re: Option<Error>)
    requires Enabled(s, t) && ErrorsOk(s, saw, we, re) && !Next(s, t).w.fault
    requires s.w.loop.pc.Closing? ==> s.sup == CloseWrites(s.w.loop.pc.e)
    requires Told(s.w.hist.outcome, Walked(s.w.loop), we, Closes(s.sup))
    ensures var s' := Next(s, t);
      Told(s'.w.hist.outcome, Walked(s'.w.loop), if we.Some? then we else WriteFailure(t), Closes(s'.sup))
  {
    SupSteps(s, t);
    if t.Write? {
      InternalTold(s.w, t.ws, we, Closes(s.sup));
    } else {
      OuterWriterStep(s, t);
    }
  }

  lemma {:induction false} RunTold(offset: nat, ts: seq<Step>)
    requires Seqno.IsOffset(offset) && After(offset, ts).Some?
    ensures var s := After(offset, ts).value;
      Told(s.w.hist.outcome, Walked(s.w.loop), WriterError(ts), Closes(s.sup))
  {
    if ts != [] {
      var n := |ts| - 1;
      var s := After(offset, ts[..n]).value;
      RunTold(offset, ts[..n]);
      RunKeepsErrors(offset, ts[..n]);
      MT.RunKeepsInv(offset, ts[..n]);
      MT.RunKeepsInv(offset, ts);
      StepTold(s, ts[n], SeeReader in ts[..n], WriterError(ts[..n]), ReaderError(ts[..n]));
      LastStep(ts);
    }
  }

  /**
   In every run the verdict of the k-th write that has one is nil if conn.Write took it,
   writeLoop's error if writeLoop failed it, and the error of Handle if it was among those
   close found waiting; and a caller that has come back was told that verdict.
   */
  lemma VerdictsAre(offset: nat, ts: seq<Step>, k: nat)
    requires Seqno.IsOffset(offset) && After(offset, ts).Some?
    requires k < |After(offset, ts).value.w.hist.outcome|
    ensures var s := After(offset, ts).value; var h := s.w.hist;
      && h.outcome[k] == (if k < |h.wire| then None
                          else if k < |h.outcome| - Walked(s.w.loop) then WriterError(ts) else HandleError(ts))
      && (k >= |h.wire| ==> h.outcome[k].Some?)
      && (k in h.returned ==> h.returned[k] == h.outcome[k])
  {
    RunTold(offset, ts);
    RunKeepsErrors(offset, ts);
    MT.RunKeepsInv(offset, ts);
  }

  // ----- requests

  /** Whatever close did to a request, it did with its own error. */
  ghost predicate ClosedWith(calls: map<nat, Call>, he: Option<Error>)
  {
    forall c, i | c in calls && 0 <= i < |calls[c].done| && calls[c].done[i].ByClose? ::
      Some(calls[c].done[i].e) == he
  }

  lemma CompletionsStep(s: State, t: Step)
    requires Enabled(s, t) && (t.OwnDone? || t.Deliver? || t.CloseRequest?) && ClosedWith(s.calls, Closes(s.sup))
    ensures ClosedWith(Next(s, t).calls, Closes(Next(s, t).sup))
  {
  }

  /** The other steps complete no request. */
  lemma OtherDone(s: State, t: Step)
    requires Enabled(s, t) && !t.OwnDone? && !t.Deliver? && !t.CloseRequest?
    ensures forall c | c in Next(s, t).calls ::
      if c in s.calls then Next(s, t).calls[c].done == s.calls[c].done else Next(s, t).calls[c].done == []
  {
  }

  lemma StepClosedWith(s: State, t: Step)
    requires Enabled(s, t) && ClosedWith(s.calls, Closes(s.sup))
    ensures ClosedWith(Next(s, t).calls, Closes(Next(s, t).sup))
  {
    if t.OwnDone? || t.Deliver? || t.CloseRequest? {
      CompletionsStep(s, t);
    } else {
      OtherDone(s, t);
      SupSteps(s, t);
    }
  }

  lemma {:induction false} RunClosedWith(offset: nat, ts: seq<Step>)
    requires Seqno.IsOffset(offset) && After(offset, ts).Some?
    ensures ClosedWith(After(offset, ts).value.calls, Closes(After(offset, ts).value.sup))
  {
    if ts != [] {
      var n := |ts| - 1;
      RunClosedWith(offset, ts[..n]);
      StepClosedWith(After(offset, ts[..n]).value, ts[n]);
    }
  }

  /** A request that close completed was given the error of Handle, and returns it. */
  lemma ClosedRequestsAreTold(offset: nat, ts: seq<Step>, c: nat)
    requires Seqno.IsOffset(offset) && After(offset, ts).Some?
    requires var s := After(offset, ts).value;
      c in s.calls && s.calls[c].ticket.Some? && s.calls[c].done != [] && s.calls[c].done[0].ByClose?
    ensures HandleError(ts).Some?
    ensures var x := After(offset, ts).value.calls[c];
      && x.done == [ByClose(HandleError(ts).value)]
      && (x.pc.Returned? ==> x.pc.r == Failed(HandleError(ts).value))
  {
    RunClosedWith(offset, ts);
    RunKeepsErrors(offset, ts);
    MT.AcceptedIsCompletedOnce(offset, ts, c);
  }

  /** A request whose frame the shut writer refused returns that the node is shut down. */
  lemma RefusedRequestsAreTold(offset: nat, ts: seq<Step>, c: nat)
    requires Seqno.IsOffset(offset) && After(offset, ts).Some?
    requires var s := After(offset, ts).value; c in s.calls && s.calls[c].pc.Returned? && s.calls[c].ticket.None?
    ensures After(offset, ts).value.calls[c].pc.r == Failed(ShutDown)
  {
    MT.RunKeepsInv(offset, ts);
    var s := After(offset, ts).value;
    assert I.CallOk(c, s.calls[c], s.t, s.offset, s.r, s.o, s.fault);
  }
}
