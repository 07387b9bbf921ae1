/** What is true of every run of one connection, whatever its peer sends. */
module MuxTheorems {
  import opened Basics
  import opened Mux
  import opened MuxInv
  import W = Writer
  import BaseProofs = MuxProofs
  import CallProofs = MuxCallProofs
  import Seqno

  predicate OfCaller(t: Step)
  {
    t.Request? || t.Number? || t.List? || t.SendRequest? || t.OwnDone? || t.Unlist? || t.Finish?
  }

  predicate OfLoops(t: Step)
  {
    t.Deliver? || t.Route? || t.CloseRequest? || t.EndClose?
  }

  lemma CallerStep(s: State, t: Step)
    requires (s.sup.Over? ==> s.w.loop.done) && CallsOk(s) && Enabled(s, t)
    requires (t.Request? || t.Number? || t.List? || t.SendRequest?)
    ensures CallsOk(Next(s, t))
  {
    if t.Request? { CallProofs.RequestKeepsCalls(s, t.c, t.payload, t.pr); }
    else if t.Number? { CallProofs.NumberKeepsCalls(s, t.c); }
    else if t.List? { CallProofs.ListKeepsCalls(s, t.c); }
    else { CallProofs.SendRequestKeepsCalls(s, t.c, t.pw, t.buf); }
  }

  lemma CallerEndStep(s: State, t: Step)
    requires CallsOk(s) && Enabled(s, t) && (t.OwnDone? || t.Unlist? || t.Finish?)
    ensures CallsOk(Next(s, t))
  {
    if t.OwnDone? { CallProofs.OwnDoneKeepsCalls(s, t.c); }
    else if t.Unlist? { CallProofs.UnlistKeepsCalls(s, t.c); }
    else { CallProofs.FinishKeepsCalls(s, t.c); }
  }

  lemma LoopStep(s: State, t: Step)
    requires (s.sup.Over? ==> s.r.rd.Stopped?) && ReadOk(s.r) && CallsOk(s) && Enabled(s, t) && OfLoops(t)
    ensures CallsOk(Next(s, t))
  {
    if t.Deliver? { CallProofs.DeliverKeepsCalls(s); }
    else if t.Route? { CallProofs.RouteKeepsCalls(s); }
    else if t.CloseRequest? { CallProofs.CloseRequestKeepsCalls(s, t.q); }
    else { CallProofs.EndCloseKeepsCalls(s); }
  }

  lemma QuietStep(s: State, t: Step)
    requires CallsOk(s) && Enabled(s, t) && !OfCaller(t) && !OfLoops(t)
    ensures CallsOk(Next(s, t))
  {
    CallProofs.QuietStepKeepsCalls(s, Next(s, t));
  }

  lemma IssuedGrows(s: State, t: Step)
    requires Enabled(s, t)
    ensures s.t.issued <= Next(s, t).t.issued
  {
  }

  lemma StepKeepsCalls(s: State, t: Step)
    requires Base(s) && CallsOk(s) && Enabled(s, t)
    ensures CallsOk(Next(s, t))
  {
    if t.OwnDone? || t.Unlist? || t.Finish? {
      CallerEndStep(s, t);
    } else if OfCaller(t) {
      CallerStep(s, t);
    } else if OfLoops(t) {
      LoopStep(s, t);
    } else {
      QuietStep(s, t);
    }
  }

  lemma StepKeepsInv(s: State, t: Step)
    requires Inv(s) && Enabled(s, t)
    ensures Inv(Next(s, t))
  {
    BaseProofs.StepKeepsBase(s, t);
    StepKeepsCalls(s, t);
    IssuedGrows(s, t);
    if |Next(s, t).t.issued| < Seqno.HALF {
      CallProofs.StepNoneMissing(s, t);
    }
  }

  lemma {:induction false} RunKeepsInv(offset: nat, ts: seq<Step>)
    requires Seqno.IsOffset(offset) && After(offset, ts).Some?
    ensures Inv(After(offset, ts).value)
  {
    if ts == [] {
    } else {
      var n := |ts| - 1;
      RunKeepsInv(offset, ts[..n]);
      StepKeepsInv(After(offset, ts[..n]).value, ts[n]);
    }
  }

  // ----- Handle and close

  /**
   Whichever branch Handle takes, when it has returned both loops have, the
   writer is shut, and its error is an error; so close runs beside neither, and
   the step that starts its walk over the queue is always possible.
   */
  lemma HandleJoinsBothLoops(offset: nat, ts: seq<Step>)
    requires Seqno.IsOffset(offset) && After(offset, ts).Some?
    ensures var s := After(offset, ts).value;
      && (s.sup.HandleReturned? || s.sup.CloseWrites? || s.sup.CloseReqs? || s.sup.Over? ==>
            s.w.loop.done && s.r.rd.Stopped? && (s.w.loop.pc.Exited? || s.w.loop.pc.Closing? || s.w.loop.pc.Closed?))
      && (s.sup.HandleReturned? ==> W.Enabled(s.w, W.DoBeginClose(s.sup.e)))
      && (s.sup.CloseWrites? && s.w.loop.i == |s.w.loop.batch| ==> W.Enabled(s.w, W.DoEndPass))
  {
    RunKeepsInv(offset, ts);
  }

  /** The result a request returns when d completed it. */
  predicate Reports(r: Result, d: Done)
  {
    match d
    case ByReader(body) => r == Ok(body)
    case ByClose(e) => r == Failed(e)
    case ByItself => false
  }

  /** An accepted request is never completed twice, not even in a run that ends in a fault. */
  lemma AcceptedIsCompletedOnce(offset: nat, ts: seq<Step>, c: nat)
    requires Seqno.IsOffset(offset) && After(offset, ts).Some?
    requires c in After(offset, ts).value.calls && After(offset, ts).value.calls[c].ticket.Some?
    ensures var s := After(offset, ts).value; var x := s.calls[c];
      && |x.done| <= 1 && (x.done != [] ==> !x.done[0].ByItself?)
      && (x.pc.Returned? ==> x.done != [] && Reports(x.pc.r, x.done[0]))
  {
    RunKeepsInv(offset, ts);
    var s := After(offset, ts).value;
    assert CallOk(c, s.calls[c], s.t, s.offset, s.r, s.o, s.fault);
  }

  lemma TicketIsSettled(s: State, c: nat)
    requires Base(s) && c in s.calls && s.calls[c].ticket.Some?
    ensures s.calls[c].pc.Accepted? || s.calls[c].pc.Returned?
  {
  }

  lemma UncompletedIsHeld(s: State, c: nat)
    requires CallsOk(s) && Seqno.IsOffset(s.offset) && |s.t.issued| < Seqno.HALF && NoneMissing(s.t, s.calls, s.sup)
    requires !s.fault && c in s.calls && s.calls[c].ticket.Some? && s.calls[c].done == []
    requires s.calls[c].pc.Accepted? || s.calls[c].pc.Returned?
    ensures var x := s.calls[c]; x.taker.Nobody? ==> !s.sup.Over? && x.seqno in s.t.reqs && s.t.reqs[x.seqno] == x.pr
    ensures var x := s.calls[c]; !x.taker.Nobody? ==> s.r.rd.Delivering? && s.r.rd.c == c && s.r.rd.pr == x.pr
  {
    assert CallOk(c, s.calls[c], s.t, s.offset, s.r, s.o, s.fault);
    CallProofs.NumbersDiffer(s, c, c);
  }

  /** Until it is completed an accepted request is in reqs under its number, or in readLoop's hands. */
  lemma AcceptedIsNotStranded(offset: nat, ts: seq<Step>, c: nat)
    requires Seqno.IsOffset(offset) && After(offset, ts).Some? && |After(offset, ts).value.t.issued| < Seqno.HALF
    requires var s := After(offset, ts).value;
      && !s.fault && c in s.calls && s.calls[c].ticket.Some?
      && s.calls[c].done == []
    ensures var s := After(offset, ts).value; var x := s.calls[c];
      && !s.sup.Over?
      && ((x.seqno in s.t.reqs && s.t.reqs[x.seqno] == x.pr)
          || (s.r.rd.Delivering? && s.r.rd.c == c && s.r.rd.pr == x.pr))
  {
    RunKeepsInv(offset, ts);
    TicketIsSettled(After(offset, ts).value, c);
    UncompletedIsHeld(After(offset, ts).value, c);
  }

  predicate CompletedByItsTaker(x: Call)
  {
    |x.done| == 1 && match x.done[0]
      case ByReader(_) => x.taker.Message?
      case ByClose(_) => x.taker.Close?
      case ByItself => false
  }

  lemma CompletedByTaker(s: State, c: nat)
    requires CallsOk(s) && c in s.calls && s.calls[c].ticket.Some? && s.calls[c].done != []
    requires s.calls[c].pc.Accepted? || s.calls[c].pc.Returned?
    ensures CompletedByItsTaker(s.calls[c])
  {
    assert CallOk(c, s.calls[c], s.t, s.offset, s.r, s.o, s.fault);
  }

  /**
   When close has returned, every request ever accepted has been completed
   exactly once, by readLoop or by close, whichever took its entry out of reqs.
   */
  lemma CloseCompletesEveryAccepted(offset: nat, ts: seq<Step>)
    requires Seqno.IsOffset(offset) && After(offset, ts).Some? && |After(offset, ts).value.t.issued| < Seqno.HALF
    requires var s := After(offset, ts).value; !s.fault && s.sup.Over?
    ensures var s := After(offset, ts).value;
      && (forall c | c in s.calls && s.calls[c].ticket.Some? :: CompletedByItsTaker(s.calls[c]))
      && |s.w.hist.outcome| == |s.w.hist.log| && s.w.loop.queue == []
  {
    RunKeepsInv(offset, ts);
    var s := After(offset, ts).value;
    forall c | c in s.calls && s.calls[c].ticket.Some? ensures CompletedByItsTaker(s.calls[c]) {
      TicketIsSettled(s, c);
      if s.calls[c].done == [] {
        UncompletedIsHeld(s, c);
        assert false;
      }
      CompletedByTaker(s, c);
    }
  }

  // ----- the fault

  /**
   A WaitGroup goes below zero, or a released request is touched, exactly when
   some request is completed twice; and that request was refused.
   */
  lemma FaultMeansRefusedTwice(offset: nat, ts: seq<Step>)
    requires Seqno.IsOffset(offset) && After(offset, ts).Some?
    ensures var s := After(offset, ts).value;
      s.fault <==> exists c :: c in s.calls && |s.calls[c].done| >= 2 && s.calls[c].ticket.None?
  {
    RunKeepsInv(offset, ts);
    var s := After(offset, ts).value;
    assert forall c | c in s.calls :: CallOk(c, s.calls[c], s.t, s.offset, s.r, s.o, s.fault);
    if s.fault {
      var c :| c in s.calls && |s.calls[c].done| >= 2;
      assert s.calls[c].ticket.None?;
    }
  }

  /**
   The guard of the step that fails: a refused request makes its own wg.Done
   before it takes its entry out of reqs, and close finds the entry in between,
   or readLoop or close had already completed the request.
   */
  lemma FaultsExactlyWhen(offset: nat, ts: seq<Step>, t: Step)
    requires Seqno.IsOffset(offset) && After(offset, ts).Some? && Enabled(After(offset, ts).value, t)
    ensures var s := After(offset, ts).value;
      Next(s, t).fault <==>
        || (t.OwnDone? && s.calls[t.c].done != [])
        || (t.CloseRequest? && s.calls[s.o.heap[s.t.reqs[t.q]].owner].pc.Unlisting?)
        || (t.Deliver? && s.calls[s.r.rd.c].done != [])
  {
    RunKeepsInv(offset, ts);
    var s := After(offset, ts).value;
    if t.OwnDone? {
      OwnDoneFaults(s, t.c);
    } else if t.CloseRequest? {
      CallProofs.CloseRequestKeepsCalls(s, t.q);
    } else if t.Deliver? {
      DeliverFaults(s);
    } else {
      OthersNeverFault(s, t);
    }
  }

  lemma OwnDoneFaults(s: State, c: nat)
    requires Inv(s) && Enabled(s, OwnDone(c))
    ensures Next(s, OwnDone(c)).fault <==> s.calls[c].done != []
  {
    CallProofs.OwnDoneKeepsCalls(s, c);
    assert CallOk(c, s.calls[c], s.t, s.offset, s.r, s.o, s.fault);
  }

  lemma DeliverFaults(s: State)
    requires Inv(s) && Enabled(s, Deliver)
    ensures Next(s, Deliver).fault <==> s.calls[s.r.rd.c].done != []
  {
    CallProofs.DeliverKeepsCalls(s);
    assert CallOk(s.r.rd.c, s.calls[s.r.rd.c], s.t, s.offset, s.r, s.o, s.fault);
  }

  lemma OthersNeverFault(s: State, t: Step)
    requires Enabled(s, t) && !t.OwnDone? && !t.CloseRequest? && !t.Deliver?
    ensures !Next(s, t).fault
  {
  }

  lemma Extend(offset: nat, ts: seq<Step>, s: State, t: Step) returns (ts': seq<Step>, s': State)
    requires After(offset, ts) == Some(s) && Enabled(s, t)
    ensures ts' == ts + [t] && s' == Next(s, t) && After(offset, ts') == Some(s')
  {
    ts', s' := ts + [t], Next(s, t);
    assert ts'[..|ts'| - 1] == ts;
  }

  /** A client connection whose one request is at pc, with nothing written and nothing read. */
  function OneRequest(pc: CallPc, wg: int, done: seq<Done>, q: W.Loop, rd: Reader, sup: Sup): State
  {
    State(W.Start.(loop := q), Table(1, [0], map[1 := 0]), Objects(map[0 := PendingRequest([], None, wg, 0)], {}),
          map[0 := Call([], 0, pc, 1, 1, None, Nobody, done)], ReadSide(rd, [], []), [], sup, Seqno.CLIENT_OFFSET,
              false)
  }

  lemma ListedRequest() returns (ts: seq<Step>)
    ensures After(1, ts) == Some(OneRequest(Listed, 1, [], W.Start.loop, Reading, Selecting))
  {
    var s := Start(1);
    ts := [];
    ts, s := Extend(1, ts, s, Request(0, [], 0));
    assert s.o == Objects(map[0 := PendingRequest([], None, 1, 0)], {});
    ts, s := Extend(1, ts, s, Number(0));
    assert s.t == Table(1, [0], map[]);
    ts, s := Extend(1, ts, s, List(0));
    assert s.t.reqs == map[1 := 0];
    assert s.calls == map[0 := Call([], 0, Listed, 1, 1, None, Nobody, [])];
  }

  lemma ShutRequest() returns (ts: seq<Step>)
    ensures After(1, ts) == Some(OneRequest(Listed, 1, [], W.Start.loop.(done := true), Reading, DoneJoinWriter))
  {
    ts := ListedRequest();
    var s := OneRequest(Listed, 1, [], W.Start.loop, Reading, Selecting);
    ts, s := Extend(1, ts, s, Stop);
    ts, s := Extend(1, ts, s, ShutWriter);
  }

  /** A request that a shut writer refuses, and its own wg.Done after that. */
  lemma RefusalSteps(q: W.Loop, sup: Sup)
    requires q.done && sup.DoneJoinWriter?
    ensures Enabled(OneRequest(Listed, 1, [], q, Reading, sup), SendRequest(0, 0, 0))
    ensures Next(OneRequest(Listed, 1, [], q, Reading, sup), SendRequest(0, 0, 0))
        == OneRequest(Refused, 1, [], q, Reading, sup)
    ensures Enabled(OneRequest(Refused, 1, [], q, Reading, sup), OwnDone(0))
    ensures Next(OneRequest(Refused, 1, [], q, Reading, sup), OwnDone(0))
        == OneRequest(Unlisting, 0, [ByItself], q, Reading, sup)
  {
    var a, b := OneRequest(Listed, 1, [], q, Reading, sup), OneRequest(Refused, 1, [], q, Reading, sup);
    assert a.calls[0 := a.calls[0].(pc := Refused)] == b.calls;
    var n := Next(b, OwnDone(0));
    assert n.calls[0].done == [ByItself];
    assert n.calls == map[0 := Call([], 0, Unlisting, 1, 1, None, Nobody, [ByItself])];
    assert n.o.heap == map[0 := PendingRequest([], None, 0, 0)];
  }

  /** The two loops end. */
  lemma LoopsEnd(x: State, e: Error)
    requires x.w.loop == W.Start.loop.(done := true) && x.r.rd == Reading && x.sup == DoneJoinWriter && !x.fault
    requires !x.w.fault
    ensures var x1 := x.(w := x.w.(loop := W.Loop([], true, W.Exited(None), [], 0)));
      && Enabled(x, Write(W.DoTake)) && Next(x, Write(W.DoTake)) == x1
      && Enabled(x1, ReadFail(e)) && Next(x1, ReadFail(e)) == x1.(r := x1.r.(rd := Stopped(e)))
  {
  }

  /** Handle joins them. */
  lemma JoinSteps(x: State, e: Error)
    requires x.w.loop.pc == W.Exited(None) && x.r.rd == Stopped(e) && x.sup == DoneJoinWriter && !x.fault
    ensures var x1 := x.(sup := JoinReader(None));
      && Enabled(x, JoinTheWriter) && Next(x, JoinTheWriter) == x1
      && Enabled(x1, JoinTheReader) && Next(x1, JoinTheReader) == x1.(sup := HandleReturned(e))
  {
  }

  /** The writer is shut, the request refused, and its own wg.Done made; its entry is still in reqs. */
  lemma RefusedAndJoined() returns (ts: seq<Step>)
    ensures After(1, ts) == Some(OneRequest(Unlisting, 0, [ByItself], W.Loop([], true, W.Exited(None), [], 0),
                                            Stopped(IO(1)), HandleReturned(IO(1))))
  {
    var q := W.Start.loop.(done := true);
    ts := ShutRequest();
    RefusalSteps(q, DoneJoinWriter);
    var s;
    ts, s := Extend(1, ts, OneRequest(Listed, 1, [], q, Reading, DoneJoinWriter), SendRequest(0, 0, 0));
    ts, s := Extend(1, ts, s, OwnDone(0));
    LoopsEnd(s, IO(1));
    ts, s := Extend(1, ts, s, Write(W.DoTake));
    ts, s := Extend(1, ts, s, ReadFail(IO(1)));
    JoinSteps(s, IO(1));
    ts, s := Extend(1, ts, s, JoinTheWriter);
    ts, s := Extend(1, ts, s, JoinTheReader);
  }

  /** The fault is real: one request, refused because the node is being shut down, and then close. */
  lemma RefusedRequestCanFault() returns (ts: seq<Step>)
    ensures After(Seqno.CLIENT_OFFSET, ts).Some? && After(Seqno.CLIENT_OFFSET, ts).value.fault
  {
    ts := RefusedAndJoined();
    var s := OneRequest(Unlisting, 0, [ByItself], W.Loop([], true, W.Exited(None), [], 0), Stopped(IO(1)),
        HandleReturned(IO(1)));
    ts, s := Extend(1, ts, s, BeginClose);
    ts, s := Extend(1, ts, s, EndWrites);
    ts, s := Extend(1, ts, s, CloseRequest(1));
  }
}
