/**
 Which error ends a connection and who is told it: the first failure of a call to
 the network stops writeLoop, the first failed read or refusal of the handler
 stops readLoop for good, Handle returns one of the two, and what close completes
 gets the error of Handle.
 */
module MuxErrors {
  import opened Basics
  import opened Mux
  import I = MuxInv
  import MT = MuxTheorems
  import W = Writer
  import Seqno

  // ----- the errors of a run, read off its steps

  /** What a step's call to the network told writeLoop. */
  function WriteFailure(t: Step): Option<Error>
  {
    match t
    case Write(DoSetDeadline(r)) => r
    case Write(DoWrite(r)) => r
    case Write(DoFlush(r)) => r
    case _ => None
  }

  /** What a step told readLoop: a read failed or was too short, or the handler refused the message. */
  function ReadFailure(t: Step): Option<Error>
  {
    match t
    case Read(bytes) => if |bytes| < 4 then Some(IO(0)) else None
    case ReadFail(e) => Some(e)
    case HandlerReturn(err) => err
    case _ => None
  }

  function First(ts: seq<Step>, failure: Step -> Option<Error>): Option<Error>
  {
    if ts == [] then None
    else
      var n := |ts| - 1;
      var e := First(ts[..n], failure);
      if e.Some? then e else failure(ts[n])
  }

  function WriterError(ts: seq<Step>): Option<Error>
  {
    First(ts, WriteFailure)
  }

  function ReaderError(ts: seq<Step>): Option<Error>
  {
    First(ts, ReadFailure)
  }

  /** readLoop's error if Handle saw readLoop end first; else writeLoop's if it had one, and else readLoop's. */
  function HandleError(ts: seq<Step>): Option<Error>
  {
    if SeeReader in ts || WriterError(ts).None? then ReaderError(ts) else WriterError(ts)
  }

  /** It is the first of the run: some step gave it and none before that step gave any. */
  lemma {:induction false} FirstIsFirst(ts: seq<Step>, failure: Step -> Option<Error>)
    ensures First(ts, failure).None? <==> forall i | 0 <= i < |ts| :: failure(ts[i]).None?
    ensures forall k | 0 <= k < |ts| && failure(ts[k]).Some? && (forall i | 0 <= i < k :: failure(ts[i]).None?) ::
              First(ts, failure) == failure(ts[k])
  {
    if ts != [] {
      var n := |ts| - 1;
      FirstIsFirst(ts[..n], failure);
      assert ts == ts[..n] + [ts[n]];
      forall k | 0 <= k < |ts| && failure(ts[k]).Some? && (forall i | 0 <= i < k :: failure(ts[i]).None?)
        ensures First(ts, failure) == failure(ts[k]) {
        if k < n {
          assert ts[..n][k] == ts[k];
        }
      }
    }
  }

  // ----- where the three loops keep them

  /** A writeLoop with the error e. */
  ghost predicate AtWriter(pc: W.Pc, e: Option<Error>)
  {
    match pc
    case Failing(x) => e == Some(x)
    case Handed(r) => e == r
    case Pass(r) => e == r
    case Exited(r) => e == r
    case Closing(_) => true
    case Closed => true
    case _ => e.None?
  }

  ghost predicate AtReader(rd: Reader, e: Option<Error>)
  {
    if rd.Stopped? then e == Some(rd.e) else e.None?
  }

  ghost predicate AtHandle(sup: Sup, pc: W.Pc, rd: Reader, saw: bool, we: Option<Error>, re: Option<Error>)
  {
    match sup
    case Selecting => !saw
    case DoneShut => !saw
    case DoneJoinWriter => !saw
    case WriterShut(e) => !saw && e == we && pc == W.Exited(e)
    case JoinReader(e) => !saw && e == we && pc == W.Exited(e)
    case ReaderShut(e) => saw && re == Some(e)
    case JoinWriter(e) => saw && re == Some(e)
    case HandleReturned(e) => rd.Stopped? && pc.Exited? && Some(e) == if saw || we.None? then re else we
    case CloseWrites(e) => rd.Stopped? && pc == W.Closing(e) && Some(e) == if saw || we.None? then re else we
    case CloseReqs(e) => rd.Stopped? && pc.Closed? && Some(e) == if saw || we.None? then re else we
    case Over(e) => rd.Stopped? && pc.Closed? && Some(e) == if saw || we.None? then re else we
  }

  // ----- what each step does to them

  lemma InternalWriterStep(w: W.State, ws: W.Step, e: Option<Error>)
    requires W.Enabled(w, ws) && AtWriter(w.loop.pc, e) && !W.Next(w, ws).fault
    requires !ws.DoAccept? && !ws.DoCloseWriter? && !ws.DoBeginClose?
    ensures AtWriter(W.Next(w, ws).loop.pc, if e.Some? then e else WriteFailure(Write(ws)))
    ensures w.loop.pc.Exited? || w.loop.pc.Closing? || w.loop.pc.Closed? ==> WriteFailure(Write(ws)).None?
  {
  }

  /** The other steps that change the writer's place: a signal, and the two ends of close's walk. */
  lemma OuterWriterStep(s: State, t: Step)
    requires Enabled(s, t) && !t.Write?
    ensures var pc, pc' := s.w.loop.pc, Next(s, t).w.loop.pc;
      && Next(s, t).w.fault == s.w.fault && Next(s, t).w.hist.outcome == s.w.hist.outcome
      && (t == BeginClose ==> pc' == W.Closing(s.sup.e) && Next(s, t).w.loop.i == 0)
      && (t == EndWrites ==> Next(s, t).w.loop == W.EndPass(s.w.loop))
      && (t != BeginClose && t != EndWrites ==> pc' in {pc, W.Woken(pc)} && Next(s, t).w.loop.i == s.w.loop.i)
  {
  }

  lemma WriterStep(s: State, t: Step, e: Option<Error>)
    requires Enabled(s, t) && AtWriter(s.w.loop.pc, e) && !Next(s, t).w.fault
    requires t == BeginClose ==> s.w.loop.pc.Exited?
    ensures AtWriter(Next(s, t).w.loop.pc, if e.Some? then e else WriteFailure(t))
    ensures s.w.loop.pc.Exited? || s.w.loop.pc.Closing? || s.w.loop.pc.Closed? ==> WriteFailure(t).None?
  {
    if t.Write? {
      InternalWriterStep(s.w, t.ws, e);
    } else {
      OuterWriterStep(s, t);
    }
  }

  lemma ReaderStep(s: State, t: Step, e: Option<Error>)
    requires Enabled(s, t) && AtReader(s.r.rd, e)
    ensures AtReader(Next(s, t).r.rd, if e.Some? then e else ReadFailure(t))
    ensures s.r.rd.Stopped? ==> ReadFailure(t).None? && Next(s, t).r == s.r
  {
  }

  lemma WriterStays(s: State, t: Step)
    requires Enabled(s, t) && t != BeginClose && t != EndWrites
    requires s.w.loop.pc.Exited? || s.w.loop.pc.Closing? || s.w.loop.pc.Closed?
    ensures Next(s, t).w.loop.pc == s.w.loop.pc
  {
    if !t.Write? {
      OuterWriterStep(s, t);
    }
  }

  lemma SupSteps(s: State, t: Step)
    requires Enabled(s, t)
    ensures var sup := s.sup; var sup' := Next(s, t).sup;
      match t
      case Stop => sup' == DoneShut
      case SeeWriter => sup' == WriterShut(s.w.loop.pc.err)
      case SeeReader => sup' == ReaderShut(s.r.rd.e)
      case ShutWriter => sup' == (if sup.DoneShut? then DoneJoinWriter
                                  else if sup.WriterShut? then JoinReader(sup.we) else JoinWriter(sup.e))
      case JoinTheWriter => sup' == if sup.DoneJoinWriter? then JoinReader(s.w.loop.pc.err) else HandleReturned(sup.e)
      case JoinTheReader => sup' == HandleReturned(if sup.we.Some? then sup.we.value else s.r.rd.e)
      case BeginClose => sup' == CloseWrites(sup.e)
      case EndWrites => sup' == CloseReqs(sup.e)
      case EndClose => sup' == Over(sup.e)
      case _ => sup' == sup
  {
  }

  // ----- all runs

  /** What the steps ts say of the errors is where a state after them keeps it. */
  ghost predicate ErrorsOk(s: State, saw: bool, we: Option<Error>, re: Option<Error>)
  {
    AtWriter(s.w.loop.pc, we) && AtReader(s.r.rd, re) && AtHandle(s.sup, s.w.loop.pc, s.r.rd, saw, we, re)
  }

  lemma QuietHandleStep(s: State, t: Step, saw: bool, we: Option<Error>, re: Option<Error>)
    requires Enabled(s, t) && ErrorsOk(s, saw, we, re) && t != BeginClose && t != EndWrites && !t.JoinTheReader?
    requires !t.SeeWriter? && !t.SeeReader? && !t.JoinTheWriter? && !Next(s, t).w.fault
    ensures AtHandle(Next(s, t).sup, Next(s, t).w.loop.pc, Next(s, t).r.rd, saw,
                     if we.Some? then we else WriteFailure(t), if re.Some? then re else ReadFailure(t))
  {
    SupSteps(s, t);
    WriterStep(s, t, we);
    ReaderStep(s, t, re);
    if s.w.loop.pc.Exited? || s.w.loop.pc.Closing? || s.w.loop.pc.Closed? {
      WriterStays(s, t);
    }
  }

  lemma JoiningStep(s: State, t: Step, saw: bool, we: Option<Error>, re: Option<Error>)
    requires Enabled(s, t) && ErrorsOk(s, saw, we, re)
    requires t.SeeWriter? || t.SeeReader? || t.JoinTheWriter? || t.JoinTheReader? || t == BeginClose || t == EndWrites
    ensures AtHandle(Next(s, t).sup, Next(s, t).w.loop.pc, Next(s, t).r.rd, saw || t == SeeReader, we, re)
  {
  }

  lemma StepKeepsErrors(s: State, t: Step, saw: bool, we: Option<Error>, re: Option<Error>)
    requires Enabled(s, t) && ErrorsOk(s, saw, we, re) && !Next(s, t).w.fault
    ensures ErrorsOk(Next(s, t), saw || t == SeeReader,
                     if we.Some? then we else WriteFailure(t), if re.Some? then re else ReadFailure(t))
  {
    WriterStep(s, t, we);
    ReaderStep(s, t, re);
    if t.SeeWriter? || t.SeeReader? || t.JoinTheWriter? || t.JoinTheReader? || t == BeginClose || t == EndWrites {
      JoiningStep(s, t, saw, we, re);
    } else {
      QuietHandleStep(s, t, saw, we, re);
    }
  }

  lemma LastStep(ts: seq<Step>)
    requires ts != []
    ensures var n := |ts| - 1;
      && WriterError(ts) == (if WriterError(ts[..n]).Some? then WriterError(ts[..n]) else WriteFailure(ts[n]))
      && ReaderError(ts) == (if ReaderError(ts[..n]).Some? then ReaderError(ts[..n]) else ReadFailure(ts[n]))
      && (SeeReader in ts <==> SeeReader in ts[..n] || ts[n] == SeeReader)
  {
    assert ts == ts[..|ts| - 1] + [ts[|ts| - 1]];
  }

  lemma {:induction false} RunKeepsErrors(offset: nat, ts: seq<Step>)
    requires Seqno.IsOffset(offset) && After(offset, ts).Some?
    ensures ErrorsOk(After(offset, ts).value, SeeReader in ts, WriterError(ts), ReaderError(ts))
  {
    if ts != [] {
      var n := |ts| - 1;
      var s := After(offset, ts[..n]).value;
      RunKeepsErrors(offset, ts[..n]);
      MT.RunKeepsInv(offset, ts);
      StepKeepsErrors(s, ts[n], SeeReader in ts[..n], WriterError(ts[..n]), ReaderError(ts[..n]));
      LastStep(ts);
    }
  }

  // ----- readLoop

  /**
   In every run readLoop has stopped with the error e exactly if the first failed read,
   message without a number or refusal of the handler gave e; and it never moves again.
   */
  lemma ReaderStopsAtTheFirst(offset: nat, ts: seq<Step>, e: Error)
    requires Seqno.IsOffset(offset) && After(offset, ts).Some?
    ensures After(offset, ts).value.r.rd == Stopped(e) <==> ReaderError(ts) == Some(e)
  {
    RunKeepsErrors(offset, ts);
  }

  /** After a failure readLoop reads nothing more and calls the handler no more, whatever follows. */
  lemma {:induction false} StoppedForever(offset: nat, ts: seq<Step>, us: seq<Step>)
    requires Seqno.IsOffset(offset) && After(offset, ts + us).Some? && ReaderError(ts).Some?
    ensures After(offset, ts).Some? && After(offset, ts).value.r.rd == Stopped(ReaderError(ts).value)
    ensures After(offset, ts + us).value.r == After(offset, ts).value.r
  {
    if us == [] {
      assert ts + us == ts;
      RunKeepsErrors(offset, ts);
    } else {
      var n := |us| - 1;
      assert (ts + us)[..|ts + us| - 1] == ts + us[..n] && (ts + us)[|ts + us| - 1] == us[n];
      StoppedForever(offset, ts, us[..n]);
      ReaderStep(After(offset, ts + us[..n]).value, us[n], ReaderError(ts));
    }
  }

  /** A refusal of the handler ends readLoop; an accepted message makes it read on. */
  lemma HandlerDecides(offset: nat, ts: seq<Step>, err: Option<Error>)
    requires Seqno.IsOffset(offset) && After(offset, ts + [HandlerReturn(err)]).Some?
    ensures var rd := After(offset, ts + [HandlerReturn(err)]).value.r.rd;
      rd == match err case None => Reading case Some(e) => Stopped(e)
  {
    var us := ts + [HandlerReturn(err)];
    RunKeepsErrors(offset, us);
    assert us[..|us| - 1] == ts;
  }

  // ----- Handle

  /** Handle has returned; close may have begun or ended. */
  predicate HasReturned(sup: Sup)
  {
    sup.HandleReturned? || sup.CloseWrites? || sup.CloseReqs? || sup.Over?
  }

  /**
   In every run, once Handle has returned its error is readLoop's if it saw readLoop end
   first; else writeLoop's if that had one, and else readLoop's.  Each is the first failure
   of its loop.  close works with that same error from beginning to end.
   */
  lemma HandleReturnsTheFirst(offset: nat, ts: seq<Step>)
    requires Seqno.IsOffset(offset) && After(offset, ts).Some? && HasReturned(After(offset, ts).value.sup)
    ensures HandleError(ts) == Some(After(offset, ts).value.sup.e)
  {
    RunKeepsErrors(offset, ts);
  }
}
