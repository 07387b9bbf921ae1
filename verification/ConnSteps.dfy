/** The steps of the machine in `Mux` as they change what the fields of a `Conn` hold. */
module ConnSteps {
  import opened Basics
  import M = Mux
  import I = MuxInv
  import MT = MuxTheorems
  import MF = MuxFaults
  import E = MuxEffects
  import W = Writer
  import Seqno

  /** The part of a machine state that the fields of `Conn` hold. */
  datatype Fields = Fields(queue: seq<nat>, done: bool, reqs: map<nat, nat>, seqno: nat,
                           writes: W.Memory, requests: M.Objects, tickets: nat)

  ghost function FieldsOf(s: M.State): Fields
  {
    Fields(s.w.loop.queue, s.w.loop.done, s.t.reqs, s.t.seqno, s.w.mem, s.o, |s.w.hist.log|)
  }

  ghost predicate StepTo(s: M.State, t: M.Step, s': M.State)
  {
    M.Enabled(s, t) && s' == M.Next(s, t)
  }

  /** The states a run passes through, from the start to where it is now. */
  ghost predicate IsTrace(offset: nat, run: seq<M.Step>, states: seq<M.State>)
  {
    && |states| == |run| + 1 && states[0] == M.Start(offset)
    && (forall i | 0 <= i < |run| :: StepTo(states[i], run[i], states[i + 1]))
  }

  /** The machine's run from the start at `offset` leads to s. */
  ghost predicate IsRun(offset: nat, run: seq<M.Step>, s: M.State)
  {
    s.offset == offset && exists states :: IsTrace(offset, run, states) && states[|run|] == s
  }

  lemma {:induction false} TraceIsAfter(offset: nat, run: seq<M.Step>, states: seq<M.State>)
    requires IsTrace(offset, run, states)
    ensures M.After(offset, run) == Some(states[|run|])
  {
    if run != [] {
      var n := |run| - 1;
      assert StepTo(states[n], run[n], states[n + 1]);
      TraceIsAfter(offset, run[..n], states[..|run|]);
    }
  }

  /** What the fields of a connection are tied to is a run of the machine, so its theorems apply. */
  lemma RunIsAfter(offset: nat, run: seq<M.Step>, s: M.State)
    requires IsRun(offset, run, s)
    ensures M.After(offset, run) == Some(s)
  {
    var states :| IsTrace(offset, run, states) && states[|run|] == s;
    TraceIsAfter(offset, run, states);
  }

  lemma RunHasInv(offset: nat, run: seq<M.Step>, s: M.State)
    requires IsRun(offset, run, s) && Seqno.IsOffset(offset)
    ensures I.Inv(s)
  {
    RunIsAfter(offset, run, s);
    MT.RunKeepsInv(offset, run);
  }

  lemma PooledRequests(offset: nat, run: seq<M.Step>, s: M.State)
    requires IsRun(offset, run, s) && Seqno.IsOffset(offset) && !s.fault
    ensures forall p | p in s.o.pool :: p in s.o.heap
  {
    RunHasInv(offset, run, s);
  }

  lemma PooledWrites(offset: nat, run: seq<M.Step>, s: M.State)
    requires IsRun(offset, run, s) && Seqno.IsOffset(offset)
    ensures (forall p | p in s.w.mem.pool :: p in s.w.mem.heap)
    ensures (forall b | b in s.w.mem.bufPool :: b in s.w.mem.bufs)
  {
    RunHasInv(offset, run, s);
  }

  lemma Extend(offset: nat, run: seq<M.Step>, s: M.State, t: M.Step) returns (run': seq<M.Step>, s': M.State)
    requires IsRun(offset, run, s) && M.Enabled(s, t)
    ensures run' == run + [t] && s' == M.Next(s, t) && IsRun(offset, run', s')
  {
    run', s' := run + [t], M.Next(s, t);
    E.OffsetStays(s, t);
    var states :| IsTrace(offset, run, states) && states[|run|] == s;
    assert IsTrace(offset, run', states + [s']) && (states + [s'])[|run'|] == s';
  }

  lemma NumberStep(offset: nat, run: seq<M.Step>, s: M.State, c: nat) returns (run': seq<M.Step>, s': M.State)
    requires IsRun(offset, run, s) && M.Enabled(s, M.Number(c))
    ensures IsRun(offset, run', s') && run' == run + [M.Number(c)]
    ensures FieldsOf(s') == FieldsOf(s).(seqno := Seqno.Next(s.t.seqno, offset, Seqno.DEFAULT_DELTA))
    ensures c in s'.calls && s'.calls[c].seqno == s'.t.seqno && s'.fault == s.fault && s'.sup == s.sup
    ensures s'.calls[c] == s.calls[c].(pc := M.Numbered, seqno := s'.t.seqno, num := s'.calls[c].num)
  {
    run', s' := Extend(offset, run, s, M.Number(c));
  }

  lemma ShutStep(offset: nat, run: seq<M.Step>, s: M.State) returns (run': seq<M.Step>, s': M.State)
    requires IsRun(offset, run, s) && M.Enabled(s, M.ShutWriter)
    ensures IsRun(offset, run', s') && run' == run + [M.ShutWriter] && FieldsOf(s') == FieldsOf(s).(done := true)
  {
    run', s' := Extend(offset, run, s, M.ShutWriter);
  }

  lemma SendStep(offset: nat, run: seq<M.Step>, s: M.State, body: Bytes, wait: bool, pw: nat, buf: nat)
    returns (run': seq<M.Step>, s': M.State)
    requires IsRun(offset, run, s) && !M.Held(s) && !s.fault && !s.w.loop.done && W.CanAcquire(s.w.mem, pw, buf)
    ensures IsRun(offset, run', s') && run' == run + [M.Send(body, wait, pw, buf)]
    ensures FieldsOf(s') == FieldsOf(s).(queue := s.w.loop.queue + [pw],
      writes := W.Acquire(s.w.mem, pw, buf, wait, W.Wire(W.Frame(0, body)), |s.w.hist.log|),
      tickets := |s.w.hist.log| + 1)
  {
    run', s' := Extend(offset, run, s, M.Send(body, wait, pw, buf));
  }

  lemma SendRequestStep(offset: nat, run: seq<M.Step>, s: M.State, c: nat, pw: nat,
                        buf: nat) returns (run': seq<M.Step>, s': M.State)
    requires IsRun(offset, run, s) && !M.Held(s) && !s.fault && M.IsAt(s, c, M.Listed) && W.CanAcquire(s.w.mem, pw, buf)
    ensures IsRun(offset, run', s') && run' == run + [M.SendRequest(c, pw, buf)] && !s'.fault && !M.Held(s')
    ensures FieldsOf(s') == if s.w.loop.done then FieldsOf(s) else FieldsOf(s).(queue := s.w.loop.queue + [pw],
      writes := W.Acquire(s.w.mem, pw, buf, false, W.Wire(W.Frame(s.calls[c].seqno, s.calls[c].payload)),
          |s.w.hist.log|),
      tickets := |s.w.hist.log| + 1)
    ensures c in s'.calls && s'.calls[c].pc == (if s.w.loop.done then M.Refused else M.Accepted)
    ensures s'.calls[c].pr == s.calls[c].pr && s'.calls[c].seqno == s.calls[c].seqno
    ensures s'.calls[c].done == s.calls[c].done
  {
    run', s' := Extend(offset, run, s, M.SendRequest(c, pw, buf));
  }

  // ----- the steps of Request

  lemma AcquireStep(offset: nat, run: seq<M.Step>, s: M.State, c: nat, payload: Bytes,
                    pr: nat) returns (run': seq<M.Step>, s': M.State)
    requires IsRun(offset, run, s) && !s.fault && c !in s.calls && (pr in s.o.pool || pr !in s.o.heap)
    ensures IsRun(offset, run', s') && run' == run + [M.Request(c, payload, pr)] && !s'.fault && s'.sup == s.sup
    ensures FieldsOf(s') == FieldsOf(s).(requests := M.Acquire(s.o, pr, c))
    ensures c in s'.calls && s'.calls[c] == M.Call(payload, pr, M.Acquired, 0, 0, None, M.Nobody, [])
  {
    run', s' := Extend(offset, run, s, M.Request(c, payload, pr));
  }

  lemma ListStep(offset: nat, run: seq<M.Step>, s: M.State, c: nat) returns (run': seq<M.Step>, s': M.State)
    requires IsRun(offset, run, s) && !s.fault && !M.Held(s) && M.IsAt(s, c, M.Numbered)
    ensures IsRun(offset, run', s') && run' == run + [M.List(c)] && !s'.fault && s'.sup == s.sup
    ensures FieldsOf(s') == FieldsOf(s).(reqs := s.t.reqs[s.calls[c].seqno := s.calls[c].pr])
    ensures c in s'.calls && s'.calls[c] == s.calls[c].(pc := M.Listed)
  {
    run', s' := Extend(offset, run, s, M.List(c));
  }

  /** Request's own wg.Done, with nobody else's before it. */
  lemma OwnDoneStep(offset: nat, run: seq<M.Step>, s: M.State, c: nat) returns (run': seq<M.Step>, s': M.State)
    requires IsRun(offset, run, s) && Seqno.IsOffset(offset) && !s.fault && M.IsAt(s, c, M.Refused)
    requires s.calls[c].done == []
    ensures IsRun(offset, run', s') && run' == run + [M.OwnDone(c)] && !s'.fault && s'.sup == s.sup
    ensures var pr := s.calls[c].pr;
      pr in s.o.heap && s.o.heap[pr].wg == 1
      && FieldsOf(s') == FieldsOf(s).(
           requests := s.o.(heap := s.o.heap[pr := s.o.heap[pr].(wg := s.o.heap[pr].wg - 1)]))
    ensures c in s'.calls && s'.calls[c] == s.calls[c].(pc := M.Unlisting, done := [M.ByItself])
  {
    RunHasInv(offset, run, s);
    MF.UnfinishedOwns(s, c);
    OwnDoneEffect(s, c);
    run', s' := Extend(offset, run, s, M.OwnDone(c));
  }

  lemma OwnDoneEffect(s: M.State, c: nat)
    requires !s.fault && M.IsAt(s, c, M.Refused) && s.calls[c].done == []
    requires var pr := s.calls[c].pr;
      pr in s.o.heap && pr !in s.o.pool && s.o.heap[pr].owner == c && s.o.heap[pr].wg == 1
    ensures M.Enabled(s, M.OwnDone(c))
    ensures var s' := M.Next(s, M.OwnDone(c)); var pr := s.calls[c].pr;
      && !s'.fault && s'.sup == s.sup
      && FieldsOf(s') == FieldsOf(s).(
           requests := s.o.(heap := s.o.heap[pr := s.o.heap[pr].(wg := s.o.heap[pr].wg - 1)]))
      && c in s'.calls && s'.calls[c] == s.calls[c].(pc := M.Unlisting, done := [M.ByItself])
  {
  }

  lemma UnlistStep(offset: nat, run: seq<M.Step>, s: M.State, c: nat) returns (run': seq<M.Step>, s': M.State)
    requires IsRun(offset, run, s) && Seqno.IsOffset(offset) && !s.fault && !M.Held(s) && M.IsAt(s, c, M.Unlisting)
    ensures IsRun(offset, run', s') && run' == run + [M.Unlist(c)] && !s'.fault && s.calls[c].pr in s.o.heap
    ensures FieldsOf(s')
        == FieldsOf(s).(reqs := s.t.reqs - {s.calls[c].seqno}, requests := M.Release(s.o, s.calls[c].pr))
  {
    RunHasInv(offset, run, s);
    assert I.CallOk(c, s.calls[c], s.t, s.offset, s.r, s.o, s.fault);
    run', s' := Extend(offset, run, s, M.Unlist(c));
  }

  lemma FinishStep(offset: nat, run: seq<M.Step>, s: M.State, c: nat) returns (run': seq<M.Step>, s': M.State)
    requires IsRun(offset, run, s) && M.Enabled(s, M.Finish(c))
    ensures IsRun(offset, run', s') && run' == run + [M.Finish(c)] && !s'.fault
    ensures FieldsOf(s') == FieldsOf(s).(requests := M.Release(s.o, s.calls[c].pr))
    ensures var p := s.o.heap[s.calls[c].pr];
      c in s'.calls && s'.calls[c].pc == M.Returned(if p.err.Some? then M.Failed(p.err.value) else M.Ok(p.dst))
  {
    run', s' := Extend(offset, run, s, M.Finish(c));
  }

  /** readLoop fills the object it has in hand and counts it down, whosever it is by now. */
  lemma DeliverStep(offset: nat, run: seq<M.Step>, s: M.State) returns (run': seq<M.Step>, s': M.State)
    requires IsRun(offset, run, s) && M.Enabled(s, M.Deliver) && Seqno.IsOffset(offset)
    ensures IsRun(offset, run', s') && run' == run + [M.Deliver] && s.r.rd.pr in s.o.heap
    ensures s'.fault <==> MF.BelowZero(s, M.Deliver) || MF.Misdelivers(s, M.Deliver)
    ensures !s'.fault ==> FieldsOf(s') == FieldsOf(s).(
      requests := s.o.(heap := s.o.heap[s.r.rd.pr := M.Completed(s.o.heap[s.r.rd.pr], M.ByReader(s.r.rd.body))]))
  {
    RunIsAfter(offset, run, s);
    RunHasInv(offset, run, s);
    MF.InHandFacts(s);
    MF.FaultIsEither(offset, run, M.Deliver);
    run', s' := Extend(offset, run, s, M.Deliver);
  }

  lemma TakeStep(offset: nat, run: seq<M.Step>, s: M.State) returns (run': seq<M.Step>, s': M.State)
    requires IsRun(offset, run, s) && M.Enabled(s, M.Write(W.DoTake))
    ensures IsRun(offset, run', s') && run' == run + [M.Write(W.DoTake)] && FieldsOf(s') == FieldsOf(s).(queue := [])
    ensures s' == s.(w := s.w.(loop := W.Take(s.w.loop)))
  {
    run', s' := Extend(offset, run, s, M.Write(W.DoTake));
  }

  /** conn.Write for element i of the batch. */
  lemma WriteStep(offset: nat, run: seq<M.Step>, s: M.State, r: Option<Error>) returns (run': seq<M.Step>, s': M.State)
    requires IsRun(offset, run, s) && !s.fault && !s.w.fault && s.w.loop.pc == W.Pass(None)
    requires s.w.loop.i < |s.w.loop.batch|
    requires Seqno.IsOffset(offset)
    ensures IsRun(offset, run', s') && run' == run + [M.Write(W.DoWrite(r))] && FieldsOf(s') == FieldsOf(s)
    ensures s'.w.loop == s.w.loop.(pc := W.Handed(r)) && !s'.w.fault && s' == s.(w := s'.w)
    ensures W.Load(s.w.mem, s.w.loop.batch[s.w.loop.i]).Some?
    ensures s'.w.hist.wire
        == if r.None? then s.w.hist.wire + [W.Load(s.w.mem, s.w.loop.batch[s.w.loop.i]).value] else s.w.hist.wire
  {
    run', s' := Extend(offset, run, s, M.Write(W.DoWrite(r)));
    RunHasInv(offset, run', s');
  }

  /** The completion of element i of the batch, in either pass or in close. */
  lemma CompleteStep(offset: nat, run: seq<M.Step>, s: M.State) returns (run': seq<M.Step>, s': M.State)
    requires IsRun(offset, run, s) && !s.fault && W.Enabled(s.w, W.DoComplete) && Seqno.IsOffset(offset)
    ensures IsRun(offset, run', s') && run' == run + [M.Write(W.DoComplete)]
    ensures W.Finish(s.w.mem, s.w.loop.batch[s.w.loop.i], W.Verdict(s.w.loop.pc)).Some?
    ensures FieldsOf(s')
        == FieldsOf(s).(writes := W.Finish(s.w.mem, s.w.loop.batch[s.w.loop.i], W.Verdict(s.w.loop.pc)).value)
    ensures s'.w.loop == s.w.loop.(i := s.w.loop.i + 1,
        pc := if s.w.loop.pc.Handed? then W.Pass(s.w.loop.pc.err) else s.w.loop.pc)
    ensures !s'.w.fault && s'.w.hist.wire == s.w.hist.wire && s' == s.(w := s'.w)
  {
    run', s' := Extend(offset, run, s, M.Write(W.DoComplete));
    RunHasInv(offset, run', s');
  }

  // ----- what the completions of a batch do to its objects

  /** The write object p was completed with e: its waiter is told e, or it and its buffer are back in their pools. */
  predicate Answered(m: W.Memory, m': W.Memory, p: nat, e: Option<Error>)
  {
    && p in m.heap && p in m'.heap
    && (if m.heap[p].wait then p !in m'.pool && m'.heap[p] == m.heap[p].(err := e, wg := m.heap[p].wg - 1)
        else p in m'.pool && m.heap[p].buf in m'.bufPool && m'.heap[p].err == None)
  }

  predicate Untouched(m: W.Memory, m': W.Memory, p: nat)
  {
    p in m.heap && p in m'.heap && m'.heap[p] == m.heap[p]
  }

  /** No object but p changes, or changes its pool. */
  predicate OnlyObject(m: W.Memory, m': W.Memory, p: nat)
  {
    && m'.heap.Keys == m.heap.Keys && (forall q | q in m.heap && q != p :: m'.heap[q] == m.heap[q])
    && m.pool <= m'.pool <= m.pool + {p} && m.bufPool <= m'.bufPool
  }

  predicate Distinct(ps: seq<nat>)
  {
    forall j, k | 0 <= j < k < |ps| :: ps[j] != ps[k]
  }

  /** The writes of a batch are carried by different objects. */
  lemma PendingCarry(w: W.State)
    requires W.Shape(w.loop, w.hist) && W.Ownership(w.mem, w.hist) && W.Accounts(w.mem, w.hist)
    ensures w.loop.i == 0 ==> Distinct(w.loop.batch) && forall p | p in w.loop.batch :: p in w.mem.heap
  {
    var h := w.hist;
    forall k: nat | |h.outcome| <= k < |h.log|
      ensures h.log[k].pw in w.mem.heap && w.mem.heap[h.log[k].pw].ticket == k {
      assert W.Live(h, k);
      assert W.Carries(w.mem, h, k);
    }
  }

  /** The first i of the batch were completed, each with its verdict, and the others were not. */
  predicate AnsweredUpTo(m: W.Memory, m': W.Memory, batch: seq<nat>, i: nat, errs: seq<Option<Error>>)
  {
    && i <= |batch| == |errs| && (forall j | 0 <= j < i :: Answered(m, m', batch[j], errs[j]))
    && (forall j | i <= j < |batch| :: Untouched(m, m', batch[j]))
  }

  lemma NoneAnswered(offset: nat, run: seq<M.Step>, s: M.State, errs: seq<Option<Error>>)
    requires IsRun(offset, run, s) && Seqno.IsOffset(offset)
    requires s.w.loop.i == 0 && |errs| == |s.w.loop.batch|
    ensures Distinct(s.w.loop.batch) && AnsweredUpTo(s.w.mem, s.w.mem, s.w.loop.batch, 0, errs)
  {
    RunHasInv(offset, run, s);
    PendingCarry(s.w);
  }

  lemma CompletesOne(start: W.Memory, m: W.Memory, m': W.Memory, batch: seq<nat>, i: nat, errs: seq<Option<Error>>)
    requires AnsweredUpTo(start, m, batch, i, errs)
    requires Distinct(batch) && i < |batch| && OnlyObject(m, m', batch[i]) && Answered(m, m', batch[i], errs[i])
    ensures AnsweredUpTo(start, m', batch, i + 1, errs)
  {
    assert Untouched(start, m, batch[i]);
    forall j | 0 <= j < i ensures Answered(start, m', batch[j], errs[j]) {
      assert Answered(start, m, batch[j], errs[j]) && batch[j] != batch[i];
    }
    forall j | i < j < |batch| ensures Untouched(start, m', batch[j]) {
      assert Untouched(start, m, batch[j]) && batch[j] != batch[i];
    }
  }

  lemma RouteFields(s: M.State)
    requires M.Enabled(s, M.Route) && I.CallsOk(s) && I.ReadOk(s.r) && !s.sup.Over?
    ensures var s' := M.DoRoute(s); var q := s.r.rd.f.seqno;
      && FieldsOf(s') == FieldsOf(s).(reqs := s.t.reqs - {q}) && s'.offset == s.offset
      && (s'.r.rd.Delivering? <==> q in s.t.reqs && q != 0)
      && (s'.r.rd.Delivering? ==> s'.r.rd.pr == s.t.reqs[q] && s'.r.rd.body == s.r.rd.f.body)
  {
    var q := s.r.rd.f.seqno;
    MT.CallProofs.RouteKeepsCalls(s);
    if q in s.t.reqs {
      assert I.EntryOk(q, s.t.reqs[q], s.o, s.calls);
    } else {
      assert s.t.reqs - {q} == s.t.reqs;
    }
  }

  /** readLoop's lookup: found in reqs means taken, and about to be delivered unless the number is 0. */
  lemma RouteStep(offset: nat, run: seq<M.Step>, s: M.State) returns (run': seq<M.Step>, s': M.State)
    requires IsRun(offset, run, s) && M.Enabled(s, M.Route) && Seqno.IsOffset(offset)
    ensures IsRun(offset, run', s') && run' == run + [M.Route]
    ensures FieldsOf(s') == FieldsOf(s).(reqs := s.t.reqs - {s.r.rd.f.seqno})
    ensures s'.r.rd.Delivering? <==> s.r.rd.f.seqno in s.t.reqs && s.r.rd.f.seqno != 0
    ensures s'.r.rd.Delivering? ==> s'.r.rd.pr == s.t.reqs[s.r.rd.f.seqno] && s'.r.rd.body == s.r.rd.f.body
  {
    RunHasInv(offset, run, s);
    RouteFields(s);
    run', s' := Extend(offset, run, s, M.Route);
  }

  /** close finds the entry q: the request's object can be completed, or the wg.Done is one too many. */
  lemma CloseRequestStep(offset: nat, run: seq<M.Step>, s: M.State, q: nat) returns (run': seq<M.Step>, s': M.State)
    requires IsRun(offset, run, s) && !s.fault && s.sup.CloseReqs? && q in s.t.reqs && Seqno.IsOffset(offset)
    ensures s.t.reqs[q] in s.o.heap
    ensures IsRun(offset, run', s') && run' == run + [M.CloseRequest(q)] && s'.sup == s.sup
    ensures s'.fault <==> s.o.heap[s.t.reqs[q]].wg <= 0
    ensures !s'.fault ==> FieldsOf(s') == FieldsOf(s).(reqs := s.t.reqs - {q},
      requests := s.o.(heap := s.o.heap[s.t.reqs[q] := M.Completed(s.o.heap[s.t.reqs[q]], M.ByClose(s.sup.e))]))
  {
    RunHasInv(offset, run, s);
    assert I.EntryOk(q, s.t.reqs[q], s.o, s.calls);
    var c := s.o.heap[s.t.reqs[q]].owner;
    assert I.CallOk(c, s.calls[c], s.t, s.offset, s.r, s.o, s.fault);
    run', s' := Extend(offset, run, s, M.CloseRequest(q));
  }

  lemma BeginCloseStep(offset: nat, run: seq<M.Step>, s: M.State) returns (run': seq<M.Step>, s': M.State)
    requires IsRun(offset, run, s) && Seqno.IsOffset(offset) && !s.fault && s.sup.HandleReturned?
    ensures IsRun(offset, run', s') && run' == run + [M.BeginClose] && !s'.fault && !s'.w.fault
    ensures FieldsOf(s') == FieldsOf(s).(queue := []) && s'.w.hist.wire == s.w.hist.wire
    ensures s'.w.loop == W.Loop([], s.w.loop.done, W.Closing(s.sup.e), s.w.loop.queue, 0)
    ensures s'.sup == M.CloseWrites(s.sup.e)
  {
    run', s' := Extend(offset, run, s, M.BeginClose);
    RunHasInv(offset, run', s');
  }

  /** The end of close's walk over the queue. */
  lemma EndWritesStep(offset: nat, run: seq<M.Step>, s: M.State) returns (run': seq<M.Step>, s': M.State)
    requires IsRun(offset, run, s) && !s.fault && s.sup.CloseWrites? && s.w.loop.i == |s.w.loop.batch|
    ensures IsRun(offset, run', s') && run' == run + [M.EndWrites] && FieldsOf(s') == FieldsOf(s)
    ensures s'.sup == M.CloseReqs(s.sup.e) && !s'.fault && s'.w.hist.wire == s.w.hist.wire
  {
    run', s' := Extend(offset, run, s, M.EndWrites);
  }

  /** The end of close: seq is reset. */
  lemma EndCloseStep(offset: nat, run: seq<M.Step>, s: M.State) returns (run': seq<M.Step>, s': M.State)
    requires IsRun(offset, run, s) && !s.fault && s.sup.CloseReqs? && s.t.reqs == map[]
    ensures IsRun(offset, run', s') && run' == run + [M.EndClose] && FieldsOf(s') == FieldsOf(s).(seqno := 0)
    ensures s'.sup == M.Over(s.sup.e) && !s'.fault
  {
    run', s' := Extend(offset, run, s, M.EndClose);
  }

  lemma LoopStep(offset: nat, run: seq<M.Step>, s: M.State, ws: W.Step) returns (run': seq<M.Step>, s': M.State)
    requires IsRun(offset, run, s) && !s.fault && W.Enabled(s.w, ws) && !s.w.loop.pc.Closing?
    requires ws.DoSetDeadline? || ws.DoEndPass? || ws.DoFlush?
    ensures IsRun(offset, run', s') && run' == run + [M.Write(ws)] && FieldsOf(s') == FieldsOf(s)
    ensures s' == s.(w := W.Next(s.w, ws)) && !s'.w.fault
  {
    run', s' := Extend(offset, run, s, M.Write(ws));
  }

  /** SetWriteDeadline, which returns r. */
  lemma DeadlineStep(offset: nat, run: seq<M.Step>, s: M.State, r: Option<Error>) returns (run': seq<M.Step>,
                     s': M.State)
    requires IsRun(offset, run, s) && !s.fault && !s.w.fault && s.w.loop.pc.Armed?
    ensures IsRun(offset, run', s') && run' == run + [M.Write(W.DoSetDeadline(r))] && FieldsOf(s') == FieldsOf(s)
    ensures s' == s.(w := s'.w)
    ensures s'.w == s.w.(loop := s.w.loop.(pc := if r.Some? then W.Failing(r.value) else W.Pass(None)))
  {
    run', s' := LoopStep(offset, run, s, W.DoSetDeadline(r));
  }

  /** The end of a pass over the whole batch. */
  lemma EndPassStep(offset: nat, run: seq<M.Step>, s: M.State) returns (run': seq<M.Step>, s': M.State)
    requires IsRun(offset, run, s) && !s.fault && !s.w.fault && (s.w.loop.pc.Pass? || s.w.loop.pc.Failing?)
    requires s.w.loop.i == |s.w.loop.batch|
    ensures IsRun(offset, run', s') && run' == run + [M.Write(W.DoEndPass)] && FieldsOf(s') == FieldsOf(s)
    ensures s' == s.(w := s'.w)
    ensures s'.w == s.w.(loop := s.w.loop.(
        pc := if s.w.loop.pc == W.Pass(None) then W.Flushing else W.Exited(W.Verdict(s.w.loop.pc))))
  {
    run', s' := LoopStep(offset, run, s, W.DoEndPass);
  }

  /** Flush, which returns r. */
  lemma FlushStep(offset: nat, run: seq<M.Step>, s: M.State, r: Option<Error>) returns (run': seq<M.Step>, s': M.State)
    requires IsRun(offset, run, s) && !s.fault && !s.w.fault && s.w.loop.pc.Flushing?
    ensures IsRun(offset, run', s') && run' == run + [M.Write(W.DoFlush(r))] && FieldsOf(s') == FieldsOf(s)
    ensures s' == s.(w := s'.w)
    ensures s'.w.loop == s.w.loop.(pc := if r.Some? then W.Exited(r) else W.Head) && s'.w.hist.wire == s.w.hist.wire
    ensures (r.None? ==> s'.w.hist.flushed == |s.w.hist.wire|) && !s'.w.fault
  {
    run', s' := LoopStep(offset, run, s, W.DoFlush(r));
  }

  // ----- the steps of a whole pass

  /** The local err after the first n elements: the first error, after which nothing is written. */
  function ErrorAfter(rs: seq<Option<Error>>, n: nat): Option<Error>
    requires |rs| >= n
  {
    if n == 0 then None
    else if ErrorAfter(rs, n - 1).None? then rs[n - 1] else ErrorAfter(rs, n - 1)
  }

  /** The verdict of each of the first n elements. */
  function Verdicts(rs: seq<Option<Error>>, n: nat): (es: seq<Option<Error>>)
    requires |rs| >= n
    ensures |es| == n && forall j | 0 <= j < n :: es[j] == ErrorAfter(rs, j + 1)
  {
    seq(n, j requires 0 <= j < n => ErrorAfter(rs, j + 1))
  }

  /** The steps for the first n elements of a write pass whose conn.Write calls return rs. */
  function PassSteps(rs: seq<Option<Error>>, n: nat): seq<M.Step>
    requires |rs| >= n
  {
    if n == 0 then []
    else
      PassSteps(rs, n - 1) + (if ErrorAfter(rs, n - 1).None? then [M.Write(W.DoWrite(rs[n - 1]))] else [])
      + [M.Write(W.DoComplete)]
  }

  lemma PassStepsMore(run: seq<M.Step>, rs: seq<Option<Error>>, n: nat)
    requires |rs| > n
    ensures run + PassSteps(rs, n) + (if ErrorAfter(rs, n).None? then [M.Write(W.DoWrite(rs[n]))] else [])
            + [M.Write(W.DoComplete)] == run + PassSteps(rs, n + 1)
  {
  }

  function CloseSteps(qs: seq<nat>): seq<M.Step>
  {
    if qs == [] then [] else CloseSteps(qs[..|qs| - 1]) + [M.CloseRequest(qs[|qs| - 1])]
  }

  lemma CloseStepsMore(run: seq<M.Step>, qs: seq<nat>, q: nat)
    ensures run + CloseSteps(qs) + [M.CloseRequest(q)] == run + CloseSteps(qs + [q])
  {
    assert (qs + [q])[..|qs|] == qs;
  }

  function Repeat(t: M.Step, n: nat): (ts: seq<M.Step>)
    ensures |ts| == n
  {
    seq(n, _ => t)
  }

  /**
   Whether writeLoop leaves after an iteration, and with which error: that of the deadline, of the
   pass, or of Flush.
   */
  function Leaving(queue: seq<nat>, done: bool, deadline: Option<Error>, rs: seq<Option<Error>>,
                   flushed: Option<Error>): Option<Option<Error>>
    requires |rs| >= |queue|
  {
    if queue == [] then (if done then Some(None) else None)
    else if deadline.Some? then Some(deadline)
    else if ErrorAfter(rs, |queue|).Some? then Some(ErrorAfter(rs, |queue|))
    else if flushed.Some? then Some(flushed)
    else None
  }

  /** The steps that deal with a batch of n writes. */
  function BatchSteps(n: nat, deadline: Option<Error>, rs: seq<Option<Error>>): seq<M.Step>
    requires deadline.None? ==> |rs| >= n
  {
    [M.Write(W.DoSetDeadline(deadline))]
    + (if deadline.Some? then Repeat(M.Write(W.DoComplete), n) else PassSteps(rs, n)) + [M.Write(W.DoEndPass)]
  }

  /** The steps of an iteration over n writes. */
  function IterationSteps(n: nat, deadline: Option<Error>, rs: seq<Option<Error>>, flushed: Option<Error>): seq<M.Step>
    requires |rs| >= n
  {
    [M.Write(W.DoTake)] +
    if n == 0 then [] else BatchSteps(n, deadline, if deadline.Some? then [] else rs)
                           + if deadline.None? && ErrorAfter(rs, n).None? then [M.Write(W.DoFlush(flushed))] else []
  }

  lemma BatchFails(run: seq<M.Step>, n: nat, e: Error)
    ensures run + [M.Write(W.DoSetDeadline(Some(e)))] + Repeat(M.Write(W.DoComplete), n) + [M.Write(W.DoEndPass)]
         == run + BatchSteps(n, Some(e), [])
  {
  }

  lemma BatchWrites(run: seq<M.Step>, n: nat, rs: seq<Option<Error>>)
    requires |rs| >= n
    ensures run + [M.Write(W.DoSetDeadline(None))] + PassSteps(rs, n) + [M.Write(W.DoEndPass)]
        == run + BatchSteps(n, None, rs)
  {
  }

  lemma IterationRun(run: seq<M.Step>, n: nat, deadline: Option<Error>, rs: seq<Option<Error>>, flushed: Option<Error>)
    requires |rs| >= n > 0
    ensures run + [M.Write(W.DoTake)] + BatchSteps(n, deadline, if deadline.Some? then [] else rs)
            + (if deadline.None? && ErrorAfter(rs, n).None? then [M.Write(W.DoFlush(flushed))] else [])
         == run + IterationSteps(n, deadline, rs, flushed)
  {
    var batch := BatchSteps(n, deadline, if deadline.Some? then [] else rs);
    var flush := if deadline.None? && ErrorAfter(rs, n).None? then [M.Write(W.DoFlush(flushed))] else [];
    Grouped(run, [M.Write(W.DoTake)], batch, flush);
  }

  lemma Grouped(a: seq<M.Step>, b: seq<M.Step>, c: seq<M.Step>, d: seq<M.Step>)
    ensures a + b + c + d == a + (b + (c + d))
  {
  }

  /** close from the end of its first walk on; a panic cuts it short. */
  function CloseRestSteps(qs: seq<nat>, panicked: bool): seq<M.Step>
  {
    [M.EndWrites] + CloseSteps(qs) + if panicked then [] else [M.EndClose]
  }

  lemma CloseRestRun(run: seq<M.Step>, qs: seq<nat>, panicked: bool)
    ensures run + [M.EndWrites] + CloseSteps(qs) + (if panicked then [] else [M.EndClose])
        == run + CloseRestSteps(qs, panicked)
  {
  }

  lemma RepeatMore(ts: seq<M.Step>, t: M.Step, n: nat)
    ensures ts + Repeat(t, n) + [t] == ts + Repeat(t, n + 1)
  {
  }
}
