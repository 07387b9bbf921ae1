/** Every step of the write half keeps `Inv`, and what that says about whole runs. */
module WriterProofs {
  import opened Basics
  import opened Writer

  // ----- who owns the objects of a live write, step by step

  lemma AcquireKeepsOwnership(m: Memory, h: History, f: Frame, wait: bool, pw: nat, buf: nat)
    requires Ownership(m, h) && Accounts(m, h) && CanAcquire(m, pw, buf) && |h.outcome| <= |h.log|
    ensures Ownership(Acquire(m, pw, buf, wait, Wire(f), |h.log|), h.(log := h.log + [Entry(f, wait, pw, buf)]))
  {
    var h' := h.(log := h.log + [Entry(f, wait, pw, buf)]);
    var m' := Acquire(m, pw, buf, wait, Wire(f), |h.log|);
    forall k: nat | Live(h', k) ensures Carries(m', h', k) {
      if k < |h.log| { assert Live(h, k) && Carries(m, h, k); }
    }
  }

  lemma SignalKeepsOwnership(m: Memory, h: History, e: Option<Error>)
    requires Ownership(m, h) && |h.outcome| < |h.log| && h.log[|h.outcome|].wait && Live(h, |h.outcome|)
    ensures Finish(m, h.log[|h.outcome|].pw, e).Some?
    ensures Ownership(Finish(m, h.log[|h.outcome|].pw, e).value, h.(outcome := h.outcome + [e]))
  {
    assert Carries(m, h, |h.outcome|);
    var h' := h.(outcome := h.outcome + [e]);
    var m' := Signal(m, h.log[|h.outcome|].pw, e).value;
    forall k: nat | Live(h', k) ensures Carries(m', h', k) { assert Live(h, k) && Carries(m, h, k); }
  }

  lemma RecycleKeepsOwnership(m: Memory, h: History, e: Option<Error>)
    requires Ownership(m, h) && |h.outcome| < |h.log| && !h.log[|h.outcome|].wait
    ensures Finish(m, h.log[|h.outcome|].pw, e).Some?
    ensures Ownership(Finish(m, h.log[|h.outcome|].pw, e).value, h.(outcome := h.outcome + [e]))
  {
    assert Live(h, |h.outcome|) && Carries(m, h, |h.outcome|);
    var h' := h.(outcome := h.outcome + [e]);
    var m' := Recycle(m, h.log[|h.outcome|].pw, h.log[|h.outcome|].buf).value;
    forall k: nat | Live(h', k) ensures Carries(m', h', k) { assert Live(h, k) && Carries(m, h, k); }
  }

  lemma FinishKeepsAccounts(m: Memory, h: History, e: Option<Error>)
    requires Ownership(m, h) && Accounts(m, h) && |h.outcome| < |h.log|
    ensures Finish(m, h.log[|h.outcome|].pw, e).Some?
    ensures Accounts(Finish(m, h.log[|h.outcome|].pw, e).value, h.(outcome := h.outcome + [e]))
  {
    assert Live(h, |h.outcome|) && Carries(m, h, |h.outcome|);
  }

  lemma ReturnKeepsOwnership(m: Memory, h: History, k: nat)
    requires Ownership(m, h) && Accounts(m, h) && Live(h, k) && h.log[k].wait && k < |h.outcome| <= |h.log|
    ensures h.log[k].pw in m.heap && Recycle(m, h.log[k].pw, h.log[k].buf).Some?
    ensures var h' := h.(returned := h.returned[k := m.heap[h.log[k].pw].err]);
      Ownership(Recycle(m, h.log[k].pw, h.log[k].buf).value, h')
          && Accounts(Recycle(m, h.log[k].pw, h.log[k].buf).value, h')
  {
    assert Carries(m, h, k);
    var h' := h.(returned := h.returned[k := m.heap[h.log[k].pw].err]);
    var m' := Recycle(m, h.log[k].pw, h.log[k].buf).value;
    forall j: nat | Live(h', j) ensures Carries(m', h', j) { assert Live(h, j) && Carries(m, h, j); }
  }

  /** Ownership and the accounts do not look at the wire. */
  lemma MemoryFrame(m: Memory, h: History, h': History)
    requires Ownership(m, h) && Accounts(m, h)
    requires h'.log == h.log && h'.outcome == h.outcome && h'.returned == h.returned
    ensures Ownership(m, h') && Accounts(m, h')
  {
    assert forall k: nat :: Live(h', k) <==> Live(h, k);
    assert forall k: nat | k < |h.log| :: Carries(m, h', k) <==> Carries(m, h, k);
  }

  // ----- the positions, step by step

  lemma WriteKeepsFifo(q: Loop, h: History, r: Option<Error>)
    requires Shape(q, h) && Fifo(q, h) && q.pc == Pass(None) && q.i < |q.batch|
    ensures var h' := if r.None? then h.(wire := h.wire + [Wire(h.log[|h.outcome|].frame)]) else h;
      Shape(q.(pc := Handed(r)), h') && Fifo(q.(pc := Handed(r)), h')
  {
  }

  lemma CompleteKeepsFifo(q: Loop, h: History, e: Option<Error>)
    requires Shape(q, h) && Fifo(q, h) && q.i < |q.batch| && e == Verdict(q.pc)
    requires q.pc.Handed? || q.pc.Failing? || q.pc.Closing? || (q.pc.Pass? && q.pc.err.Some?)
    ensures var q' := q.(i := q.i + 1, pc := if q.pc.Handed? then Pass(e) else q.pc);
      Shape(q', h.(outcome := h.outcome + [e])) && Fifo(q', h.(outcome := h.outcome + [e]))
  {
  }

  // ----- every step keeps the invariant

  lemma AcceptKeepsInv(s: State, f: Frame, wait: bool, pw: nat, buf: nat)
    requires Inv(s) && Enabled(s, DoAccept(f, wait, pw, buf))
    ensures Inv(Accept(s, f, wait, pw, buf))
  {
    var h := s.hist;
    var h' := h.(log := h.log + [Entry(f, wait, pw, buf)]);
    assert forall k: nat :: Live(h', k) <==> Live(h, k) || k == |h.log|;
    AcquireKeepsOwnership(s.mem, h, f, wait, pw, buf);
  }

  lemma WriteKeepsInv(s: State, r: Option<Error>)
    requires Inv(s) && Enabled(s, DoWrite(r))
    ensures Inv(WriteOne(s, r))
  {
    assert Live(s.hist, |s.hist.outcome|) && Carries(s.mem, s.hist, |s.hist.outcome|);
    WriteKeepsFifo(s.loop, s.hist, r);
    MemoryFrame(s.mem, s.hist, WriteOne(s, r).hist);
  }

  lemma CompleteKeepsMemory(m: Memory, h: History, e: Option<Error>)
    requires Ownership(m, h) && Accounts(m, h) && |h.outcome| < |h.log| && Live(h, |h.outcome|)
    ensures var m' := Finish(m, h.log[|h.outcome|].pw, e); var h' := h.(outcome := h.outcome + [e]);
      m'.Some? && Ownership(m'.value, h') && Accounts(m'.value, h')
  {
    FinishKeepsAccounts(m, h, e);
    if h.log[|h.outcome|].wait { SignalKeepsOwnership(m, h, e); } else { RecycleKeepsOwnership(m, h, e); }
  }

  lemma CompleteKeepsDrain(q: Loop, h: History, e: Option<Error>)
    requires Drain(q, h) && (q.pc.Handed? || q.pc.Failing? || q.pc.Closing? || (q.pc.Pass? && q.pc.err.Some?))
    ensures Drain(q.(i := q.i + 1, pc := if q.pc.Handed? then Pass(e) else q.pc), h.(outcome := h.outcome + [e]))
  {
  }

  lemma CompletedState(s: State, m: Memory)
    requires s.loop.i < |s.loop.batch| && Finish(s.mem, s.loop.batch[s.loop.i], Verdict(s.loop.pc)) == Some(m)
    ensures var e := Verdict(s.loop.pc);
      Complete(s) == s.(mem := m, hist := s.hist.(outcome := s.hist.outcome + [e]),
                        loop := s.loop.(i := s.loop.i + 1, pc := if s.loop.pc.Handed? then Pass(e) else s.loop.pc))
  {
  }

  lemma CompleteKeepsInv(s: State)
    requires Inv(s) && Enabled(s, DoComplete)
    ensures Inv(Complete(s))
  {
    var h, e := s.hist, Verdict(s.loop.pc);
    BatchIsLog(s.loop, h);
    assert Live(h, |h.outcome|);
    CompleteKeepsMemory(s.mem, h, e);
    CompletedState(s, Finish(s.mem, h.log[|h.outcome|].pw, e).value);
    CompleteKeepsFifo(s.loop, h, e);
    CompleteKeepsDrain(s.loop, h, e);
  }

  lemma BatchIsLog(q: Loop, h: History)
    requires Shape(q, h) && q.i < |q.batch|
    ensures |h.outcome| < |h.log| && q.batch[q.i] == h.log[|h.outcome|].pw
  {
  }

  lemma FlushKeepsInv(s: State, r: Option<Error>)
    requires Inv(s) && Enabled(s, DoFlush(r))
    ensures Inv(Flush(s, r))
  {
    MemoryFrame(s.mem, s.hist, Flush(s, r).hist);
  }

  lemma ReturnKeepsInv(s: State, k: nat)
    requires Inv(s) && Enabled(s, DoReturn(k))
    ensures Inv(Return(s, k))
  {
    assert Live(s.hist, k) && Carries(s.mem, s.hist, k);
    ReturnKeepsOwnership(s.mem, s.hist, k);
  }

  lemma TakeKeepsInv(s: State)
    requires Inv(s) && Enabled(s, DoTake)
    ensures Inv(Next(s, DoTake))
  {
  }

  lemma LoopStepKeepsInv(s: State, t: Step)
    requires Inv(s) && Enabled(s, t)
    requires t.DoCloseWriter? || t.DoSetDeadline? || t.DoEndPass? || t.DoBeginClose?
    ensures Inv(Next(s, t))
  {
  }

  lemma StepKeepsInv(s: State, t: Step)
    requires Inv(s) && Enabled(s, t)
    ensures Inv(Next(s, t))
  {
    match t
    case DoAccept(f, wait, pw, buf) => AcceptKeepsInv(s, f, wait, pw, buf);
    case DoTake => TakeKeepsInv(s);
    case DoWrite(r) => WriteKeepsInv(s, r);
    case DoComplete => CompleteKeepsInv(s);
    case DoFlush(r) => FlushKeepsInv(s, r);
    case DoReturn(k) => ReturnKeepsInv(s, k);
    case _ => LoopStepKeepsInv(s, t);
  }

  /** No run reaches a use after release or a negative WaitGroup, and every run keeps the rest. */
  lemma {:induction false} RunKeepsInv(ts: seq<Step>)
    requires After(ts).Some?
    ensures Inv(After(ts).value)
  {
    if ts != [] {
      var n := |ts| - 1;
      RunKeepsInv(ts[..n]);
      StepKeepsInv(After(ts[..n]).value, ts[n]);
    }
  }

  /** The writer, its waiters and close's walk accept nothing and do not reopen or move on from an exit. */
  lemma InternalStep(s: State, t: Step)
    requires Enabled(s, t) && !t.DoAccept? && !t.DoCloseWriter? && !t.DoBeginClose?
    requires t.DoEndPass? ==> !s.loop.pc.Closing?
    ensures var s' := Next(s, t);
      && s'.hist.log == s.hist.log && s'.loop.done == s.loop.done && s.hist.wire <= s'.hist.wire
      && (s.loop.pc.Exited? || s.loop.pc.Closing? || s.loop.pc.Closed? ==> s'.loop.pc == s.loop.pc)
      && (s'.loop.pc.Closing? || s'.loop.pc.Closed? ==> s'.loop.pc == s.loop.pc)
  {
  }

  // ----- the plain FIFO that the batching writer refines

  /** Accepted frames, how many were written, how many have a verdict, and whether more may come. */
  datatype Queue = Queue(accepted: seq<Frame>, sent: nat, settled: nat, open: bool)

  /** A FIFO that writes its oldest frame, gives verdicts in order, and writes nothing after a failure. */
  ghost predicate QueueStep(a: Queue, b: Queue)
  {
    || b == a
    || b == a.(open := false)
    || (a.open && |b.accepted| > 0 && b == a.(accepted := a.accepted + [b.accepted[|b.accepted| - 1]]))
    || (a.sent == a.settled < |a.accepted| && b == a.(sent := a.sent + 1))
    || (a.settled < |a.accepted| && b == a.(settled := a.settled + 1))
  }

  ghost function Frames(log: seq<Entry>): (fs: seq<Frame>)
    ensures |fs| == |log|
    ensures forall k | 0 <= k < |log| :: fs[k] == log[k].frame
  {
    seq(|log|, k requires 0 <= k < |log| => log[k].frame)
  }

  ghost function Abstract(s: State): Queue
  {
    Queue(Frames(s.hist.log), |s.hist.wire|, |s.hist.outcome|, !s.loop.done)
  }

  /** Each step of the batching writer is a step of the FIFO or invisible. */
  lemma StepRefinesFifo(s: State, t: Step)
    requires Inv(s) && Enabled(s, t)
    ensures QueueStep(Abstract(s), Abstract(Next(s, t)))
  {
    match t
    case DoAccept(f, wait, pw, buf) =>
      assert Frames(Next(s, t).hist.log) == Frames(s.hist.log) + [f];
    case DoWrite(r) => assert Carries(s.mem, s.hist, |s.hist.outcome|) by { assert Live(s.hist, |s.hist.outcome|); }
    case _ =>
  }

  /**
   In every run the bytes conn.Write took are the first accepted frames, in
   order; a verdict is nil exactly for those; and every waiting caller that has
   come back was told the verdict of its own frame.
   */
  lemma WrittenIsPrefixOfAccepted(ts: seq<Step>)
    requires After(ts).Some?
    ensures var h := After(ts).value.hist;
      && |h.wire| <= |h.log| && |h.outcome| <= |h.log|
      && (forall k | 0 <= k < |h.wire| :: h.wire[k] == Wire(h.log[k].frame))
      && (forall k | 0 <= k < |h.outcome| :: h.outcome[k].None? <==> k < |h.wire|)
      && (forall k | k in h.returned :: k < |h.log| && h.log[k].wait && (h.returned[k].None? <==> k < |h.wire|))
  {
    RunKeepsInv(ts);
  }

  /** One step gives at most one verdict, to the oldest accepted write without one. */
  lemma VerdictsAreFinal(ts: seq<Step>, t: Step)
    requires After(ts).Some? && Enabled(After(ts).value, t)
    ensures var h, h' := After(ts).value.hist, Next(After(ts).value, t).hist;
      && h.outcome <= h'.outcome && |h'.outcome| <= |h.outcome| + 1 && |h'.outcome| <= |h'.log|
      && h.log <= h'.log && h.wire <= h'.wire
  {
    RunKeepsInv(ts);
    StepKeepsInv(After(ts).value, t);
  }

  /** When close has walked the queue, every write ever accepted has its verdict. */
  lemma CloseLeavesNothing(ts: seq<Step>)
    requires After(ts).Some? && After(ts).value.loop.pc.Closed?
    ensures var s := After(ts).value; |s.hist.outcome| == |s.hist.log| && s.loop.queue == [] && s.loop.done
  {
    RunKeepsInv(ts);
  }

  /** Some thread still holds p: it is queued, in the rest of the batch, or waited for. */
  ghost predicate InUse(s: State, p: nat)
  {
    || p in s.loop.queue
    || (s.loop.i <= |s.loop.batch| && p in s.loop.batch[s.loop.i..])
    || (exists k: nat :: Live(s.hist, k) && s.hist.log[k].wait && s.hist.log[k].pw == p)
  }

  lemma InUseIsLive(s: State, p: nat) returns (k: nat)
    requires Shape(s.loop, s.hist) && InUse(s, p) && forall j | j in s.hist.returned :: j < |s.hist.outcome|
    ensures Live(s.hist, k) && s.hist.log[k].pw == p
  {
    var q, h := s.loop, s.hist;
    if j :| 0 <= j < |q.queue| && q.queue[j] == p {
      k := |h.log| - |q.queue| + j;
    } else if j :| q.i <= j < |q.batch| && q.batch[j] == p {
      k := |h.outcome| + j - q.i;
    } else {
      k :| Live(h, k) && h.log[k].wait && h.log[k].pw == p;
    }
  }

  /**
   In every run a pooled pendingWrite is held by nobody, an object out of the
   pool is the one of an unfinished write, and the objects of an accepted write
   have gone back exactly once when its last user is done and not before.
   */
  lemma PooledIsUnused(ts: seq<Step>, p: nat)
    requires After(ts).Some?
    ensures var s := After(ts).value;
      && !s.fault
      && (InUse(s, p) ==> p in s.mem.heap && p !in s.mem.pool)
      && (p in s.mem.heap && p !in s.mem.pool ==> exists k: nat :: Live(s.hist, k) && s.hist.log[k].pw == p)
      && (forall k: nat | k < |s.hist.log| :: s.mem.puts[k] == if Live(s.hist, k) then 0 else 1)
  {
    RunKeepsInv(ts);
    var s := After(ts).value;
    if InUse(s, p) {
      var k := InUseIsLive(s, p);
      assert Carries(s.mem, s.hist, k);
    }
  }

  /** No two unfinished writes share an object, and objects out of the pool belong to one. */
  lemma UnfinishedWritesShareNothing(ts: seq<Step>, j: nat, k: nat)
    requires After(ts).Some?
    requires Live(After(ts).value.hist, j) && Live(After(ts).value.hist, k) && j != k
    ensures var log := After(ts).value.hist.log; log[j].pw != log[k].pw && log[j].buf != log[k].buf
  {
    RunKeepsInv(ts);
    var s := After(ts).value;
    assert Carries(s.mem, s.hist, j) && Carries(s.mem, s.hist, k);
  }

  /** A sleeping writer has nothing to do: no wakeup is ever lost. */
  lemma SleepsOnlyWhenIdle(ts: seq<Step>)
    requires After(ts).Some? && After(ts).value.loop.pc.Asleep?
    ensures var s := After(ts).value;
      && s.loop.queue == [] && !s.loop.done
      && |s.hist.wire| == |s.hist.log| == s.hist.flushed
  {
    RunKeepsInv(ts);
  }

  ghost predicate Drained(s: State)
  {
    && s.loop.done && (s.loop.pc == Exited(None) || s.loop.pc.Closing? || s.loop.pc.Closed?)
    && |s.hist.wire| == |s.hist.outcome| == |s.hist.log| == s.hist.flushed
  }

  lemma {:induction false} DrainedForever(ts: seq<Step>, us: seq<Step>)
    requires After(ts).Some? && Drained(After(ts).value) && After(ts + us).Some?
    ensures Drained(After(ts + us).value) && After(ts + us).value.hist.log == After(ts).value.hist.log
  {
    if us == [] {
      assert ts + us == ts;
    } else {
      var n := |us| - 1;
      assert (ts + us)[..|ts + us| - 1] == ts + us[..n];
      DrainedForever(ts, us[..n]);
      RunKeepsInv(ts + us[..n]);
    }
  }

  /**
   When writeLoop returns nil, every write ever accepted has been written,
   flushed and reported as written, and no continuation accepts another.
   */
  lemma NilMeansDrained(ts: seq<Step>, us: seq<Step>)
    requires After(ts).Some? && After(ts).value.loop.pc == Exited(None) && After(ts + us).Some?
    ensures var h, h' := After(ts).value.hist, After(ts + us).value.hist;
      |h.wire| == |h.outcome| == |h.log| == h.flushed && h'.log == h.log && |h'.wire| == |h.log|
  {
    RunKeepsInv(ts);
    DrainedForever(ts, us);
  }
}
