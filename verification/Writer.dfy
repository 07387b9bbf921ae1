/**
 The write half of a connection as a step machine: `preparePendingWrite`,
 `closeWriter`, `writeLoop` and the write pass of `close`.  One step is one
 critical section of `c.mu`, one `conn.Write`, one completion (`wg.Done`, or
 the two pool releases of a write nobody waits for), or one return from
 `wg.Wait`; purely local work is folded into the neighbouring step.

 The pendingWrite objects and the byte buffers live in explicit heaps, because
 they are pooled and reused.  A step that would touch an object that is in its
 pool, or take a WaitGroup below zero, sets `fault` instead of acting.
 */
module Writer {
  import opened Basics

  datatype Frame = Frame(seqno: nat, body: Bytes)

  function Wire(f: Frame): (b: Bytes)
    ensures |b| == 4 + |f.body|
  {
    BE32(f.seqno) + f.body
  }

  // ----- the pools and what is in them

  /** `ticket` is history: the position in the log of the write the object carries. */
  datatype PendingWrite = PendingWrite(buf: nat, wait: bool, err: Option<Error>, wg: int, ticket: nat)

  datatype Buffer = Buffer(bytes: Bytes, ticket: nat)

  /** `puts` is history: how often the objects of each accepted write went back. */
  datatype Memory = Memory(heap: map<nat, PendingWrite>, pool: set<nat>,
                           bufs: map<nat, Buffer>, bufPool: set<nat>, puts: multiset<nat>)

  ghost predicate CanAcquire(m: Memory, pw: nat, buf: nat)
  {
    (pw in m.pool || pw !in m.heap) && (buf in m.bufPool || buf !in m.bufs)
  }

  /** `acquire` sets buf and wait only: err and wg are what the last user left. */
  function Acquire(m: Memory, pw: nat, buf: nat, wait: bool, bytes: Bytes, ticket: nat): Memory
  {
    var used := if pw in m.heap then m.heap[pw] else PendingWrite(0, false, None, 0, 0);
    var w := PendingWrite(buf, wait, used.err, if wait then used.wg + 1 else used.wg, ticket);
    m.(heap := m.heap[pw := w], pool := m.pool - {pw},
       bufs := m.bufs[buf := Buffer(bytes, ticket)], bufPool := m.bufPool - {buf})
  }

  /** The bytes of p's buffer, if neither p nor its buffer is in a pool. */
  function Load(m: Memory, p: nat): Option<Bytes>
  {
    if p in m.heap && p !in m.pool && m.heap[p].buf in m.bufs && m.heap[p].buf !in m.bufPool
    then Some(m.bufs[m.heap[p].buf].bytes) else None
  }

  /** Put p's buffer b and p itself back. */
  function Recycle(m: Memory, p: nat, b: nat): Option<Memory>
  {
    if p in m.heap && p !in m.pool && b !in m.bufPool then
      Some(m.(heap := m.heap[p := m.heap[p].(err := None)], pool := m.pool + {p}, bufPool := m.bufPool + {b},
              puts := m.puts + multiset{m.heap[p].ticket}))
    else None
  }

  /** Set p's error and call wg.Done. */
  function Signal(m: Memory, p: nat, e: Option<Error>): Option<Memory>
  {
    if p in m.heap && p !in m.pool && m.heap[p].wg > 0 then
      Some(m.(heap := m.heap[p := m.heap[p].(err := e, wg := m.heap[p].wg - 1)]))
    else None
  }

  /** What both passes and `close` do with an element: tell its waiter, or release it. */
  function Finish(m: Memory, p: nat, e: Option<Error>): Option<Memory>
  {
    if p !in m.heap then None
    else if m.heap[p].wait then Signal(m, p, e)
    else Recycle(m, p, m.heap[p].buf)
  }

  // ----- the state

  /** Where `writeLoop` is, and after it has exited where `close` is. */
  datatype Pc =
    | Head                          // about to lock c.mu and look at the queue
    | Asleep                        // in writerCond.Wait, not signalled
    | Armed                         // has a batch, SetWriteDeadline is next
    | Failing(e: Error)             // the pass after SetWriteDeadline failed
    | Pass(err: Option<Error>)      // the write pass, before element i
    | Handed(err: Option<Error>)    // the write pass, after element i's conn.Write
    | Flushing                      // conn.Flush is next
    | Exited(err: Option<Error>)    // writeLoop has returned
    | Closing(e: Error)             // close is walking the queue, c.mu is held
    | Closed

  datatype Loop = Loop(queue: seq<nat>, done: bool, pc: Pc, batch: seq<nat>, i: nat)

  /** One accepted write: what was accepted, and the two objects that carry it. */
  datatype Entry = Entry(frame: Frame, wait: bool, pw: nat, buf: nat)

  /**
   All accepted writes in order; the error each finished one was finished with;
   the bytes conn.Write took without error; how many of those a Flush covered;
   and what each waiting caller that came back was told.
   */
  datatype History = History(log: seq<Entry>, outcome: seq<Option<Error>>, wire: seq<Bytes>, flushed: nat,
                             returned: map<nat, Option<Error>>)

  datatype State = State(loop: Loop, mem: Memory, hist: History, fault: bool)

  const Start := State(Loop([], false, Head, [], 0), Memory(map[], {}, map[], {}, multiset{}),
                       History([], [], [], 0, map[]), false)

  // ----- the steps

  function Woken(pc: Pc): Pc
  {
    if pc.Asleep? then Head else pc
  }

  /** `preparePendingWrite` on an open writer, with the buffer filled by its caller. */
  function Accept(s: State, f: Frame, wait: bool, pw: nat, buf: nat): State
  {
    s.(mem := Acquire(s.mem, pw, buf, wait, Wire(f), |s.hist.log|),
       loop := s.loop.(queue := s.loop.queue + [pw], pc := Woken(s.loop.pc)),
       hist := s.hist.(log := s.hist.log + [Entry(f, wait, pw, buf)]))
  }

  function CloseWriter(s: State): State
  {
    s.(loop := s.loop.(done := true, pc := Woken(s.loop.pc)))
  }

  /** The critical section at the head of the loop: sleep, leave, or take the queue. */
  function Take(q: Loop): Loop
  {
    if !q.done && q.queue == [] then q.(pc := Asleep)
    else if q.done && q.queue == [] then q.(pc := Exited(None), batch := [], i := 0)
    else Loop([], q.done, Armed, q.queue, 0)
  }

  function SetDeadline(q: Loop, r: Option<Error>): Loop
  {
    q.(pc := if r.Some? then Failing(r.value) else Pass(None))
  }

  function WriteOne(s: State, r: Option<Error>): State
    requires s.loop.i < |s.loop.batch|
  {
    var bytes := Load(s.mem, s.loop.batch[s.loop.i]);
    if bytes.None? then s.(fault := true)
    else s.(loop := s.loop.(pc := Handed(r)),
            hist := if r.None? then s.hist.(wire := s.hist.wire + [bytes.value]) else s.hist)
  }

  /** The error the element at i is about to be finished with. */
  function Verdict(pc: Pc): Option<Error>
  {
    match pc
    case Handed(r) => r
    case Pass(r) => r
    case Failing(e) => Some(e)
    case Closing(e) => Some(e)
    case _ => None
  }

  function Complete(s: State): State
    requires s.loop.i < |s.loop.batch|
  {
    var e := Verdict(s.loop.pc);
    var m := Finish(s.mem, s.loop.batch[s.loop.i], e);
    if m.None? then s.(fault := true)
    else s.(mem := m.value, hist := s.hist.(outcome := s.hist.outcome + [e]),
            loop := s.loop.(i := s.loop.i + 1, pc := if s.loop.pc.Handed? then Pass(e) else s.loop.pc))
  }

  function EndPass(q: Loop): Loop
  {
    match q.pc
    case Pass(None) => q.(pc := Flushing)
    case Pass(Some(e)) => q.(pc := Exited(Some(e)))
    case Failing(e) => q.(pc := Exited(Some(e)))
    case Closing(e) => q.(pc := Closed)
    case _ => q
  }

  function Flush(s: State, r: Option<Error>): State
  {
    if r.None? then s.(loop := s.loop.(pc := Head), hist := s.hist.(flushed := |s.hist.wire|))
    else s.(loop := s.loop.(pc := Exited(r)))
  }

  /** A waiting caller comes back from `wg.Wait`, reads err and releases both objects. */
  function Return(s: State, k: nat): State
    requires k < |s.hist.log| && s.hist.log[k].pw in s.mem.heap
  {
    var p := s.hist.log[k].pw;
    var m := Recycle(s.mem, p, s.hist.log[k].buf);
    if m.None? then s.(fault := true)
    else s.(mem := m.value, hist := s.hist.(returned := s.hist.returned[k := s.mem.heap[p].err]))
  }

  function BeginClose(q: Loop, e: Error): Loop
  {
    Loop([], q.done, Closing(e), q.queue, 0)
  }

  datatype Step =
    | DoAccept(f: Frame, wait: bool, pw: nat, buf: nat)
    | DoCloseWriter
    | DoTake
    | DoSetDeadline(r: Option<Error>)
    | DoWrite(r: Option<Error>)
    | DoComplete
    | DoEndPass
    | DoFlush(r: Option<Error>)
    | DoReturn(k: nat)
    | DoBeginClose(e: Error)

  ghost predicate Enabled(s: State, t: Step)
  {
    var q := s.loop;
    !s.fault &&
    match t
    case DoAccept(f, wait, pw, buf) => !q.done && !q.pc.Closing? && CanAcquire(s.mem, pw, buf)
    case DoCloseWriter => !q.pc.Closing?
    case DoTake => q.pc.Head?
    case DoSetDeadline(r) => q.pc.Armed?
    case DoWrite(r) => q.pc == Pass(None) && q.i < |q.batch|
    case DoComplete => q.i < |q.batch|
        && (q.pc.Handed? || q.pc.Failing? || q.pc.Closing? || (q.pc.Pass? && q.pc.err.Some?))
    case DoEndPass => q.i == |q.batch| && (q.pc.Pass? || q.pc.Failing? || q.pc.Closing?)
    case DoFlush(r) => q.pc.Flushing?
    case DoReturn(k) => k < |s.hist.log| && s.hist.log[k].wait && k !in s.hist.returned
                        && s.hist.log[k].pw in s.mem.heap && s.mem.heap[s.hist.log[k].pw].wg == 0
    case DoBeginClose(e) => q.pc.Exited? && q.done
  }

  ghost function Next(s: State, t: Step): State
    requires Enabled(s, t)
  {
    match t
    case DoAccept(f, wait, pw, buf) => Accept(s, f, wait, pw, buf)
    case DoCloseWriter => CloseWriter(s)
    case DoTake => s.(loop := Take(s.loop))
    case DoSetDeadline(r) => s.(loop := SetDeadline(s.loop, r))
    case DoWrite(r) => WriteOne(s, r)
    case DoComplete => Complete(s)
    case DoEndPass => s.(loop := EndPass(s.loop))
    case DoFlush(r) => Flush(s, r)
    case DoReturn(k) => Return(s, k)
    case DoBeginClose(e) => s.(loop := BeginClose(s.loop, e))
  }

  /** The state after the steps ts from Start, if each was enabled where it was taken. */
  ghost function After(ts: seq<Step>): Option<State>
  {
    if ts == [] then Some(Start)
    else
      var n := |ts| - 1;
      var r := After(ts[..n]);
      if r.Some? && Enabled(r.value, ts[n]) then Some(Next(r.value, ts[n])) else None
  }

  // ----- the invariant

  /** Nobody has finished with the k-th accepted write yet. */
  predicate Live(h: History, k: nat)
  {
    k < |h.log| && if h.log[k].wait then k !in h.returned else k >= |h.outcome|
  }

  /** The queue is the last part of the log, the rest of the batch is the part before it. */
  ghost predicate Shape(q: Loop, h: History)
  {
    && |h.outcome| + |q.queue| <= |h.log|
    && q.i <= |q.batch| && |q.batch| - q.i == |h.log| - |q.queue| - |h.outcome|
    && (forall j | 0 <= j < |q.queue| :: q.queue[j] == h.log[|h.log| - |q.queue| + j].pw)
    && (forall j | q.i <= j < |q.batch| :: q.batch[j] == h.log[|h.outcome| + j - q.i].pw)
    && (q.pc.Head? || q.pc.Asleep? || q.pc.Flushing? || q.pc.Exited? || q.pc.Closed? ==> q.i == |q.batch|)
    && (q.pc.Handed? || q.pc.Armed? ==> q.i < |q.batch|)
  }

  /** What conn.Write took is the front of what was accepted, and who was told what. */
  ghost predicate Fifo(q: Loop, h: History)
  {
    && |h.wire| <= |h.log|
    && (forall k | 0 <= k < |h.wire| :: h.wire[k] == Wire(h.log[k].frame))
    && (forall k | 0 <= k < |h.outcome| :: h.outcome[k].None? <==> k < |h.wire|)
    && (match q.pc
        case Handed(r) => |h.wire| == |h.outcome| + if r.None? then 1 else 0
        case Failing(_) => |h.wire| <= |h.outcome|
        case Pass(r) => |h.wire| <= |h.outcome| && (r.None? ==> |h.wire| == |h.outcome|)
        case Exited(r) => |h.wire| <= |h.outcome| && (r.None? ==> |h.wire| == |h.outcome|)
        case Closing(_) => |h.wire| <= |h.outcome|
        case Closed => |h.wire| <= |h.outcome|
        case _ => |h.wire| == |h.outcome|)
  }

  ghost predicate Drain(q: Loop, h: History)
  {
    && h.flushed <= |h.wire|
    && (q.pc.Asleep? ==> q.queue == [] && !q.done)
    && (q.pc.Head? || q.pc.Asleep? ==> h.flushed == |h.wire|)
    && (q.pc == Exited(None) ==> q.done && q.queue == [] && h.flushed == |h.wire|)
    && (q.pc.Closing? || q.pc.Closed? ==> q.done && q.queue == [])
  }

  /** The two objects of a live write carry it and are out of their pools. */
  ghost predicate Carries(m: Memory, h: History, k: nat)
    requires k < |h.log|
  {
    var x := h.log[k];
    && x.pw in m.heap && x.pw !in m.pool
    && m.heap[x.pw] == PendingWrite(x.buf, x.wait, if k < |h.outcome| then h.outcome[k] else None,
                                    if x.wait && k >= |h.outcome| then 1 else 0, k)
    && x.buf in m.bufs && x.buf !in m.bufPool && m.bufs[x.buf] == Buffer(Wire(x.frame), k)
  }

  ghost predicate Ownership(m: Memory, h: History)
  {
    && (forall k: nat | Live(h, k) :: Carries(m, h, k))
    && (forall p | p in m.pool :: p in m.heap && m.heap[p].err.None? && m.heap[p].wg == 0)
    && (forall b | b in m.bufPool :: b in m.bufs)
    && (forall p | p in m.heap && p !in m.pool :: Live(h, m.heap[p].ticket) && h.log[m.heap[p].ticket].pw == p)
    && (forall b | b in m.bufs && b !in m.bufPool :: Live(h, m.bufs[b].ticket) && h.log[m.bufs[b].ticket].buf == b)
  }

  ghost predicate Accounts(m: Memory, h: History)
  {
    && (forall k: nat :: m.puts[k] == if k < |h.log| && !Live(h, k) then 1 else 0)
    && (forall k | k in h.returned :: k < |h.outcome| <= |h.log| && h.log[k].wait && h.returned[k] == h.outcome[k])
  }

  ghost predicate Inv(s: State)
  {
    && !s.fault && Shape(s.loop, s.hist) && Fifo(s.loop, s.hist) && Drain(s.loop, s.hist)
    && Ownership(s.mem, s.hist) && Accounts(s.mem, s.hist)
  }
}
