/**
 A whole connection as a step machine: the write half of `Writer` together with
 `Request`, `readLoop`, the handler it calls, `Handle` and `close`.  Any number
 of requests and sends run at once, beside the writer, the reader and the
 supervisor that runs `Handle` and then `close`.  One step is one critical
 section of `c.mu`, one `conn.Read` or `conn.Write`, one `wg.Done`, one return
 from `wg.Wait`, or one receive from a channel.  The peer may send any bytes.

 Sends and replies refused by a shut writer change nothing and are not steps.
 A `wg.Done` on an object that has gone back to its pool, or that would take
 the WaitGroup below zero (where Go panics), sets `fault` and ends the run.
 */
module Mux {
  import opened Basics
  import W = Writer
  import Seqno

  // ----- requests and their pooled objects

  datatype Result = Ok(body: Bytes) | Failed(e: Error)

  /** One `wg.Done` on a request: by readLoop, by close, or by Request on its error path. */
  datatype Done = ByReader(body: Bytes) | ByClose(e: Error) | ByItself

  /** Who took a request's entry out of `reqs`: nobody, readLoop for its n-th message, or close. */
  datatype Taker = Nobody | Message(n: nat) | Close

  datatype CallPc =
    | Acquired | Numbered | Listed   // after acquire, next, and the insertion into reqs
    | Accepted                       // sendNoWait succeeded, in wg.Wait
    | Refused | Unlisting            // sendNoWait failed; then after its own wg.Done
    | Returned(r: Result)

  /** A call of Request; num, ticket, taker and done are history. */
  datatype Call = Call(payload: Bytes, pr: nat, pc: CallPc, seqno: nat,
                       num: nat, ticket: Option<nat>, taker: Taker, done: seq<Done>)

  /** `owner` is history: the call that acquired the object last. */
  datatype PendingRequest = PendingRequest(dst: Bytes, err: Option<Error>, wg: int, owner: nat)

  datatype Objects = Objects(heap: map<nat, PendingRequest>, pool: set<nat>)

  /** `acquire` sets dst only; then Request calls wg.Add(1). */
  function Acquire(o: Objects, pr: nat, c: nat): Objects
  {
    var used := if pr in o.heap then o.heap[pr] else PendingRequest([], None, 0, 0);
    Objects(o.heap[pr := PendingRequest([], used.err, used.wg + 1, c)], o.pool - {pr})
  }

  function Release(o: Objects, pr: nat): Objects
    requires pr in o.heap
  {
    Objects(o.heap[pr := o.heap[pr].(dst := [], err := None)], o.pool + {pr})
  }

  /** What `d` writes into the object it completes, and its wg.Done. */
  function Completed(x: PendingRequest, d: Done): PendingRequest
  {
    match d
    case ByReader(b) => x.(dst := b, wg := x.wg - 1)
    case ByClose(e) => x.(err := Some(e), wg := x.wg - 1)
    case ByItself => x.(wg := x.wg - 1)
  }

  // ----- the table, the reader, the supervisor

  /** The fields seq and reqs; issued is history, the calls numbered before close reset seq. */
  datatype Table = Table(seqno: nat, issued: seq<nat>, reqs: map<nat, nat>)

  datatype Reader =
    | Reading
    | Routing(f: W.Frame)                          // has a message, about to look up reqs
    | Delivering(c: nat, pr: nat, body: Bytes)     // took c's entry, has yet to fill and Done it
    | Handling(reply: Option<nat>)                 // in the handler, which replied with that ticket
    | Stopped(e: Error)                            // readLoop has returned; its error is never nil

  /** A call of the handler for message n, and the reply it had accepted, if any. */
  datatype Invocation = Invocation(n: nat, frame: W.Frame, reply: Option<Bytes>, ticket: Option<nat>)

  datatype ReadSide = ReadSide(rd: Reader, inbox: seq<Bytes>, handled: seq<Invocation>)

  /** `Handle`, branch by branch of its select, and then `close`. */
  datatype Sup =
    | Selecting
    | DoneShut | DoneJoinWriter          // branch <-done
    | WriterShut(we: Option<Error>)      // branch <-writerDone
    | JoinReader(we: Option<Error>)      // both of those: readerDone is next
    | ReaderShut(e: Error)               // branch <-readerDone
    | JoinWriter(e: Error)
    | HandleReturned(e: Error)
    | CloseWrites(e: Error)              // close holds c.mu and walks writerQueue
    | CloseReqs(e: Error)                // close holds c.mu and walks reqs
    | Over(e: Error)                     // close has returned

  /** Why a write was accepted: a plain send, the c-th request, the reply of the h-th invocation. */
  datatype Origin = Plain | Req(c: nat) | Rep(h: nat)

  datatype State = State(w: W.State, t: Table, o: Objects, calls: map<nat, Call>, r: ReadSide,
                         origin: seq<Origin>, sup: Sup, offset: nat, fault: bool)

  function Start(offset: nat): State
  {
    State(W.Start, Table(0, [], map[]), Objects(map[], {}), map[], ReadSide(Reading, [], []), [], Selecting, offset,
        false)
  }

  predicate Held(s: State)
  {
    s.sup.CloseWrites? || s.sup.CloseReqs?
  }

  function Parse(b: Bytes): W.Frame
    requires |b| >= 4
  {
    W.Frame(ReadBE32(b), b[4..])
  }

  // ----- the steps

  datatype Step =
    | Request(c: nat, payload: Bytes, pr: nat)
    | Number(c: nat)
    | List(c: nat)
    | SendRequest(c: nat, pw: nat, buf: nat)
    | OwnDone(c: nat)
    | Unlist(c: nat)
    | Finish(c: nat)
    | Send(body: Bytes, wait: bool, pw: nat, buf: nat)
    | Read(bytes: Bytes)
    | ReadFail(e: Error)
    | Route
    | Deliver
    | Reply(body: Bytes, pw: nat, buf: nat)
    | HandlerReturn(err: Option<Error>)
    | Write(ws: W.Step)
    | Stop | SeeWriter | SeeReader
    | ShutWriter | JoinTheWriter | JoinTheReader
    | BeginClose | EndWrites | CloseRequest(q: nat) | EndClose

  function SetCall(s: State, c: nat, x: Call): State
  {
    s.(calls := s.calls[c := x])
  }

  /** `d` completes call c, now x, through object pr: the fill, the wg.Done, and the fault if that is too late. */
  function Complete(s: State, c: nat, x: Call, pr: nat, d: Done): State
  {
    var s1 := SetCall(s, c, x.(done := x.done + [d]));
    if pr !in s.o.heap || pr in s.o.pool || s.o.heap[pr].owner != c || s.o.heap[pr].wg <= 0 then s1.(fault := true)
    else s1.(o := s.o.(heap := s.o.heap[pr := Completed(s.o.heap[pr], d)]))
  }

  function DoNumber(s: State, c: nat): State
    requires c in s.calls
  {
    var q := Seqno.Next(s.t.seqno, s.offset, Seqno.DEFAULT_DELTA);
    if s.sup.Over? then
      SetCall(s, c, s.calls[c].(pc := Numbered, seqno := q)).(t := s.t.(seqno := q))
    else
      SetCall(s, c, s.calls[c].(pc := Numbered, seqno := q, num := |s.t.issued| + 1)).(
        t := s.t.(seqno := q, issued := s.t.issued + [c]))
  }

  /** sendNoWait: refused by a shut writer, else accepted. */
  function DoSendRequest(s: State, c: nat, pw: nat, buf: nat): State
    requires c in s.calls
  {
    var x := s.calls[c];
    if s.w.loop.done then SetCall(s, c, x.(pc := Refused))
    else SetCall(s, c, x.(pc := Accepted, ticket := Some(|s.w.hist.log|))).(
           w := W.Accept(s.w, W.Frame(x.seqno, x.payload), false, pw, buf), origin := s.origin + [Req(c)])
  }

  function DoUnlist(s: State, c: nat): State
    requires c in s.calls && s.calls[c].pr in s.o.heap
  {
    var x := s.calls[c];
    SetCall(s, c, x.(pc := Returned(Failed(ShutDown)))).(
      t := s.t.(reqs := s.t.reqs - {x.seqno}), o := Release(s.o, x.pr))
  }

  function DoFinish(s: State, c: nat): State
    requires c in s.calls && s.calls[c].pr in s.o.heap
  {
    var x := s.calls[c];
    var p := s.o.heap[x.pr];
    SetCall(s, c, x.(pc := Returned(if p.err.Some? then Failed(p.err.value) else Ok(p.dst)))).(o := Release(s.o, x.pr))
  }

  function DoRead(r: ReadSide, bytes: Bytes): ReadSide
  {
    r.(inbox := r.inbox + [bytes],
       rd := if |bytes| < 4 then Stopped(IO(0)) else Routing(Parse(bytes)))
  }

  /** The critical section of readLoop and the branch after it. */
  function DoRoute(s: State): State
    requires s.r.rd.Routing? && |s.r.inbox| > 0
  {
    var f := s.r.rd.f;
    var n := |s.r.inbox| - 1;
    var found := f.seqno in s.t.reqs && s.t.reqs[f.seqno] in s.o.heap && s.o.heap[s.t.reqs[f.seqno]].owner in s.calls;
    if found then
      var pr := s.t.reqs[f.seqno];
      var c := s.o.heap[pr].owner;
      var s1 := SetCall(s, c, s.calls[c].(taker := Message(n))).(t := s.t.(reqs := s.t.reqs - {f.seqno}));
      if f.seqno == 0 then s1.(r := CallHandler(s.r)) else s1.(r := s.r.(rd := Delivering(c, pr, f.body)))
    else s.(r := CallHandler(s.r))
  }

  function CallHandler(r: ReadSide): ReadSide
    requires r.rd.Routing? && |r.inbox| > 0
  {
    r.(rd := Handling(None), handled := r.handled + [Invocation(|r.inbox| - 1, r.rd.f, None, None)])
  }

  /** Context.Reply, a send under the number of the message in hand. */
  function DoReply(s: State, body: Bytes, pw: nat, buf: nat): State
    requires |s.r.handled| > 0
  {
    var h := |s.r.handled| - 1;
    var k := |s.w.hist.log|;
    s.(r := s.r.(rd := Handling(Some(k)),
        handled := s.r.handled[h := s.r.handled[h].(reply := Some(body), ticket := Some(k))]),
       w := W.Accept(s.w, W.Frame(s.r.handled[h].frame.seqno, body), true, pw, buf), origin := s.origin + [Rep(h)])
  }

  function DoShutWriter(s: State): State
  {
    s.(w := W.CloseWriter(s.w),
       sup := match s.sup
              case DoneShut => DoneJoinWriter
              case WriterShut(e) => JoinReader(e)
              case ReaderShut(e) => JoinWriter(e)
              case _ => s.sup)
  }

  function DoJoinWriter(sup: Sup, err: Option<Error>): Sup
  {
    match sup
    case DoneJoinWriter => JoinReader(err)
    case JoinWriter(e) => HandleReturned(e)
    case _ => sup
  }

  function DoCloseRequest(s: State, q: nat): State
    requires s.sup.CloseReqs? && q in s.t.reqs && s.t.reqs[q] in s.o.heap && s.o.heap[s.t.reqs[q]].owner in s.calls
  {
    var pr := s.t.reqs[q];
    var c := s.o.heap[pr].owner;
    Complete(s.(t := s.t.(reqs := s.t.reqs - {q})), c, s.calls[c].(taker := Close), pr, ByClose(s.sup.e))
  }

  ghost predicate WriterOrWaiterStep(s: State, ws: W.Step)
  {
    match ws
    case DoTake => !Held(s)
    case DoEndPass => !s.w.loop.pc.Closing?
    case DoAccept(_, _, _, _) => false
    case DoCloseWriter => false
    case DoBeginClose(_) => false
    case _ => true
  }

  ghost predicate IsAt(s: State, c: nat, pc: CallPc)
  {
    c in s.calls && s.calls[c].pc == pc
  }

  ghost predicate Enabled(s: State, t: Step)
  {
    !s.fault &&
    match t
    case Request(c, payload, pr) => c !in s.calls && (pr in s.o.pool || pr !in s.o.heap)
    case Number(c) => !Held(s) && IsAt(s, c, Acquired)
    case List(c) => !Held(s) && IsAt(s, c, Numbered)
    case SendRequest(c, pw, buf) => !Held(s) && IsAt(s, c, Listed) && W.CanAcquire(s.w.mem, pw, buf)
    case OwnDone(c) => IsAt(s, c, Refused)
    case Unlist(c) => !Held(s) && IsAt(s, c, Unlisting) && s.calls[c].pr in s.o.heap
    case Finish(c) => IsAt(s, c, Accepted) && s.calls[c].pr in s.o.heap && s.o.heap[s.calls[c].pr].wg == 0
    case Send(body, wait, pw, buf) => !Held(s) && !s.w.loop.done && W.CanAcquire(s.w.mem, pw, buf)
    case Read(bytes) => s.r.rd.Reading?
    case ReadFail(e) => s.r.rd.Reading?
    case Route => !Held(s) && s.r.rd.Routing? && |s.r.inbox| > 0
    case Deliver => s.r.rd.Delivering? && s.r.rd.c in s.calls
    case Reply(body, pw, buf) => !Held(s) && s.r.rd == Handling(None) && |s.r.handled| > 0 && !s.w.loop.done
                                 && W.CanAcquire(s.w.mem, pw, buf)
    case HandlerReturn(err) => s.r.rd.Handling? && (s.r.rd.reply.Some? ==> s.r.rd.reply.value in s.w.hist.returned)
    case Write(ws) => W.Enabled(s.w, ws) && WriterOrWaiterStep(s, ws)
    case Stop => s.sup.Selecting?
    case SeeWriter => s.sup.Selecting? && s.w.loop.pc.Exited?
    case SeeReader => s.sup.Selecting? && s.r.rd.Stopped?
    case ShutWriter => s.sup.DoneShut? || s.sup.WriterShut? || s.sup.ReaderShut?
    case JoinTheWriter => (s.sup.DoneJoinWriter? || s.sup.JoinWriter?) && s.w.loop.pc.Exited?
    case JoinTheReader => s.sup.JoinReader? && s.r.rd.Stopped?
    case BeginClose => s.sup.HandleReturned?
    case EndWrites => s.sup.CloseWrites? && s.w.loop.i == |s.w.loop.batch|
    case CloseRequest(q) => s.sup.CloseReqs? && q in s.t.reqs && s.t.reqs[q] in s.o.heap
        && s.o.heap[s.t.reqs[q]].owner in s.calls
    case EndClose => s.sup.CloseReqs? && s.t.reqs == map[]
  }

  ghost function Next(s: State, t: Step): State
    requires Enabled(s, t)
  {
    match t
    case Request(c, payload, pr) =>
      SetCall(s, c, Call(payload, pr, Acquired, 0, 0, None, Nobody, [])).(o := Acquire(s.o, pr, c))
    case Number(c) => DoNumber(s, c)
    case List(c) =>
      SetCall(s, c, s.calls[c].(pc := Listed)).(t := s.t.(reqs := s.t.reqs[s.calls[c].seqno := s.calls[c].pr]))
    case SendRequest(c, pw, buf) => DoSendRequest(s, c, pw, buf)
    case OwnDone(c) => Complete(s, c, s.calls[c].(pc := Unlisting), s.calls[c].pr, ByItself)
    case Unlist(c) => DoUnlist(s, c)
    case Finish(c) => DoFinish(s, c)
    case Send(body, wait, pw, buf) =>
      s.(w := W.Accept(s.w, W.Frame(0, body), wait, pw, buf), origin := s.origin + [Plain])
    case Read(bytes) => s.(r := DoRead(s.r, bytes))
    case ReadFail(e) => s.(r := s.r.(rd := Stopped(e)))
    case Route => DoRoute(s)
    case Deliver =>
      Complete(s, s.r.rd.c, s.calls[s.r.rd.c], s.r.rd.pr, ByReader(s.r.rd.body)).(r := s.r.(rd := Reading))
    case Reply(body, pw, buf) => DoReply(s, body, pw, buf)
    case HandlerReturn(err) => s.(r := s.r.(rd := if err.Some? then Stopped(err.value) else Reading))
    case Write(ws) => s.(w := W.Next(s.w, ws))
    case Stop => s.(sup := DoneShut)
    case SeeWriter => s.(sup := WriterShut(s.w.loop.pc.err))
    case SeeReader => s.(sup := ReaderShut(s.r.rd.e))
    case ShutWriter => DoShutWriter(s)
    case JoinTheWriter => s.(sup := DoJoinWriter(s.sup, s.w.loop.pc.err))
    case JoinTheReader => s.(sup := HandleReturned(if s.sup.we.Some? then s.sup.we.value else s.r.rd.e))
    case BeginClose => s.(w := s.w.(loop := W.BeginClose(s.w.loop, s.sup.e)), sup := CloseWrites(s.sup.e))
    case EndWrites => s.(w := s.w.(loop := W.EndPass(s.w.loop)), sup := CloseReqs(s.sup.e))
    case CloseRequest(q) => DoCloseRequest(s, q)
    case EndClose => s.(t := s.t.(seqno := 0), sup := Over(s.sup.e))
  }

  ghost function After(offset: nat, ts: seq<Step>): Option<State>
  {
    if ts == [] then Some(Start(offset))
    else
      var n := |ts| - 1;
      var r := After(offset, ts[..n]);
      if r.Some? && Enabled(r.value, ts[n]) then Some(Next(r.value, ts[n])) else None
  }
}
