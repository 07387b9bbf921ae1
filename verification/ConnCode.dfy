/**
 The methods of `Conn` as code over its own fields.  `run` is the run of the
 machine in `Mux` that the connection has made so far, its callers' steps
 included, and `model` the state it has reached; `Valid` ties the fields to it.
 Each method says by which steps it extends the run.

 The pooled objects live in `writes` and `requests` and are named by number;
 `nextWrite` and `nextBuffer` stand for the allocator, and `tickets` counts the
 accepted writes.
 */
module ConnCode {
  import opened Basics
  import opened ConnSteps
  import M = Mux
  import MF = MuxFaults
  import W = Writer
  import Seqno

  class Conn {
    var writerQueue: seq<nat>
    var writerDone: bool
    var reqs: map<nat, nat>
    var seqno: nat
    var writes: W.Memory
    var requests: M.Objects
    var nextWrite: nat
    var nextBuffer: nat
    var nextRequest: nat
    var tickets: nat
    const offset: nat
    ghost var run: seq<M.Step>
    ghost var model: M.State

    ghost predicate Valid()
      reads this
    {
      && Seqno.IsOffset(offset) && IsRun(offset, run, model)
      && FieldsOf(model) == Fields(writerQueue, writerDone, reqs, seqno, writes, requests, tickets)
      && (forall p | p in writes.heap :: p < nextWrite) && (forall b | b in writes.bufs :: b < nextBuffer)
      && (forall p | p in requests.heap :: p < nextRequest)
    }

    constructor (offset: nat)
      requires Seqno.IsOffset(offset)
      ensures Valid() && run == [] && this.offset == offset
    {
      this.offset := offset;
      writerQueue, writerDone, reqs, seqno := [], false, map[], 0;
      writes, requests := W.Memory(map[], {}, map[], {}, multiset{}), M.Objects(map[], {});
      nextWrite, nextBuffer, nextRequest, tickets := 0, 0, 0, 0;
      run, model := [], M.Start(offset);
      new;
      assert IsTrace(offset, [], [M.Start(offset)]);
    }

    /** `next`, for call c. */
    method Next(ghost c: nat) returns (r: nat)
      requires Valid() && M.Enabled(model, M.Number(c))
      modifies this`seqno, this`run, this`model
      ensures Valid() && run == old(run) + [M.Number(c)] && c in model.calls && r == model.calls[c].seqno == seqno
      ensures !model.fault && model.sup == old(model).sup
      ensures model.calls[c] == old(model).calls[c].(pc := M.Numbered, seqno := r, num := model.calls[c].num)
    {
      if seqno == 0 {
        seqno := offset;
      } else {
        seqno := (seqno + Seqno.DEFAULT_DELTA) % TWO32;
      }
      run, model := NumberStep(offset, run, model, c);
      r := seqno;
    }

    /** `closeWriter`, by whichever branch of Handle the machine is in. */
    method CloseWriter()
      requires Valid() && M.Enabled(model, M.ShutWriter)
      modifies this
      ensures Valid() && run == old(run) + [M.ShutWriter] && writerDone
    {
      writerDone := true;
      run, model := ShutStep(offset, run, model);
    }

    /** What bytebufferpool.Get gives: a pooled buffer or a new one. */
    method GetBuffer() returns (buf: nat)
      requires Valid()
      modifies this`nextBuffer
      ensures Valid() && (buf in writes.bufPool || buf !in writes.bufs) && buf < nextBuffer
    {
      PooledWrites(offset, run, model);
      if writes.bufPool != {} {
        buf :| buf in writes.bufPool;
      } else {
        buf, nextBuffer := nextBuffer, nextBuffer + 1;
      }
    }

    /** What the pool of pendingWrites and the allocator give. */
    method GetWrite() returns (pw: nat)
      requires Valid()
      modifies this`nextWrite
      ensures Valid() && (pw in writes.pool || pw !in writes.heap) && pw < nextWrite
    {
      PooledWrites(offset, run, model);
      if writes.pool != {} {
        pw :| pw in writes.pool;
      } else {
        pw, nextWrite := nextWrite, nextWrite + 1;
      }
    }

    /** acquire and the append to writerQueue, of preparePendingWrite on an open writer. */
    method Append(p: nat, b: nat, wait: bool, f: W.Frame)
      requires p < nextWrite && b < nextBuffer
      requires (forall q | q in writes.heap :: q < nextWrite) && (forall c | c in writes.bufs :: c < nextBuffer)
      modifies this`writes, this`writerQueue, this`tickets
      ensures writes == W.Acquire(old(writes), p, b, wait, W.Wire(f), old(tickets))
      ensures writerQueue == old(writerQueue) + [p] && tickets == old(tickets) + 1
      ensures (forall q | q in writes.heap :: q < nextWrite) && (forall c | c in writes.bufs :: c < nextBuffer)
    {
      writes := W.Acquire(writes, p, b, wait, W.Wire(f), tickets);
      writerQueue, tickets := writerQueue + [p], tickets + 1;
    }

    /** `preparePendingWrite` for Send and SendNoWait: refused, or the Send step of the machine. */
    method SendFrame(body: Bytes, wait: bool) returns (pw: Option<nat>)
      requires Valid() && !M.Held(model) && !model.fault
      modifies this`writes, this`writerQueue, this`tickets, this`nextWrite, this`nextBuffer, this`run, this`model
      ensures Valid() && pw.None? == writerDone
      ensures writerDone ==> run == old(run) && writes == old(writes) && writerQueue == old(writerQueue)
      ensures !writerDone ==> exists buf :: run == old(run) + [M.Send(body, wait, pw.value, buf)]
    {
      var b := GetBuffer();
      if writerDone {
        return None;
      }
      var p := AcceptFrame(body, wait, b);
      pw := Some(p);
    }

    method AcceptFrame(body: Bytes, wait: bool, b: nat) returns (p: nat)
      requires Valid() && !M.Held(model) && !model.fault && !writerDone
      requires (b in writes.bufPool || b !in writes.bufs) && b < nextBuffer
      modifies this`writes, this`writerQueue, this`tickets, this`nextWrite, this`run, this`model
      ensures Valid() && run == old(run) + [M.Send(body, wait, p, b)]
    {
      p := GetWrite();
      run, model := SendStep(offset, run, model, body, wait, p, b);
      Append(p, b, wait, W.Frame(0, body));
    }

    /** `sendNoWait` for the request c on an open writer, with the buffer b. */
    method AcceptNumbered(ghost c: nat, q: nat, payload: Bytes, b: nat)
      requires Valid() && !M.Held(model) && !model.fault && M.IsAt(model, c, M.Listed) && !writerDone
      requires q == model.calls[c].seqno && payload == model.calls[c].payload
      requires (b in writes.bufPool || b !in writes.bufs) && b < nextBuffer
      modifies this`writes, this`writerQueue, this`tickets, this`nextWrite, this`run, this`model
      ensures Valid() && SentNumbered(old(model), model, c) && model.calls[c].pc == M.Accepted
      ensures exists pw, buf :: run == old(run) + [M.SendRequest(c, pw, buf)]
    {
      var p := GetWrite();
      run, model := SendRequestStep(offset, run, model, c, p, b);
      Append(p, b, false, W.Frame(q, payload));
    }

    /** The call c has gone through sendNoWait. */
    ghost predicate SentNumbered(m: M.State, m': M.State, c: nat)
      requires c in m.calls
    {
      && !m'.fault && !M.Held(m') && c in m'.calls && m'.calls[c].pr == m.calls[c].pr
      && m'.calls[c].seqno == m.calls[c].seqno && m'.calls[c].done == m.calls[c].done
    }

    /** `sendNoWait` for the request c: refused, or its frame accepted. */
    method SendNumbered(ghost c: nat, q: nat, payload: Bytes) returns (ok: bool)
      requires Valid() && !M.Held(model) && !model.fault && M.IsAt(model, c, M.Listed)
      requires q == model.calls[c].seqno && payload == model.calls[c].payload
      modifies this`writes, this`writerQueue, this`tickets, this`nextWrite, this`nextBuffer, this`run, this`model
      ensures Valid() && ok == !writerDone
      ensures SentNumbered(old(model), model, c) && model.calls[c].pc == if ok then M.Accepted else M.Refused
      ensures !ok ==> writes == old(writes) && writerQueue == old(writerQueue)
      ensures exists pw, buf :: run == old(run) + [M.SendRequest(c, pw, buf)]
    {
      var b := GetBuffer();
      ok := !writerDone;
      if ok {
        AcceptNumbered(c, q, payload, b);
      } else {
        run, model := SendRequestStep(offset, run, model, c, nextWrite, b);
      }
    }

    // ----- Request

    /** acquire and wg.Add, for a new call c. */
    method AcquireRequest(c: nat, payload: Bytes) returns (pr: nat)
      requires Valid() && !model.fault && c !in model.calls
      modifies this`requests, this`nextRequest, this`run, this`model
      ensures Valid() && !model.fault && model.sup == old(model).sup && run == old(run) + [M.Request(c, payload, pr)]
      ensures c in model.calls && model.calls[c] == M.Call(payload, pr, M.Acquired, 0, 0, None, M.Nobody, [])
    {
      PooledRequests(offset, run, model);
      if requests.pool != {} {
        pr :| pr in requests.pool;
      } else {
        pr, nextRequest := nextRequest, nextRequest + 1;
      }
      run, model := AcquireStep(offset, run, model, c, payload, pr);
      requests := M.Acquire(requests, pr, c);
    }

    /** The entry in reqs. */
    method ListRequest(ghost c: nat, pr: nat, q: nat)
      requires Valid() && !M.Held(model) && !model.fault && M.IsAt(model, c, M.Numbered)
      requires model.calls[c].pr == pr && model.calls[c].seqno == q
      modifies this`reqs, this`run, this`model
      ensures Valid() && !M.Held(model) && !model.fault && run == old(run) + [M.List(c)]
      ensures c in model.calls && model.calls[c] == old(model).calls[c].(pc := M.Listed)
    {
      run, model := ListStep(offset, run, model, c);
      reqs := reqs[q := pr];
    }

    /** The object, the number and the entry of a new call c. */
    method Enter(c: nat, payload: Bytes) returns (pr: nat, q: nat)
      requires Valid() && !M.Held(model) && !model.fault && c !in model.calls
      modifies this
      ensures Valid() && !M.Held(model) && !model.fault && M.IsAt(model, c, M.Listed) && writerDone == old(writerDone)
      ensures model.calls[c].pr == pr && model.calls[c].seqno == q && model.calls[c].payload == payload
      ensures model.calls[c].done == []
      ensures run == old(run) + [M.Request(c, payload, pr), M.Number(c), M.List(c)]
    {
      pr := AcquireRequest(c, payload);
      q := Next(c);
      ListRequest(c, pr, q);
    }

    /** The error path: wg.Done. */
    method OwnDone(ghost c: nat, pr: nat)
      requires Valid() && !M.Held(model) && !model.fault && M.IsAt(model, c, M.Refused)
      requires model.calls[c].pr == pr && model.calls[c].done == []
      modifies this`requests, this`run, this`model
      ensures Valid() && !M.Held(model) && !model.fault && run == old(run) + [M.OwnDone(c)]
      ensures c in model.calls && model.calls[c] == old(model).calls[c].(pc := M.Unlisting, done := [M.ByItself])
    {
      run, model := OwnDoneStep(offset, run, model, c);
      requests := requests.(heap := requests.heap[pr := requests.heap[pr].(wg := requests.heap[pr].wg - 1)]);
    }

    /** And then the entry and the object go. */
    method Unlist(ghost c: nat, pr: nat, q: nat)
      requires Valid() && !M.Held(model) && !model.fault && M.IsAt(model, c, M.Unlisting)
      requires model.calls[c].pr == pr && model.calls[c].seqno == q
      modifies this`reqs, this`requests, this`run, this`model
      ensures Valid() && !model.fault && run == old(run) + [M.Unlist(c)]
    {
      run, model := UnlistStep(offset, run, model, c);
      reqs := reqs - {q};
      requests := M.Release(requests, pr);
    }

    method Withdraw(ghost c: nat, pr: nat, q: nat)
      requires Valid() && !M.Held(model) && !model.fault && M.IsAt(model, c, M.Refused)
      requires model.calls[c].pr == pr && model.calls[c].seqno == q && model.calls[c].done == []
      modifies this`reqs, this`requests, this`run, this`model
      ensures Valid() && !model.fault && run == old(run) + [M.OwnDone(c), M.Unlist(c)]
    {
      OwnDone(c, pr);
      Unlist(c, pr, q);
    }

    /**
     Request up to wg.Wait, or to its end if the writer is shut, during which
     nobody else moves: then it is entered and its frame accepted, or it is as
     though it had not been made.
     */
    method Request(c: nat, payload: Bytes) returns (pr: nat, ok: bool)
      requires Valid() && !M.Held(model) && !model.fault && c !in model.calls
      modifies this
      ensures Valid() && !model.fault && ok == !old(writerDone)
      ensures exists pw, buf ::
            run == old(run) + [M.Request(c, payload, pr), M.Number(c), M.List(c), M.SendRequest(c, pw, buf)]
                                     + if ok then [] else [M.OwnDone(c), M.Unlist(c)]
    {
      var q;
      pr, q := Enter(c, payload);
      ghost var entered := run;
      ok := SendNumbered(c, q, payload);
      ghost var pw, buf :| run == entered + [M.SendRequest(c, pw, buf)];
      assert run == old(run) + [M.Request(c, payload, pr), M.Number(c), M.List(c), M.SendRequest(c, pw, buf)];
      if !ok {
        Withdraw(c, pr, q);
      }
    }

    /** Request after wg.Wait: what the object says, which is then released. */
    method Awaited(ghost c: nat, pr: nat) returns (r: M.Result)
      requires Valid() && M.Enabled(model, M.Finish(c)) && pr == model.calls[c].pr
      modifies this
      ensures Valid() && !model.fault && run == old(run) + [M.Finish(c)] && c in model.calls
      ensures model.calls[c].pc == M.Returned(r)
    {
      var p := requests.heap[pr];
      r := if p.err.Some? then M.Failed(p.err.value) else M.Ok(p.dst);
      run, model := FinishStep(offset, run, model, c);
      requests := M.Release(requests, pr);
    }

    // ----- writeLoop, one iteration piece by piece

    /**
     The critical section at the head of the loop.  queue is the buffer the loop
     reuses: it grows when the queue has outgrown it, and its first n elements
     become a copy of writerQueue.
     */
    method TakeBatch(queue: array<nat>) returns (batch: array<nat>, n: nat, asleep: bool, exit: bool)
      requires Valid() && M.Enabled(model, M.Write(W.DoTake))
      modifies this, queue
      ensures Valid() && run == old(run) + [M.Write(W.DoTake)]
      ensures asleep == (!old(writerDone) && old(writerQueue) == [])
      ensures exit == (old(writerDone) && old(writerQueue) == [])
      ensures (batch == queue || fresh(batch)) && batch.Length >= queue.Length
      ensures n <= batch.Length && batch[..n] == old(writerQueue) && writerQueue == []
      ensures model == old(model).(w := old(model).w.(loop := W.Take(old(model).w.loop)))
      ensures old(model).w.loop.queue == batch[..n]
    {
      batch, n := queue, 0;
      asleep := !writerDone && |writerQueue| == 0;
      exit := writerDone && |writerQueue| == 0;
      if |writerQueue| > queue.Length {
        batch := new nat[|writerQueue|];
      }
      Copy(batch);
      n := |writerQueue|;
      writerQueue := [];
      run, model := TakeStep(offset, run, model);
    }

    /** copy(queue, c.writerQueue). */
    method Copy(batch: array<nat>)
      requires |writerQueue| <= batch.Length
      modifies batch
      ensures batch[..|writerQueue|] == writerQueue
    {
      var n := 0;
      while n < |writerQueue|
        invariant n <= |writerQueue| && batch[..n] == writerQueue[..n]
      {
        batch[n] := writerQueue[n];
        n := n + 1;
      }
    }

    /** The body of both passes and of close's walk: hand the verdict to the waiter, or recycle. */
    method Complete(p: nat, e: Option<Error>)
      requires Valid() && !model.fault && W.Enabled(model.w, W.DoComplete)
      requires p == model.w.loop.batch[model.w.loop.i] && e == W.Verdict(model.w.loop.pc)
      modifies this
      ensures Valid() && !model.w.fault && model == old(model).(w := model.w)
      ensures run == old(run) + [M.Write(W.DoComplete)]
      ensures model.w.loop == old(model).w.loop.(i := old(model).w.loop.i + 1,
        pc := if old(model).w.loop.pc.Handed? then W.Pass(e) else old(model).w.loop.pc)
      ensures model.w.hist.wire == old(model).w.hist.wire && writerQueue == old(writerQueue)
      ensures Answered(old(writes), writes, p, e) && OnlyObject(old(writes), writes, p)
    {
      run, model := CompleteStep(offset, run, model);
      Settle(p, e);
    }

    /** pw.err and wg.Done for a waiter, else the object and its buffer go back to their pools. */
    method Settle(p: nat, e: Option<Error>)
      requires W.Finish(writes, p, e).Some?
      modifies this`writes
      ensures Answered(old(writes), writes, p, e) && OnlyObject(old(writes), writes, p)
      ensures writes == W.Finish(old(writes), p, e).value
    {
      var pw := writes.heap[p];
      if pw.wait {
        writes := writes.(heap := writes.heap[p := pw.(err := e, wg := pw.wg - 1)]);
      } else {
        writes := writes.(bufPool := writes.bufPool + {pw.buf});
        writes := writes.(heap := writes.heap[p := pw.(err := None)], pool := writes.pool + {p},
                          puts := writes.puts + multiset{pw.ticket});
      }
    }

    /** The pass after SetWriteDeadline failed with e: the whole batch gets e and nothing is written. */
    method FailPass(batch: array<nat>, n: nat, e: Error)
      requires Valid() && !model.fault && !model.w.fault && model.w.loop.pc == W.Failing(e)
      requires n <= batch.Length && batch[..n] == model.w.loop.batch && model.w.loop.i == 0
      modifies this
      ensures Valid() && run == old(run) + Repeat(M.Write(W.DoComplete), n)
      ensures model.w.loop == old(model).w.loop.(i := n) && model.w.hist.wire == old(model).w.hist.wire
      ensures model == old(model).(w := model.w) && !model.w.fault
      ensures AnsweredUpTo(old(writes), writes, old(model).w.loop.batch, n, seq(n, _ => Some(e)))
    {
      var i := 0;
      ghost var ps, errs := model.w.loop.batch, seq(n, _ => Some(e));
      NoneAnswered(offset, run, model, errs);
      while i < n
        invariant i <= n && Valid() && !model.fault && !model.w.fault
        invariant model.w.loop == old(model).w.loop.(i := i) && model.w.hist.wire == old(model).w.hist.wire
        invariant model == old(model).(w := model.w)
        invariant run == old(run) + Repeat(M.Write(W.DoComplete), i)
        invariant AnsweredUpTo(old(writes), writes, ps, i, errs)
      {
        RepeatMore(old(run), M.Write(W.DoComplete), i);
        ghost var before := writes;
        Complete(batch[i], Some(e));
        CompletesOne(old(writes), before, writes, ps, i, errs);
        i := i + 1;
      }
    }

    /**
     The write pass.  rs are the results conn.Write would give; it is called
     until the first error, and sent are the buffers it took without one.
     */
    method WritePass(batch: array<nat>, n: nat, rs: seq<Option<Error>>) returns (err: Option<Error>, sent: seq<Bytes>)
      requires Valid() && !model.fault && !model.w.fault && model.w.loop.pc == W.Pass(None) && |rs| >= n
      requires n <= batch.Length && batch[..n] == model.w.loop.batch && model.w.loop.i == 0
      modifies this
      ensures Valid() && run == old(run) + PassSteps(rs, n) && err == ErrorAfter(rs, n)
      ensures model.w.loop == old(model).w.loop.(i := n, pc := W.Pass(err))
      ensures model.w.hist.wire == old(model).w.hist.wire + sent
      ensures model == old(model).(w := model.w) && !model.w.fault
      ensures AnsweredUpTo(old(writes), writes, old(model).w.loop.batch, n, Verdicts(rs, n))
    {
      err, sent := None, [];
      var i := 0;
      ghost var errs := Verdicts(rs, n);
      NoneAnswered(offset, run, model, errs);
      while i < n
        invariant i <= n && Valid() && !model.fault && !model.w.fault
        invariant model.w.loop == old(model).w.loop.(i := i, pc := W.Pass(err)) && err == ErrorAfter(rs, i)
        invariant model == old(model).(w := model.w)
        invariant model.w.hist.wire == old(model).w.hist.wire + sent
        invariant run == old(run) + PassSteps(rs, i)
        invariant AnsweredUpTo(old(writes), writes, model.w.loop.batch, i, errs)
      {
        PassStepsMore(old(run), rs, i);
        var took;
        err, took := Element(batch[i], err, rs[i], old(writes), errs);
        sent := sent + took;
        i := i + 1;
      }
    }

    /** One element of the write pass: conn.Write unless an error came before, and the completion. */
    method Element(p: nat, err: Option<Error>, r: Option<Error>, ghost start: W.Memory,
                   ghost errs: seq<Option<Error>>) returns (err': Option<Error>, took: seq<Bytes>)
      requires Valid() && !model.fault && !model.w.fault && model.w.loop.pc == W.Pass(err)
      requires model.w.loop.i < |model.w.loop.batch| && p == model.w.loop.batch[model.w.loop.i]
      requires Distinct(model.w.loop.batch) && AnsweredUpTo(start, writes, model.w.loop.batch, model.w.loop.i, errs)
      requires errs[model.w.loop.i] == if err.None? then r else err
      modifies this
      ensures AnsweredUpTo(start, writes, model.w.loop.batch, model.w.loop.i, errs)
      ensures Valid() && !model.w.fault && model == old(model).(w := model.w) && err' == if err.None? then r else err
      ensures run == old(run) + (if err.None? then [M.Write(W.DoWrite(r))] else []) + [M.Write(W.DoComplete)]
      ensures model.w.loop == old(model).w.loop.(i := old(model).w.loop.i + 1, pc := W.Pass(err'))
      ensures model.w.hist.wire == old(model).w.hist.wire + took
    {
      err', took := err, [];
      if err.None? {
        err' := r;
        took := Hand(p, r);
      }
      ghost var i, before := model.w.loop.i, writes;
      Complete(p, err');
      CompletesOne(start, before, writes, model.w.loop.batch, i, errs);
    }

    /** conn.Write(pw.buf.B), which returns r. */
    method Hand(p: nat, r: Option<Error>) returns (took: seq<Bytes>)
      requires Valid() && !model.fault && !model.w.fault && model.w.loop.pc == W.Pass(None)
      requires model.w.loop.i < |model.w.loop.batch| && p == model.w.loop.batch[model.w.loop.i]
      modifies this`run, this`model
      ensures Valid() && !model.w.fault && model == old(model).(w := model.w)
      ensures run == old(run) + [M.Write(W.DoWrite(r))]
      ensures model.w.loop == old(model).w.loop.(pc := W.Handed(r))
      ensures model.w.hist.wire == old(model).w.hist.wire + took
    {
      run, model := WriteStep(offset, run, model, r);
      took := if r.None? then [writes.bufs[writes.heap[p].buf].bytes] else [];
    }

    /** The walk of `close` over writerQueue, under c.mu. */
    method CloseWrites(e: Error)
      requires Valid() && !model.fault && model.sup == M.HandleReturned(e)
      modifies this
      ensures Valid() && writerQueue == [] && model.w.hist.wire == old(model).w.hist.wire
      ensures !model.fault && model.sup == M.CloseWrites(e) && model.w.loop.i == |model.w.loop.batch|
      ensures run == old(run) + [M.BeginClose] + Repeat(M.Write(W.DoComplete), |old(writerQueue)|)
      ensures forall p | p in old(writerQueue) :: Answered(old(writes), writes, p, Some(e))
      ensures reqs == old(reqs) && requests == old(requests)
    {
      var queue := writerQueue;
      run, model := BeginCloseStep(offset, run, model);
      writerQueue := [];
      Walk(queue, e);
    }

    method Walk(queue: seq<nat>, e: Error)
      requires Valid() && !model.fault && !model.w.fault && model.sup == M.CloseWrites(e)
      requires model.w.loop == W.Loop([], writerDone, W.Closing(e), queue, 0)
      modifies this
      ensures Valid() && writerQueue == [] && model.w.hist.wire == old(model).w.hist.wire
      ensures model == old(model).(w := model.w) && model.w.loop == W.Loop([], writerDone, W.Closing(e), queue, |queue|)
      ensures run == old(run) + Repeat(M.Write(W.DoComplete), |queue|)
      ensures forall j: nat | j < |queue| :: Answered(old(writes), writes, queue[j], Some(e))
    {
      ghost var errs := seq(|queue|, _ => Some(e));
      NoneAnswered(offset, run, model, errs);
      var i := 0;
      while i < |queue|
        invariant i <= |queue| && Valid() && !model.w.fault && model == old(model).(w := model.w)
        invariant model.w.loop == old(model).w.loop.(i := i) && model.w.hist.wire == old(model).w.hist.wire
        invariant run == old(run) + Repeat(M.Write(W.DoComplete), i)
        invariant AnsweredUpTo(old(writes), writes, queue, i, errs)
      {
        RepeatMore(old(run), M.Write(W.DoComplete), i);
        ghost var before := writes;
        Complete(queue[i], Some(e));
        CompletesOne(old(writes), before, writes, queue, i, errs);
        i := i + 1;
      }
    }

    /** readLoop's critical section for the message in hand, and whether a request gets it. */
    method Route(f: W.Frame) returns (pr: nat, deliver: bool)
      requires Valid() && M.Enabled(model, M.Route) && f == model.r.rd.f
      modifies this
      ensures Valid() && run == old(run) + [M.Route]
      ensures deliver == model.r.rd.Delivering? && (deliver ==> pr == model.r.rd.pr && f.body == model.r.rd.body)
      ensures f.seqno !in reqs
    {
      var exists' := f.seqno in reqs;
      pr := if exists' then reqs[f.seqno] else 0;
      run, model := RouteStep(offset, run, model);
      reqs := reqs - {f.seqno};
      deliver := !(f.seqno == 0 || !exists');
    }

    /**
     readLoop fills the object it took and calls its wg.Done, which panics if it is
     one too many.  If not, the object has the bytes and its counter one less, even
     when it is another request's by now and the machine stops.
     */
    method Deliver(pr: nat, data: Bytes) returns (panicked: bool)
      requires Valid() && M.Enabled(model, M.Deliver) && pr == model.r.rd.pr && data == model.r.rd.body
      modifies this`requests, this`run, this`model
      ensures run == old(run) + [M.Deliver] && IsRun(offset, run, model) && pr in old(requests.heap)
      ensures panicked == MF.BelowZero(old(model), M.Deliver)
      ensures model.fault == (panicked || MF.Misdelivers(old(model), M.Deliver)) && (!model.fault ==> Valid())
      ensures !panicked ==>
        requests == old(requests).(heap := old(requests).heap[pr := M.Completed(old(requests).heap[pr],
            M.ByReader(data))])
    {
      run, model := DeliverStep(offset, run, model);
      panicked := requests.heap[pr].wg <= 0;
      if !panicked {
        var p := requests.heap[pr];
        requests := requests.(heap := requests.heap[pr := p.(dst := data, wg := p.wg - 1)]);
      }
    }

    /** The request object pr has the error e. */
    predicate Failed(o: M.Objects, pr: nat, e: Error)
    {
      pr in o.heap && o.heap[pr].err == Some(e)
    }

    /** The walk of `close` over reqs, under c.mu: true if a wg.Done took a WaitGroup below zero. */
    method CloseRequests(e: Error) returns (panicked: bool, ghost qs: seq<nat>)
      requires Valid() && !model.fault && model.sup == M.CloseReqs(e)
      modifies this`reqs, this`requests, this`run, this`model
      ensures panicked == model.fault && IsRun(offset, run, model)
      ensures !panicked ==> Valid() && reqs == map[] && model.sup == M.CloseReqs(e)
      ensures !panicked ==> forall q | q in old(reqs) :: Failed(requests, old(reqs)[q], e)
      ensures run == old(run) + CloseSteps(qs)
    {
      panicked, qs := false, [];
      while reqs != map[]
        invariant Valid() && !model.fault && model.sup == M.CloseReqs(e)
        invariant run == old(run) + CloseSteps(qs) && !panicked
        invariant forall q | q in old(reqs) ::
          Failed(requests, old(reqs)[q], e) || (q in reqs && reqs[q] == old(reqs)[q])
        decreases reqs.Keys
      {
        var q :| q in reqs;
        CloseStepsMore(old(run), qs, q);
        panicked := CloseEntry(q, e);
        qs := qs + [q];
        if panicked { return; }
      }
    }

    /** One entry: set err, wg.Done (which panics below zero), delete. */
    method CloseEntry(q: nat, e: Error) returns (panicked: bool)
      requires Valid() && !model.fault && model.sup == M.CloseReqs(e) && q in reqs
      modifies this`reqs, this`requests, this`run, this`model
      ensures panicked == model.fault && IsRun(offset, run, model) && run == old(run) + [M.CloseRequest(q)]
      ensures model.sup == M.CloseReqs(e)
      ensures !panicked ==> Valid() && reqs == old(reqs) - {q} && Failed(requests, old(reqs)[q], e)
      ensures !panicked ==> forall pr | Failed(old(requests), pr, e) :: Failed(requests, pr, e)
    {
      var pr := reqs[q];
      run, model := CloseRequestStep(offset, run, model, q);
      panicked := requests.heap[pr].wg <= 0;
      if !panicked {
        requests := requests.(heap := requests.heap[pr := requests.heap[pr].(err := Some(e),
            wg := requests.heap[pr].wg - 1)]);
        reqs := reqs - {q};
      }
    }

    // ----- the pieces put together

    /** The branch of an iteration in which SetWriteDeadline failed. */
    method FailBatch(batch: array<nat>, n: nat, e: Error)
      requires Valid() && !model.fault && !model.w.fault && model.w.loop.pc == W.Armed
      requires n <= batch.Length && batch[..n] == model.w.loop.batch && model.w.loop.i == 0
      modifies this
      ensures Valid() && model == old(model).(w := model.w) && !model.w.fault
      ensures model.w.loop == old(model).w.loop.(i := n, pc := W.Exited(Some(e)))
      ensures model.w.hist.wire == old(model).w.hist.wire
      ensures run == old(run) + BatchSteps(n, Some(e), [])
    {
      run, model := DeadlineStep(offset, run, model, Some(e));
      FailPass(batch, n, e);
      run, model := EndPassStep(offset, run, model);
      BatchFails(old(run), n, e);
    }

    /** The branch in which it did not. */
    method WriteBatch(batch: array<nat>, n: nat, rs: seq<Option<Error>>) returns (err: Option<Error>, sent: seq<Bytes>)
      requires Valid() && !model.fault && !model.w.fault && model.w.loop.pc == W.Armed && |rs| >= n
      requires n <= batch.Length && batch[..n] == model.w.loop.batch && model.w.loop.i == 0
      modifies this
      ensures Valid() && model == old(model).(w := model.w) && !model.w.fault && err == ErrorAfter(rs, n)
      ensures model.w.loop == old(model).w.loop.(i := n, pc := if err.Some? then W.Exited(err) else W.Flushing)
      ensures model.w.hist.wire == old(model).w.hist.wire + sent
      ensures run == old(run) + BatchSteps(n, None, rs)
    {
      run, model := DeadlineStep(offset, run, model, None);
      err, sent := WritePass(batch, n, rs);
      run, model := EndPassStep(offset, run, model);
      BatchWrites(old(run), n, rs);
    }

    /** The end of an iteration whose pass had the error err. */
    method FlushBatch(err: Option<Error>, flushed: Option<Error>) returns (left: Option<Error>)
      requires Valid() && !model.fault && !model.w.fault
      requires model.w.loop.pc == if err.Some? then W.Exited(err) else W.Flushing
      modifies this`run, this`model
      ensures Valid() && model == old(model).(w := model.w) && left == if err.Some? then err else flushed
      ensures model.w.loop == old(model).w.loop.(pc := if left.Some? then W.Exited(left) else W.Head)
      ensures model.w.hist.wire == old(model).w.hist.wire
      ensures (left.None? ==> model.w.hist.flushed == |model.w.hist.wire|)
      ensures run == old(run) + if err.Some? then [] else [M.Write(W.DoFlush(flushed))]
    {
      if err.Some? {
        return err;
      }
      run, model := FlushStep(offset, run, model, flushed);
      return flushed;
    }

    /**
     One iteration of writeLoop, during which nobody else moves.  deadline, rs and
     flushed are what SetWriteDeadline, the calls of conn.Write and Flush would
     return.  It sleeps on an empty queue, leaves on an empty queue of a shut
     writer, and else makes the steps of an iteration and leaves at its first error.
     */
    method Iterate(queue: array<nat>, deadline: Option<Error>, rs: seq<Option<Error>>, flushed: Option<Error>)
      returns (batch: array<nat>, asleep: bool, left: Option<Option<Error>>, sent: seq<Bytes>)
      requires Valid() && M.Enabled(model, M.Write(W.DoTake)) && |rs| >= |writerQueue|
      modifies this, queue
      ensures Valid() && (batch == queue || fresh(batch)) && writerQueue == [] && model == old(model).(w := model.w)
      ensures asleep == (!old(writerDone) && old(writerQueue) == [])
      ensures left == Leaving(old(writerQueue), old(writerDone), deadline, rs, flushed)
      ensures model.w.loop.pc == if asleep then W.Asleep else if left.Some? then W.Exited(left.value) else W.Head
      ensures run == old(run) + IterationSteps(|old(writerQueue)|, deadline, rs, flushed)
      ensures model.w.hist.wire == old(model).w.hist.wire + sent
    {
      var n, exit;
      sent := [];
      batch, n, asleep, exit := TakeBatch(queue);
      if asleep || exit {
        left := if exit then Some(None) else None;
        return;
      }
      ghost var taken := run;
      var err := deadline;
      if deadline.Some? {
        FailBatch(batch, n, deadline.value);
      } else {
        err, sent := WriteBatch(batch, n, rs);
      }
      var e := FlushBatch(err, flushed);
      left := if e.Some? then Some(e) else None;
      IterationRun(old(run), n, deadline, rs, flushed);
    }

    method EndClose(e: Error)
      requires Valid() && !model.fault && model.sup == M.CloseReqs(e) && reqs == map[]
      modifies this`seqno, this`run, this`model
      ensures Valid() && !model.fault && model.sup == M.Over(e) && seqno == 0 && run == old(run) + [M.EndClose]
    {
      seqno := 0;
      run, model := EndCloseStep(offset, run, model);
    }

    /** The end of close's first walk, its second, and seq reset. */
    method CloseRest(e: Error) returns (panicked: bool, ghost qs: seq<nat>)
      requires Valid() && !model.fault && model.sup == M.CloseWrites(e) && model.w.loop.i == |model.w.loop.batch|
      modifies this
      ensures panicked == model.fault && IsRun(offset, run, model)
      ensures !panicked ==> Valid() && writerQueue == old(writerQueue) && reqs == map[]
      ensures !panicked ==> forall q | q in old(reqs) :: Failed(requests, old(reqs)[q], e)
      ensures writes == old(writes)
      ensures !panicked ==> seqno == 0 && model.sup == M.Over(e)
      ensures run == old(run) + CloseRestSteps(qs, panicked)
    {
      run, model := EndWritesStep(offset, run, model);
      panicked, qs := CloseRequests(e);
      if !panicked {
        EndClose(e);
      }
      CloseRestRun(old(run), qs, panicked);
    }

    /**
     close, under c.mu throughout: both walks, and seq reset.  It completes all that
     is left and comes to its end, or panics at an entry of reqs as the machine says.
     */
    method Close(e: Error) returns (panicked: bool, ghost qs: seq<nat>)
      requires Valid() && !model.fault && model.sup == M.HandleReturned(e)
      modifies this
      ensures panicked == model.fault && IsRun(offset, run, model)
      ensures !panicked ==> Valid() && writerQueue == [] && reqs == map[] && seqno == 0 && model.sup == M.Over(e)
      ensures run == old(run) + [M.BeginClose] + Repeat(M.Write(W.DoComplete), |old(writerQueue)|)
          + CloseRestSteps(qs, panicked)
      ensures forall p | p in old(writerQueue) :: Answered(old(writes), writes, p, Some(e))
      ensures !panicked ==> forall q | q in old(reqs) :: Failed(requests, old(reqs)[q], e)
    {
      CloseWrites(e);
      panicked, qs := CloseRest(e);
    }
  }
}
