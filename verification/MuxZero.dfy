/**
 A run of the server end in which one request after the other is made, written,
 answered and returned, until the 2^31-th is numbered 0, is accepted, and is then lost
 to a message of the peer.
 */
module MuxZero {
  import opened Basics
  import opened Mux
  import opened ConnSteps
  import W = Writer
  import ME = MuxEffects
  import ML = MuxLost
  import Seqno

  const OFFSET: nat := Seqno.SERVER_OFFSET

  /** The writer has nothing to do, and the first pooled objects are free. */
  ghost predicate Idle(w: W.State)
  {
    w.loop.queue == [] && !w.loop.done && w.loop.pc.Head? && !w.fault && W.CanAcquire(w.mem, 0, 0)
  }

  ghost predicate Numbers(s: State, issued: nat, reqs: map<nat, nat>)
  {
    && s.offset == OFFSET && s.sup == Selecting && !s.fault && s.t.reqs == reqs
    && |s.t.issued| == issued && s.t.seqno == Seqno.Nth(OFFSET, issued)
  }

  /** The first n requests have returned. */
  ghost predicate Between(s: State, n: nat)
  {
    && Numbers(s, n, map[]) && Idle(s.w) && s.r.rd == Reading
    && (forall c | c in s.calls :: c < n && s.calls[c].pc.Returned?)
    && s.o == if n == 0 then Objects(map[], {}) else Objects(map[0 := PendingRequest([], None, 0, n - 1)], {0})
  }

  /** And the next one is x, with the object p. */
  ghost predicate Within(s: State, n: nat, x: Call, p: PendingRequest, rd: Reader)
  {
    && n in s.calls && s.calls[n] == x && x.pr == 0 && s.o == Objects(map[0 := p], {}) && s.r.rd == rd
    && (forall c | c in s.calls && c != n :: c < n && s.calls[c].pc.Returned?)
  }

  function Entered(n: nat): Call
  {
    Call([], 0, Listed, Seqno.Nth(OFFSET, n + 1), n + 1, None, Nobody, [])
  }

  lemma RequestIsMade(s: State, n: nat)
    requires Between(s, n)
    ensures Enabled(s, Request(n, [], 0))
    ensures var s' := Next(s, Request(n, [], 0));
      && Numbers(s', n, map[]) && s'.w == s.w
      && Within(s', n, Call([], 0, Acquired, 0, 0, None, Nobody, []), PendingRequest([], None, 1, n), Reading)
  {
  }

  lemma RequestIsNumbered(s: State, n: nat)
    requires Numbers(s, n, map[])
    requires Within(s, n, Call([], 0, Acquired, 0, 0, None, Nobody, []), PendingRequest([], None, 1, n), Reading)
    ensures Enabled(s, Number(n))
    ensures var s' := Next(s, Number(n));
      && Numbers(s', n + 1, map[]) && s'.w == s.w
      && Within(s', n, Entered(n).(pc := Numbered), PendingRequest([], None, 1, n), Reading)
  {
  }

  lemma RequestIsListed(s: State, n: nat)
    requires Numbers(s, n + 1, map[])
    requires Within(s, n, Entered(n).(pc := Numbered), PendingRequest([], None, 1, n), Reading)
    ensures Enabled(s, List(n))
    ensures var s' := Next(s, List(n));
      && Numbers(s', n + 1, map[Seqno.Nth(OFFSET, n + 1) := 0]) && s'.w == s.w
      && Within(s', n, Entered(n), PendingRequest([], None, 1, n), Reading)
  {
  }

  /** An accepted request: what it is but for its ticket. */
  ghost predicate Accepts(s: State, n: nat)
  {
    && n in s.calls && s.calls[n].ticket.Some?
    && Within(s, n, Entered(n).(pc := Accepted, ticket := s.calls[n].ticket), PendingRequest([], None, 1, n), Reading)
    && Numbers(s, n + 1, map[Seqno.Nth(OFFSET, n + 1) := 0])
  }

  lemma RequestIsAccepted(s: State, n: nat)
    requires Numbers(s, n + 1, map[Seqno.Nth(OFFSET, n + 1) := 0]) && Idle(s.w)
    requires Within(s, n, Entered(n), PendingRequest([], None, 1, n), Reading)
    ensures Enabled(s, SendRequest(n, 0, 0))
    ensures var s' := Next(s, SendRequest(n, 0, 0)); Accepts(s', n) && Loaded(s'.w)
  {
  }

  /** One frame is queued, in the objects 0. */
  ghost predicate Loaded(w: W.State)
  {
    && w.loop.queue == [0] && !w.loop.done && w.loop.pc.Head? && !w.fault
    && 0 in w.mem.heap && w.mem.heap[0].buf == 0 && !w.mem.heap[0].wait
  }

  /** The next request gets its number, its entry and its acceptance. */
  lemma NextIsAccepted(run: seq<Step>, s: State, n: nat) returns (run': seq<Step>, s': State)
    requires IsRun(OFFSET, run, s) && Between(s, n)
    ensures IsRun(OFFSET, run', s') && Accepts(s', n) && Loaded(s'.w)
  {
    RequestIsMade(s, n);
    run', s' := Extend(OFFSET, run, s, Request(n, [], 0));
    RequestIsNumbered(s', n);
    run', s' := Extend(OFFSET, run', s', Number(n));
    RequestIsListed(s', n);
    run', s' := Extend(OFFSET, run', s', List(n));
    RequestIsAccepted(s', n);
    run', s' := Extend(OFFSET, run', s', SendRequest(n, 0, 0));
  }

  /** The writer writes and flushes it. */
  lemma NextIsWritten(run: seq<Step>, s: State) returns (run': seq<Step>, s': State)
    requires IsRun(OFFSET, run, s) && !s.fault && s.sup == Selecting && Loaded(s.w)
    ensures IsRun(OFFSET, run', s') && s' == s.(w := s'.w) && Idle(s'.w)
  {
    run', s' := TakeStep(OFFSET, run, s);
    run', s' := DeadlineStep(OFFSET, run', s', None);
    run', s' := WriteStep(OFFSET, run', s', None);
    assert FieldsOf(s').writes == FieldsOf(s).writes == s.w.mem == s'.w.mem;
    run', s' := CompleteStep(OFFSET, run', s');
    Recycled(s.w.mem);
    assert FieldsOf(s').writes == W.Finish(s.w.mem, 0, None).value == s'.w.mem;
    var m := s'.w.mem;
    run', s' := EndPassStep(OFFSET, run', s');
    assert FieldsOf(s').writes == m == s'.w.mem;
    run', s' := FlushStep(OFFSET, run', s', None);
    assert FieldsOf(s').writes == m == s'.w.mem;
  }

  lemma Recycled(m: W.Memory)
    requires 0 in m.heap && m.heap[0].buf == 0 && !m.heap[0].wait && W.Finish(m, 0, None).Some?
    ensures W.CanAcquire(W.Finish(m, 0, None).value, 0, 0)
  {
  }

  lemma ReplyIsRead(s: State, n: nat)
    requires Accepts(s, n)
    ensures var q := Seqno.Nth(OFFSET, n + 1);
      Enabled(s, Read(BE32(q)))
    ensures var q := Seqno.Nth(OFFSET, n + 1); var s' := Next(s, Read(BE32(q)));
      && s' == s.(r := s'.r) && |s'.r.inbox| > 0
      && (q < TWO32 ==> s'.r.rd == Routing(W.Frame(q, [])))
  {
    var q := Seqno.Nth(OFFSET, n + 1);
    BE32RoundTrip(q, []);
    assert BE32(q) + [] == BE32(q);
    assert BE32(q)[4..] == [];
    if q < TWO32 { assert q % TWO32 == q by { Small(q); } }
  }

  lemma Small(q: nat)
    requires q < TWO32
    ensures q % TWO32 == q
  {
  }

  lemma ReplyIsRouted(s: State, n: nat)
    requires Accepts(s.(r := s.r.(rd := Reading)), n) && |s.r.inbox| > 0
    requires Seqno.Nth(OFFSET, n + 1) != 0 && s.r.rd == Routing(W.Frame(Seqno.Nth(OFFSET, n + 1), []))
    ensures Enabled(s, Route)
    ensures var s' := Next(s, Route);
      && Numbers(s', n + 1, map[]) && s'.w == s.w
      && Within(s', n, s.calls[n].(taker := Message(|s.r.inbox| - 1)), PendingRequest([], None, 1, n),
                Delivering(n, 0, []))
  {
    ME.RouteEffect(s);
    var q := Seqno.Nth(OFFSET, n + 1);
    assert map[q := 0] - {q} == map[];
  }

  lemma ReplyIsDelivered(s: State, n: nat, x: Call)
    requires Numbers(s, n + 1, map[]) && x.pc.Accepted?
    requires Within(s, n, x, PendingRequest([], None, 1, n), Delivering(n, 0, []))
    ensures Enabled(s, Deliver)
    ensures var s' := Next(s, Deliver);
      && Numbers(s', n + 1, map[]) && s'.w == s.w
      && Within(s', n, x.(done := x.done + [ByReader([])]), PendingRequest([], None, 0, n), Reading)
  {
    assert map[0 := PendingRequest([], None, 1, n)][0 := PendingRequest([], None, 0, n)]
        == map[0 := PendingRequest([], None, 0, n)];
  }

  lemma ReplyIsReturned(s: State, n: nat, x: Call)
    requires Numbers(s, n + 1, map[]) && x.pc.Accepted? && Idle(s.w)
    requires Within(s, n, x, PendingRequest([], None, 0, n), Reading)
    ensures Enabled(s, Finish(n)) && Between(Next(s, Finish(n)), n + 1)
  {
    var o := Release(s.o, 0);
    assert o == Objects(map[0 := PendingRequest([], None, 0, n)], {0});
  }

  lemma NumberInRange(n: nat)
    requires n < Seqno.HALF
    ensures Seqno.Nth(OFFSET, n) < TWO32 && (n > 0 ==> Seqno.Nth(OFFSET, n) != 0)
  {
    Seqno.FirstServerNumber(n);
  }

  /** The peer replies, and the request returns. */
  lemma NextIsAnswered(run: seq<Step>, s: State, n: nat) returns (run': seq<Step>, s': State)
    requires IsRun(OFFSET, run, s) && Accepts(s, n) && Idle(s.w) && n + 1 < Seqno.HALF
    ensures IsRun(OFFSET, run', s') && Between(s', n + 1)
  {
    NumberInRange(n + 1);
    ReplyIsRead(s, n);
    run', s' := Extend(OFFSET, run, s, Read(BE32(Seqno.Nth(OFFSET, n + 1))));
    assert s'.(r := s'.r.(rd := Reading)).calls == s.calls;
    ReplyIsRouted(s', n);
    run', s' := Extend(OFFSET, run', s', Route);
    var x := s'.calls[n];
    ReplyIsDelivered(s', n, x);
    run', s' := Extend(OFFSET, run', s', Deliver);
    ReplyIsReturned(s', n, x.(done := x.done + [ByReader([])]));
    run', s' := Extend(OFFSET, run', s', Finish(n));
  }

  lemma {:induction false} ServedTo(n: nat) returns (run: seq<Step>, s: State)
    requires n < Seqno.HALF
    ensures IsRun(OFFSET, run, s) && Between(s, n)
  {
    if n == 0 {
      run, s := [], Start(OFFSET);
      assert IsTrace(OFFSET, [], [Start(OFFSET)]);
    } else {
      run, s := ServedTo(n - 1);
      run, s := NextIsAccepted(run, s, n - 1);
      run, s := NextIsWritten(run, s);
      run, s := NextIsAnswered(run, s, n - 1);
    }
  }

  /** After 2^31 - 1 requests, each of which returned before the next, the next is accepted under 0. */
  lemma ZeroIsAccepted() returns (run: seq<Step>, s: State, c: nat)
    ensures After(OFFSET, run) == Some(s) && ML.WaitsAccepted(s, c) && ML.HasEntry(s, c)
    ensures s.calls[c].seqno == 0 && s.calls[c].taker.Nobody? && s.r.rd == Reading && s.sup == Selecting
    ensures forall d | d in s.calls && d != c :: s.calls[d].pc.Returned?
  {
    c := Seqno.HALF - 1;
    run, s := ServedTo(c);
    run, s := NextIsAccepted(run, s, c);
    Seqno.ServerNumbers(1, Seqno.HALF);
    RunIsAfter(OFFSET, run, s);
  }

  lemma ZerosArrive(s: State)
    requires !s.fault && s.sup == Selecting && s.r.rd == Reading
    ensures Enabled(s, Read([0, 0, 0, 0])) && Enabled(Next(s, Read([0, 0, 0, 0])), Route)
    ensures Next(s, Read([0, 0, 0, 0])) == s.(r := Next(s, Read([0, 0, 0, 0])).r)
    ensures Next(s, Read([0, 0, 0, 0])).r.rd == Routing(W.Frame(0, []))
  {
  }

  /** The peer sends four bytes of zeros, and nothing ever completes the accepted request. */
  lemma NumberZeroIsLost() returns (ts: seq<Step>, c: nat)
    ensures After(OFFSET, ts).Some? && ML.Lost(After(OFFSET, ts).value, c)
    ensures forall us | After(OFFSET, ts + us).Some? :: ML.Lost(After(OFFSET, ts + us).value, c)
  {
    var s;
    ts, s, c := ZeroIsAccepted();
    ZerosArrive(s);
    ts, s := AfterExtends(ts, s, Read([0, 0, 0, 0]));
    ML.DeliveredUnlessZero(OFFSET, ts, c);
    ts, s := AfterExtends(ts, s, Route);
    forall us | After(OFFSET, ts + us).Some? ensures ML.Lost(After(OFFSET, ts + us).value, c) {
      ML.LostForever(OFFSET, ts, us, c);
    }
  }

  lemma AfterExtends(ts: seq<Step>, s: State, t: Step) returns (ts': seq<Step>, s': State)
    requires After(OFFSET, ts) == Some(s) && Enabled(s, t)
    ensures ts' == ts + [t] && s' == Next(s, t) && After(OFFSET, ts') == Some(s')
  {
    ts', s' := ts + [t], Next(s, t);
    assert ts'[..|ts'| - 1] == ts;
  }
}
