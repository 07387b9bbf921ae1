/**
 What a second wg.Done on a request does.  The machine of `Mux` stops at one; in Go
 it panics if the object's counter is at zero, and otherwise the object is another
 request's by now, which is filled and released in its stead.
 */
module MuxFaults {
  import opened Basics
  import opened Mux
  import opened MuxInv
  import W = Writer
  import MT = MuxTheorems
  import ML = MuxLost
  import Seqno

  /** The object whose wg.Done the step calls. */
  ghost function DoneOn(s: State, t: Step): Option<nat>
    requires Enabled(s, t)
  {
    match t
    case OwnDone(c) => Some(s.calls[c].pr)
    case CloseRequest(q) => Some(s.t.reqs[q])
    case Deliver => Some(s.r.rd.pr)
    case _ => None
  }

  /** The step panics: it takes a counter below zero. */
  ghost predicate BelowZero(s: State, t: Step)
    requires Enabled(s, t)
  {
    DoneOn(s, t).Some? && DoneOn(s, t).value in s.o.heap && s.o.heap[DoneOn(s, t).value].wg <= 0
  }

  /** The step delivers a reply into an object that has another owner by now, and counts it down. */
  ghost predicate Misdelivers(s: State, t: Step)
    requires Enabled(s, t)
  {
    t.Deliver? && s.r.rd.pr in s.o.heap && s.o.heap[s.r.rd.pr].wg > 0 && s.o.heap[s.r.rd.pr].owner != s.r.rd.c
  }

  /** Another request has acquired the object and awaits its own reply. */
  ghost predicate AwaitedBy(s: State, pr: nat, d: nat)
  {
    d in s.calls && !s.calls[d].pc.Returned? && s.calls[d].pr == pr && s.calls[d].done == []
  }

  ghost predicate HeldByAnother(s: State, pr: nat, c: nat)
  {
    exists d :: d != c && AwaitedBy(s, pr, d)
  }

  // ----- whose an object is

  lemma UnfinishedOwns(s: State, d: nat)
    requires CallsOk(s) && !s.fault && d in s.calls && !s.calls[d].pc.Returned?
    ensures var pr := s.calls[d].pr;
      && pr in s.o.heap && pr !in s.o.pool && s.o.heap[pr].owner == d && |s.calls[d].done| <= 1
      && s.o.heap[pr].wg == 1 - |s.calls[d].done|
      && (s.calls[d].done == [] ==> s.o.heap[pr].err.None?)
  {
    assert CallOk(d, s.calls[d], s.t, s.offset, s.r, s.o, s.fault);
  }

  lemma ReturnedReleased(s: State, d: nat)
    requires CallsOk(s) && !s.fault && d in s.calls && s.calls[d].pc.Returned?
    ensures var pr := s.calls[d].pr; pr in s.o.heap && (pr in s.o.pool || s.o.heap[pr].owner != d)
  {
    assert CallOk(d, s.calls[d], s.t, s.offset, s.r, s.o, s.fault);
  }

  /** The object's counter is above zero exactly while its owner awaits a reply. */
  lemma CounterIsOwners(s: State, pr: nat)
    requires CallsOk(s) && !s.fault && ML.OwnersOk(s) && pr in s.o.heap
    ensures s.o.heap[pr].wg > 0 <==> AwaitedBy(s, pr, s.o.heap[pr].owner)
    ensures forall d :: AwaitedBy(s, pr, d) ==> d == s.o.heap[pr].owner
  {
    var d := s.o.heap[pr].owner;
    if s.calls[d].pc.Returned? {
      ReturnedReleased(s, d);
      assert pr in s.o.pool;
    } else {
      UnfinishedOwns(s, d);
    }
    forall e | AwaitedBy(s, pr, e) ensures e == d { UnfinishedOwns(s, e); }
  }

  // ----- the three steps

  lemma InHandFacts(s: State)
    requires CallsOk(s) && !s.fault && Enabled(s, Deliver)
    ensures var x := s.calls[s.r.rd.c];
      s.r.rd.pr == x.pr && x.pr in s.o.heap && (x.done == [] || (x.pc.Unlisting? || x.pc.Returned?))
          && (x.pc.Returned? ==> x.done != [])
  {
    assert CallOk(s.r.rd.c, s.calls[s.r.rd.c], s.t, s.offset, s.r, s.o, s.fault);
  }

  lemma DeliverFaults(s: State)
    requires CallsOk(s) && !s.fault && ML.OwnersOk(s) && Enabled(s, Deliver)
    ensures var x := s.calls[s.r.rd.c]; var other := HeldByAnother(s, s.r.rd.pr, s.r.rd.c);
      && (BelowZero(s, Deliver) <==> x.done != [] && !other)
      && (Misdelivers(s, Deliver) <==> x.done != [] && other)
  {
    var c, pr := s.r.rd.c, s.r.rd.pr;
    InHandFacts(s);
    CounterIsOwners(s, pr);
    if s.o.heap[pr].wg > 0 && s.o.heap[pr].owner != c {
      assert AwaitedBy(s, pr, s.o.heap[pr].owner);
    }
    if s.calls[c].pc.Returned? { ReturnedReleased(s, c); } else { UnfinishedOwns(s, c); }
  }

  lemma OwnDoneFaults(s: State, c: nat)
    requires CallsOk(s) && !s.fault && Enabled(s, OwnDone(c))
    ensures BelowZero(s, OwnDone(c)) <==> s.calls[c].done != []
  {
    UnfinishedOwns(s, c);
  }

  lemma CloseRequestFaults(s: State, q: nat)
    requires CallsOk(s) && !s.fault && Enabled(s, CloseRequest(q))
    ensures BelowZero(s, CloseRequest(q)) <==> s.calls[s.o.heap[s.t.reqs[q]].owner].pc.Unlisting?
  {
    var c := s.o.heap[s.t.reqs[q]].owner;
    assert EntryOk(q, s.t.reqs[q], s.o, s.calls);
    assert CallOk(c, s.calls[c], s.t, s.offset, s.r, s.o, s.fault);
  }

  // ----- the theorems

  /**
   In every run the next step panics if and only if it is a refused request's own
   wg.Done after another's, close's wg.Done between that and the deletion of the
   entry, or a delivery to a completed request whose object nobody else awaits.
   */
  lemma PanicsExactlyWhen(offset: nat, ts: seq<Step>, t: Step)
    requires Seqno.IsOffset(offset) && After(offset, ts).Some? && Enabled(After(offset, ts).value, t)
    ensures var s := After(offset, ts).value;
      BelowZero(s, t) <==>
        || (t.OwnDone? && s.calls[t.c].done != [])
        || (t.CloseRequest? && s.calls[s.o.heap[s.t.reqs[t.q]].owner].pc.Unlisting?)
        || (t.Deliver? && s.calls[s.r.rd.c].done != [] && !HeldByAnother(s, s.r.rd.pr, s.r.rd.c))
  {
    ML.RunKeepsPlaces(offset, ts);
    var s := After(offset, ts).value;
    if t.OwnDone? { OwnDoneFaults(s, t.c); }
    else if t.CloseRequest? { CloseRequestFaults(s, t.q); }
    else if t.Deliver? { DeliverFaults(s); }
  }

  /**
   In every run the next step answers a request with what was meant for another if
   and only if it delivers to a refused request that has completed itself, whose
   object has been released, and acquired by a request that awaits its own reply.
   That one's object then holds the stranger's bytes, no error, and a counter of zero.
   */
  lemma MisdeliversExactlyWhen(offset: nat, ts: seq<Step>, t: Step)
    requires Seqno.IsOffset(offset) && After(offset, ts).Some? && Enabled(After(offset, ts).value, t)
    ensures var s := After(offset, ts).value;
      Misdelivers(s, t) <==> t.Deliver? && s.calls[s.r.rd.c].done != [] && HeldByAnother(s, s.r.rd.pr, s.r.rd.c)
    ensures var s := After(offset, ts).value;
      Misdelivers(s, t) ==>
        var d := s.o.heap[s.r.rd.pr].owner;
        && AwaitedBy(s, s.r.rd.pr, d) && s.calls[s.r.rd.c].ticket.None?
        && Completed(s.o.heap[s.r.rd.pr], ByReader(s.r.rd.body)) == PendingRequest(s.r.rd.body, None, 0, d)
  {
    ML.RunKeepsPlaces(offset, ts);
    var s := After(offset, ts).value;
    if t.Deliver? {
      DeliverFaults(s);
      if Misdelivers(s, t) { MisdeliveredTo(s); }
    }
  }

  lemma MisdeliveredTo(s: State)
    requires Base(s) && CallsOk(s) && !s.fault && ML.OwnersOk(s) && Enabled(s, Deliver) && Misdelivers(s, Deliver)
    ensures var d := s.o.heap[s.r.rd.pr].owner;
      && AwaitedBy(s, s.r.rd.pr, d) && s.calls[s.r.rd.c].ticket.None?
      && Completed(s.o.heap[s.r.rd.pr], ByReader(s.r.rd.body)) == PendingRequest(s.r.rd.body, None, 0, d)
  {
    CounterIsOwners(s, s.r.rd.pr);
    UnfinishedOwns(s, s.o.heap[s.r.rd.pr].owner);
    DeliverFaults(s);
    assert CallOk(s.r.rd.c, s.calls[s.r.rd.c], s.t, s.offset, s.r, s.o, s.fault);
  }

  /** The machine stops at just these two kinds of step. */
  lemma FaultIsEither(offset: nat, ts: seq<Step>, t: Step)
    requires Seqno.IsOffset(offset) && After(offset, ts).Some? && Enabled(After(offset, ts).value, t)
    ensures var s := After(offset, ts).value;
      (Next(s, t).fault <==> BelowZero(s, t) || Misdelivers(s, t)) && !(BelowZero(s, t) && Misdelivers(s, t))
  {
    MT.FaultsExactlyWhen(offset, ts, t);
    PanicsExactlyWhen(offset, ts, t);
    MisdeliversExactlyWhen(offset, ts, t);
  }

  // ----- a run that misdelivers

  /** A connection whose one request, with number 1 and object 0, is x. */
  ghost predicate Stage(s: State, x: Call, o: Objects, reqs: map<nat, nat>, rd: Reader, shut: bool, sup: Sup)
  {
    && s.calls == map[0 := x] && x.pr == 0 && x.seqno == 1 && s.o == o && s.t.reqs == reqs && s.r.rd == rd
    && s.w == W.Start.(loop := W.Start.loop.(done := shut)) && s.sup == sup && !s.fault
  }

  const Fresh: Objects := Objects(map[0 := PendingRequest([], None, 1, 0)], {})
  const Used: Objects := Objects(map[0 := PendingRequest([], None, 0, 0)], {})
  const Back: Objects := Objects(map[0 := PendingRequest([], None, 0, 0)], {0})

  lemma ReadStage(s: State, x: Call)
    requires Stage(s, x, Fresh, map[1 := 0], Reading, false, Selecting)
    ensures Enabled(s, Read([0, 0, 0, 1]))
    ensures var s' := Next(s, Read([0, 0, 0, 1]));
      Stage(s', x, Fresh, map[1 := 0], Routing(W.Frame(1, [])), false, Selecting) && |s'.r.inbox| > 0
  {
  }

  lemma RouteStage(s: State, x: Call)
    requires Stage(s, x, Fresh, map[1 := 0], Routing(W.Frame(1, [])), false, Selecting) && |s.r.inbox| > 0
    ensures Enabled(s, Route)
    ensures Stage(Next(s, Route), x.(taker := Message(|s.r.inbox| - 1)), Fresh, map[], Delivering(0, 0, []), false,
        Selecting)
  {
    assert s.t.reqs - {1} == map[];
  }

  lemma ShutStage(s: State, x: Call, rd: Reader)
    requires Stage(s, x, Fresh, map[], rd, false, Selecting)
    ensures Enabled(s, Stop) && Enabled(Next(s, Stop), ShutWriter)
    ensures Stage(Next(Next(s, Stop), ShutWriter), x, Fresh, map[], rd, true, DoneJoinWriter)
  {
  }

  lemma RefuseStage(s: State, x: Call, rd: Reader)
    requires Stage(s, x, Fresh, map[], rd, true, DoneJoinWriter) && x.pc.Listed?
    ensures Enabled(s, SendRequest(0, 0, 0))
    ensures Stage(Next(s, SendRequest(0, 0, 0)), x.(pc := Refused), Fresh, map[], rd, true, DoneJoinWriter)
  {
  }

  lemma OwnDoneStage(s: State, x: Call, rd: Reader)
    requires Stage(s, x, Fresh, map[], rd, true, DoneJoinWriter) && x.pc.Refused? && x.done == []
    ensures Enabled(s, OwnDone(0))
    ensures Stage(Next(s, OwnDone(0)), x.(pc := Unlisting, done := [ByItself]), Used, map[], rd, true, DoneJoinWriter)
  {
    assert s.o.heap[0 := PendingRequest([], None, 0, 0)] == Used.heap;
    assert x.done + [ByItself] == [ByItself];
    assert Next(s, OwnDone(0)).calls == map[0 := x.(pc := Unlisting, done := [ByItself])];
  }

  lemma UnlistStage(s: State, x: Call, rd: Reader)
    requires Stage(s, x, Used, map[], rd, true, DoneJoinWriter) && x.pc.Unlisting?
    ensures Enabled(s, Unlist(0))
    ensures Stage(Next(s, Unlist(0)), x.(pc := Returned(Failed(ShutDown))), Back, map[], rd, true, DoneJoinWriter)
  {
    assert Release(Used, 0) == Back;
  }

  /** readLoop has the request in hand, for a message of the peer, when it is refused and releases its object. */
  lemma ReleasedInHand() returns (ts: seq<Step>, s: State, x: Call)
    ensures After(1, ts) == Some(s) && Stage(s, x, Back, map[], Delivering(0, 0, []), true, DoneJoinWriter)
    ensures x.done == [ByItself]
  {
    ts := MT.ListedRequest();
    s := MT.OneRequest(Listed, 1, [], W.Start.loop, Reading, Selecting);
    x := s.calls[0];
    ReadStage(s, x);
    ts, s := MT.Extend(1, ts, s, Read([0, 0, 0, 1]));
    RouteStage(s, x);
    x := x.(taker := Message(|s.r.inbox| - 1));
    ts, s := MT.Extend(1, ts, s, Route);
    ts, s, x := RefusedInHand(ts, s, x);
  }

  lemma RefusedInHand(ts: seq<Step>, s: State, x: Call) returns (ts': seq<Step>, s': State, x': Call)
    requires After(1, ts) == Some(s) && Stage(s, x, Fresh, map[], Delivering(0, 0, []), false, Selecting)
    requires x.pc.Listed? && x.done == []
    ensures After(1, ts') == Some(s') && Stage(s', x', Back, map[], Delivering(0, 0, []), true, DoneJoinWriter)
    ensures x'.done == [ByItself]
  {
    var rd := s.r.rd;
    ShutStage(s, x, rd);
    ts', s' := MT.Extend(1, ts, s, Stop);
    ts', s' := MT.Extend(1, ts', s', ShutWriter);
    RefuseStage(s', x, rd);
    ts', s' := MT.Extend(1, ts', s', SendRequest(0, 0, 0));
    OwnDoneStage(s', x.(pc := Refused), rd);
    ts', s' := MT.Extend(1, ts', s', OwnDone(0));
    UnlistStage(s', x.(pc := Unlisting, done := [ByItself]), rd);
    ts', s' := MT.Extend(1, ts', s', Unlist(0));
    x' := x.(pc := Returned(Failed(ShutDown)), done := [ByItself]);
  }

  lemma AcquiredInHand(s: State, x: Call)
    requires Stage(s, x, Back, map[], Delivering(0, 0, []), true, DoneJoinWriter)
    ensures Enabled(s, Request(1, [], 0))
    ensures var s' := Next(s, Request(1, [], 0)); Enabled(s', Deliver) && Misdelivers(s', Deliver)
  {
  }

  /** The silent case is real: another request acquires the object, and the delivery is to it. */
  lemma RequestCanGetAnothersReply() returns (ts: seq<Step>)
    ensures After(Seqno.CLIENT_OFFSET, ts).Some? && Enabled(After(Seqno.CLIENT_OFFSET, ts).value, Deliver)
    ensures Misdelivers(After(Seqno.CLIENT_OFFSET, ts).value, Deliver)
  {
    var s, x;
    ts, s, x := ReleasedInHand();
    AcquiredInHand(s, x);
    ts, s := MT.Extend(1, ts, s, Request(1, [], 0));
  }
}
