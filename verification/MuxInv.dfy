/** What every reachable state of a connection satisfies. */
module MuxInv {
  import opened Basics
  import opened Mux
  import W = Writer
  import Seqno

  /** Where `Handle` and `close` are, against the two loops they supervise. */
  ghost predicate SupOk(sup: Sup, q: W.Loop, rd: Reader)
  {
    && (sup.Selecting? || sup.DoneShut? || sup.WriterShut? || sup.ReaderShut? || q.done)
    && (sup.WriterShut? || sup.JoinReader? ==> q.pc == W.Exited(sup.we))
    && (sup.ReaderShut? || sup.JoinWriter? ==> rd == Stopped(sup.e))
    && (sup.HandleReturned? ==> q.pc.Exited? && rd.Stopped?)
    && (sup.CloseWrites? ==> q.pc == W.Closing(sup.e) && rd.Stopped?)
    && (sup.CloseReqs? || sup.Over? ==> rd.Stopped?)
    && (q.pc.Closing? ==> sup.CloseWrites?)
    && (q.pc.Closed? <==> sup.CloseReqs? || sup.Over?)
  }

  /** The k-th accepted write x has the origin o. */
  ghost predicate OriginAt(k: nat, x: W.Entry, o: Origin, calls: map<nat, Call>, handled: seq<Invocation>)
  {
    match o
    case Plain => x.frame.seqno == 0
    case Req(c) => c in calls && calls[c].ticket == Some(k) && !x.wait
                   && x.frame == W.Frame(calls[c].seqno, calls[c].payload)
    case Rep(h) => h < |handled| && handled[h].ticket == Some(k) && x.wait
                   && handled[h].reply == Some(x.frame.body) && handled[h].frame.seqno == x.frame.seqno
  }

  predicate PointsAt(origin: seq<Origin>, ticket: Option<nat>, o: Origin)
  {
    ticket.Some? ==> ticket.value < |origin| && origin[ticket.value] == o
  }

  /** Every accepted write has one origin, and every request and invocation at most one write. */
  ghost predicate OriginOk(origin: seq<Origin>, log: seq<W.Entry>, calls: map<nat, Call>, handled: seq<Invocation>)
  {
    && |origin| == |log|
    && (forall k: nat | k < |origin| :: OriginAt(k, log[k], origin[k], calls, handled))
    && (forall c | c in calls :: PointsAt(origin, calls[c].ticket, Req(c))
          && (calls[c].ticket.Some? ==> calls[c].pc.Accepted? || calls[c].pc.Returned?))
    && (forall h | 0 <= h < |handled| :: PointsAt(origin, handled[h].ticket, Rep(h)))
  }

  ghost predicate Heard(r: ReadSide, v: Invocation)
  {
    v.n < |r.inbox| && |r.inbox[v.n]| >= 4 && v.frame == Parse(r.inbox[v.n]) && (v.reply.Some? <==> v.ticket.Some?)
  }

  ghost predicate ReadOk(r: ReadSide)
  {
    && (forall h | 0 <= h < |r.handled| :: Heard(r, r.handled[h]))
    && (forall g, h | 0 <= g < h < |r.handled| :: r.handled[g].n < r.handled[h].n)
    && (r.rd.Routing? ==>
          && |r.inbox| > 0 && |r.inbox[|r.inbox| - 1]| >= 4 && r.rd.f == Parse(r.inbox[|r.inbox| - 1])
          && (forall h | 0 <= h < |r.handled| :: r.handled[h].n < |r.inbox| - 1))
    && (r.rd.Handling? ==> |r.handled| > 0 && r.handled[|r.handled| - 1].ticket == r.rd.reply)
  }

  ghost predicate Base(s: State)
  {
    Seqno.IsOffset(s.offset) && W.Inv(s.w) && SupOk(s.sup, s.w.loop, s.r.rd)
        && OriginOk(s.origin, s.w.hist.log, s.calls, s.r.handled) && ReadOk(s.r)
  }

  // ----- one request

  ghost predicate NumberOk(t: Table, offset: nat, c: nat, x: Call)
  {
    && (x.num > 0 ==> x.num <= |t.issued| && t.issued[x.num - 1] == c && x.seqno == Seqno.Nth(offset, x.num))
    && (x.pc.Acquired? ==> x.num == 0)
    && (x.ticket.Some? ==> x.num > 0)
    && (x.pc.Returned? && x.ticket.None? ==> x.pc.r == Failed(ShutDown))
    && (|x.done| >= 2 ==> !x.taker.Nobody?)
  }

  /** The message that took c out of the table carries c's number. */
  ghost predicate TakerOk(x: Call, inbox: seq<Bytes>)
  {
    x.taker.Message? ==> x.taker.n < |inbox| && |inbox[x.taker.n]| >= 4 && ReadBE32(inbox[x.taker.n]) == x.seqno
  }

  /** How far a request is, who has completed it so far, and what it returned. */
  ghost predicate StageOk(x: Call)
  {
    && |x.done| <= 1
    && (x.pc.Acquired? || x.pc.Numbered? ==> x.taker.Nobody? && x.done == [])
    && (x.pc.Accepted? ==> x.ticket.Some?)
    && (x.pc.Acquired? || x.pc.Numbered? || x.pc.Listed? || x.pc.Refused? || x.pc.Unlisting? ==> x.ticket.None?)
    && (|x.done| == 1 && x.done[0].ByItself? <==> x.pc.Unlisting? || (x.pc.Returned? && x.ticket.None?))
    && (|x.done| == 1 && x.done[0].ByReader? ==> x.taker.Message?)
    && (|x.done| == 1 && x.done[0].ByClose? <==> x.taker.Close?)
    && (x.pc.Returned? && x.ticket.Some? ==> |x.done| == 1 && x.pc.r == if x.done[0].ByReader? then Ok(x.done[0].body)
                                             else if x.done[0].ByClose? then Failed(x.done[0].e) else x.pc.r)
  }

  /** Once readLoop has taken c, it has delivered that message to it or is about to; but number 0 is never delivered. */
  ghost predicate DeliveryOk(c: nat, x: Call, r: ReadSide)
    requires TakerOk(x, r.inbox)
  {
    && (x.taker.Message? && x.seqno == 0 ==> x.done == [] || x.done[0].ByItself?)
    && (x.taker.Message? && x.seqno != 0 ==>
          var body := r.inbox[x.taker.n][4..];
          if r.rd.Delivering? && r.rd.c == c
          then r.rd == Delivering(c, x.pr, body) && (|x.done| > 0 ==> x.done[0].ByItself?)
          else |x.done| == 1 && x.done[0] == ByReader(body))
    && (r.rd.Delivering? && r.rd.c == c ==> x.taker.Message? && x.seqno != 0)
  }

  /**
   An unfinished request owns its object, whose WaitGroup is 1 until the request
   is completed; a finished one has given it back.
   */
  ghost predicate ObjectOk(c: nat, x: Call, o: Objects)
  {
    x.pr in o.heap &&
    if x.pc.Returned? then x.pr in o.pool || o.heap[x.pr].owner != c
    else
      && x.pr !in o.pool
      && var p := o.heap[x.pr];
         && p.owner == c && p.wg == 1 - |x.done|
         && p.err == (if |x.done| == 1 && x.done[0].ByClose? then Some(x.done[0].e) else None)
         && (|x.done| == 1 && x.done[0].ByReader? ==> p.dst == x.done[0].body)
  }

  /** What holds of request c; after a fault, of an accepted one. */
  ghost predicate CallOk(c: nat, x: Call, t: Table, offset: nat, r: ReadSide, o: Objects, fault: bool)
  {
    NumberOk(t, offset, c, x) && TakerOk(x, r.inbox) &&
    (!fault || x.ticket.Some? ==> StageOk(x) && DeliveryOk(c, x, r)) &&
    (!fault ==> ObjectOk(c, x, o))
  }

  predicate InTable(x: Call)
  {
    x.taker.Nobody? && (x.pc.Listed? || x.pc.Accepted? || x.pc.Refused? || x.pc.Unlisting?)
  }

  /** The entry q of reqs is that of an unfinished request nobody has taken. */
  ghost predicate EntryOk(q: nat, pr: nat, o: Objects, calls: map<nat, Call>)
  {
    pr in o.heap && o.heap[pr].owner in calls &&
    var x := calls[o.heap[pr].owner];
    InTable(x) && x.pr == pr && x.seqno == q
  }

  /** reqs holds listed requests nobody has taken, each under its own number. */
  ghost predicate Listing(t: Table, o: Objects, calls: map<nat, Call>, offset: nat)
  {
    && t.seqno == Seqno.Nth(offset, |t.issued|)
    && (forall c | c in calls && !calls[c].pc.Acquired? :: calls[c].num > 0)
    && (forall q | q in t.reqs :: EntryOk(q, t.reqs[q], o, calls))
  }

  /** reqs holds all of them. */
  predicate AllListed(t: Table, calls: map<nat, Call>)
  {
    forall c | c in calls && InTable(calls[c]) :: calls[c].seqno in t.reqs && t.reqs[calls[c].seqno] == calls[c].pr
  }

  /** While numbers do not repeat that lasts until close has finished; then no accepted request is untaken. */
  predicate NoneMissing(t: Table, calls: map<nat, Call>, sup: Sup)
  {
    if sup.Over? then forall c | c in calls && calls[c].pc.Accepted? :: !calls[c].taker.Nobody?
    else AllListed(t, calls)
  }

  ghost predicate PoolOk(o: Objects)
  {
    forall p | p in o.pool :: p in o.heap && o.heap[p].wg == 0 && o.heap[p].err.None?
  }

  /** Some request was completed twice. */
  ghost predicate DoneTwice(calls: map<nat, Call>)
  {
    exists c :: c in calls && |calls[c].done| >= 2
  }

  ghost predicate EachOk(s: State)
  {
    forall c | c in s.calls :: CallOk(c, s.calls[c], s.t, s.offset, s.r, s.o, s.fault)
  }

  /** A WaitGroup goes below zero only when a request is completed twice. */
  ghost predicate CallsOk(s: State)
  {
    && EachOk(s)
    && (s.fault ==> DoneTwice(s.calls))
    && (!s.fault ==> PoolOk(s.o) && (!s.sup.Over? ==> Listing(s.t, s.o, s.calls, s.offset))
                     && (s.r.rd.Delivering? ==> s.r.rd.c in s.calls))
  }

  /** With the first 2^31 - 1 numbers, before they can repeat, no request loses its place in reqs. */
  ghost predicate Inv(s: State)
  {
    Base(s) && CallsOk(s) && (|s.t.issued| < Seqno.HALF && !s.fault ==> NoneMissing(s.t, s.calls, s.sup))
  }
}
