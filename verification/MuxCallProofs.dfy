/** Every step of a connection keeps `CallsOk`: what happens to each request. */
module MuxCallProofs {
  import opened Basics
  import opened Mux
  import opened MuxInv
  import Seqno

  // ----- frames

  /** A request is unaffected by what happens to other requests, objects and messages. */
  lemma CallFrame(c: nat, x: Call, t: Table, t': Table, offset: nat, r: ReadSide, r': ReadSide, o: Objects, o': Objects)
    requires CallOk(c, x, t, offset, r, o, false)
    requires t.issued <= t'.issued && r.inbox <= r'.inbox
    requires r'.rd == r.rd || !((r.rd.Delivering? && r.rd.c == c) || (r'.rd.Delivering? && r'.rd.c == c))
    requires x.pr in o'.heap
    requires !x.pc.Returned? ==> o'.heap[x.pr] == o.heap[x.pr] && x.pr !in o'.pool
    requires x.pc.Returned? ==> x.pr in o'.pool || o'.heap[x.pr].owner != c
    ensures CallOk(c, x, t', offset, r', o', false)
    ensures x.ticket.Some? ==> CallOk(c, x, t', offset, r', o', true)
  {
  }

  /** What CallOk says of the numbers survives a fault. */
  lemma CallAfterFault(c: nat, x: Call, done: seq<Done>, pc: CallPc, t: Table, offset: nat, r: ReadSide, r': ReadSide,
                       o: Objects, o': Objects)
    requires CallOk(c, x, t, offset, r, o, false) && r'.inbox == r.inbox && x.ticket.None? && !pc.Acquired?
    requires (pc == x.pc || !pc.Returned?) && (|done| <= 1 || !x.taker.Nobody?)
    ensures CallOk(c, x.(done := done, pc := pc), t, offset, r', o', true)
  {
  }

  /** Before numbers can repeat, a number belongs to one request. */
  lemma NumbersDiffer(s: State, c: nat, d: nat)
    requires Seqno.IsOffset(s.offset) && EachOk(s) && |s.t.issued| < Seqno.HALF && c in s.calls && d in s.calls
    requires s.calls[c].num > 0 && s.calls[d].num > 0
    ensures 0 < s.calls[c].seqno < TWO32 && s.calls[c].seqno % 2 == s.offset % 2
    ensures s.calls[c].seqno == s.calls[d].seqno ==> c == d
  {
    assert CallOk(c, s.calls[c], s.t, s.offset, s.r, s.o, s.fault);
    assert CallOk(d, s.calls[d], s.t, s.offset, s.r, s.o, s.fault);
    Seqno.FirstNumbers(s.offset, s.calls[c].num, s.calls[d].num);
    Seqno.FirstNumbers(s.offset, s.calls[d].num, s.calls[c].num);
  }

  lemma UniqueNumber(s: State, c: nat)
    requires Seqno.IsOffset(s.offset) && EachOk(s) && |s.t.issued| < Seqno.HALF && c in s.calls && s.calls[c].num > 0
    ensures forall d | d in s.calls && d != c && s.calls[d].num > 0 :: s.calls[d].seqno != s.calls[c].seqno
  {
    forall d | d in s.calls && d != c && s.calls[d].num > 0 ensures s.calls[d].seqno != s.calls[c].seqno {
      NumbersDiffer(s, c, d);
    }
  }

  /** The objects in reqs are out of the pool. */
  lemma TableObjects(s: State)
    requires EachOk(s) && !s.fault && Listing(s.t, s.o, s.calls, s.offset)
    ensures forall q | q in s.t.reqs :: s.t.reqs[q] in s.o.heap && s.t.reqs[q] !in s.o.pool
  {
    forall q | q in s.t.reqs ensures s.t.reqs[q] in s.o.heap && s.t.reqs[q] !in s.o.pool {
      assert EntryOk(q, s.t.reqs[q], s.o, s.calls);
      var c := s.o.heap[s.t.reqs[q]].owner;
      assert CallOk(c, s.calls[c], s.t, s.offset, s.r, s.o, s.fault);
    }
  }

  // ----- the table: a call that keeps its place, enters, or leaves

  ghost predicate SameOwners(t: Table, o: Objects, o': Objects)
  {
    forall q | q in t.reqs :: t.reqs[q] in o.heap && t.reqs[q] in o'.heap
        && o'.heap[t.reqs[q]].owner == o.heap[t.reqs[q]].owner
  }

  lemma ListingStays(t: Table, t': Table, o: Objects, o': Objects, calls: map<nat, Call>, c: nat, x: Call, offset: nat)
    requires Listing(t, o, calls, offset) && SameOwners(t, o, o')
    requires t'.reqs == t.reqs && t'.seqno == Seqno.Nth(offset, |t'.issued|)
    requires !x.pc.Acquired? ==> x.num > 0
    requires c in calls && InTable(calls[c]) ==> InTable(x) && x.pr == calls[c].pr && x.seqno == calls[c].seqno
    ensures Listing(t', o', calls[c := x], offset)
  {
    var calls' := calls[c := x];
    forall q | q in t'.reqs ensures EntryOk(q, t'.reqs[q], o', calls') { assert EntryOk(q, t.reqs[q], o, calls); }
  }

  lemma ListingEnters(t: Table, o: Objects, calls: map<nat, Call>, c: nat, x: Call, offset: nat)
    requires Listing(t, o, calls, offset) && c in calls && x.num > 0 && InTable(x) && !InTable(calls[c])
    requires x.pr in o.heap && o.heap[x.pr].owner == c
    ensures Listing(t.(reqs := t.reqs[x.seqno := x.pr]), o, calls[c := x], offset)
  {
    var t' := t.(reqs := t.reqs[x.seqno := x.pr]);
    forall q | q in t'.reqs ensures EntryOk(q, t'.reqs[q], o, calls[c := x]) {
      if q != x.seqno { assert EntryOk(q, t.reqs[q], o, calls); }
    }
  }

  lemma ListingLeaves(t: Table, o: Objects, o': Objects, calls: map<nat, Call>, c: nat, x: Call, offset: nat)
    requires Listing(t, o, calls, offset) && SameOwners(t, o, o') && c in calls && x.num > 0 && !InTable(x)
    requires x.seqno == calls[c].seqno
    ensures Listing(t.(reqs := t.reqs - {x.seqno}), o', calls[c := x], offset)
  {
    var t' := t.(reqs := t.reqs - {x.seqno});
    forall q | q in t'.reqs ensures EntryOk(q, t'.reqs[q], o',
        calls[c := x]) { assert EntryOk(q, t.reqs[q], o, calls); }
  }

  // ----- steps that leave the requests alone

  lemma QuietStepKeepsCalls(s: State, s': State)
    requires CallsOk(s) && !s.fault
    requires s'.calls == s.calls && s'.t == s.t && s'.o == s.o && s'.offset == s.offset && s'.fault == s.fault
    requires s'.sup.Over? <==> s.sup.Over?
    requires s.r.inbox <= s'.r.inbox && (s'.r == s.r || (!s.r.rd.Delivering? && !s'.r.rd.Delivering?))
    ensures CallsOk(s')
  {
    forall c | c in s'.calls ensures CallOk(c, s'.calls[c], s'.t, s'.offset, s'.r, s'.o, s'.fault) {
      CallFrame(c, s.calls[c], s.t, s'.t, s.offset, s.r, s'.r, s.o, s'.o);
    }
  }

  lemma EndCloseKeepsCalls(s: State)
    requires CallsOk(s) && Enabled(s, EndClose)
    ensures CallsOk(Next(s, EndClose))
  {
    var s' := Next(s, EndClose);
    forall c | c in s'.calls ensures CallOk(c, s'.calls[c], s'.t, s'.offset, s'.r, s'.o, s'.fault) {
      CallFrame(c, s.calls[c], s.t, s'.t, s.offset, s.r, s'.r, s.o, s'.o);
    }
  }

  // ----- the steps of one request

  /** Calls other than c are as they were, and c's new state is fine. */
  lemma OneCallKeepsEach(s: State, s': State, c: nat)
    requires EachOk(s) && !s.fault && c in s.calls && !s.calls[c].pc.Returned?
    requires c in s'.calls && s'.calls == s.calls[c := s'.calls[c]] && s'.offset == s.offset && !s'.fault
    requires s.t.issued <= s'.t.issued && s.r.inbox <= s'.r.inbox
    requires s'.r.rd == s.r.rd || !((s.r.rd.Delivering? && s.r.rd.c != c) || (s'.r.rd.Delivering? && s'.r.rd.c != c))
    requires var pr := s.calls[c].pr;
      && pr in s.o.heap && pr in s'.o.heap && s'.o.heap == s.o.heap[pr := s'.o.heap[pr]]
      && s'.o.heap[pr].owner == s.o.heap[pr].owner && (s'.o.pool == s.o.pool || s'.o.pool == s.o.pool + {pr})
    requires CallOk(c, s'.calls[c], s'.t, s'.offset, s'.r, s'.o, s'.fault)
    ensures EachOk(s')
  {
    assert CallOk(c, s.calls[c], s.t, s.offset, s.r, s.o, s.fault);
    forall d | d in s'.calls ensures CallOk(d, s'.calls[d], s'.t, s'.offset, s'.r, s'.o, s'.fault) {
      if d != c {
        assert CallOk(d, s.calls[d], s.t, s.offset, s.r, s.o, s.fault);
        CallFrame(d, s.calls[d], s.t, s'.t, s.offset, s.r, s'.r, s.o, s'.o);
      }
    }
  }

  lemma RequestKeepsEach(s: State, c: nat, payload: Bytes, pr: nat)
    requires CallsOk(s) && Enabled(s, Request(c, payload, pr))
    ensures EachOk(Next(s, Request(c, payload, pr)))
  {
    var s' := Next(s, Request(c, payload, pr));
    forall d | d in s'.calls ensures CallOk(d, s'.calls[d], s'.t, s'.offset, s'.r, s'.o, s'.fault) {
      if d != c {
        assert CallOk(d, s.calls[d], s.t, s.offset, s.r, s.o, s.fault);
        CallFrame(d, s.calls[d], s.t, s'.t, s.offset, s.r, s'.r, s.o, s'.o);
      }
    }
  }

  lemma RequestKeepsCalls(s: State, c: nat, payload: Bytes, pr: nat)
    requires CallsOk(s) && Enabled(s, Request(c, payload, pr))
    ensures CallsOk(Next(s, Request(c, payload, pr)))
  {
    RequestKeepsEach(s, c, payload, pr);
    if !s.sup.Over? {
      TableObjects(s);
      ListingStays(s.t, s.t, s.o, Acquire(s.o, pr, c), s.calls, c, Call(payload, pr, Acquired, 0, 0, None, Nobody, []),
          s.offset);
    }
  }

  lemma NumberKeepsEach(s: State, c: nat)
    requires EachOk(s) && Enabled(s, Number(c)) && (!s.sup.Over? ==> s.t.seqno == Seqno.Nth(s.offset, |s.t.issued|))
    ensures EachOk(DoNumber(s, c))
    ensures !s.sup.Over? ==> DoNumber(s, c).t.seqno == Seqno.Nth(s.offset, |s.t.issued| + 1)
  {
    assert CallOk(c, s.calls[c], s.t, s.offset, s.r, s.o, s.fault);
    OneCallKeepsEach(s, DoNumber(s, c), c);
  }

  lemma NumberKeepsListing(s: State, c: nat)
    requires EachOk(s) && Enabled(s, Number(c)) && !s.sup.Over? && Listing(s.t, s.o, s.calls, s.offset)
    requires DoNumber(s, c).t.seqno == Seqno.Nth(s.offset, |s.t.issued| + 1)
    ensures var s' := DoNumber(s, c); Listing(s'.t, s'.o, s'.calls, s'.offset)
  {
    var s' := DoNumber(s, c);
    TableObjects(s);
    ListingStays(s.t, s'.t, s.o, s.o, s.calls, c, s'.calls[c], s.offset);
  }

  lemma NumberKeepsCalls(s: State, c: nat)
    requires CallsOk(s) && Enabled(s, Number(c))
    ensures CallsOk(DoNumber(s, c))
  {
    NumberKeepsEach(s, c);
    if !s.sup.Over? {
      NumberKeepsListing(s, c);
    }
  }

  lemma ListKeepsCalls(s: State, c: nat)
    requires CallsOk(s) && Enabled(s, List(c))
    ensures CallsOk(Next(s, List(c)))
  {
    var s' := Next(s, List(c));
    assert CallOk(c, s.calls[c], s.t, s.offset, s.r, s.o, s.fault);
    OneCallKeepsEach(s, s', c);
    if !s.sup.Over? {
      ListingEnters(s.t, s.o, s.calls, c, s'.calls[c], s.offset);
    }
  }

  lemma SendRequestKeepsEach(s: State, c: nat, pw: nat, buf: nat)
    requires EachOk(s) && Enabled(s, SendRequest(c, pw, buf)) && (!s.w.loop.done ==> s.calls[c].num > 0)
    ensures EachOk(DoSendRequest(s, c, pw, buf))
  {
    assert CallOk(c, s.calls[c], s.t, s.offset, s.r, s.o, s.fault);
    OneCallKeepsEach(s, DoSendRequest(s, c, pw, buf), c);
  }

  lemma SendRequestKeepsCalls(s: State, c: nat, pw: nat, buf: nat)
    requires CallsOk(s) && Enabled(s, SendRequest(c, pw, buf)) && (s.sup.Over? ==> s.w.loop.done)
    ensures CallsOk(DoSendRequest(s, c, pw, buf))
  {
    var s' := DoSendRequest(s, c, pw, buf);
    SendRequestKeepsEach(s, c, pw, buf);
    if !s.sup.Over? {
      TableObjects(s);
      ListingStays(s.t, s.t, s.o, s.o, s.calls, c, s'.calls[c], s.offset);
    }
  }

  lemma FinishKeepsCalls(s: State, c: nat)
    requires CallsOk(s) && Enabled(s, Finish(c))
    ensures CallsOk(DoFinish(s, c))
  {
    var s' := DoFinish(s, c);
    assert CallOk(c, s.calls[c], s.t, s.offset, s.r, s.o, s.fault);
    OneCallKeepsEach(s, s', c);
    if !s.sup.Over? {
      TableObjects(s);
      ListingStays(s.t, s.t, s.o, s'.o, s.calls, c, s'.calls[c], s.offset);
    }
  }

  lemma UnlistKeepsEach(s: State, c: nat)
    requires EachOk(s) && Enabled(s, Unlist(c))
    ensures EachOk(DoUnlist(s, c))
  {
    assert CallOk(c, s.calls[c], s.t, s.offset, s.r, s.o, s.fault);
    OneCallKeepsEach(s, DoUnlist(s, c), c);
  }

  lemma UnlistKeepsListing(s: State, c: nat)
    requires EachOk(s) && Enabled(s, Unlist(c))
    requires Listing(s.t, s.o, s.calls, s.offset)
    ensures var s' := DoUnlist(s, c); Listing(s'.t, s'.o, s'.calls, s'.offset)
  {
    TableObjects(s);
    ListingLeaves(s.t, s.o, DoUnlist(s, c).o, s.calls, c, DoUnlist(s, c).calls[c], s.offset);
  }

  lemma UnlistKeepsCalls(s: State, c: nat)
    requires CallsOk(s) && Enabled(s, Unlist(c))
    ensures CallsOk(DoUnlist(s, c))
  {
    UnlistKeepsEach(s, c);
    assert CallOk(c, s.calls[c], s.t, s.offset, s.r, s.o, s.fault);
    if !s.sup.Over? { UnlistKeepsListing(s, c); }
  }

  // ----- wg.Done: by the request itself, by readLoop, by close

  /** After a fault the requests that were accepted are as they should be. */
  lemma FaultKeepsEach(s: State, s': State, c: nat)
    requires EachOk(s) && !s.fault && c in s.calls && s'.fault && s'.t.issued == s.t.issued && s'.offset == s.offset
    requires c in s'.calls && s'.calls == s.calls[c := s'.calls[c]] && s'.r.inbox == s.r.inbox && s'.o == s.o
    requires s'.r.rd == s.r.rd || (!(s.r.rd.Delivering? && s.r.rd.c != c) && !s'.r.rd.Delivering?)
    requires CallOk(c, s'.calls[c], s'.t, s'.offset, s'.r, s'.o, true)
    ensures EachOk(s')
  {
    forall d | d in s'.calls ensures CallOk(d, s'.calls[d], s'.t, s'.offset, s'.r, s'.o, s'.fault) {
      if d != c { assert CallOk(d, s.calls[d], s.t, s.offset, s.r, s.o, s.fault); }
    }
  }

  lemma OwnDoneKeepsEach(s: State, c: nat)
    requires EachOk(s) && Enabled(s, OwnDone(c))
    ensures EachOk(Next(s, OwnDone(c)))
    ensures |s.calls[c].done| <= 1 && (Next(s, OwnDone(c)).fault <==> |s.calls[c].done| == 1)
  {
    var s' := Next(s, OwnDone(c));
    var x := s.calls[c];
    assert CallOk(c, x, s.t, s.offset, s.r, s.o, s.fault);
    if x.done == [] {
      OneCallKeepsEach(s, s', c);
    } else {
      CallAfterFault(c, x, s'.calls[c].done, Unlisting, s.t, s.offset, s.r, s.r, s.o, s.o);
      FaultKeepsEach(s, s', c);
    }
  }

  lemma OwnDoneKeepsListing(s: State, c: nat)
    requires EachOk(s) && Enabled(s, OwnDone(c)) && Listing(s.t, s.o, s.calls, s.offset) && s.calls[c].done == []
    ensures var s' := Next(s, OwnDone(c)); Listing(s'.t, s'.o, s'.calls, s'.offset)
  {
    var s' := Next(s, OwnDone(c));
    assert CallOk(c, s.calls[c], s.t, s.offset, s.r, s.o, s.fault);
    TableObjects(s);
    ListingStays(s.t, s.t, s.o, s'.o, s.calls, c, s'.calls[c], s.offset);
  }

  /** Request's own wg.Done is one too many exactly when somebody has completed the refused request. */
  lemma OwnDoneKeepsCalls(s: State, c: nat)
    requires CallsOk(s) && Enabled(s, OwnDone(c))
    ensures CallsOk(Next(s, OwnDone(c)))
    ensures Next(s, OwnDone(c)).fault <==> s.calls[c].done != []
  {
    var s' := Next(s, OwnDone(c));
    OwnDoneKeepsEach(s, c);
    if s'.fault {
      assert c in s'.calls && |s'.calls[c].done| >= 2;
    } else if !s.sup.Over? {
      OwnDoneKeepsListing(s, c);
    }
  }

  lemma DeliverKeepsCalls(s: State)
    requires CallsOk(s) && Enabled(s, Deliver) && !s.sup.Over?
    ensures CallsOk(Next(s, Deliver))
    ensures Next(s, Deliver).fault <==> s.calls[s.r.rd.c].done == [ByItself]
  {
    var s' := Next(s, Deliver);
    var c := s.r.rd.c;
    var x := s.calls[c];
    assert CallOk(c, x, s.t, s.offset, s.r, s.o, s.fault);
    if x.done == [] {
      OneCallKeepsEach(s, s', c);
      TableObjects(s);
      ListingStays(s.t, s.t, s.o, s'.o, s.calls, c, s'.calls[c], s.offset);
    } else {
      CallAfterFault(c, x, s'.calls[c].done, x.pc, s.t, s.offset, s.r, s'.r, s.o, s.o);
      FaultKeepsEach(s, s', c);
      assert c in s'.calls && |s'.calls[c].done| >= 2;
    }
  }

  lemma CloseRequestKeepsEach(s: State, q: nat, c: nat)
    requires EachOk(s) && Enabled(s, CloseRequest(q)) && EntryOk(q, s.t.reqs[q], s.o, s.calls)
    requires c == s.o.heap[s.t.reqs[q]].owner
    ensures EachOk(DoCloseRequest(s, q))
    ensures s.calls[c].done == [] || (s.calls[c].pc.Unlisting? && |s.calls[c].done| == 1)
    ensures DoCloseRequest(s, q).fault <==> s.calls[c].done != []
  {
    var x := s.calls[c];
    assert CallOk(c, x, s.t, s.offset, s.r, s.o, s.fault);
    if x.done == [] { OneCallKeepsEach(s, DoCloseRequest(s, q), c); }
    else { FaultKeepsEach(s, DoCloseRequest(s, q), c); }
  }

  lemma CloseRequestKeepsListing(s: State, q: nat, c: nat)
    requires s.sup.CloseReqs? && q in s.t.reqs && s.t.reqs[q] in s.o.heap && c == s.o.heap[s.t.reqs[q]].owner
    requires c in s.calls && s.calls[c].done == [] && !s.fault
    requires EachOk(s) && Listing(s.t, s.o, s.calls, s.offset)
    ensures var s' := DoCloseRequest(s, q); Listing(s'.t, s'.o, s'.calls, s'.offset)
  {
    assert EntryOk(q, s.t.reqs[q], s.o, s.calls);
    TableObjects(s);
    ListingLeaves(s.t, s.o, DoCloseRequest(s, q).o, s.calls, c, DoCloseRequest(s, q).calls[c], s.offset);
  }

  /** close's wg.Done on a request is one too many exactly when the request has made its own. */
  lemma CloseRequestKeepsCalls(s: State, q: nat)
    requires CallsOk(s) && Enabled(s, CloseRequest(q))
    ensures CallsOk(DoCloseRequest(s, q))
    ensures DoCloseRequest(s, q).fault <==> s.calls[s.o.heap[s.t.reqs[q]].owner].pc.Unlisting?
  {
    var s' := DoCloseRequest(s, q);
    assert EntryOk(q, s.t.reqs[q], s.o, s.calls);
    var c := s.o.heap[s.t.reqs[q]].owner;
    assert CallOk(c, s.calls[c], s.t, s.offset, s.r, s.o, s.fault);
    CloseRequestKeepsEach(s, q, c);
    if s.calls[c].done == [] {
      CloseRequestKeepsListing(s, q, c);
    } else {
      assert c in s'.calls && |s'.calls[c].done| >= 2;
    }
  }

  lemma TakeKeepsEach(s: State, c: nat)
    requires EachOk(s) && Enabled(s, Route) && ReadOk(s.r) && s.r.rd.f.seqno in s.t.reqs
    requires EntryOk(s.r.rd.f.seqno, s.t.reqs[s.r.rd.f.seqno], s.o, s.calls)
    requires c == s.o.heap[s.t.reqs[s.r.rd.f.seqno]].owner
    ensures EachOk(DoRoute(s))
  {
    assert CallOk(c, s.calls[c], s.t, s.offset, s.r, s.o, s.fault);
    OneCallKeepsEach(s, DoRoute(s), c);
  }

  /** Exactly the messages with a listed number other than 0 are delivered; all others go to the handler. */
  lemma RouteKeepsCalls(s: State)
    requires CallsOk(s) && Enabled(s, Route) && ReadOk(s.r) && !s.sup.Over?
    ensures CallsOk(DoRoute(s))
    ensures DoRoute(s).r.rd.Delivering? <==> s.r.rd.f.seqno in s.t.reqs && s.r.rd.f.seqno != 0
  {
    var q := s.r.rd.f.seqno;
    if q in s.t.reqs {
      assert EntryOk(q, s.t.reqs[q], s.o, s.calls);
      var c := s.o.heap[s.t.reqs[q]].owner;
      TakeKeepsEach(s, c);
      TableObjects(s);
      ListingLeaves(s.t, s.o, s.o, s.calls, c, DoRoute(s).calls[c], s.offset);
    } else {
      QuietStepKeepsCalls(s, DoRoute(s));
    }
  }

  // ----- while numbers do not repeat, every listed request keeps its place

  /** A request that is not listed, and does not become so, is nothing to reqs; one that is stays as it is. */
  predicate SamePlaces(calls: map<nat, Call>, calls': map<nat, Call>)
  {
    forall c | c in calls' && InTable(calls'[c]) ::
      c in calls && InTable(calls[c]) && calls'[c].seqno == calls[c].seqno && calls'[c].pr == calls[c].pr
  }

  lemma SamePlacesAllListed(t: Table, t': Table, calls: map<nat, Call>, calls': map<nat, Call>)
    requires AllListed(t, calls) && t'.reqs == t.reqs && SamePlaces(calls, calls')
    ensures AllListed(t', calls')
  {
  }

  lemma LeavesAllListed(t: Table, calls: map<nat, Call>, c: nat, x: Call)
    requires AllListed(t, calls) && c in calls && !InTable(x)
    requires forall d | d in calls && d != c && InTable(calls[d]) :: calls[d].seqno != calls[c].seqno
    ensures AllListed(t.(reqs := t.reqs - {calls[c].seqno}), calls[c := x])
  {
  }

  lemma EntersAllListed(t: Table, calls: map<nat, Call>, c: nat, x: Call)
    requires AllListed(t, calls) && c in calls
    requires forall d | d in calls && d != c && InTable(calls[d]) :: calls[d].seqno != x.seqno
    ensures AllListed(t.(reqs := t.reqs[x.seqno := x.pr]), calls[c := x])
  {
  }

  /** The listed requests all have numbers, of which each is another. */
  lemma OthersListed(s: State, c: nat)
    requires Seqno.IsOffset(s.offset) && EachOk(s) && |s.t.issued| < Seqno.HALF && Listing(s.t, s.o, s.calls, s.offset)
    requires c in s.calls && !s.calls[c].pc.Acquired?
    ensures forall d | d in s.calls && d != c && InTable(s.calls[d]) :: s.calls[d].seqno != s.calls[c].seqno
  {
    UniqueNumber(s, c);
  }

  lemma UntouchedNoneMissing(s: State, t: Step)
    requires Enabled(s, t) && NoneMissing(s.t, s.calls, s.sup) && !t.EndClose? && (s.sup.Over? ==> s.w.loop.done)
    requires !t.List? && !t.Unlist? && !t.Route? && !t.CloseRequest?
    ensures NoneMissing(Next(s, t).t, Next(s, t).calls, Next(s, t).sup)
  {
    var s' := Next(s, t);
    PlacesEffect(s, t);
    if !s.sup.Over? {
      SamePlacesAllListed(s.t, s'.t, s.calls, s'.calls);
    }
  }

  /** Steps that give no request a place and take none away. */
  predicate PlacesStay(s: State, s': State)
  {
    && SamePlaces(s.calls, s'.calls) && s'.t.reqs == s.t.reqs && (s'.sup.Over? <==> s.sup.Over?)
    && (s.sup.Over? ==> forall c | c in s'.calls && s'.calls[c].pc.Accepted? ::
          c in s.calls && s.calls[c].pc.Accepted? && s'.calls[c].taker == s.calls[c].taker)
  }

  lemma CallerPlaces(s: State, t: Step)
    requires Enabled(s, t) && (s.sup.Over? ==> s.w.loop.done)
    requires t.Request? || t.Number? || t.SendRequest? || t.OwnDone? || t.Finish? || t.Deliver?
    ensures PlacesStay(s, Next(s, t))
  {
  }

  lemma OtherPlaces(s: State, t: Step)
    requires Enabled(s, t) && !t.EndClose? && !t.List? && !t.Unlist? && !t.Route? && !t.CloseRequest?
    requires !t.Request? && !t.Number? && !t.SendRequest? && !t.OwnDone? && !t.Finish? && !t.Deliver?
    ensures PlacesStay(s, Next(s, t))
  {
  }

  lemma PlacesEffect(s: State, t: Step)
    requires Enabled(s, t) && !t.EndClose? && (s.sup.Over? ==> s.w.loop.done)
    requires !t.List? && !t.Unlist? && !t.Route? && !t.CloseRequest?
    ensures PlacesStay(s, Next(s, t))
  {
    if t.Request? || t.Number? || t.SendRequest? || t.OwnDone? || t.Finish? || t.Deliver? {
      CallerPlaces(s, t);
    } else {
      OtherPlaces(s, t);
    }
  }

  lemma ListNoneMissing(s: State, c: nat)
    requires Seqno.IsOffset(s.offset) && CallsOk(s) && Enabled(s, List(c)) && |s.t.issued| < Seqno.HALF
    requires NoneMissing(s.t, s.calls, s.sup)
    ensures var s' := Next(s, List(c)); NoneMissing(s'.t, s'.calls, s'.sup)
  {
    if !s.sup.Over? {
      OthersListed(s, c);
      EntersAllListed(s.t, s.calls, c, s.calls[c].(pc := Listed));
    }
  }

  lemma UnlistNoneMissing(s: State, c: nat)
    requires Seqno.IsOffset(s.offset) && CallsOk(s) && Enabled(s, Unlist(c)) && |s.t.issued| < Seqno.HALF
    requires NoneMissing(s.t, s.calls, s.sup)
    ensures var s' := DoUnlist(s, c); NoneMissing(s'.t, s'.calls, s'.sup)
  {
    if !s.sup.Over? {
      OthersListed(s, c);
      LeavesAllListed(s.t, s.calls, c, DoUnlist(s, c).calls[c]);
    }
  }

  lemma RouteNoneMissing(s: State)
    requires Seqno.IsOffset(s.offset) && CallsOk(s) && Enabled(s, Route) && |s.t.issued| < Seqno.HALF && !s.sup.Over?
    requires AllListed(s.t, s.calls)
    ensures var s' := DoRoute(s); AllListed(s'.t, s'.calls)
  {
    var q := s.r.rd.f.seqno;
    if q in s.t.reqs {
      assert EntryOk(q, s.t.reqs[q], s.o, s.calls);
      var c := s.o.heap[s.t.reqs[q]].owner;
      OthersListed(s, c);
      LeavesAllListed(s.t, s.calls, c, DoRoute(s).calls[c]);
    }
  }

  lemma CloseRequestNoneMissing(s: State, q: nat)
    requires Seqno.IsOffset(s.offset) && CallsOk(s) && Enabled(s, CloseRequest(q)) && |s.t.issued| < Seqno.HALF
    requires AllListed(s.t, s.calls)
    ensures var s' := DoCloseRequest(s, q); AllListed(s'.t, s'.calls)
  {
    assert EntryOk(q, s.t.reqs[q], s.o, s.calls);
    var c := s.o.heap[s.t.reqs[q]].owner;
    OthersListed(s, c);
    LeavesAllListed(s.t, s.calls, c, DoCloseRequest(s, q).calls[c]);
  }

  lemma StepNoneMissing(s: State, t: Step)
    requires Seqno.IsOffset(s.offset) && CallsOk(s) && Enabled(s, t) && |s.t.issued| < Seqno.HALF
    requires (s.sup.Over? ==> s.w.loop.done && s.r.rd.Stopped?) && NoneMissing(s.t, s.calls, s.sup)
    ensures NoneMissing(Next(s, t).t, Next(s, t).calls, Next(s, t).sup)
  {
    if t.List? { ListNoneMissing(s, t.c); }
    else if t.Unlist? { UnlistNoneMissing(s, t.c); }
    else if t.Route? { RouteNoneMissing(s); }
    else if t.CloseRequest? { CloseRequestNoneMissing(s, t.q); }
    else if !t.EndClose? { UntouchedNoneMissing(s, t); }
  }
}
