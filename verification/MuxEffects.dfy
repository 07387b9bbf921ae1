/** What one step of a connection can change of the things its peer can see. */
module MuxEffects {
  import opened Mux
  import W = Writer
  import WP = WriterProofs

  ghost predicate WireGrows(s: State, s': State)
  {
    s.w.hist.wire <= s'.w.hist.wire && s.origin <= s'.origin
  }

  lemma OffsetStays(s: State, t: Step)
    requires Enabled(s, t)
    ensures Next(s, t).offset == s.offset
  {
  }

  /** Invocations of the handler keep their message. */
  ghost predicate HandledGrows(r: ReadSide, r': ReadSide)
  {
    && |r.handled| <= |r'.handled|
    && (forall h | 0 <= h < |r.handled| ::
          r'.handled[h].n == r.handled[h].n && r'.handled[h].frame == r.handled[h].frame)
  }

  /** No request changes hands, and none comes up taken. */
  ghost predicate TakersStay(s: State, s': State)
  {
    forall c | c in s'.calls && !s'.calls[c].taker.Nobody? :: c in s.calls && s'.calls[c].taker == s.calls[c].taker
  }

  lemma WriteEffect(s: State, t: Step)
    requires Enabled(s, t)
    ensures WireGrows(s, Next(s, t))
  {
    if t.Write? {
      WriteStepEffect(s, t.ws);
    } else {
      OtherStepEffect(s, t);
    }
  }

  lemma WriteStepEffect(s: State, ws: W.Step)
    requires Enabled(s, Write(ws))
    ensures WireGrows(s, Next(s, Write(ws)))
  {
    WP.InternalStep(s.w, ws);
  }

  lemma OtherStepEffect(s: State, t: Step)
    requires Enabled(s, t) && !t.Write?
    ensures WireGrows(s, Next(s, t))
  {
  }

  lemma ReaderEffect(s: State, t: Step)
    requires Enabled(s, t)
    ensures var s' := Next(s, t);
      && (t.Read? || s'.r.inbox == s.r.inbox) && (t.Read? ==> s'.r.inbox == s.r.inbox + [t.bytes])
      && (t.Route? || t.Read? || (!s'.r.rd.Routing? || s'.r.rd == s.r.rd))
      && (s.r.rd.Stopped? ==> s'.r.rd == s.r.rd)
      && HandledGrows(s.r, s'.r) && (!t.Route? ==> |s'.r.handled| == |s.r.handled|)
  {
  }

  lemma TakerEffect(s: State, t: Step)
    requires Enabled(s, t) && !t.Route? && !t.CloseRequest?
    ensures TakersStay(s, Next(s, t))
  {
    if t.Request? || t.Number? || t.List? || t.SendRequest? || t.OwnDone? || t.Unlist? || t.Finish? || t.Deliver? {
      CallTakers(s, t);
    } else {
      OtherTakers(s, t);
    }
  }

  lemma CallTakers(s: State, t: Step)
    requires Enabled(s, t)
    requires t.Request? || t.Number? || t.List? || t.SendRequest? || t.OwnDone? || t.Unlist? || t.Finish? || t.Deliver?
    ensures TakersStay(s, Next(s, t))
  {
  }

  lemma OtherTakers(s: State, t: Step)
    requires Enabled(s, t) && !t.Route? && !t.CloseRequest?
    requires !t.Request? && !t.Number? && !t.List? && !t.SendRequest? && !t.OwnDone? && !t.Unlist? && !t.Finish?
    requires !t.Deliver?
    ensures TakersStay(s, Next(s, t))
  {
  }

  lemma CloseEffect(s: State, q: nat)
    requires Enabled(s, CloseRequest(q))
    ensures var s' := DoCloseRequest(s, q);
      forall c | c in s'.calls && !s'.calls[c].taker.Nobody? ::
        c in s.calls && (s'.calls[c].taker == s.calls[c].taker || s'.calls[c].taker.Close?)
  {
  }

  /** The entry listed under the number of the message in hand. */
  predicate Found(s: State)
    requires s.r.rd.Routing?
  {
    var q := s.r.rd.f.seqno;
    q in s.t.reqs && s.t.reqs[q] in s.o.heap && s.o.heap[s.t.reqs[q]].owner in s.calls
  }

  /**
   Routing delivers the message in hand to the request listed under its number if
   there is one and the number is not 0, and else calls the handler with it; a
   listed entry goes in either case.
   */
  lemma RouteEffect(s: State)
    requires Enabled(s, Route)
    ensures var s' := DoRoute(s); var q := s.r.rd.f.seqno;
      && s'.w == s.w && s'.sup == s.sup && s'.offset == s.offset && s'.origin == s.origin && s'.o == s.o
      && s'.t == (if Found(s) then s.t.(reqs := s.t.reqs - {q}) else s.t)
      && (Found(s) && q != 0
          ==> s'.r == s.r.(rd := Delivering(s.o.heap[s.t.reqs[q]].owner, s.t.reqs[q], s.r.rd.f.body)))
      && (!(Found(s) && q != 0) ==> s'.r == CallHandler(s.r))
      && s'.calls.Keys == s.calls.Keys
      && (forall c | c in s.calls :: s'.calls[c] == if Found(s) && s.o.heap[s.t.reqs[q]].owner == c
            then s.calls[c].(taker := Message(|s.r.inbox| - 1)) else s.calls[c])
  {
  }
}
