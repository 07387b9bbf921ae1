/**
 The requests that nothing completes: an accepted request whose entry is gone from
 reqs though nobody has it in hand.  When a step loses one, that nothing ever
 brings it back, and a run of the server end that reaches it.
 */
module MuxLost {
  import opened Basics
  import opened Mux
  import opened MuxInv
  import ME = MuxEffects
  import MT = MuxTheorems
  import Seqno

  /** c waits in wg.Wait, and neither reqs nor readLoop nor another call has its object. */
  ghost predicate Lost(s: State, c: nat)
  {
    && IsAt(s, c, Accepted) && s.calls[c].done == []
    && var pr := s.calls[c].pr;
      && pr in s.o.heap && pr !in s.o.pool && s.o.heap[pr].wg == 1
      && (forall q | q in s.t.reqs :: s.t.reqs[q] != pr)
      && !(s.r.rd.Delivering? && (s.r.rd.pr == pr || s.r.rd.c == c))
      && (forall d | d in s.calls && d != c && !s.calls[d].pc.Returned? :: s.calls[d].pr != pr)
      && (forall p | p in s.o.heap && p != pr :: s.o.heap[p].owner != c)
  }

  // ----- once lost, for ever

  lemma CallerKeepsLost(s: State, t: Step, c: nat)
    requires Lost(s, c) && Enabled(s, t) && (t.Request? || t.Number? || t.List? || t.SendRequest?)
    ensures Lost(Next(s, t), c)
  {
  }

  lemma CallerEndKeepsLost(s: State, t: Step, c: nat)
    requires Lost(s, c) && Enabled(s, t) && (t.OwnDone? || t.Unlist? || t.Finish?)
    ensures Lost(Next(s, t), c)
  {
  }

  lemma DeliverKeepsLost(s: State, c: nat)
    requires Lost(s, c) && Enabled(s, Deliver)
    ensures Lost(Next(s, Deliver), c)
  {
  }

  lemma RouteKeepsLost(s: State, c: nat)
    requires Lost(s, c) && Enabled(s, Route)
    ensures Lost(DoRoute(s), c)
  {
    ME.RouteEffect(s);
  }

  lemma CloseRequestKeepsLost(s: State, q: nat, c: nat)
    requires Lost(s, c) && Enabled(s, CloseRequest(q))
    ensures Lost(DoCloseRequest(s, q), c)
  {
  }

  lemma OthersKeepLost(s: State, t: Step, c: nat)
    requires Lost(s, c) && Enabled(s, t) && !MT.OfCaller(t) && !t.Deliver? && !t.Route? && !t.CloseRequest?
    ensures Lost(Next(s, t), c)
  {
  }

  lemma StepKeepsLost(s: State, t: Step, c: nat)
    requires Lost(s, c) && Enabled(s, t)
    ensures Lost(Next(s, t), c)
  {
    if t.OwnDone? || t.Unlist? || t.Finish? { CallerEndKeepsLost(s, t, c); }
    else if MT.OfCaller(t) { CallerKeepsLost(s, t, c); }
    else if t.Deliver? { DeliverKeepsLost(s, c); }
    else if t.Route? { RouteKeepsLost(s, c); }
    else if t.CloseRequest? { CloseRequestKeepsLost(s, t.q, c); }
    else { OthersKeepLost(s, t, c); }
  }

  /** No continuation completes a lost request, close included: its caller never returns. */
  lemma {:induction false} LostForever(offset: nat, ts: seq<Step>, us: seq<Step>, c: nat)
    requires After(offset, ts).Some? && Lost(After(offset, ts).value, c) && After(offset, ts + us).Some?
    ensures Lost(After(offset, ts + us).value, c)
  {
    if us == [] {
      assert ts + us == ts;
    } else {
      var n := |us| - 1;
      assert (ts + us)[..|ts + us| - 1] == ts + us[..n];
      LostForever(offset, ts, us[..n], c);
      StepKeepsLost(After(offset, ts + us[..n]).value, us[n], c);
    }
  }

  // ----- the steps that lose a request

  /** c has made its entry in reqs, has not been refused and is uncompleted. */
  ghost predicate Waits(s: State, c: nat)
  {
    !s.fault && (IsAt(s, c, Listed) || IsAt(s, c, Accepted)) && s.calls[c].done == []
  }

  ghost predicate HasEntry(s: State, c: nat)
    requires c in s.calls
  {
    s.calls[c].seqno in s.t.reqs && s.t.reqs[s.calls[c].seqno] == s.calls[c].pr
  }

  /** readLoop is about to fill c's object and call its wg.Done. */
  ghost predicate InHand(s: State, c: nat)
    requires c in s.calls
  {
    s.r.rd.Delivering? && s.r.rd.pr == s.calls[c].pr
  }

  /** Neither reqs nor readLoop has it any more. */
  ghost predicate Displaced(s: State, c: nat)
  {
    Waits(s, c) && !HasEntry(s, c) && !InHand(s, c)
  }

  lemma EntryIsOwn(s: State, q: nat, c: nat)
    requires CallsOk(s) && Waits(s, c) && !s.sup.Over? && q in s.t.reqs && s.t.reqs[q] == s.calls[c].pr
    ensures q == s.calls[c].seqno && s.calls[c].taker.Nobody? && s.o.heap[s.calls[c].pr].owner == c
  {
    assert EntryOk(q, s.t.reqs[q], s.o, s.calls);
    assert CallOk(c, s.calls[c], s.t, s.offset, s.r, s.o, s.fault);
  }

  lemma OwnObject(s: State, c: nat)
    requires CallsOk(s) && Waits(s, c)
    ensures var pr := s.calls[c].pr;
      && pr in s.o.heap && pr !in s.o.pool && s.o.heap[pr].wg == 1
      && s.o.heap[pr].owner == c
    ensures forall d | d in s.calls && d != c && !s.calls[d].pc.Returned? :: s.calls[d].pr != s.calls[c].pr
  {
    assert CallOk(c, s.calls[c], s.t, s.offset, s.r, s.o, s.fault);
    forall d | d in s.calls && d != c && !s.calls[d].pc.Returned? ensures s.calls[d].pr != s.calls[c].pr {
      assert CallOk(d, s.calls[d], s.t, s.offset, s.r, s.o, s.fault);
    }
  }

  /** An object's owner is the one call it belongs to. */
  ghost predicate OwnersOk(s: State)
  {
    forall p | p in s.o.heap :: s.o.heap[p].owner in s.calls && s.calls[s.o.heap[p].owner].pr == p
  }

  lemma StepKeepsOwners(s: State, t: Step)
    requires OwnersOk(s) && Enabled(s, t)
    ensures OwnersOk(Next(s, t))
  {
    if t.Route? {
      ME.RouteEffect(s);
    } else if MT.OfCaller(t) {
      CallerKeepsOwners(s, t);
    } else {
      OtherKeepsOwners(s, t);
    }
  }

  lemma CallerKeepsOwners(s: State, t: Step)
    requires OwnersOk(s) && Enabled(s, t) && MT.OfCaller(t)
    ensures OwnersOk(Next(s, t))
  {
  }

  lemma OtherKeepsOwners(s: State, t: Step)
    requires OwnersOk(s) && Enabled(s, t) && !MT.OfCaller(t) && !t.Route?
    ensures OwnersOk(Next(s, t))
  {
  }

  /** Before close is over, an accepted request that waits is lost exactly if it is displaced. */
  lemma WaitsSomewhere(s: State, c: nat)
    requires CallsOk(s) && OwnersOk(s) && Waits(s, c) && !s.sup.Over?
    ensures Lost(s, c) <==> s.calls[c].pc.Accepted? && Displaced(s, c)
  {
    OwnObject(s, c);
    forall q | q in s.t.reqs ensures s.t.reqs[q] == s.calls[c].pr ==> HasEntry(s, c) {
      if s.t.reqs[q] == s.calls[c].pr { EntryIsOwn(s, q, c); }
    }
    if s.r.rd.Delivering? { DeliveringOwn(s, c); }
  }

  lemma DeliveringOwn(s: State, c: nat)
    requires CallsOk(s) && Waits(s, c) && s.r.rd.Delivering?
    ensures s.r.rd.c == c ==> InHand(s, c)
  {
    assert CallOk(c, s.calls[c], s.t, s.offset, s.r, s.o, s.fault);
  }

  /**
   The entry of c is replaced or removed on behalf of another request with its number, or taken by a
   message numbered 0.
   */
  ghost predicate LosesEntry(s: State, t: Step, c: nat)
    requires Enabled(s, t) && c in s.calls
  {
    Waits(s, c) && HasEntry(s, c) && !InHand(s, c) &&
    match t
    case Route => s.calls[c].seqno == 0 && s.r.rd.f.seqno == 0
    case List(d) => d != c && s.calls[d].seqno == s.calls[c].seqno
    case Unlist(d) => d != c && s.calls[d].seqno == s.calls[c].seqno
    case _ => false
  }

  /** What a step does to the place of a request that goes on waiting. */
  lemma ListPlace(s: State, d: nat, c: nat)
    requires CallsOk(s) && Waits(s, c) && !s.sup.Over? && Enabled(s, List(d))
    ensures var s' := Next(s, List(d));
      Waits(s', c) && !s'.sup.Over?
          && (HasEntry(s', c) <==> HasEntry(s, c) && !(d != c && s.calls[d].seqno == s.calls[c].seqno))
      && (InHand(s', c) <==> InHand(s, c))
  {
    OwnObject(s, c);
  }

  lemma UnlistPlace(s: State, d: nat, c: nat)
    requires CallsOk(s) && Waits(s, c) && !s.sup.Over? && Enabled(s, Unlist(d))
    ensures var s' := Next(s, Unlist(d));
      Waits(s', c) && !s'.sup.Over? && (HasEntry(s', c) <==> HasEntry(s, c) && s.calls[d].seqno != s.calls[c].seqno)
      && (InHand(s', c) <==> InHand(s, c))
  {
  }

  lemma RoutePlace(s: State, c: nat)
    requires CallsOk(s) && Waits(s, c) && !s.sup.Over? && Enabled(s, Route)
    ensures var s' := DoRoute(s); var mine := s.r.rd.f.seqno == s.calls[c].seqno && HasEntry(s, c);
      Waits(s', c) && !s'.sup.Over? && (HasEntry(s', c) <==> HasEntry(s, c) && !mine)
          && (InHand(s', c) <==> mine && s.calls[c].seqno != 0)
  {
    ME.RouteEffect(s);
    var q := s.r.rd.f.seqno;
    if q in s.t.reqs {
      assert EntryOk(q, s.t.reqs[q], s.o, s.calls);
      if s.t.reqs[q] == s.calls[c].pr { EntryIsOwn(s, q, c); }
    }
  }

  lemma OtherPlace(s: State, t: Step, c: nat)
    requires CallsOk(s) && Waits(s, c) && !s.sup.Over? && Enabled(s, t) && !Next(s, t).fault
    requires !t.List? && !t.Unlist? && !t.Route? && !t.CloseRequest? && !t.Deliver? && !t.EndClose?
    ensures var s' := Next(s, t);
      && !s'.sup.Over? && c in s'.calls && (HasEntry(s', c) <==> HasEntry(s, c)) && (InHand(s', c) <==> InHand(s, c))
      && (Waits(s', c) <==> !(t.SendRequest? && t.c == c && s.w.loop.done))
  {
    if MT.OfCaller(t) {
      OwnObject(s, c);
      CallerPlace(s, t, c);
    } else {
      QuietPlace(s, t, c);
    }
  }

  lemma CallerPlace(s: State, t: Step, c: nat)
    requires Waits(s, c) && !s.sup.Over? && Enabled(s, t) && !Next(s, t).fault && MT.OfCaller(t) && !t.List?
    requires !t.Unlist?
    requires s.calls[c].pr in s.o.heap && s.o.heap[s.calls[c].pr].wg == 1
    ensures var s' := Next(s, t);
      && !s'.sup.Over? && c in s'.calls && (HasEntry(s', c) <==> HasEntry(s, c)) && (InHand(s', c) <==> InHand(s, c))
      && (Waits(s', c) <==> !(t.SendRequest? && t.c == c && s.w.loop.done))
  {
  }

  lemma QuietPlace(s: State, t: Step, c: nat)
    requires Waits(s, c) && !s.sup.Over? && Enabled(s, t) && !Next(s, t).fault && !MT.OfCaller(t)
    requires !t.Route? && !t.CloseRequest? && !t.Deliver? && !t.EndClose?
    ensures var s' := Next(s, t);
      Waits(s', c) && !s'.sup.Over? && (HasEntry(s', c) <==> HasEntry(s, c)) && (InHand(s', c) <==> InHand(s, c))
  {
  }

  lemma DeliverPlace(s: State, c: nat)
    requires CallsOk(s) && Waits(s, c) && !s.sup.Over? && Enabled(s, Deliver) && !Next(s, Deliver).fault
    ensures var s' := Next(s, Deliver);
      && !s'.sup.Over? && c in s'.calls
      && (Waits(s', c) <==> !InHand(s, c)) && (HasEntry(s', c) <==> HasEntry(s, c)) && !InHand(s', c)
  {
    OwnObject(s, c);
    DeliveringOwn(s, c);
  }

  lemma CloseRequestPlace(s: State, q: nat, c: nat)
    requires CallsOk(s) && Waits(s, c) && Enabled(s, CloseRequest(q)) && !DoCloseRequest(s, q).fault
    ensures var s' := DoCloseRequest(s, q);
      && !s'.sup.Over? && c in s'.calls
      && (Waits(s', c) <==> !(q == s.calls[c].seqno && HasEntry(s, c)))
      && (Waits(s', c) ==> (HasEntry(s', c) <==> HasEntry(s, c)) && (InHand(s', c) <==> InHand(s, c)))
  {
    assert EntryOk(q, s.t.reqs[q], s.o, s.calls);
    OwnObject(s, c);
    if s.t.reqs[q] == s.calls[c].pr { EntryIsOwn(s, q, c); }
  }

  /** When close is over, an accepted request that still waits is lost. */
  ghost predicate PlacesOk(s: State)
  {
    s.sup.Over? ==> forall c | c in s.calls && Waits(s, c) && s.calls[c].pc.Accepted? :: Lost(s, c)
  }

  ghost predicate WaitsAccepted(s: State, c: nat)
  {
    Waits(s, c) && s.calls[c].pc.Accepted?
  }

  lemma NothingWaitsAnew(s: State, t: Step, c: nat)
    requires Base(s) && Enabled(s, t) && s.sup.Over? && WaitsAccepted(Next(s, t), c)
    ensures WaitsAccepted(s, c)
  {
    if MT.OfCaller(t) { CallerWaitsNotAnew(s, t, c); } else { OtherWaitsNotAnew(s, t, c); }
  }

  lemma CallerWaitsNotAnew(s: State, t: Step, c: nat)
    requires Enabled(s, t) && s.w.loop.done && MT.OfCaller(t) && WaitsAccepted(Next(s, t), c)
    ensures WaitsAccepted(s, c)
  {
  }

  lemma OtherWaitsNotAnew(s: State, t: Step, c: nat)
    requires Enabled(s, t) && !MT.OfCaller(t) && WaitsAccepted(Next(s, t), c)
    ensures WaitsAccepted(s, c)
  {
    if t.Route? { ME.RouteEffect(s); }
  }

  lemma EndCloseLoses(s: State, c: nat)
    requires Base(s) && CallsOk(s) && OwnersOk(s) && Enabled(s, EndClose) && Waits(s, c)
    ensures Displaced(s, c) && (s.calls[c].pc.Accepted? ==> Lost(s, c))
  {
    WaitsSomewhere(s, c);
  }

  lemma StepKeepsPlaces(s: State, t: Step)
    requires Base(s) && CallsOk(s) && OwnersOk(s) && PlacesOk(s) && Enabled(s, t)
    ensures PlacesOk(Next(s, t))
  {
    var s' := Next(s, t);
    if s'.sup.Over? {
      forall c | c in s'.calls && WaitsAccepted(s', c) ensures Lost(s', c) {
        if t.EndClose? {
          assert WaitsAccepted(s, c);
          EndCloseLoses(s, c);
        } else {
          OverStays(s, t);
          NothingWaitsAnew(s, t, c);
        }
        StepKeepsLost(s, t, c);
      }
    }
  }

  lemma OverStays(s: State, t: Step)
    requires Enabled(s, t) && !t.EndClose?
    ensures Next(s, t).sup.Over? ==> s.sup.Over?
  {
  }

  lemma {:induction false} RunKeepsPlaces(offset: nat, ts: seq<Step>)
    requires Seqno.IsOffset(offset) && After(offset, ts).Some?
    ensures Inv(After(offset, ts).value) && OwnersOk(After(offset, ts).value) && PlacesOk(After(offset, ts).value)
  {
    MT.RunKeepsInv(offset, ts);
    if ts != [] {
      var n := |ts| - 1;
      RunKeepsPlaces(offset, ts[..n]);
      StepKeepsOwners(After(offset, ts[..n]).value, ts[n]);
      StepKeepsPlaces(After(offset, ts[..n]).value, ts[n]);
    }
  }

  /** The steps at which a request that waits is displaced. */
  lemma PlaceAfter(s: State, t: Step, c: nat)
    requires CallsOk(s) && Enabled(s, t) && !t.EndClose? && !s.sup.Over? && !Next(s, t).fault && Waits(s, c)
    ensures var s' := Next(s, t);
      && c in s'.calls && !s'.sup.Over?
      && (Waits(s', c) ==> (Displaced(s', c) <==> Displaced(s, c) || LosesEntry(s, t, c)))
      && (LosesEntry(s, t, c) ==> Waits(s', c))
  {
    if t.List? { ListPlace(s, t.c, c); }
    else if t.Unlist? { UnlistPlace(s, t.c, c); }
    else if t.Route? { RoutePlace(s, c); }
    else if t.Deliver? { DeliverPlace(s, c); }
    else if t.CloseRequest? { CloseRequestPlace(s, t.q, c); }
    else { OtherPlace(s, t, c); }
  }

  // ----- over a whole run

  /** Some step of the run took the entry of c away. */
  ghost predicate LostItsEntry(offset: nat, ts: seq<Step>, c: nat)
  {
    ts != [] &&
    var n := |ts| - 1;
    LostItsEntry(offset, ts[..n], c) || LosesAt(After(offset, ts[..n]), ts[n], c)
  }

  ghost predicate LosesAt(r: Option<State>, t: Step, c: nat)
  {
    r.Some? && Enabled(r.value, t) && c in r.value.calls && LosesEntry(r.value, t, c)
  }

  lemma LostItsEntryNext(offset: nat, ts: seq<Step>, c: nat)
    requires ts != [] && After(offset, ts).Some?
    ensures var n := |ts| - 1; var r := After(offset, ts[..n]);
      && r.Some? && Enabled(r.value, ts[n])
      && (LostItsEntry(offset, ts, c) <==>
            LostItsEntry(offset, ts[..n], c) || (c in r.value.calls && LosesEntry(r.value, ts[n], c)))
  {
  }

  ghost predicate Unlisted(s: State, c: nat)
  {
    c in s.calls ==> s.calls[c].pc.Acquired? || s.calls[c].pc.Numbered?
  }

  lemma UnlistedBefore(s: State, t: Step, c: nat)
    requires Enabled(s, t) && Unlisted(Next(s, t), c)
    ensures Unlisted(s, c)
  {
    if t.Route? { ME.RouteEffect(s); }
  }

  /** A request that has not been listed has not lost its entry. */
  lemma {:induction false} UnlistedLosesNothing(offset: nat, ts: seq<Step>, c: nat)
    requires After(offset, ts).Some? && Unlisted(After(offset, ts).value, c)
    ensures !LostItsEntry(offset, ts, c)
  {
    if ts != [] {
      var n := |ts| - 1;
      LostItsEntryNext(offset, ts, c);
      UnlistedBefore(After(offset, ts[..n]).value, ts[n], c);
      UnlistedLosesNothing(offset, ts[..n], c);
    }
  }

  /** What begins to wait has its entry. */
  lemma WaitsFromListing(s: State, t: Step, c: nat)
    requires Enabled(s, t) && Waits(Next(s, t), c) && !Waits(s, c)
    ensures t == List(c) && Unlisted(s, c) && HasEntry(Next(s, t), c)
  {
    if t.Route? { ME.RouteEffect(s); }
  }

  /** The claim at each moment: for the accepted ones, and until close is over for the listed ones too. */
  ghost predicate DisplacedOk(offset: nat, ts: seq<Step>, s: State, c: nat)
  {
    Waits(s, c) && (s.sup.Over? ==> s.calls[c].pc.Accepted?) ==> (Displaced(s, c) <==> LostItsEntry(offset, ts, c))
  }

  lemma LostIsDisplaced(s: State, c: nat)
    requires Lost(s, c) && !s.fault
    ensures Displaced(s, c)
  {
  }

  lemma {:induction false} DisplacedByAStep(offset: nat, ts: seq<Step>, c: nat)
    requires Seqno.IsOffset(offset) && After(offset, ts).Some?
    ensures DisplacedOk(offset, ts, After(offset, ts).value, c)
  {
    if ts != [] {
      var n := |ts| - 1;
      LostItsEntryNext(offset, ts, c);
      var s, s' := After(offset, ts[..n]).value, After(offset, ts).value;
      if Waits(s', c) && (s'.sup.Over? ==> s'.calls[c].pc.Accepted?) {
        RunKeepsPlaces(offset, ts[..n]);
        DisplacedStep(s, ts[n], c);
        if Waits(s, c) {
          DisplacedByAStep(offset, ts[..n], c);
        } else {
          UnlistedLosesNothing(offset, ts[..n], c);
        }
      }
    }
  }

  /** When close is over, what waits was lost and is. */
  lemma DisplacedOver(s: State, t: Step, c: nat)
    requires Inv(s) && OwnersOk(s) && PlacesOk(s) && Enabled(s, t) && Next(s, t).sup.Over?
    requires WaitsAccepted(Next(s, t), c)
    ensures WaitsAccepted(s, c) && Displaced(s, c) && Displaced(Next(s, t), c)
  {
    if t.EndClose? {
      EndCloseLoses(s, c);
    } else {
      OverStays(s, t);
      NothingWaitsAnew(s, t, c);
    }
    StepKeepsLost(s, t, c);
    LostIsDisplaced(s, c);
    LostIsDisplaced(Next(s, t), c);
  }

  lemma DisplacedStep(s: State, t: Step, c: nat)
    requires Inv(s) && OwnersOk(s) && PlacesOk(s) && Enabled(s, t)
    requires Waits(Next(s, t), c) && (Next(s, t).sup.Over? ==> Next(s, t).calls[c].pc.Accepted?)
    ensures Waits(s, c) ==> (s.sup.Over? ==> s.calls[c].pc.Accepted?)
    ensures Displaced(Next(s, t), c) <==> Waits(s, c) && (Displaced(s, c) || LosesEntry(s, t, c))
    ensures !Waits(s, c) ==> Unlisted(s, c)
  {
    if Next(s, t).sup.Over? {
      DisplacedOver(s, t, c);
    } else if Waits(s, c) {
      NotOverBefore(s, t);
      PlaceAfter(s, t, c);
    } else {
      WaitsFromListing(s, t, c);
    }
  }

  lemma NotOverBefore(s: State, t: Step)
    requires Enabled(s, t) && !Next(s, t).sup.Over?
    ensures !s.sup.Over? && !t.EndClose?
  {
  }

  // ----- the theorems

  /**
   In every run, however many numbers were issued: an accepted, uncompleted request is
   one that nothing will ever complete if and only if, before or after its acceptance,
   some step took its entry out of reqs for a message numbered 0, or replaced or
   removed it on behalf of another request with its number.
   */
  lemma LostExactlyWhen(offset: nat, ts: seq<Step>, c: nat)
    requires Seqno.IsOffset(offset) && After(offset, ts).Some? && WaitsAccepted(After(offset, ts).value, c)
    ensures Lost(After(offset, ts).value, c) <==> LostItsEntry(offset, ts, c)
  {
    RunKeepsPlaces(offset, ts);
    DisplacedByAStep(offset, ts, c);
    var s := After(offset, ts).value;
    if s.sup.Over? { LostIsDisplaced(s, c); } else { WaitsSomewhere(s, c); }
  }

  /** Its acceptance leaves a request to nobody if and only if its entry has gone before. */
  lemma AcceptanceLosesExactlyWhen(offset: nat, ts: seq<Step>, c: nat, pw: nat, buf: nat)
    requires Seqno.IsOffset(offset) && After(offset, ts).Some?
    requires Enabled(After(offset, ts).value, SendRequest(c, pw, buf))
    requires var s := After(offset, ts).value; !s.w.loop.done && s.calls[c].done == []
    ensures var s := After(offset, ts).value;
      Lost(Next(s, SendRequest(c, pw, buf)), c) <==> !HasEntry(s, c) && !InHand(s, c)
  {
    RunKeepsPlaces(offset, ts);
    var s := After(offset, ts).value;
    var s' := Next(s, SendRequest(c, pw, buf));
    OtherPlace(s, SendRequest(c, pw, buf), c);
    MT.StepKeepsCalls(s, SendRequest(c, pw, buf));
    StepKeepsOwners(s, SendRequest(c, pw, buf));
    WaitsSomewhere(s', c);
  }

  /**
   However many numbers were issued: when close has returned, an accepted request was completed
   exactly once or is lost.
   */
  lemma CloseLeavesOnlyTheLost(offset: nat, ts: seq<Step>, c: nat)
    requires Seqno.IsOffset(offset) && After(offset, ts).Some?
    requires var s := After(offset, ts).value; !s.fault && s.sup.Over? && c in s.calls && s.calls[c].ticket.Some?
    ensures var s := After(offset, ts).value; MT.CompletedByItsTaker(s.calls[c]) || Lost(s, c)
  {
    RunKeepsPlaces(offset, ts);
    var s := After(offset, ts).value;
    MT.TicketIsSettled(s, c);
    if s.calls[c].done == [] {
      assert CallOk(c, s.calls[c], s.t, s.offset, s.r, s.o, s.fault);
      assert Waits(s, c);
    } else {
      MT.CompletedByTaker(s, c);
    }
  }

  /** A listed entry that routing takes is delivered to its request if and only if its number is not 0. */
  lemma DeliveredUnlessZero(offset: nat, ts: seq<Step>, c: nat)
    requires Seqno.IsOffset(offset) && After(offset, ts).Some? && Enabled(After(offset, ts).value, Route)
    requires var s := After(offset, ts).value;
      && c in s.calls && InTable(s.calls[c]) && HasEntry(s, c)
      && s.r.rd.f.seqno == s.calls[c].seqno
    ensures var s := After(offset, ts).value; var s' := Next(s, Route);
      && s.calls[c].seqno !in s'.t.reqs
      && (s'.r.rd == Delivering(c, s.calls[c].pr, s.r.rd.f.body) <==> s.calls[c].seqno != 0)
      && (s'.r == CallHandler(s.r) <==> s.calls[c].seqno == 0)
      && (WaitsAccepted(s, c) ==> (Lost(s', c) <==> s.calls[c].seqno == 0))
  {
    RunKeepsPlaces(offset, ts);
    var s := After(offset, ts).value;
    EntryOwner(s, c);
    ME.RouteEffect(s);
    if WaitsAccepted(s, c) {
      RoutePlace(s, c);
      MT.StepKeepsCalls(s, Route);
      StepKeepsOwners(s, Route);
      WaitsSomewhere(DoRoute(s), c);
    }
  }

  lemma EntryOwner(s: State, c: nat)
    requires Base(s) && CallsOk(s) && Enabled(s, Route) && c in s.calls && InTable(s.calls[c]) && HasEntry(s, c)
    ensures s.calls[c].pr in s.o.heap && s.o.heap[s.calls[c].pr].owner == c
  {
    assert CallOk(c, s.calls[c], s.t, s.offset, s.r, s.o, s.fault);
  }
}
