/**
 No Push is stranded: over all runs in which the peer opens streams under its own
 parity, as often and under whichever of those ids it likes.
 */
module ProviderTheorems {
  import opened Basics
  import opened ServicePackets
  import opened DataPackets
  import opened Messages
  import opened Streams
  import opened Seqno
  import opened ProviderRuns

  // ----- the assumption

  /** The peer opens streams under the other parity; this end opens at most 2^31. */
  predicate Fair(first: u32, s: State, e: Step)
  {
    match e
    case Begin => s.begun < HALF
    case Dispatch(m, _) => m.Req? ==> m.Id() % 2 != first
    case _ => true
  }

  /** `ss` are the states of a run that takes the steps `es`. */
  predicate IsAnyRun(first: u32, ss: seq<State>, es: seq<Step>)
  {
    && |ss| == |es| + 1 && ss[0] == Start(first)
    && (forall i | 0 <= i < |es| :: Enabled(ss[i], es[i]) && ss[i + 1] == Then(ss[i], es[i]))
  }

  predicate IsRun(first: u32, ss: seq<State>, es: seq<Step>)
  {
    IsAnyRun(first, ss, es) && forall i | 0 <= i < |es| :: Fair(first, ss[i], es[i])
  }

  // ----- the invariant

  predicate IsOwn(first: u32, s: StreamState)
  {
    s.id % 2 == first
  }

  ghost predicate OwnAt(t: Table, first: u32, n: nat, k: nat)
    requires k < |t.made|
  {
    IsOwn(first, t.made[k]) ==> Own(first, n, t.made[k].id) && KeptAt(t, k)
  }

  predicate Signalled(s: StreamState)
  {
    s.wg == if s.once then 0 else 1
  }

  predicate OwnDistinct(t: Table, first: u32)
  {
    forall j, k | 0 <= j < k < |t.made| && IsOwn(first, t.made[j]) :: t.made[j].id != t.made[k].id
  }

  ghost predicate TableOk(t: Table, first: u32, n: nat)
  {
    && Valid(t) && t.counter == StreamId(first, n)
    && OwnDistinct(t, first)
    && (forall k | 0 <= k < |t.made| :: OwnAt(t, first, n, k) && Signalled(t.made[k]))
  }

  predicate PhaseOk(s: State, k: nat, p: Phase)
    requires k < |s.t.made|
  {
    && (p.Returned? ==> s.t.made[k].once)
    && (s.gone && InTable(s.t, k) ==> p.Opened? || p.Failing?)
  }

  predicate PushOk(s: State, first: u32, k: nat)
    requires k < |s.t.made|
  {
    (k in s.pushes <==> IsOwn(first, s.t.made[k])) && (k in s.pushes ==> PhaseOk(s, k, s.pushes[k]))
  }

  ghost predicate Inv(first: u32, s: State)
  {
    && TableOk(s.t, first, s.begun)
    && (forall k | k in s.pushes :: k < |s.t.made|)
    && (forall k | 0 <= k < |s.t.made| :: PushOk(s, first, k))
    && (s.gone ==> s.shut)
  }

  // ----- the table's operations

  lemma BeginKeepsTable(t: Table, first: u32, n: nat)
    requires first <= 1 && n < HALF && TableOk(t, first, n)
    ensures TableOk(NextStream(t), first, n + 1)
    ensures IsOwn(first, NextStream(t).made[|t.made|])
    ensures t.counter !in t.streams
  {
    var t' := NextStream(t);
    NextIsNew(first, n);
    OwnGrows(first, n);
    StreamIds(first, 0, n);
    forall k | 0 <= k < |t.made| ensures t'.made[k] == t.made[k] && t.made[k].id != t.counter {
      assert OwnAt(t, first, n, k);
    }
    forall k | 0 <= k < |t'.made| ensures OwnAt(t', first, n + 1, k) && Signalled(t'.made[k]) {
      assert k < |t.made| ==> OwnAt(t, first, n, k) && Signalled(t.made[k]);
    }
  }

  lemma RegisterKeepsTable(t: Table, first: u32, n: nat, id: u32)
    requires first <= 1 && TableOk(t, first, n) && id % 2 != first && id !in t.streams
    ensures TableOk(Add(t, id), first, n)
  {
    var t' := Add(t, id);
    forall k | 0 <= k < |t'.made| ensures OwnAt(t', first, n, k) && Signalled(t'.made[k]) {
      assert k < |t.made| ==> OwnAt(t, first, n, k) && Signalled(t.made[k]);
    }
  }

  /** One stream is changed, not back from released or closed; its entry may go if it is settled. */
  predicate Changes(t: Table, k: nat, t': Table)
    requires k < |t.made|
  {
    && t'.counter == t.counter
    && |t'.made| == |t.made| && t'.made[k].id == t.made[k].id
    && (forall j | 0 <= j < |t.made| && j != k :: t'.made[j] == t.made[j])
    && (t.made[k].once ==> t'.made[k].once) && (t.made[k].closed.Some? ==> t'.made[k].closed.Some?)
    && Signalled(t'.made[k])
    && (t'.streams == t.streams || (t'.streams == t.streams - {t.made[k].id} && Settled(t'.made[k])))
  }

  lemma ChangeKeepsTable(t: Table, first: u32, n: nat, k: nat, t': Table)
    requires TableOk(t, first, n) && k < |t.made| && Changes(t, k, t')
    ensures TableOk(t', first, n)
  {
    forall j | 0 <= j < |t.made| ensures t'.made[j].id == t.made[j].id {}
    forall j | 0 <= j < |t.made| ensures OwnAt(t', first, n, j) && Signalled(t'.made[j]) {
      assert OwnAt(t, first, n, j) && Signalled(t.made[j]);
    }
  }

  lemma CloseAllKeepsTable(t: Table, first: u32, n: nat)
    requires TableOk(t, first, n)
    ensures TableOk(CloseAll(t), first, n)
    ensures forall k | 0 <= k < |t.made| :: t.made[k].once ==> CloseAll(t).made[k].once
  {
    var t' := CloseAll(t);
    forall j | 0 <= j < |t.made| ensures OwnAt(t', first, n, j) && Signalled(t'.made[j])
        && t'.made[j].id == t.made[j].id {
      assert OwnAt(t, first, n, j) && Signalled(t.made[j]);
    }
  }

  /** The dispatcher adds a stream of the peer's, changes one stream, or does nothing. */
  lemma HandlingChanges(t: Table, m: Message, offered: set<Bytes>)
    requires Valid(t) && forall k | 0 <= k < |t.made| :: Signalled(t.made[k])
    ensures var t' := HandleOne(t, m, offered, true).0;
      || t' == t
      || (m.Req? && m.Id() !in t.streams && t' == Add(t, m.Id()))
      || (m.Id() in t.streams && Changes(t, t.streams[m.Id()], t'))
  {
    if m.Id() in t.streams {
      assert Signalled(t.made[t.streams[m.Id()]]);
    }
  }

  // ----- the steps

  /** A change to one stream keeps what is known of every Push. */
  lemma ChangeKeepsInv(first: u32, s: State, k: nat, t': Table)
    requires Inv(first, s) && k < |s.t.made| && Changes(s.t, k, t')
    ensures Inv(first, s.(t := t'))
  {
    var s' := s.(t := t');
    ChangeKeepsTable(s.t, first, s.begun, k, t');
    forall j | 0 <= j < |t'.made| ensures PushOk(s', first, j) {
      assert PushOk(s, first, j);
    }
  }

  lemma MoveKeepsInv(first: u32, s: State, k: nat, p: Phase)
    requires Inv(first, s) && k in s.pushes && PhaseOk(s, k, p)
    ensures Inv(first, To(s, k, p))
  {
    var s' := To(s, k, p);
    forall j | 0 <= j < |s.t.made| ensures PushOk(s', first, j) {
      assert PushOk(s, first, j);
    }
  }

  lemma BeginKeepsInv(first: u32, s: State)
    requires first <= 1 && Inv(first, s) && s.begun < HALF
    ensures Inv(first, Then(s, Begin))
  {
    var s', n := Then(s, Begin), |s.t.made|;
    BeginKeepsTable(s.t, first, s.begun);
    forall j | 0 <= j < |s'.t.made| ensures PushOk(s', first, j) {
      assert j < n ==> PushOk(s, first, j);
      assert j < n ==> (InTable(s'.t, j) ==> InTable(s.t, j));
    }
  }

  lemma DispatchKeepsInv(first: u32, s: State, m: Message, offered: set<Bytes>)
    requires first <= 1 && Inv(first, s) && !s.gone && (m.Req? ==> m.Id() % 2 != first)
    ensures Inv(first, s.(t := HandleOne(s.t, m, offered, true).0))
  {
    var t' := HandleOne(s.t, m, offered, true).0;
    HandlingChanges(s.t, m, offered);
    if m.Id() in s.t.streams {
      if t' != s.t {
        ChangeKeepsInv(first, s, s.t.streams[m.Id()], t');
      }
    } else if m.Req? {
      RegisterKeepsTable(s.t, first, s.begun, m.Id());
      forall j | 0 <= j < |t'.made| ensures PushOk(s.(t := t'), first, j) {
        assert j < |s.t.made| ==> PushOk(s, first, j);
      }
    }
  }

  lemma ClosingChanges(t: Table, k: nat, why: Reason)
    requires k < |t.made| && Signalled(t.made[k])
    ensures Changes(t, k, CloseStream(t, k, why)) && Changes(t, k, CloseReader(t, k))
  {
  }

  lemma DisconnectKeepsInv(first: u32, s: State)
    requires Inv(first, s) && s.shut && !s.gone
    ensures Inv(first, Then(s, Disconnect))
  {
    var s' := Then(s, Disconnect);
    CloseAllKeepsTable(s.t, first, s.begun);
    forall j | 0 <= j < |s'.t.made| ensures PushOk(s', first, j) {
      assert PushOk(s, first, j);
    }
  }

  lemma StepKeepsInv(first: u32, s: State, e: Step)
    requires first <= 1 && Inv(first, s) && Enabled(s, e) && Fair(first, s, e)
    ensures Inv(first, Then(s, e))
  {
    match e
    case Begin => BeginKeepsInv(first, s);
    case Dispatch(m, offered) => DispatchKeepsInv(first, s, m, offered);
    case Disconnect => DisconnectKeepsInv(first, s);
    case Shut => ShutKeepsInv(first, s);
    case HandlerFails(k) => ClosingKeepsInv(first, s, k, SendFailed);
    case ReaderCloses(k) => ClosingKeepsInv(first, s, k, ReaderClosed);
    case GiveUp(k) =>
      var why := s.pushes[k].why;
      ClosingKeepsInv(first, s, k, why);
      MoveKeepsInv(first, s.(t := CloseStream(s.t, k, why)), k, Returned(false));
    case _ => PushMovesKeepInv(first, s, e);
  }

  lemma ShutKeepsInv(first: u32, s: State)
    requires Inv(first, s)
    ensures Inv(first, s.(shut := true))
  {
    forall j | 0 <= j < |s.t.made| ensures PushOk(s.(shut := true), first, j) {
      assert PushOk(s, first, j);
    }
  }

  lemma ClosingKeepsInv(first: u32, s: State, k: nat, why: Reason)
    requires Inv(first, s) && k < |s.t.made|
    ensures Inv(first, s.(t := CloseStream(s.t, k, why))) && Inv(first, s.(t := CloseReader(s.t, k)))
  {
    ClosingChanges(s.t, k, why);
    ChangeKeepsInv(first, s, k, CloseStream(s.t, k, why));
    ChangeKeepsInv(first, s, k, CloseReader(s.t, k));
  }

  /** The steps that only move a Push on: an offer after the end is refused, because the writer was shut first. */
  lemma PushMovesKeepInv(first: u32, s: State, e: Step)
    requires Inv(first, s) && Enabled(s, e)
    requires e.Offer? || e.HeaderVerdict? || e.BodyFails? || e.BodySent? || e.Wake?
    ensures Inv(first, Then(s, e))
  {
    var k := e.k;
    assert PushOk(s, first, k) && Signalled(s.t.made[k]);
    MoveKeepsInv(first, s, k, Then(s, e).pushes[k]);
  }

  // ----- the theorems

  lemma {:induction false} RunKeepsInv(first: u32, ss: seq<State>, es: seq<Step>, i: nat)
    requires first <= 1 && IsRun(first, ss, es) && i <= |es|
    ensures Inv(first, ss[i])
  {
    if i > 0 {
      RunKeepsInv(first, ss, es, i - 1);
      StepKeepsInv(first, ss[i - 1], es[i - 1]);
      assert ss[i] == Then(ss[i - 1], es[i - 1]);
    }
  }

  /**
   At every moment of every run: each stream a Push opened is in the table, or
   its waiter has been released and its pipe closed; no wait group was ever taken
   below zero; and NextStream is about to hand out an id that is not in the table.
   */
  lemma StreamsOfPushesAreKept(first: u32, ss: seq<State>, es: seq<Step>, i: nat)
    requires first <= 1 && IsRun(first, ss, es) && i <= |es|
    ensures forall k | k in ss[i].pushes :: k < |ss[i].t.made| && KeptAt(ss[i].t, k)
    ensures forall s | s in ss[i].t.made :: s.wg == if s.once then 0 else 1
    ensures ss[i].begun < HALF ==> ss[i].t.counter !in ss[i].t.streams
  {
    RunKeepsInv(first, ss, es, i);
    var s := ss[i];
    forall k | k in s.pushes ensures k < |s.t.made| && KeptAt(s.t, k) {
      assert PushOk(s, first, k) && OwnAt(s.t, first, s.begun, k);
    }
    if s.begun < HALF {
      BeginKeepsTable(s.t, first, s.begun);
    }
  }

  /**
   Once the connection has gone, every Push that waits can wake, even one whose
   stream was opened after Provider.Close, since such a Push never gets to wait;
   and every Push that returned had its stream released.
   */
  lemma NoPushIsStranded(first: u32, ss: seq<State>, es: seq<Step>, i: nat, k: nat)
    requires first <= 1 && IsRun(first, ss, es) && i <= |es| && k in ss[i].pushes
    ensures ss[i].gone && ss[i].pushes[k].Waiting? ==> Enabled(ss[i], Wake(k))
    ensures ss[i].gone && ss[i].pushes[k].Opened?
            ==> ss[i].shut && Then(ss[i], Offer(k)).pushes[k] == Failing(SendFailed)
    ensures ss[i].pushes[k].Returned? ==> k < |ss[i].t.made| && ss[i].t.made[k].once
  {
    RunKeepsInv(first, ss, es, i);
    var s := ss[i];
    assert PushOk(s, first, k) && OwnAt(s.t, first, s.begun, k) && Signalled(s.t.made[k]);
  }

  // ----- what a Push that returns has been told

  /** The j-th step is a response to the stream at k, which is listed. */
  predicate Answers(ss: seq<State>, es: seq<Step>, k: nat, j: nat)
    requires |ss| == |es| + 1
  {
    && j < |es| && es[j].Dispatch? && es[j].m.Res?
    && InTable(ss[j].t, k) && es[j].m.Id() == ss[j].t.made[k].id
  }

  /** The header of the last answer before step i. */
  function LastAnswer(ss: seq<State>, es: seq<Step>, k: nat, i: nat): Option<Response>
    requires |ss| == |es| + 1 && i <= |es|
  {
    if i == 0 then None
    else if Answers(ss, es, k, i - 1) then Some(es[i - 1].m.s)
    else LastAnswer(ss, es, k, i - 1)
  }

  lemma HeaderStep(s: State, e: Step, k: nat)
    requires Enabled(s, e) && k < |Then(s, e).t.made|
    ensures Then(s, e).t.made[k].header ==
            if e.Dispatch? && e.m.Res? && InTable(s.t, k) && e.m.Id() == s.t.made[k].id then Some(e.m.s)
            else if k < |s.t.made| then s.t.made[k].header else None
  {
  }

  lemma {:induction false} HeaderIsLastAnswer(first: u32, ss: seq<State>, es: seq<Step>, k: nat, i: nat)
    requires IsAnyRun(first, ss, es) && i <= |es|
    ensures LastAnswer(ss, es, k, i) == if k < |ss[i].t.made| then ss[i].t.made[k].header else None
  {
    if i > 0 {
      HeaderIsLastAnswer(first, ss, es, k, i - 1);
      assert Enabled(ss[i - 1], es[i - 1]) && ss[i] == Then(ss[i - 1], es[i - 1]);
      if k < |ss[i].t.made| {
        HeaderStep(ss[i - 1], es[i - 1], k);
      } else {
        MadeGrows(ss[i - 1], es[i - 1]);
      }
    }
  }

  lemma MadeGrows(s: State, e: Step)
    requires Enabled(s, e)
    ensures |Then(s, e).t.made| >= |s.t.made|
  {
  }

  lemma {:induction false} LastAnswerIsLast(ss: seq<State>, es: seq<Step>, k: nat, i: nat)
    requires |ss| == |es| + 1 && i <= |es|
    ensures match LastAnswer(ss, es, k, i)
      case None => forall j: nat | j < i :: !Answers(ss, es, k, j)
      case Some(h) => exists j: nat :: j < i && IsLastAnswer(ss, es, k, i, j) && es[j].m.s == h
  {
    if i > 0 {
      LastAnswerIsLast(ss, es, k, i - 1);
      if Answers(ss, es, k, i - 1) {
        assert IsLastAnswer(ss, es, k, i, i - 1);
      } else if LastAnswer(ss, es, k, i - 1).Some? {
        var j: nat :| j < i - 1 && IsLastAnswer(ss, es, k, i - 1, j) && es[j].m.s == LastAnswer(ss, es, k, i - 1).value;
        assert IsLastAnswer(ss, es, k, i, j);
      }
    }
  }

  predicate IsLastAnswer(ss: seq<State>, es: seq<Step>, k: nat, i: nat, j: nat)
    requires |ss| == |es| + 1
  {
    j < i && Answers(ss, es, k, j) && forall l: nat | j < l < i :: !Answers(ss, es, k, l)
  }

  lemma OneLastAnswer(ss: seq<State>, es: seq<Step>, k: nat, i: nat, j: nat, l: nat)
    requires |ss| == |es| + 1 && IsLastAnswer(ss, es, k, i, j) && IsLastAnswer(ss, es, k, i, l)
    ensures j == l
  {
  }

  /**
   In every run a Push that wakes succeeds if and only if the peer answered its
   stream while it was listed, and handled the request by the last such answer.
   */
  lemma PushSucceedsExactlyWhen(first: u32, ss: seq<State>, es: seq<Step>, i: nat, k: nat)
    requires IsAnyRun(first, ss, es) && i < |es| && es[i] == Wake(k)
    ensures k in ss[i + 1].pushes && ss[i + 1].pushes[k].Returned?
    ensures ss[i + 1].pushes[k].ok <==> exists j: nat :: IsLastAnswer(ss, es, k, i, j) && es[j].m.s.handled
  {
    assert Enabled(ss[i], es[i]) && ss[i + 1] == Then(ss[i], es[i]);
    HeaderIsLastAnswer(first, ss, es, k, i);
    LastAnswerIsLast(ss, es, k, i);
    forall j: nat, l: nat | IsLastAnswer(ss, es, k, i, j) && IsLastAnswer(ss, es, k, i, l) ensures j == l {
      OneLastAnswer(ss, es, k, i, j, l);
    }
  }

  // ----- a Push that could not send

  /** Its header or a part of its body was refused, or its body could not be read. */
  predicate Fails(s: State, e: Step, k: nat)
  {
    (e == Offer(k) && s.shut) || e == HeaderVerdict(k, false) || (e.BodyFails? && e.k == k)
  }

  predicate GivesUp(s: State, k: nat, why: Reason)
  {
    k in s.pushes && (s.pushes[k] == Failing(why)
                      || (s.pushes[k] == Returned(false) && k < |s.t.made| && Settled(s.t.made[k])))
  }

  lemma SettledStays(s: State, e: Step, k: nat)
    requires Enabled(s, e) && k < |s.t.made| && Settled(s.t.made[k])
    ensures k < |Then(s, e).t.made| && Settled(Then(s, e).t.made[k])
  {
  }

  lemma GivesUpStays(s: State, e: Step, k: nat, why: Reason)
    requires Enabled(s, e) && GivesUp(s, k, why)
    requires k < |s.t.made| && (forall j | j in s.pushes :: j < |s.t.made|)
    ensures GivesUp(Then(s, e), k, why)
  {
    if s.pushes[k].Returned? {
      SettledStays(s, e, k);
    }
  }

  lemma {:induction false} PushesAreMade(first: u32, ss: seq<State>, es: seq<Step>, i: nat)
    requires IsAnyRun(first, ss, es) && i <= |es|
    ensures forall k | k in ss[i].pushes :: k < |ss[i].t.made|
  {
    if i > 0 {
      PushesAreMade(first, ss, es, i - 1);
      assert Enabled(ss[i - 1], es[i - 1]) && ss[i] == Then(ss[i - 1], es[i - 1]);
      MadeGrows(ss[i - 1], es[i - 1]);
    }
  }

  /**
   In every run a Push that could not send its header or all of its body never waits and
   never succeeds: it gives up for that reason, and when it returns its stream is settled.
   */
  lemma {:induction false} FailedPushNeverWaits(first: u32, ss: seq<State>, es: seq<Step>, i: nat, j: nat, k: nat)
    requires IsAnyRun(first, ss, es) && i < j <= |es| && Fails(ss[i], es[i], k)
    ensures GivesUp(ss[j], k, if es[i].BodyFails? then es[i].why else SendFailed)
  {
    assert Enabled(ss[i], es[i]) && ss[i + 1] == Then(ss[i], es[i]);
    if j > i + 1 {
      FailedPushNeverWaits(first, ss, es, i, j - 1, k);
      PushesAreMade(first, ss, es, j - 1);
      assert Enabled(ss[j - 1], es[j - 1]) && ss[j] == Then(ss[j - 1], es[j - 1]);
      GivesUpStays(ss[j - 1], es[j - 1], k, if es[i].BodyFails? then es[i].why else SendFailed);
    }
  }

  /** The connection has gone and this Push waits for a release that nothing will give. */
  predicate Stranded(s: State, k: nat)
  {
    s.gone && k in s.pushes && s.pushes[k].Waiting? && k < |s.t.made| && s.t.made[k].wg == 1
  }

  lemma StrandedForever(s: State, k: nat, e: Step)
    requires Stranded(s, k) && Enabled(s, e)
    ensures Stranded(Then(s, e), k)
  {
  }

  const Collided: Table := Table([NewStream(1), NewStream(1)], map[1 := 1], 3)

  lemma Collision(q: Request, offered: set<Bytes>)
    requires q.streamId == 1
    ensures NextStream(HandleOne(Start(1).t, Req(q), offered, true).0) == Collided
  {
    assert HandleOne(Start(1).t, Req(q), offered, true).0 == Table([NewStream(1)], map[1 := 0], 1);
  }

  lemma EntryTakenAway()
    ensures CloseStream(Collided, 0, SendFailed).streams == map[]
    ensures CloseStream(Collided, 0, SendFailed).made[1] == NewStream(1)
  {
  }

  /**
   Without that assumption a Push can be stranded: the peer opens a stream under an
   id this end is about to use, a Push replaces it in the table, and when the
   handler of the first stream fails to answer it takes the second one's entry
   away.  The Push then waits on, though its connection has gone.
   */
  lemma SharedIdStrandsAPush(q: Request, offered: set<Bytes>) returns (ss: seq<State>, es: seq<Step>)
    requires q.streamId == 1
    ensures IsAnyRun(1, ss, es) && Stranded(ss[|es|], 1)
  {
    ss, es := [Start(1)], [];
    ss, es := Extended(ss, es, Dispatch(Req(q), offered));
    ss, es := Extended(ss, es, Begin);
    Collision(q, offered);
    assert ss[2] == State(Collided, false, false, 1, map[1 := Opened]);
    ss, es := Extended(ss, es, Offer(1));
    ss, es := Extended(ss, es, HeaderVerdict(1, true));
    ss, es := Extended(ss, es, BodySent(1));
    ss, es := Extended(ss, es, HandlerFails(0));
    EntryTakenAway();
    ss, es := Extended(ss, es, Shut);
    ss, es := Extended(ss, es, Disconnect);
  }

  lemma Extended(ss: seq<State>, es: seq<Step>, e: Step) returns (ss': seq<State>, es': seq<Step>)
    requires IsAnyRun(1, ss, es) && Enabled(ss[|es|], e)
    ensures IsAnyRun(1, ss', es') && |es'| == |es| + 1 && ss'[|es'|] == Then(ss[|es|], e)
  {
    ss', es' := ss + [Then(ss[|es|], e)], es + [e];
    forall i | 0 <= i < |es'| ensures Enabled(ss'[i], es'[i]) && ss'[i + 1] == Then(ss'[i], es'[i]) {
      assert i < |es| ==> Enabled(ss[i], es[i]) && ss[i + 1] == Then(ss[i], es[i]);
    }
  }
}
