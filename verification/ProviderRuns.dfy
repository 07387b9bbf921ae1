/**
 A Provider in every interleaving of its Pushes, its dispatcher, its handlers and
 the end of its connection.  A step is one critical section, one verdict of a
 send, or one wakeup.
 */
module ProviderRuns {
  import opened Basics
  import opened ServicePackets
  import opened DataPackets
  import opened Messages
  import opened Streams

  /**
   Where a Push is: its header not yet offered to the connection; offered and accepted; its body
   being sent; waiting; giving up; returned.
   */
  datatype Phase = Opened | Accepted | Sending | Waiting | Failing(why: Reason) | Returned(ok: bool)

  /**
   `shut`: the connection's writer accepts no more; `gone`: Provider.Close has run;
   `begun` counts the calls of NextStream.  A Push is known by the place of its stream.
   */
  datatype State = State(t: Table, shut: bool, gone: bool, begun: nat, pushes: map<nat, Phase>)

  datatype Step =
    | Begin
    | Offer(k: nat)
    | HeaderVerdict(k: nat, ok: bool)
    | BodyFails(k: nat, why: Reason)   // a read of the body failed, or a send was refused
    | BodySent(k: nat)
    | GiveUp(k: nat)
    | Wake(k: nat)
    | Dispatch(m: Message, offered: set<Bytes>)
    | HandlerFails(k: nat)
    | ReaderCloses(k: nat)
    | Shut
    | Disconnect

  predicate Enabled(s: State, e: Step)
  {
    match e
    case Begin => true
    case Offer(k) => k in s.pushes && s.pushes[k].Opened?
    case HeaderVerdict(k, _) => k in s.pushes && s.pushes[k].Accepted?
    case BodyFails(k, why) => k in s.pushes && s.pushes[k].Sending? && why in {BodyFailed, SendFailed}
    case BodySent(k) => k in s.pushes && s.pushes[k].Sending?
    case GiveUp(k) => k in s.pushes && s.pushes[k].Failing? && k < |s.t.made|
    case Wake(k) => k in s.pushes && s.pushes[k].Waiting? && k < |s.t.made| && s.t.made[k].wg == 0
    case Dispatch(_, _) => !s.gone && Valid(s.t)
    case HandlerFails(k) => k < |s.t.made| && k !in s.pushes
    case ReaderCloses(k) => k < |s.t.made|
    case Shut => true
    case Disconnect => s.shut && !s.gone
  }

  function To(s: State, k: nat, p: Phase): State
  {
    s.(pushes := s.pushes[k := p])
  }

  function Then(s: State, e: Step): State
    requires Enabled(s, e)
  {
    match e
    case Begin => To(s.(t := NextStream(s.t), begun := s.begun + 1), |s.t.made|, Opened)
    case Offer(k) => To(s, k, if s.shut then Failing(SendFailed) else Accepted)
    case HeaderVerdict(k, ok) => To(s, k, if ok then Sending else Failing(SendFailed))
    case BodyFails(k, why) => To(s, k, Failing(why))
    case BodySent(k) => To(s, k, Waiting)
    case GiveUp(k) => To(s.(t := CloseStream(s.t, k, s.pushes[k].why)), k, Returned(false))
    case Wake(k) => To(s, k, Returned(s.t.made[k].header.Some? && s.t.made[k].header.value.handled))
    case Dispatch(m, offered) => s.(t := HandleOne(s.t, m, offered, true).0)
    case HandlerFails(k) => s.(t := CloseStream(s.t, k, SendFailed))
    case ReaderCloses(k) => s.(t := CloseReader(s.t, k))
    case Shut => s.(shut := true)
    case Disconnect => s.(t := CloseAll(s.t), gone := true)
  }

  function Start(first: u32): State
  {
    State(Table([], map[], first), false, false, 0, map[])
  }

  // ----- every stream is in the table, or its waiter has been released and its pipe closed

  predicate Settled(s: StreamState)
  {
    s.once && s.closed.Some?
  }

  predicate KeptAt(t: Table, k: nat)
    requires k < |t.made|
  {
    InTable(t, k) || Settled(t.made[k])
  }

  predicate Kept(t: Table)
  {
    forall k | 0 <= k < |t.made| :: KeptAt(t, k)
  }

  /** Nobody is lost if the entry of this id is replaced or removed on behalf of the stream at k. */
  predicate Spare(t: Table, id: u32, k: nat)
    requires Valid(t)
  {
    id in t.streams ==> t.streams[id] == k || Settled(t.made[t.streams[id]])
  }

  /** What a step must find for every stream to be kept; only these three kinds of step can lose one. */
  predicate Guard(s: State, e: Step)
    requires Enabled(s, e) && Valid(s.t)
  {
    match e
    case Begin => Spare(s.t, s.t.counter, |s.t.made|)
    case GiveUp(k) => Spare(s.t, s.t.made[k].id, k)
    case HandlerFails(k) => Spare(s.t, s.t.made[k].id, k)
    case _ => true
  }

  lemma NextStreamKeeps(t: Table)
    requires Valid(t) && Kept(t)
    ensures Kept(NextStream(t)) <==> Spare(t, t.counter, |t.made|)
  {
    var t' := NextStream(t);
    forall j | 0 <= j < |t.made| ensures t'.made[j] == t.made[j]
        && (InTable(t', j) <==> InTable(t, j) && t.made[j].id != t.counter) {}
    if t.counter in t.streams {
      var j := t.streams[t.counter];
      assert Kept(t') ==> KeptAt(t', j);
    }
    forall j | 0 <= j < |t'.made| && Spare(t, t.counter, |t.made|) ensures KeptAt(t', j) {
      assert j < |t.made| ==> KeptAt(t, j);
    }
  }

  lemma CloseStreamKeeps(t: Table, k: nat, why: Reason)
    requires Valid(t) && Kept(t) && k < |t.made|
    ensures Kept(CloseStream(t, k, why)) <==> Spare(t, t.made[k].id, k)
  {
    var t', id := CloseStream(t, k, why), t.made[k].id;
    forall j | 0 <= j < |t.made| ensures t'.made[j].id == t.made[j].id
        && (InTable(t', j) <==> InTable(t, j) && t.made[j].id != id) {}
    if id in t.streams {
      var j := t.streams[id];
      assert Kept(t') ==> KeptAt(t', j);
    }
    forall j | 0 <= j < |t'.made| && Spare(t, id, k) ensures KeptAt(t', j) {
      assert KeptAt(t, j);
    }
  }

  lemma HandlingKeeps(t: Table, m: Message, offered: set<Bytes>)
    requires Valid(t) && Kept(t)
    ensures Kept(HandleOne(t, m, offered, true).0)
  {
    var t' := HandleOne(t, m, offered, true).0;
    if m.Dat? && m.d.streamId in t.streams {
      var k := t.streams[m.d.streamId];
      CloseStreamKeeps(t, k, Overlong);
      CloseStreamKeeps(t, k, EndOfStream);
      CloseStreamKeeps(t, k, PipeClosed);
    }
    if !(m.Dat? && t' != t && t'.streams != t.streams) {
      forall j | 0 <= j < |t'.made| ensures KeptAt(t', j) {
        assert j < |t.made| ==> KeptAt(t, j);
      }
    }
  }

  /**
   A step leaves every stream kept if and only if its guard holds: the id it takes or drops is not
   another live stream's.
   */
  lemma StepKeepsStreams(s: State, e: Step)
    requires Valid(s.t) && Kept(s.t) && Enabled(s, e)
    ensures Kept(Then(s, e).t) <==> Guard(s, e)
  {
    match e
    case Begin => NextStreamKeeps(s.t);
    case GiveUp(k) => CloseStreamKeeps(s.t, k, s.pushes[k].why);
    case HandlerFails(k) => CloseStreamKeeps(s.t, k, SendFailed);
    case Dispatch(m, offered) => HandlingKeeps(s.t, m, offered);
    case ReaderCloses(k) => CloseReaderKeeps(s.t, k);
    case Disconnect => CloseAllKeeps(s.t);
    case _ =>
  }

  lemma CloseReaderKeeps(t: Table, k: nat)
    requires Kept(t) && k < |t.made|
    ensures Kept(CloseReader(t, k))
  {
    forall j | 0 <= j < |t.made| ensures KeptAt(CloseReader(t, k), j) {
      assert KeptAt(t, j);
    }
  }

  /** After Provider.Close, every stream made before it is settled. */
  lemma CloseAllKeeps(t: Table)
    requires Kept(t)
    ensures Kept(CloseAll(t))
    ensures forall k | 0 <= k < |t.made| :: Settled(CloseAll(t).made[k])
  {
    forall k | 0 <= k < |t.made| ensures Settled(CloseAll(t).made[k]) {
      assert KeptAt(t, k);
    }
  }
}
