/**
 Any number of streams interleaved on one connection: what the receiving end
 makes of every order in which their messages arrive, while it opens streams itself.
 */
module Demux {
  import opened Basics
  import opened ServicePackets
  import opened Messages
  import opened Streams
  import opened Traces
  import opened Seqno

  /** The receiving end opens a stream of its own, or a message arrives. */
  datatype Event = Local | Arrive(m: Message)

  function Locals(events: seq<Event>): nat
  {
    if events == [] then 0
    else Locals(events[..|events| - 1]) + if events[|events| - 1].Local? then 1 else 0
  }

  /** The messages of one stream, in the order of their arrival. */
  function Trace(events: seq<Event>, id: u32): seq<Message>
  {
    if events == [] then []
    else Trace(events[..|events| - 1], id) + Of(events[|events| - 1], id)
  }

  function Of(e: Event, id: u32): seq<Message>
  {
    if e.Arrive? && e.m.Id() == id then [e.m] else []
  }

  /** The receiving end's table after the events, or none once a message has been refused: that ends the connection. */
  function After(first: u32, events: seq<Event>, offered: set<Bytes>): (r: Option<Table>)
    ensures r.Some? ==> Valid(r.value)
  {
    if events == [] then Some(Table([], map[], first))
    else
      match After(first, events[..|events| - 1], offered)
      case None => None
      case Some(t) => Step(t, events[|events| - 1], offered)
  }

  function Step(t: Table, e: Event, offered: set<Bytes>): (r: Option<Table>)
    requires Valid(t)
    ensures r.Some? ==> Valid(r.value)
  {
    match e
    case Local => Some(NextStream(t))
    case Arrive(m) =>
      HandlingKeepsValid(t, m, offered, true);
      var (t', o) := HandleOne(t, m, offered, true);
      if o.Fails? || o.Panics? then None else Some(t')
  }

  /** The peer opens streams with its own ids only, and answers only streams this end has opened. */
  ghost predicate Fair(first: u32, before: seq<Event>, e: Event)
  {
    match e
    case Local => Locals(before) < HALF
    case Arrive(m) => (m.Req? ==> m.Id() % 2 != first) && (m.Res? ==> Own(first, Locals(before), m.Id()))
  }

  /** Each stream's messages arrive in the order of a sender's trace, all streams interleaved in any way. */
  ghost predicate Orderly(first: u32, events: seq<Event>)
  {
    && (forall k | 0 <= k < |events| :: Fair(first, events[..k], events[k]))
    && (forall id: u32 :: IsTrace(Trace(events, id)))
  }

  // ----- the claim

  predicate StreamOk(s: StreamState, tr: seq<Message>)
  {
    && s.pipe == Payload(tr)
    && s.closed == (if Ended(tr) then Some(EndOfStream) else None)
    && s.header == (if tr != [] && tr[0].Res? then Some(tr[0].s) else None)
    && s.once == (s.header.Some? || Ended(tr))
  }

  /** A stream is opened by this end, or by its first message. */
  ghost predicate Opened(first: u32, events: seq<Event>, id: u32)
  {
    Own(first, Locals(events), id) || Trace(events, id) != []
  }

  ghost predicate Made(t: Table, id: u32)
  {
    exists k :: 0 <= k < |t.made| && t.made[k].id == id
  }

  predicate DistinctIds(t: Table)
  {
    forall j, k | 0 <= j < k < |t.made| :: t.made[j].id != t.made[k].id
  }

  /** A stream is as its trace so far says, and in the table until the trace has ended. */
  predicate Fine(t: Table, k: nat, tr: seq<Message>)
    requires k < |t.made|
  {
    StreamOk(t.made[k], tr) && (InTable(t, k) <==> !Ended(tr))
  }

  ghost predicate AllFine(t: Table, events: seq<Event>)
  {
    forall k | 0 <= k < |t.made| :: Fine(t, k, Trace(events, t.made[k].id))
  }

  ghost predicate MadeAreOpened(t: Table, first: u32, events: seq<Event>)
  {
    forall id: u32 :: Made(t, id) <==> Opened(first, events, id)
  }

  ghost predicate OwnParity(first: u32, events: seq<Event>)
  {
    forall id: u32 | Trace(events, id) != [] && id % 2 == first :: Own(first, Locals(events), id)
  }

  ghost predicate Demultiplexed(t: Table, first: u32, events: seq<Event>)
  {
    && DistinctIds(t)
    && AllFine(t, events)
    && MadeAreOpened(t, first, events)
  }

  // ----- proofs

  lemma PrefixIsOrderly(first: u32, events: seq<Event>)
    requires events != [] && Orderly(first, events)
    ensures Orderly(first, events[..|events| - 1])
    ensures Fair(first, events[..|events| - 1], events[|events| - 1])
  {
    var n := |events| - 1;
    var front := events[..n];
    forall k | 0 <= k < n ensures Fair(first, front[..k], front[k]) {
      assert front[..k] == events[..k];
      assert Fair(first, events[..k], events[k]);
    }
    forall id: u32 ensures IsTrace(Trace(front, id)) {
      assert IsTrace(Trace(events, id));
      TracePrefix(Trace(front, id), Of(events[n], id));
    }
  }

  lemma TracePrefix(a: seq<Message>, b: seq<Message>)
    requires IsTrace(a + b)
    ensures IsTrace(a)
  {
    var tr := a + b;
    forall i | 0 <= i < |a| ensures tr[i] == a[i] {}
  }

  lemma Next(front: seq<Event>, e: Event)
    ensures Locals(front + [e]) == Locals(front) + if e.Local? then 1 else 0
    ensures forall id: u32 :: Trace(front + [e], id) == if e.Arrive?
        && e.m.Id() == id then Trace(front, id) + [e.m] else Trace(front, id)
  {
    assert (front + [e])[..|front|] == front;
    forall id: u32 ensures Trace(front, id) + [] == Trace(front, id) {}
  }

  lemma ListedIsMade(t: Table, id: u32)
    requires Valid(t)
    ensures id in t.streams ==> Made(t, id)
  {
    if id in t.streams {
      assert t.made[t.streams[id]].id == id;
    }
  }

  /** An id that has not been opened stands for no stream. */
  lemma NotListed(t: Table, first: u32, events: seq<Event>, id: u32)
    requires Valid(t) && MadeAreOpened(t, first, events) && !Opened(first, events, id)
    ensures !Made(t, id) && id !in t.streams
  {
    ListedIsMade(t, id);
  }

  lemma Listed(t: Table, first: u32, events: seq<Event>, id: u32) returns (k: nat)
    requires Demultiplexed(t, first, events) && Opened(first, events, id) && !Ended(Trace(events, id))
    ensures InTable(t, k) && t.made[k].id == id
  {
    assert Made(t, id);
    k :| 0 <= k < |t.made| && t.made[k].id == id;
    assert Fine(t, k, Trace(events, id));
  }

  lemma Untouched(t: Table, t': Table, k: nat, tr: seq<Message>)
    requires k < |t.made| && k < |t'.made| && t'.made[k] == t.made[k] && Fine(t, k, tr)
    requires InTable(t', k) <==> InTable(t, k)
    ensures Fine(t', k, tr)
  {
  }

  lemma AddedIsMade(t: Table, id: u32)
    ensures forall i: u32 :: Made(Add(t, id), i) <==> Made(t, i) || i == id
  {
    var t' := Add(t, id);
    assert t'.made[|t.made|].id == id;
    forall i: u32 | Made(t, i) ensures Made(t', i) {
      var k :| 0 <= k < |t.made| && t.made[k].id == i;
      assert t'.made[k].id == i;
    }
  }

  lemma NewIsFine(t: Table, id: u32, tr: seq<Message>)
    requires tr == [] || (|tr| == 1 && tr[0].Req?)
    ensures Fine(Add(t, id), |t.made|, tr)
  {
    if tr != [] {
      assert Payload(tr) == Payload(tr[..0]) + DataOf(tr[0]);
    }
  }

  /** A new stream, for an id opened by this very event. */
  lemma AddedIsFine(t: Table, id: u32, front: seq<Event>, events: seq<Event>)
    requires !Made(t, id) && DistinctIds(t) && AllFine(t, front)
    requires forall i: u32 | i != id :: Trace(events, i) == Trace(front, i)
    requires var tr := Trace(events, id); tr == [] || (|tr| == 1 && tr[0].Req?)
    ensures DistinctIds(Add(t, id)) && AllFine(Add(t, id), events)
  {
    var t', n := Add(t, id), |t.made|;
    forall k | 0 <= k < |t'.made| ensures Fine(t', k, Trace(events, t'.made[k].id)) {
      if k < n {
        assert Fine(t, k, Trace(front, t.made[k].id));
        Untouched(t, t', k, Trace(front, t.made[k].id));
      } else {
        NewIsFine(t, id, Trace(events, id));
      }
    }
  }

  /** One listed stream is changed, and leaves the table if that ends it. */
  ghost predicate Updated(t: Table, k: nat, ends: bool, t': Table)
    requires InTable(t, k)
  {
    && |t'.made| == |t.made| && t'.made[k].id == t.made[k].id
    && (forall j | 0 <= j < |t.made| && j != k :: t'.made[j] == t.made[j])
    && t'.streams == if ends then t.streams - {t.made[k].id} else t.streams
  }

  lemma UpdatedIsFine(t: Table, k: nat, t': Table, front: seq<Event>, m: Message)
    requires InTable(t, k) && DistinctIds(t) && AllFine(t, front) && t.made[k].id == m.Id()
    requires var tr := Trace(front, m.Id()) + [m]; Updated(t, k, Ended(tr), t') && StreamOk(t'.made[k], tr)
    ensures DistinctIds(t') && AllFine(t', front + [Arrive(m)])
  {
    var events, tr := front + [Arrive(m)], Trace(front, m.Id()) + [m];
    Next(front, Arrive(m));
    forall j | 0 <= j < |t'.made| ensures Fine(t', j, Trace(events, t'.made[j].id)) {
      if j == k {
        ListedIsFine(t, k, t', tr);
      } else {
        assert Fine(t, j, Trace(front, t.made[j].id));
        OtherIsFine(t, k, j, t', Ended(tr), Trace(front, t.made[j].id));
      }
    }
    forall j | 0 <= j < |t.made| ensures t'.made[j].id == t.made[j].id {}
  }

  lemma ListedIsFine(t: Table, k: nat, t': Table, tr: seq<Message>)
    requires InTable(t, k) && Updated(t, k, Ended(tr), t') && StreamOk(t'.made[k], tr)
    ensures Fine(t', k, tr)
  {
  }

  lemma OtherIsFine(t: Table, k: nat, j: nat, t': Table, ends: bool, tr: seq<Message>)
    requires InTable(t, k) && DistinctIds(t) && j < |t.made| && j != k && Updated(t, k, ends, t') && Fine(t, j, tr)
    ensures Fine(t', j, tr) && t'.made[j].id == t.made[j].id != t.made[k].id
  {
    assert t.made[j].id != t.made[k].id;
    Untouched(t, t', j, tr);
  }

  lemma UpdatedIsMade(t: Table, k: nat, ends: bool, t': Table)
    requires InTable(t, k) && Updated(t, k, ends, t')
    ensures forall id: u32 :: Made(t', id) <==> Made(t, id)
  {
    forall j | 0 <= j < |t.made| ensures t'.made[j].id == t.made[j].id {}
    forall id: u32 ensures Made(t', id) <==> Made(t, id) {
      if j :| 0 <= j < |t.made| && t.made[j].id == id {
        assert t'.made[j].id == id;
      }
    }
  }

  ghost predicate Counted(t: Table, first: u32, events: seq<Event>)
  {
    t.counter == StreamId(first, Locals(events)) && OwnParity(first, events)
  }

  /** The next id of this end's own has not been opened. */
  lemma NextIsUnopened(t: Table, first: u32, front: seq<Event>)
    requires first <= 1 && Counted(t, first, front) && Locals(front) < HALF
    ensures !Opened(first, front, t.counter)
  {
    NextIsNew(first, Locals(front));
    StreamIds(first, 0, Locals(front));
  }

  lemma LocalStep(t: Table, first: u32, front: seq<Event>)
    requires first <= 1 && Valid(t) && Demultiplexed(t, first, front) && Counted(t, first, front)
    requires Fair(first, front, Local)
    ensures Demultiplexed(NextStream(t), first, front + [Local]) && Counted(NextStream(t), first, front + [Local])
  {
    var events, t' := front + [Local], NextStream(t);
    Next(front, Local);
    NextIsUnopened(t, first, front);
    OwnGrows(first, Locals(front));
    AddedIsMade(t, t.counter);
    var a := Add(t, t.counter);
    AddedIsFine(t, t.counter, front, events);
    assert t'.made == a.made && t'.streams == a.streams;
    forall k | 0 <= k < |t'.made| ensures Fine(t', k, Trace(events, t'.made[k].id)) {
      assert Fine(a, k, Trace(events, a.made[k].id));
    }
    forall id: u32 ensures Made(t', id) <==> Opened(first, events, id) {
      assert Made(t', id) <==> Made(a, id);
    }
  }

  /** What an arriving message must be, given those of its stream that arrived before. */
  lemma ArrivalIsTimely(tr: seq<Message>, m: Message)
    requires IsTrace(tr + [m])
    ensures m.Dat? <==> tr != []
    ensures m.Dat? ==> !Ended(tr) && |m.d.data| <= CHUNK
    ensures Payload(tr + [m]) == Payload(tr) + DataOf(m)
    ensures tr != [] ==> (tr + [m])[0] == tr[0]
  {
    var all := tr + [m];
    assert all[|tr|] == m && all[..|tr|] == tr;
    assert tr != [] ==> all[|tr| - 1] == tr[|tr| - 1];
  }

  lemma RequestIsAdded(t: Table, q: Request, offered: set<Bytes>)
    requires q.streamId !in t.streams
    ensures var (t', o) := HandleRequest(t, q, offered, true); t' == Add(t, q.streamId) && !o.Fails? && !o.Panics?
  {
  }

  lemma AddedIsDemultiplexed(t: Table, first: u32, front: seq<Event>, m: Message)
    requires first <= 1 && Valid(t) && Demultiplexed(t, first, front) && m.Req?
    requires !Own(first, Locals(front), m.Id()) && Trace(front, m.Id()) == []
    ensures Demultiplexed(Add(t, m.Id()), first, front + [Arrive(m)])
  {
    var id, events := m.Id(), front + [Arrive(m)];
    Next(front, Arrive(m));
    assert Trace(events, id) == [m] by { assert [] + [m] == [m]; }
    NotListed(t, first, front, id);
    AddedIsFine(t, id, front, events);
    AddedIsMade(t, id);
  }

  lemma RequestStep(t: Table, first: u32, front: seq<Event>, m: Message, offered: set<Bytes>)
    requires first <= 1 && Valid(t) && Demultiplexed(t, first, front)
    requires m.Req? && Fair(first, front, Arrive(m)) && IsTrace(Trace(front, m.Id()) + [m])
    ensures var (t', o) := HandleOne(t, m, offered, true);
      !o.Fails? && !o.Panics? && t'.counter == t.counter && Demultiplexed(t', first, front + [Arrive(m)])
  {
    var id := m.Id();
    ArrivalIsTimely(Trace(front, id), m);
    OthersAreNotOwn(first, Locals(front), id);
    NotListed(t, first, front, id);
    AddedIsDemultiplexed(t, first, front, m);
    RequestIsAdded(t, m.q, offered);
  }

  /** One listed stream changed as its next message asks: the rest of the claim stands. */
  lemma UpdatedIsDemultiplexed(t: Table, k: nat, t': Table, first: u32, front: seq<Event>, m: Message)
    requires Demultiplexed(t, first, front) && Opened(first, front, m.Id()) && InTable(t, k) && t.made[k].id == m.Id()
    requires var tr := Trace(front, m.Id()) + [m]; Updated(t, k, Ended(tr), t') && StreamOk(t'.made[k], tr)
    ensures Demultiplexed(t', first, front + [Arrive(m)])
  {
    UpdatedIsFine(t, k, t', front, m);
    UpdatedIsMade(t, k, Ended(Trace(front, m.Id()) + [m]), t');
    StillOpened(first, front, m);
  }

  lemma StillOpened(first: u32, front: seq<Event>, m: Message)
    requires Opened(first, front, m.Id())
    ensures forall id: u32 :: Opened(first, front + [Arrive(m)], id) <==> Opened(first, front, id)
  {
    Next(front, Arrive(m));
  }

  lemma ResponseIsTaken(t: Table, k: nat, m: Message)
    requires Valid(t) && InTable(t, k) && t.made[k].id == m.Id() && Fine(t, k, []) && m.Res?
    ensures var (t', o) := HandleResponse(t, m.s);
      o.Done? && t'.counter == t.counter && Updated(t, k, Ended([m]), t') && StreamOk(t'.made[k], [m])
  {
    assert Payload([m]) == Payload([m][..0]) + DataOf(m);
  }

  lemma ResponseStep(t: Table, first: u32, front: seq<Event>, m: Message, offered: set<Bytes>)
    requires first <= 1 && Valid(t) && Demultiplexed(t, first, front)
    requires m.Res? && Fair(first, front, Arrive(m)) && IsTrace(Trace(front, m.Id()) + [m])
    ensures var (t', o) := HandleOne(t, m, offered, true);
      !o.Fails? && !o.Panics? && t'.counter == t.counter && Demultiplexed(t', first, front + [Arrive(m)])
  {
    ArrivalIsTimely(Trace(front, m.Id()), m);
    var k := Listed(t, first, front, m.Id());
    assert Fine(t, k, Trace(front, m.Id()));
    ResponseIsTaken(t, k, m);
    assert [] + [m] == [m];
    UpdatedIsDemultiplexed(t, k, HandleResponse(t, m.s).0, first, front, m);
  }

  lemma DataIsTaken(t: Table, k: nat, tr: seq<Message>, m: Message)
    requires Valid(t) && InTable(t, k) && t.made[k].id == m.Id() && Fine(t, k, tr)
    requires m.Dat? && IsTrace(tr + [m])
    ensures var (t', o) := HandleData(t, m.d);
      o.Done? && t'.counter == t.counter && Updated(t, k, Ended(tr + [m]), t') && StreamOk(t'.made[k], tr + [m])
  {
    ArrivalIsTimely(tr, m);
    if m.d.data == [] {
      assert Payload(tr) + [] == Payload(tr);
      EndIsTaken(t, k, tr, m);
    } else {
      ChunkIsTaken(t, k, tr, m);
    }
  }

  lemma EndIsTaken(t: Table, k: nat, tr: seq<Message>, m: Message)
    requires Valid(t) && InTable(t, k) && t.made[k].id == m.Id() && Fine(t, k, tr)
    requires m.Dat? && m.d.data == [] && tr != [] && !Ended(tr)
    requires Payload(tr + [m]) == Payload(tr) && (tr + [m])[0] == tr[0]
    ensures var (t', o) := HandleData(t, m.d);
      o.Done? && t'.counter == t.counter && Updated(t, k, Ended(tr + [m]), t') && StreamOk(t'.made[k], tr + [m])
  {
  }

  lemma ChunkIsTaken(t: Table, k: nat, tr: seq<Message>, m: Message)
    requires Valid(t) && InTable(t, k) && t.made[k].id == m.Id() && Fine(t, k, tr)
    requires m.Dat? && 0 < |m.d.data| <= CHUNK && tr != [] && !Ended(tr)
    requires Payload(tr + [m]) == Payload(tr) + m.d.data && (tr + [m])[0] == tr[0]
    ensures var (t', o) := HandleData(t, m.d);
      o.Done? && t'.counter == t.counter && Updated(t, k, Ended(tr + [m]), t') && StreamOk(t'.made[k], tr + [m])
  {
  }

  lemma DataStep(t: Table, first: u32, front: seq<Event>, m: Message, offered: set<Bytes>)
    requires first <= 1 && Valid(t) && Demultiplexed(t, first, front)
    requires m.Dat? && IsTrace(Trace(front, m.Id()) + [m])
    ensures var (t', o) := HandleOne(t, m, offered, true);
      !o.Fails? && !o.Panics? && t'.counter == t.counter && Demultiplexed(t', first, front + [Arrive(m)])
  {
    var tr := Trace(front, m.Id());
    ArrivalIsTimely(tr, m);
    var k := Listed(t, first, front, m.Id());
    assert Fine(t, k, tr);
    DataIsTaken(t, k, tr, m);
    UpdatedIsDemultiplexed(t, k, HandleData(t, m.d).0, first, front, m);
  }

  lemma ArrivalIsCounted(t: Table, first: u32, front: seq<Event>, m: Message, t': Table)
    requires Counted(t, first, front) && t'.counter == t.counter
    requires Fair(first, front, Arrive(m)) && IsTrace(Trace(front, m.Id()) + [m])
    ensures Counted(t', first, front + [Arrive(m)])
  {
    Next(front, Arrive(m));
    ArrivalIsTimely(Trace(front, m.Id()), m);
  }

  /**
   In every order of arrival that is some interleaving of senders' traces, while
   this end opens up to 2^31 streams of its own: no message is refused, each id
   that was opened stands for one stream, and each stream's pipe was handed exactly
   the bytes of its own messages, in order, and was closed exactly by its own
   terminator.
   */
  lemma {:induction false} EveryInterleavingIsDemultiplexed(first: u32, events: seq<Event>, offered: set<Bytes>)
    requires first <= 1 && Orderly(first, events)
    ensures var r := After(first, events, offered);
      r.Some? && Demultiplexed(r.value, first, events) && Counted(r.value, first, events)
  {
    if events != [] {
      var n := |events| - 1;
      var front, e := events[..n], events[n];
      PrefixIsOrderly(first, events);
      EveryInterleavingIsDemultiplexed(first, front, offered);
      var t := After(first, front, offered).value;
      assert events == front + [e];
      match e
      case Local => LocalStep(t, first, front);
      case Arrive(m) =>
        Next(front, e);
        assert IsTrace(Trace(events, m.Id()));
        match m {
          case Req(_) => RequestStep(t, first, front, m, offered);
          case Res(_) => ResponseStep(t, first, front, m, offered);
          case Dat(_) => DataStep(t, first, front, m, offered);
        }
        ArrivalIsCounted(t, first, front, m, HandleOne(t, m, offered, true).0);
    }
  }
}
