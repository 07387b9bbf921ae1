/**
 What one stream puts on the wire: the messages of a handler's run over a Context,
 and those of a Push reading a body.
 */
module Traces {
  import opened Basics
  import opened ServicePackets
  import opened DataPackets
  import opened Messages
  import opened Streams

  /** Pieces of CHUNK bytes, the last one perhaps shorter. */
  function Chunks(data: Bytes): seq<Bytes>
  {
    if data == [] then []
    else if |data| <= CHUNK then [data]
    else [data[..CHUNK]] + Chunks(data[CHUNK..])
  }

  predicate IsChunk(c: Bytes)
  {
    0 < |c| <= CHUNK
  }

  function DataMessages(id: u32, cs: seq<Bytes>): (ms: seq<Message>)
    ensures |ms| == |cs| && forall i | 0 <= i < |cs| :: ms[i] == Dat(Data(id, cs[i]))
  {
    seq(|cs|, i requires 0 <= i < |cs| => Dat(Data(id, cs[i])))
  }

  lemma {:induction false} JoinedAppend(a: seq<Bytes>, b: seq<Bytes>)
    ensures Joined(a + b) == Joined(a) + Joined(b)
  {
    if a == [] {
      assert a + b == b;
    } else {
      assert (a + b)[1..] == a[1..] + b;
      JoinedAppend(a[1..], b);
    }
  }

  lemma JoinedOne(c: Bytes)
    ensures Joined([c]) == c
  {
    assert |[c][1..]| == 0;
  }

  lemma {:induction false} ChunksAreTheData(data: Bytes)
    ensures Joined(Chunks(data)) == data && forall c | c in Chunks(data) :: IsChunk(c)
    ensures forall i | 0 <= i < |Chunks(data)| - 1 :: |Chunks(data)[i]| == 2048
  {
    if |data| > CHUNK {
      ChunksAreTheData(data[CHUNK..]);
      assert Chunks(data)[1..] == Chunks(data[CHUNK..]);
      assert data[..CHUNK] + data[CHUNK..] == data;
    } else if data != [] {
      JoinedOne(data);
    }
  }

  // ----- the handler's side

  /** What a handler does with its Context. */
  datatype Action = WriteHeader(key: Bytes, val: Bytes) | Write(data: Bytes)

  type HeaderMap = map<Bytes, Bytes>

  /** `Context.responseHeaders` and `written`. */
  datatype Ctx = Ctx(id: u32, headers: HeaderMap, written: bool)
  {
    function After(a: Action): Ctx
    {
      match a
      case WriteHeader(k, v) => this.(headers := headers[k := v])
      case Write(data) => this.(written := written || data != [])
    }

    /** The messages of one action. */
    function Out(a: Action): seq<Message>
    {
      match a
      case WriteHeader(_, _) => []
      case Write(data) =>
        if data == [] then [] else (if written then [] else [HeaderMessage()]) + DataMessages(id, Chunks(data))
    }

    function HeaderMessage(): Message
    {
      Res(Response(id, true, Some(headers)))
    }

    /** What follows when the handler returns: the header if nothing was written, else the terminator. */
    function Closing(): Message
    {
      if written then Dat(Data(id, [])) else HeaderMessage()
    }
  }

  function FreshCtx(id: u32): Ctx
  {
    Ctx(id, map[], false)
  }

  function AfterAll(c: Ctx, actions: seq<Action>): Ctx
  {
    if actions == [] then c else AfterAll(c, actions[..|actions| - 1]).After(actions[|actions| - 1])
  }

  function OutAll(c: Ctx, actions: seq<Action>): seq<Message>
  {
    if actions == [] then []
    else OutAll(c, actions[..|actions| - 1]) + AfterAll(c, actions[..|actions| - 1]).Out(actions[|actions| - 1])
  }

  /** Everything a handler's run sends when no send fails. */
  function HandlerTrace(id: u32, actions: seq<Action>): seq<Message>
  {
    OutAll(FreshCtx(id), actions) + [AfterAll(FreshCtx(id), actions).Closing()]
  }

  /** All bytes a run writes. */
  function Written(actions: seq<Action>): Bytes
  {
    if actions == [] then []
    else
      Written(actions[..|actions| - 1])
      + match actions[|actions| - 1] { case Write(data) => data case WriteHeader(_, _) => [] }
  }

  /** The headers set before the first byte is written, the only ones that are sent. */
  function HeadersInTime(actions: seq<Action>): HeaderMap
  {
    if actions == [] then map[]
    else
      var before := actions[..|actions| - 1];
      match actions[|actions| - 1]
      case Write(_) => HeadersInTime(before)
      case WriteHeader(k, v) => if Written(before) == [] then HeadersInTime(before)[k := v] else HeadersInTime(before)
  }

  predicate AllChunks(cs: seq<Bytes>)
  {
    forall c | c in cs :: IsChunk(c)
  }

  /** A header message, then the chunks of `data`, none of them empty or longer than CHUNK. */
  ghost predicate HeaderThenChunks(ms: seq<Message>, id: u32, headers: HeaderMap, data: Bytes)
  {
    |ms| > 0 && ms[0] == Res(Response(id, true, Some(headers))) && AreChunksOf(ms[1..], id, data)
  }

  ghost predicate AreChunksOf(ms: seq<Message>, id: u32, data: Bytes)
  {
    exists cs :: AllChunks(cs) && Joined(cs) == data && ms == DataMessages(id, cs)
  }

  lemma ChunksAppend(ms: seq<Message>, id: u32, data: Bytes, more: Bytes)
    requires AreChunksOf(ms, id, data)
    ensures AreChunksOf(ms + DataMessages(id, Chunks(more)), id, data + more)
  {
    var cs :| AllChunks(cs) && Joined(cs) == data && ms == DataMessages(id, cs);
    var all := cs + Chunks(more);
    assert Joined(all) == data + more && AllChunks(all) by {
      ChunksAreTheData(more);
      JoinedAppend(cs, Chunks(more));
    }
    assert DataMessages(id, all) == ms + DataMessages(id, Chunks(more));
  }

  lemma MoreChunks(ms: seq<Message>, id: u32, headers: HeaderMap, data: Bytes, more: Bytes)
    requires HeaderThenChunks(ms, id, headers, data)
    ensures HeaderThenChunks(ms + DataMessages(id, Chunks(more)), id, headers, data + more)
  {
    ChunksAppend(ms[1..], id, data, more);
    assert (ms + DataMessages(id, Chunks(more)))[1..] == ms[1..] + DataMessages(id, Chunks(more));
  }

  lemma FirstChunks(id: u32, headers: HeaderMap, data: Bytes)
    ensures HeaderThenChunks([Res(Response(id, true, Some(headers)))]
        + DataMessages(id, Chunks(data)), id, headers, data)
  {
    ChunksAreTheData(data);
    var ms := [Res(Response(id, true, Some(headers)))] + DataMessages(id, Chunks(data));
    assert ms[1..] == DataMessages(id, Chunks(data));
  }

  /** What has been sent by a run so far, and what its Context holds. */
  ghost predicate SoFar(c: Ctx, ms: seq<Message>, id: u32, headers: HeaderMap, data: Bytes)
  {
    && c.id == id
    && c.written == (data != [])
    && (if c.written then HeaderThenChunks(ms, id, headers, data) else ms == [] && c.headers == headers)
  }

  lemma WriteStep(c: Ctx, ms: seq<Message>, id: u32, headers: HeaderMap, data: Bytes, more: Bytes)
    requires SoFar(c, ms, id, headers, data)
    ensures SoFar(c.After(Write(more)), ms + c.Out(Write(more)), id, headers, data + more)
  {
    if more == [] {
      assert ms + [] == ms && data + [] == data;
    } else if c.written {
      MoreChunks(ms, id, headers, data, more);
      assert [] + DataMessages(id, Chunks(more)) == DataMessages(id, Chunks(more));
    } else {
      FirstChunks(id, headers, more);
      assert [] + c.Out(Write(more)) == c.Out(Write(more)) && [] + more == more;
    }
  }

  lemma {:induction false} RunSoFar(id: u32, actions: seq<Action>)
    ensures SoFar(AfterAll(FreshCtx(id), actions), OutAll(FreshCtx(id), actions), id, HeadersInTime(actions),
        Written(actions))
  {
    if actions != [] {
      var front, a := actions[..|actions| - 1], actions[|actions| - 1];
      RunSoFar(id, front);
      var c, ms := AfterAll(FreshCtx(id), front), OutAll(FreshCtx(id), front);
      match a
      case WriteHeader(_, _) => assert ms + [] == ms && Written(front) + [] == Written(front);
      case Write(data) => WriteStep(c, ms, id, HeadersInTime(front), Written(front), data);
    }
  }

  /**
   Every handler run sends either exactly one header, when it wrote no byte, or one
   header, then chunks of 1 to 2048 bytes that join to all it wrote, then one empty packet.
   */
  lemma ResponseGrammar(id: u32, actions: seq<Action>)
    ensures var tr := HandlerTrace(id, actions); var headers := HeadersInTime(actions);
      if Written(actions) == [] then tr == [Res(Response(id, true, Some(headers)))]
      else HeaderThenChunks(tr[..|tr| - 1], id, headers, Written(actions)) && tr[|tr| - 1] == Dat(Data(id, []))
  {
    RunSoFar(id, actions);
    var tr, ms := HandlerTrace(id, actions), OutAll(FreshCtx(id), actions);
    assert tr[..|tr| - 1] == ms;
  }

  // ----- the sender of a body

  datatype ReadError = EOF | Broken
  /** One result of Read: at most CHUNK bytes, the buffer's length, and an error or nil. */
  datatype Reading = Reading(data: Bytes, err: Option<ReadError>)

  predicate Last(r: Reading)
  {
    r.err == Some(Broken) || (r.err == Some(EOF) && r.data == [])
  }

  /** The results read, up to the last the loop asks for; a body that ran out goes on with (0, io.EOF). */
  function Taken(body: seq<Reading>): (rs: seq<Reading>)
    ensures |rs| > 0 && Last(rs[|rs| - 1]) && forall i | 0 <= i < |rs| - 1 :: !Last(rs[i]) && rs[i] in body
  {
    if body == [] then [Reading([], Some(EOF))]
    else if Last(body[0]) then [body[0]]
    else [body[0]] + Taken(body[1..])
  }

  function Sent(id: u32, rs: seq<Reading>): seq<Message>
  {
    seq(|rs|, i requires 0 <= i < |rs| => Dat(Data(id, rs[i].data)))
  }

  predicate ReadsBroken(body: seq<Reading>)
  {
    Taken(body)[|Taken(body)| - 1].err == Some(Broken)
  }

  /** Everything a Push sends when no send fails; nothing for a read that breaks. */
  function PushTrace(q: Request, body: seq<Reading>): seq<Message>
  {
    var rs := Taken(body);
    [Req(q)] + Sent(q.streamId, if ReadsBroken(body) then rs[..|rs| - 1] else rs)
  }

  function BytesOf(rs: seq<Reading>): Bytes
  {
    if rs == [] then [] else BytesOf(rs[..|rs| - 1]) + rs[|rs| - 1].data
  }

  /** All bytes a Push reads and does not give up on. */
  function BodyBytes(body: seq<Reading>): Bytes
  {
    var rs := Taken(body);
    BytesOf(rs[..|rs| - 1])
  }

  /** A read of no bytes and no error, which a Reader is discouraged from, before the end. */
  predicate ReadsNothing(body: seq<Reading>)
  {
    exists r | r in Taken(body) :: r.data == [] && r.err.None?
  }

  // ----- what a receiver accepts

  /** The start of one direction of a stream: a request or response, then data, and nothing after an empty packet. */
  predicate IsTrace(tr: seq<Message>)
  {
    && (tr != [] ==> !tr[0].Dat?)
    && (forall i | 1 <= i < |tr| :: tr[i].Dat? && |tr[i].d.data| <= CHUNK)
    && (forall i | 1 <= i < |tr| - 1 :: tr[i].Dat? ==> tr[i].d.data != [])
  }

  predicate Ended(tr: seq<Message>)
  {
    |tr| > 1 && tr[|tr| - 1].Dat? && tr[|tr| - 1].d.data == []
  }

  function DataOf(m: Message): Bytes
  {
    if m.Dat? then m.d.data else []
  }

  function Payload(tr: seq<Message>): Bytes
  {
    if tr == [] then [] else Payload(tr[..|tr| - 1]) + DataOf(tr[|tr| - 1])
  }

  lemma {:induction false} PayloadOfChunks(ms: seq<Message>, id: u32, cs: seq<Bytes>)
    requires |ms| == |cs| + 1 && !ms[0].Dat? && ms[1..] == DataMessages(id, cs)
    ensures Payload(ms) == Joined(cs)
  {
    var n := |cs|;
    assert Payload(ms) == Payload(ms[..n]) + DataOf(ms[n]);
    if n == 0 {
      assert ms[..0] == [];
    } else {
      assert ms[n] == ms[1..][n - 1];
      assert ms[..n][1..] == DataMessages(id, cs[..n - 1]) by { assert ms[..n][1..] == ms[1..][..n - 1]; }
      PayloadOfChunks(ms[..n], id, cs[..n - 1]);
      JoinedAppend(cs[..n - 1], [cs[n - 1]]);
      assert cs[..n - 1] + [cs[n - 1]] == cs;
      JoinedOne(cs[n - 1]);
    }
  }

  lemma ChunksAreAccepted(ms: seq<Message>, id: u32, cs: seq<Bytes>, end: seq<Message>)
    requires |ms| == |cs| + 1 && !ms[0].Dat? && ms[1..] == DataMessages(id, cs) && AllChunks(cs)
    requires end == [] || end == [Dat(Data(id, []))]
    ensures IsTrace(ms + end)
  {
    forall i | 1 <= i <= |cs| ensures (ms + end)[i] == Dat(Data(id, cs[i - 1])) && IsChunk(cs[i - 1]) {
      assert ms[i] == ms[1..][i - 1];
    }
  }

  /**
   A handler's run is a trace a receiver accepts; its payload is all that was written, and it ends
   unless that is nothing.
   */
  lemma HandlerTraceIsAccepted(id: u32, actions: seq<Action>)
    ensures var tr := HandlerTrace(id, actions);
      IsTrace(tr) && Payload(tr) == Written(actions) && (Ended(tr) <==> Written(actions) != [])
  {
    ResponseGrammar(id, actions);
    var tr := HandlerTrace(id, actions);
    if Written(actions) == [] {
      PayloadOfChunks(tr, id, []);
    } else {
      var n := |tr| - 1;
      var ms := tr[..n];
      var cs :| AllChunks(cs) && Joined(cs) == Written(actions) && ms[1..] == DataMessages(id, cs);
      PayloadOfChunks(ms, id, cs);
      ChunksAreAccepted(ms, id, cs, [tr[n]]);
      assert tr == ms + [tr[n]];
    }
  }

  lemma {:induction false} PayloadOfSent(ms: seq<Message>, id: u32, rs: seq<Reading>)
    requires |ms| == |rs| + 1 && !ms[0].Dat? && ms[1..] == Sent(id, rs)
    ensures Payload(ms) == BytesOf(rs)
  {
    var n := |rs|;
    assert Payload(ms) == Payload(ms[..n]) + DataOf(ms[n]);
    if n == 0 {
      assert ms[..0] == [];
    } else {
      assert ms[n] == ms[1..][n - 1];
      assert ms[..n][1..] == Sent(id, rs[..n - 1]) by { assert ms[..n][1..] == ms[1..][..n - 1]; }
      PayloadOfSent(ms[..n], id, rs[..n - 1]);
    }
  }

  /** The first n reads all gave something. */
  predicate AllGive(rs: seq<Reading>, n: int)
    requires n <= |rs|
  {
    forall i | 0 <= i < n :: rs[i].data != []
  }

  lemma SentAt(q: Request, rs: seq<Reading>, i: nat)
    requires i < |rs|
    ensures ([Req(q)] + Sent(q.streamId, rs))[i + 1] == Dat(Data(q.streamId, rs[i].data))
  {
  }

  /** The packets of some reads: accepted if all but the last gave something, and ended if the last did not. */
  lemma SentIsTrace(q: Request, rs: seq<Reading>)
    requires forall r | r in rs :: |r.data| <= CHUNK
    ensures var tr := [Req(q)] + Sent(q.streamId, rs);
      && (IsTrace(tr) <==> AllGive(rs, |rs| - 1))
      && (Ended(tr) <==> |rs| > 0 && rs[|rs| - 1].data == [])
  {
    var tr := [Req(q)] + Sent(q.streamId, rs);
    forall i | 1 <= i < |tr| ensures tr[i] == Dat(Data(q.streamId, rs[i - 1].data)) {
      SentAt(q, rs, i - 1);
    }
    if IsTrace(tr) {
      forall i | 0 <= i < |rs| - 1 ensures rs[i].data != [] {
        assert tr[i + 1].d.data != [];
      }
    }
  }

  lemma SentCarries(q: Request, rs: seq<Reading>)
    ensures Payload([Req(q)] + Sent(q.streamId, rs)) == BytesOf(rs)
  {
    var tr := [Req(q)] + Sent(q.streamId, rs);
    assert tr[1..] == Sent(q.streamId, rs);
    PayloadOfSent(tr, q.streamId, rs);
  }

  lemma NotLast(r: Reading)
    requires !Last(r) && r.data == []
    ensures r.err.None?
  {
    if r.err.Some? { TwoErrors(r.err.value); }
  }

  lemma TwoErrors(e: ReadError)
    ensures e == EOF || e == Broken
  {
  }

  /** A read of nothing comes before the last, whatever the last is. */
  lemma NothingRead(body: seq<Reading>)
    ensures ReadsNothing(body) <==> !AllGive(Taken(body), |Taken(body)| - 1)
  {
    var rs := Taken(body);
    var n := |rs| - 1;
    if ReadsNothing(body) {
      var r :| r in rs && r.data == [] && r.err.None?;
      var i :| 0 <= i < |rs| && rs[i] == r;
      assert !Last(r) && i < n;
    }
    if !AllGive(rs, n) {
      var i :| 0 <= i < n && rs[i].data == [];
      NotLast(rs[i]);
      assert rs[i] in rs;
    }
  }

  lemma {:induction false} TakenFromBody(body: seq<Reading>)
    requires forall r | r in body :: |r.data| <= CHUNK
    ensures forall r | r in Taken(body) :: |r.data| <= CHUNK
  {
    if body != [] && !Last(body[0]) {
      TakenFromBody(body[1..]);
    }
  }

  lemma WholeTraceIsAccepted(q: Request, body: seq<Reading>)
    requires (forall r | r in body :: |r.data| <= CHUNK) && !ReadsBroken(body)
    ensures var tr := PushTrace(q, body);
      Payload(tr) == BodyBytes(body) && Ended(tr) && (IsTrace(tr) <==> !ReadsNothing(body))
  {
    var rs := Taken(body);
    LastOfWhole(body);
    TakenFromBody(body);
    SentCarries(q, rs);
    SentIsTrace(q, rs);
    NothingRead(body);
  }

  lemma LastOfWhole(body: seq<Reading>)
    requires !ReadsBroken(body)
    ensures var rs := Taken(body); rs[|rs| - 1].data == [] && BytesOf(rs) == BodyBytes(body)
  {
    var rs := Taken(body);
    var n := |rs| - 1;
    assert Last(rs[n]);
    assert BytesOf(rs) == BytesOf(rs[..n]) + rs[n].data;
  }

  /** A read that fails ends what is sent, and no terminator follows. */
  lemma BrokenTraceIsAccepted(q: Request, body: seq<Reading>)
    requires (forall r | r in body :: |r.data| <= CHUNK) && ReadsBroken(body)
    ensures var tr := PushTrace(q, body);
      Payload(tr) == BodyBytes(body) && (IsTrace(tr) && !Ended(tr) <==> !ReadsNothing(body))
  {
    var n := |Taken(body)| - 1;
    var rs := Taken(body)[..n];
    TakenFromBody(body);
    SentCarries(q, rs);
    SentIsTrace(q, rs);
    NothingRead(body);
    FrontGives(Taken(body), n);
  }

  lemma FrontGives(rs: seq<Reading>, n: nat)
    requires n <= |rs|
    ensures AllGive(rs, n) <==> AllGive(rs[..n], n - 1) && (n > 0 ==> rs[..n][n - 1].data != [])
  {
    forall i | 0 <= i < n ensures rs[..n][i] == rs[i] {}
  }

  /**
   What a Push sends carries all the bytes it read before the end or a failed read.
   A receiver accepts every packet of it, and sees it end exactly if the body did
   not fail, if and only if the body never reads as (0, nil): that would end the
   stream early, and what follows would be refused.
   */
  lemma PushTraceIsAccepted(q: Request, body: seq<Reading>)
    requires forall r | r in body :: |r.data| <= CHUNK
    ensures var tr := PushTrace(q, body);
      && Payload(tr) == BodyBytes(body)
      && (IsTrace(tr) && (Ended(tr) <==> !ReadsBroken(body)) <==> !ReadsNothing(body))
      && (!ReadsBroken(body) ==> Ended(tr))
  {
    if ReadsBroken(body) { BrokenTraceIsAccepted(q, body); } else { WholeTraceIsAccepted(q, body); }
  }
}
