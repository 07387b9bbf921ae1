/** A handler's run from the context pool and back, and the sending half of Push. */
module HandlerCode {
  import opened Basics
  import opened ServicePackets
  import opened DataPackets
  import opened PacketCode
  import opened Messages
  import opened Streams
  import opened Traces
  import opened ContextCode

  /** Once a send fails all later ones do, as on a connection that has shut down. */
  ghost predicate Permanent(refuses: nat -> bool)
  {
    forall i: nat, j: nat | i <= j && refuses(i) :: refuses(j)
  }

  ghost predicate NoneRefused(refuses: nat -> bool, c0: nat, c1: nat)
  {
    forall i: nat | c0 <= i < c1 :: !refuses(i)
  }

  /**
   Sends whose failures are ignored: `out` went out whole if none failed, and a prefix of it if
   failure is permanent.
   */
  ghost predicate Follows(refuses: nat -> bool, c0: nat, s0: seq<Message>, out: seq<Message>, c1: nat, s1: seq<Message>)
  {
    && c0 <= c1
    && (NoneRefused(refuses, c0, c1) ==> c1 == c0 + |out| && s1 == s0 + out)
    && (Permanent(refuses) ==> s0 <= s1 <= s0 + out)
  }

  lemma FollowsOn(refuses: nat -> bool, c0: nat, s0: seq<Message>, a: seq<Message>, c1: nat, s1: seq<Message>,
                  b: seq<Message>, c2: nat, s2: seq<Message>, ok: bool)
    requires Follows(refuses, c0, s0, a, c1, s1) && Progress(refuses, c1, s1, b, c2, s2, ok)
    ensures Follows(refuses, c0, s0, a + b, c2, s2)
  {
    assert s0 + a + b == s0 + (a + b);
    if NoneRefused(refuses, c0, c1) {
      if !ok {
        assert s1 + b[..c2 - c1 - 1] <= s1 + b;
      }
    } else {
      var i: nat :| c0 <= i < c1 && refuses(i);
      assert !NoneRefused(refuses, c0, c2);
      if Permanent(refuses) {
        assert refuses(c1);
        StaysPut(refuses, c1, s1, b, c2, s2, ok);
      }
    }
  }

  lemma StaysPut(refuses: nat -> bool, c1: nat, s1: seq<Message>, b: seq<Message>, c2: nat, s2: seq<Message>, ok: bool)
    requires Progress(refuses, c1, s1, b, c2, s2, ok) && refuses(c1)
    ensures s2 == s1
  {
  }

  lemma {:induction false} AfterAllKeepsId(c: Ctx, actions: seq<Action>)
    ensures AfterAll(c, actions).id == c.id
  {
    if actions != [] {
      AfterAllKeepsId(c, actions[..|actions| - 1]);
    }
  }

  /** A handler that makes these calls, whatever they return. */
  method RunHandler(ctx: Context, actions: seq<Action>)
    requires ctx.conn.Valid()
    modifies ctx`written, ctx`responseHeaders, ctx.conn
    ensures ctx.conn.Valid() && ctx.View() == AfterAll(old(ctx.View()), actions)
    ensures var w := ctx.conn; Follows(w.refuses, old(w.calls), old(w.sent), OutAll(old(ctx.View()), actions), w.calls,
        w.sent)
  {
    var w := ctx.conn;
    ghost var c, c0, s0 := ctx.View(), w.calls, w.sent;
    for i := 0 to |actions|
      invariant w.Valid() && ctx.View() == AfterAll(c, actions[..i])
      invariant Follows(w.refuses, c0, s0, OutAll(c, actions[..i]), w.calls, w.sent)
    {
      ghost var done, c1, s1 := OutAll(c, actions[..i]), w.calls, w.sent;
      ghost var more := ctx.View().Out(actions[i]);
      var ok := true;
      match actions[i] {
        case WriteHeader(k, v) => ctx.WriteHeader(k, v);
        case Write(data) => var _, o := ctx.Write(data); ok := o;
      }
      FollowsOn(w.refuses, c0, s0, done, c1, s1, more, w.calls, w.sent, ok);
      assert actions[..i + 1][..i] == actions[..i] && actions[..i + 1][i] == actions[i];
    }
    assert actions[..|actions|] == actions;
  }

  /** What the dispatcher's goroutine does when the handler has returned. */
  method Finish(ctx: Context) returns (ok: bool)
    requires ctx.conn.Valid()
    modifies ctx`written, ctx.conn
    ensures ctx.conn.Valid()
    ensures var w := ctx.conn; Progress(w.refuses, old(w.calls), old(w.sent), [old(ctx.View()).Closing()], w.calls,
        w.sent, ok)
  {
    if !ctx.written {
      ctx.written := true;
      ok := SendResponse(ctx.conn, Response(ctx.streamId, true, Some(ctx.responseHeaders)));
    } else {
      ok := SendData(ctx.conn, Data(ctx.streamId, []));
    }
  }

  class ContextPool {
    var sp: set<Context>

    constructor ()
      ensures Valid() && sp == {}
    {
      sp := {};
    }

    /** Every pooled context is as good as new. */
    ghost predicate Valid()
      reads this, sp
    {
      forall c | c in sp :: !c.written && c.responseHeaders == map[]
    }

    method Acquire(headers: HeaderMap, streamId: u32, conn: Wire) returns (ctx: Context)
      requires Valid()
      modifies this, sp
      ensures Valid() && ctx !in sp && (fresh(ctx) || ctx in old(sp)) && sp == old(sp) - {ctx}
      ensures ctx.View() == FreshCtx(streamId) && ctx.headers == headers && ctx.conn == conn
    {
      if sp == {} {
        ctx := new Context(conn);
      } else {
        ctx :| ctx in sp;
        sp := sp - {ctx};
      }
      ctx.headers := headers;
      ctx.streamId, ctx.conn := streamId, conn;
    }

    method Release(ctx: Context)
      requires Valid() && ctx !in sp
      modifies this, ctx
      ensures Valid() && sp == old(sp) + {ctx}
    {
      ctx.written := false;
      while ctx.responseHeaders != map[]
        invariant Valid() && sp == old(sp) && !ctx.written
        decreases ctx.responseHeaders.Keys
      {
        var key :| key in ctx.responseHeaders;
        ctx.responseHeaders := ctx.responseHeaders - {key};
      }
      sp := sp + {ctx};
    }
  }

  /**
   The goroutine of an accepted request: a context from the pool, the handler's
   run, and the end of the response, whose send decides the result.  If no send fails it sends its trace, whatever
   the pooled context was used for before; if failures are permanent, a prefix of it.
   */
  method Serve(pool: ContextPool, headers: HeaderMap, id: u32, conn: Wire, actions: seq<Action>) returns (ok: bool)
    requires pool.Valid() && conn.Valid()
    modifies pool, pool.sp, conn
    ensures pool.Valid() && conn.Valid()
    ensures Follows(conn.refuses, old(conn.calls), old(conn.sent), HandlerTrace(id, actions), conn.calls, conn.sent)
    ensures conn.calls > old(conn.calls) && (ok <==> !conn.refuses(conn.calls - 1))
  {
    ghost var c0, s0 := conn.calls, conn.sent;
    var ctx := pool.Acquire(headers, id, conn);
    RunHandler(ctx, actions);
    ghost var c1, s1 := conn.calls, conn.sent;
    AfterAllKeepsId(FreshCtx(id), actions);
    ok := Finish(ctx);
    FollowsOn(conn.refuses, c0, s0, OutAll(FreshCtx(id), actions), c1, s1,
              [AfterAll(FreshCtx(id), actions).Closing()], conn.calls, conn.sent, ok);
    pool.Release(ctx);
  }

  // ----- Push

  /** A body: what its reads return, and (0, io.EOF) from then on. */
  class Body {
    const script: seq<Reading>
    var pos: nat

    constructor (script: seq<Reading>)
      ensures pos == 0 && this.script == script
    {
      this.script, pos := script, 0;
    }

    method Read() returns (r: Reading)
      modifies this
      ensures pos == old(pos) + 1
      ensures r == if old(pos) < |script| then script[old(pos)] else Reading([], Some(EOF))
    {
      r := if pos < |script| then script[pos] else Reading([], Some(EOF));
      pos := pos + 1;
    }
  }

  datatype PushResult = NotAvailable | ReadFailed | ChunkFailed | AllSent

  /**
   The part of Push before it waits: the request, then one packet for each read,
   until a read gives (0, io.EOF).  The stream is closed unless the result is AllSent.
   */
  method SendRequest(conn: Wire, q: Request, body: Body) returns (r: PushResult)
    requires conn.Valid() && body.pos == 0
    modifies conn, body
    ensures conn.Valid()
    ensures Progress(conn.refuses, old(conn.calls), old(conn.sent), PushTrace(q, body.script), conn.calls, conn.sent,
        r.AllSent? || r.ReadFailed?)
    ensures r.AllSent? ==> !ReadsBroken(body.script)
    ensures r.ReadFailed? ==> ReadsBroken(body.script)
    ensures r.NotAvailable? <==> conn.sent == old(conn.sent)
  {
    ghost var c0, s0 := conn.calls, conn.sent;
    var b := AppendRequest([SERVICE_REQUEST], q);
    var ok := conn.Send(b, Req(q));
    if !ok {
      ProgressStops(conn.refuses, c0, s0, [Req(q)], conn.calls, conn.sent, PushTrace(q, body.script)[1..]);
      assert [Req(q)] + PushTrace(q, body.script)[1..] == PushTrace(q, body.script);
      return NotAvailable;
    }
    r := SendBody(conn, q, body, c0, s0);
  }

  /** What is still to be sent when the rest of the script is `rest`. */
  ghost function BodyTrace(id: u32, rest: seq<Reading>): seq<Message>
  {
    var rs := Taken(rest);
    Sent(id, if ReadsBroken(rest) then rs[..|rs| - 1] else rs)
  }

  function First(rest: seq<Reading>): Reading
  {
    if rest == [] then Reading([], Some(EOF)) else rest[0]
  }

  lemma LastTrace(id: u32, rest: seq<Reading>)
    requires Last(First(rest))
    ensures if First(rest).err == Some(Broken) then BodyTrace(id, rest) == [] && ReadsBroken(rest)
      else BodyTrace(id, rest) == [Dat(Data(id, First(rest).data))] && !ReadsBroken(rest)
  {
    assert Taken(rest) == [First(rest)];
  }

  lemma SentMore(id: u32, x: Reading, more: seq<Reading>)
    ensures Sent(id, [x] + more) == [Dat(Data(id, x.data))] + Sent(id, more)
  {
  }

  lemma EarlierTrace(id: u32, rest: seq<Reading>)
    requires rest != [] && !Last(rest[0])
    ensures ReadsBroken(rest) <==> ReadsBroken(rest[1..])
    ensures BodyTrace(id, rest) == [Dat(Data(id, rest[0].data))] + BodyTrace(id, rest[1..])
  {
    var rs, more := Taken(rest), Taken(rest[1..]);
    assert rs == [rest[0]] + more;
    assert rs[|rs| - 1] == more[|more| - 1];
    assert rs[..|rs| - 1] == [rest[0]] + more[..|more| - 1];
    SentMore(id, rest[0], more);
    SentMore(id, rest[0], more[..|more| - 1]);
  }

  /** What the next packet is, and what the rest of the body still adds after it. */
  lemma BodyTraceStep(id: u32, rest: seq<Reading>)
    ensures var x := First(rest); var more := if Last(x) then [] else BodyTrace(id, rest[1..]);
      if x.err == Some(Broken) then BodyTrace(id, rest) == [] && ReadsBroken(rest)
      else
        && BodyTrace(id, rest) == [Dat(Data(id, x.data))] + more
        && (ReadsBroken(rest) <==> !Last(x) && ReadsBroken(rest[1..]))
  {
    if Last(First(rest)) {
      LastTrace(id, rest);
    } else {
      EarlierTrace(id, rest);
    }
  }

  function Rest(body: Body): seq<Reading>
    reads body
  {
    if body.pos <= |body.script| then body.script[body.pos..] else []
  }

  /** `out` has been sent, and the rest of the body is what completes it to `all`. */
  ghost predicate Pending(refuses: nat -> bool, c0: nat, s0: seq<Message>, out: seq<Message>, c1: nat, s1: seq<Message>,
                          id: u32, rest: seq<Reading>, all: seq<Message>)
  {
    out != [] && Progress(refuses, c0, s0, out, c1, s1, true) && out + BodyTrace(id, rest) == all
  }

  lemma ReadSent(refuses: nat -> bool, c0: nat, s0: seq<Message>, out: seq<Message>, c1: nat, s1: seq<Message>,
                 id: u32, x: Reading, rest: seq<Reading>, all: seq<Message>, c2: nat, s2: seq<Message>, ok: bool)
    requires Pending(refuses, c0, s0, out, c1, s1, id, rest, all) && x == First(rest) && x.err != Some(Broken)
    requires Progress(refuses, c1, s1, [Dat(Data(id, x.data))], c2, s2, ok)
    ensures s0 + [out[0]] <= s2
    ensures !ok ==> Progress(refuses, c0, s0, all, c2, s2, false)
    ensures ok && Last(x) ==> Progress(refuses, c0, s0, all, c2, s2, true)
    ensures ok && !Last(x) ==> Pending(refuses, c0, s0, out + [Dat(Data(id, x.data))], c2, s2, id, rest[1..], all)
  {
    BodyTraceStep(id, rest);
    var d := Dat(Data(id, x.data));
    var more := if Last(x) then [] else BodyTrace(id, rest[1..]);
    assert BodyTrace(id, rest) == [d] + more;
    OneMore(refuses, c0, s0, out, c1, s1, d, more, all, c2, s2, ok);
    assert out + [d] + [] == out + [d];
    StartsAlike(s0, out, s1);
  }

  lemma StartsAlike(s0: seq<Message>, out: seq<Message>, s1: seq<Message>)
    requires out != [] && s1 == s0 + out
    ensures s0 + [out[0]] <= s1
  {
  }

  /** The packet of one read. */
  method SendRead(conn: Wire, id: u32, x: Reading, ghost rest: seq<Reading>,
                  ghost c0: nat, ghost s0: seq<Message>, ghost out: seq<Message>, ghost all: seq<Message>)
    returns (ok: bool, ghost out': seq<Message>)
    requires conn.Valid() && x == First(rest) && x.err != Some(Broken)
    requires Pending(conn.refuses, c0, s0, out, conn.calls, conn.sent, id, rest, all)
    modifies conn
    ensures conn.Valid() && s0 + [out[0]] <= conn.sent && out' != [] && out'[0] == out[0]
    ensures !ok ==> Progress(conn.refuses, c0, s0, all, conn.calls, conn.sent, false)
    ensures ok && Last(x) ==> Progress(conn.refuses, c0, s0, all, conn.calls, conn.sent, true)
    ensures ok && !Last(x) ==> Pending(conn.refuses, c0, s0, out', conn.calls, conn.sent, id, rest[1..], all)
  {
    ghost var c1, s1 := conn.calls, conn.sent;
    ok := SendData(conn, Data(id, x.data));
    ReadSent(conn.refuses, c0, s0, out, c1, s1, id, x, rest, all, conn.calls, conn.sent, ok);
    out' := out + [Dat(Data(id, x.data))];
  }

  method SendBody(conn: Wire, q: Request, body: Body, ghost c0: nat, ghost s0: seq<Message>) returns (r: PushResult)
    requires conn.Valid() && body.pos == 0 && Progress(conn.refuses, c0, s0, [Req(q)], conn.calls, conn.sent, true)
    modifies conn, body
    ensures conn.Valid() && !r.NotAvailable? && s0 + [Req(q)] <= conn.sent
    ensures Progress(conn.refuses, c0, s0, PushTrace(q, body.script), conn.calls, conn.sent,
        r.AllSent? || r.ReadFailed?)
    ensures r.AllSent? ==> !ReadsBroken(body.script)
    ensures r.ReadFailed? ==> ReadsBroken(body.script)
  {
    ghost var all, out := PushTrace(q, body.script), [Req(q)];
    assert Rest(body) == body.script;
    while true
      invariant conn.Valid() && body.pos <= |body.script| && out != [] && out[0] == Req(q)
      invariant s0 + [Req(q)] <= conn.sent
      invariant Pending(conn.refuses, c0, s0, out, conn.calls, conn.sent, q.streamId, Rest(body), all)
      invariant ReadsBroken(Rest(body)) <==> ReadsBroken(body.script)
      decreases |body.script| - body.pos
    {
      ghost var rest := Rest(body);
      BodyTraceStep(q.streamId, rest);
      var x := body.Read();
      if x.err == Some(Broken) {
        assert out + [] == out;
        return ReadFailed;
      }
      var ok;
      ok, out := SendRead(conn, q.streamId, x, rest, c0, s0, out, all);
      if !ok {
        return ChunkFailed;
      }
      if x.err == Some(EOF) && |x.data| == 0 {
        return AllSent;
      }
      assert rest[1..] == Rest(body);
    }
  }
}
