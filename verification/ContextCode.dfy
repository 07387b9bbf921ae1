/** Context and its pool, a handler's run over them, and the sending half of Push. */
module ContextCode {
  import opened Basics
  import opened ServicePackets
  import opened DataPackets
  import opened PacketCode
  import opened Messages
  import opened Streams
  import opened Traces

  /** The sending side of a connection: call number k of Send fails if `refuses(k)`. */
  class Wire {
    const refuses: nat -> bool
    var calls: nat
    var frames: seq<Bytes>
    ghost var sent: seq<Message>

    constructor (refuses: nat -> bool)
      ensures Valid() && calls == 0 && sent == [] && this.refuses == refuses
    {
      this.refuses := refuses;
      calls, frames, sent := 0, [], [];
    }

    /** The frames whose Send returned nil encode the messages `sent`. */
    ghost predicate Valid()
      reads this
    {
      |frames| == |sent| && forall i | 0 <= i < |frames| :: Encodes(frames[i], sent[i])
    }

    lemma AddsFrame(b: Bytes, m: Message)
      requires Valid() && Encodes(b, m)
      ensures forall i | 0 <= i < |frames| + 1 :: Encodes((frames + [b])[i], (sent + [m])[i])
    {
    }

    method Send(b: Bytes, ghost m: Message) returns (ok: bool)
      requires Valid() && Encodes(b, m)
      modifies this
      ensures Valid() && Progress(refuses, old(calls), old(sent), [m], calls, sent, ok)
    {
      ok := !refuses(calls);
      AddsFrame(b, m);
      ProgressOne(refuses, calls, sent, m);
      calls := calls + 1;
      if ok {
        frames, sent := frames + [b], sent + [m];
      }
    }
  }

  /** The messages `out` were sent one after the other, all of them or up to the first that was refused. */
  ghost predicate Progress(refuses: nat -> bool, calls: nat, sent: seq<Message>, out: seq<Message>, calls': nat,
      sent': seq<Message>, ok: bool)
  {
    && calls <= calls'
    && (forall i: nat | calls <= i < calls' && (ok || i < calls' - 1) :: !refuses(i))
    && (if ok then calls' == calls + |out| && sent' == sent + out
        else calls < calls' <= calls + |out| && refuses(calls' - 1) && sent' == sent + out[..calls' - calls - 1])
  }

  lemma ProgressOne(refuses: nat -> bool, calls: nat, sent: seq<Message>, m: Message)
    ensures Progress(refuses, calls, sent, [m], calls + 1, if refuses(calls) then sent else sent + [m], !refuses(calls))
  {
    assert sent + [m][..0] == sent;
  }

  /** One more message of `all`, after `out`. */
  lemma OneMore(refuses: nat -> bool, c0: nat, s0: seq<Message>, out: seq<Message>, c1: nat, s1: seq<Message>,
                d: Message, more: seq<Message>, all: seq<Message>, c2: nat, s2: seq<Message>, ok: bool)
    requires out + ([d] + more) == all
    requires Progress(refuses, c0, s0, out, c1, s1, true) && Progress(refuses, c1, s1, [d], c2, s2, ok)
    ensures ok ==> Progress(refuses, c0, s0, out + [d], c2, s2, true) && out + [d] + more == all
    ensures !ok ==> Progress(refuses, c0, s0, all, c2, s2, false)
    ensures s1 <= s2
  {
    assert out + ([d] + more) == out + [d] + more;
    ProgressOn(refuses, c0, s0, out, c1, s1, [d], c2, s2, ok);
    if !ok {
      ProgressStops(refuses, c0, s0, out + [d], c2, s2, more);
    }
  }

  lemma ProgressOn(refuses: nat -> bool, c0: nat, s0: seq<Message>, a: seq<Message>, c1: nat, s1: seq<Message>,
                   b: seq<Message>, c2: nat, s2: seq<Message>, ok: bool)
    requires Progress(refuses, c0, s0, a, c1, s1, true) && Progress(refuses, c1, s1, b, c2, s2, ok)
    ensures Progress(refuses, c0, s0, a + b, c2, s2, ok)
  {
    if ok {
      assert s0 + a + b == s0 + (a + b);
    } else {
      var n := c2 - c1 - 1;
      assert (a + b)[..|a| + n] == a + b[..n];
      assert s0 + a + b[..n] == s0 + (a + b)[..|a| + n];
    }
  }

  lemma ProgressStops(refuses: nat -> bool, c0: nat, s0: seq<Message>, a: seq<Message>, c1: nat, s1: seq<Message>,
      b: seq<Message>)
    requires Progress(refuses, c0, s0, a, c1, s1, false)
    ensures Progress(refuses, c0, s0, a + b, c1, s1, false)
  {
    assert (a + b)[..c1 - c0 - 1] == a[..c1 - c0 - 1];
  }

  method SendResponse(conn: Wire, s: Response) returns (ok: bool)
    requires conn.Valid()
    modifies conn
    ensures conn.Valid() && Progress(conn.refuses, old(conn.calls), old(conn.sent), [Res(s)], conn.calls, conn.sent, ok)
  {
    var b := AppendResponse([SERVICE_RESPONSE], s);
    ok := conn.Send(b, Res(s));
  }

  method SendData(conn: Wire, d: Data) returns (ok: bool)
    requires conn.Valid()
    modifies conn
    ensures conn.Valid() && Progress(conn.refuses, old(conn.calls), old(conn.sent), [Dat(d)], conn.calls, conn.sent, ok)
  {
    var b := AppendData([DATA], d);
    ok := conn.Send(b, Dat(d));
  }

  lemma ChunkOfData(data: Bytes, i: nat)
    requires i < |data| && i % CHUNK == 0
    ensures var end := if i + CHUNK > |data| then |data| else i + CHUNK;
      Chunks(data[i..]) == [data[i..end]] + Chunks(data[end..])
  {
    var rest := data[i..];
    if |rest| > CHUNK {
      assert rest[..CHUNK] == data[i..i + CHUNK] && rest[CHUNK..] == data[i + CHUNK..];
    } else {
      assert rest == data[i..|data|] && [rest] + Chunks([]) == [rest];
    }
  }

  lemma MessagesOf(id: u32, c: Bytes, cs: seq<Bytes>)
    ensures DataMessages(id, [c] + cs) == [Dat(Data(id, c))] + DataMessages(id, cs)
  {
  }

  /** A handler's Context; the peer's id and the body's reader are not part of it here. */
  class Context {
    var headers: HeaderMap
    var streamId: u32
    var conn: Wire
    var responseHeaders: HeaderMap
    var written: bool

    constructor (conn: Wire)
      ensures responseHeaders == map[] && !written
    {
      headers, streamId, this.conn, responseHeaders, written := map[], 0, conn, map[], false;
    }

    function View(): Ctx
      reads this
    {
      Ctx(streamId, responseHeaders, written)
    }

    method WriteHeader(key: Bytes, val: Bytes)
      modifies this`responseHeaders
      ensures View() == old(View()).After(Action.WriteHeader(key, val))
    {
      responseHeaders := responseHeaders[key := val];
    }

    /** Nothing for no bytes; else the header, if it is still to be sent, and the data in chunks. */
    method Write(data: Bytes) returns (n: nat, ok: bool)
      requires conn.Valid()
      modifies this`written, conn
      ensures conn.Valid() && View() == old(View()).After(Action.Write(data))
      ensures Progress(conn.refuses, old(conn.calls), old(conn.sent), old(View()).Out(Action.Write(data)), conn.calls,
          conn.sent, ok)
      ensures n == if ok then |data| else 0
    {
      if |data| == 0 {
        return 0, true;
      }
      ghost var c0, s0 := conn.calls, conn.sent;
      ghost var head := if written then [] else [View().HeaderMessage()];
      ghost var all := DataMessages(streamId, Chunks(data));
      if !written {
        written := true;
        ok := SendResponse(conn, Response(streamId, true, Some(responseHeaders)));
        if !ok {
          ProgressStops(conn.refuses, c0, s0, head, conn.calls, conn.sent, all);
          return 0, false;
        }
      }
      ok := WriteChunks(data, c0, s0, head);
      n := if ok then |data| else 0;
    }

    /** `out` has been sent, and the chunks from i on are what completes it to `all`. */
    ghost predicate Pending(data: Bytes, i: nat, c0: nat, s0: seq<Message>, out: seq<Message>, all: seq<Message>)
      reads this, conn
    {
      && Progress(conn.refuses, c0, s0, out, conn.calls, conn.sent, true)
      && out + DataMessages(streamId, Chunks(if i < |data| then data[i..] else [])) == all
    }

    method WriteChunk(data: Bytes, i: nat, ghost c0: nat, ghost s0: seq<Message>, ghost out: seq<Message>,
                      ghost all: seq<Message>)
      returns (ok: bool, ghost out': seq<Message>)
      requires conn.Valid() && i < |data| && i % CHUNK == 0 && Pending(data, i, c0, s0, out, all)
      modifies conn
      ensures conn.Valid()
      ensures ok ==> Pending(data, i + CHUNK, c0, s0, out', all)
      ensures !ok ==> Progress(conn.refuses, c0, s0, all, conn.calls, conn.sent, false)
    {
      var start, end := i, i + CHUNK;
      if end > |data| {
        end := |data|;
      }
      ChunkOfData(data, i);
      ghost var d := Dat(Data(streamId, data[start..end]));
      ghost var more := DataMessages(streamId, Chunks(data[end..]));
      MessagesOf(streamId, data[start..end], Chunks(data[end..]));
      ghost var c1, s1 := conn.calls, conn.sent;
      ok := SendData(conn, Data(streamId, data[start..end]));
      OneMore(conn.refuses, c0, s0, out, c1, s1, d, more, all, conn.calls, conn.sent, ok);
      out' := out + [d];
    }

    /** The chunk loop, after `head` has been sent. */
    method WriteChunks(data: Bytes, ghost c0: nat, ghost s0: seq<Message>, ghost head: seq<Message>) returns (ok: bool)
      requires conn.Valid() && Progress(conn.refuses, c0, s0, head, conn.calls, conn.sent, true)
      modifies conn
      ensures conn.Valid()
      ensures Progress(conn.refuses, c0, s0, head + DataMessages(streamId, Chunks(data)), conn.calls, conn.sent, ok)
    {
      var i := 0;
      ghost var all, out := head + DataMessages(streamId, Chunks(data)), head;
      assert data[0..] == data;
      while i < |data|
        invariant 0 <= i && i % CHUNK == 0 && conn.Valid() && Pending(data, i, c0, s0, out, all)
        decreases |data| - i
      {
        ok, out := WriteChunk(data, i, c0, s0, out, all);
        if !ok {
          return;
        }
        i := i + CHUNK;
      }
      ok := true;
      assert out + [] == out;
    }
  }
}
