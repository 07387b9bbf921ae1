/** Provider's stream table as the objects it is made of, and the dispatcher over it. */
module ProviderCode {
  import opened Basics
  import opened Packets
  import opened ServicePackets
  import opened DataPackets
  import opened PacketCode
  import opened Messages
  import opened ContextCode
  import opened HandlerCode
  import T = Traces
  import S = Streams
  import O = StreamOutcomes

  class Stream {
    const id: u32
    ghost const place: nat
    var header: Option<Response>
    var pipe: Bytes
    var closed: Option<S.Reason>
    var once: bool
    var wg: int

    constructor (id: u32, ghost place: nat)
      ensures this.place == place && View() == S.NewStream(id)
    {
      this.id, this.place := id, place;
      header, pipe, closed, once, wg := None, [], None, false, 0;
      new;
      wg := wg + 1;
    }

    function View(): S.StreamState
      reads this
    {
      S.StreamState(id, header, pipe, closed, once, wg)
    }

    method Signal()
      modifies this`once, this`wg
      ensures View() == S.Signal(old(View()))
    {
      if !once {
        once := true;
        wg := wg - 1;
      }
    }

    /** Both ends of the pipe. */
    method ClosePipe(why: S.Reason)
      modifies this`closed
      ensures View() == S.ClosePipe(old(View()), why)
    {
      if closed.None? {
        closed := Some(why);
      }
    }

    /** The pipe's reader, closed by whoever reads. */
    method CloseBody()
      modifies this`closed
      ensures View() == S.ClosePipe(old(View()), S.ReaderClosed)
    {
      ClosePipe(S.ReaderClosed);
    }

    /** The pipe's writer; false if the pipe is closed. */
    method Write(data: Bytes) returns (ok: bool)
      modifies this`pipe
      ensures ok == closed.None?
      ensures View() == if ok then old(View()).(pipe := old(pipe) + data) else old(View())
    {
      ok := closed.None?;
      if ok {
        pipe := pipe + data;
      }
    }
  }

  class Provider {
    var counter: u32
    var streams: map<u32, Stream>
    ghost var made: seq<Stream>

    constructor (outgoing: bool)
      ensures Valid() && View() == S.Table([], map[], if outgoing then 1 else 0)
    {
      counter := if outgoing then 1 else 0;
      streams, made := map[], [];
    }

    ghost predicate Valid()
      reads this, made
    {
      && (forall k | 0 <= k < |made| :: made[k].place == k)
      && (forall id | id in streams :: streams[id] in made && streams[id].id == id)
    }

    ghost function Views(): seq<S.StreamState>
      reads this, made
    {
      seq(|made|, k requires 0 <= k < |made| reads this, made => made[k].View())
    }

    ghost function View(): S.Table
      reads this, made
    {
      S.Table(Views(), map id | id in streams :: streams[id].place, counter)
    }

    lemma ViewIsValid()
      requires Valid()
      ensures S.Valid(View())
    {
    }

    method NextStream() returns (s: Stream)
      requires Valid()
      modifies this
      ensures Valid() && fresh(s) && made == old(made) + [s] && s.id == old(counter)
      ensures View() == S.NextStream(old(View()))
    {
      var id := counter;
      counter := (counter + 2) % TWO32;
      s := new Stream(id, |made|);
      made := made + [s];
      streams := streams[id := s];
      assert View().made == old(View()).made + [S.NewStream(id)];
    }

    method GetStream(id: u32) returns (s: Option<Stream>)
      ensures s == if id in streams then Some(streams[id]) else None
    {
      s := if id in streams then Some(streams[id]) else None;
    }

    method RegisterStream(id: u32) returns (s: Stream, created: bool)
      requires Valid()
      modifies this
      ensures Valid() && s in made && s.id == id
      ensures made == if created then old(made) + [s] else old(made)
      ensures created ==> fresh(s)
      ensures (View(), s.place, created) == S.Register(old(View()), id)
    {
      if id in streams {
        assert View().streams[id] == streams[id].place;
        return streams[id], false;
      }
      s := new Stream(id, |made|);
      made := made + [s];
      streams := streams[id := s];
      created := true;
      assert View().made == old(View()).made + [S.NewStream(id)];
      assert View().streams == old(View()).streams[id := |old(made)|];
    }

    method CloseStreamWithError(s: Stream, why: S.Reason)
      requires Valid() && s in made
      modifies this`streams, s
      ensures Valid() && View() == S.CloseStream(old(View()), s.place, why)
    {
      s.ClosePipe(why);
      s.Signal();
      streams := streams - {s.id};
      assert View().made == old(View()).made[s.place := s.View()];
      assert View().streams == old(View()).streams - {s.id};
    }

    /** One entry of the table, and its stream. */
    method CloseEntry(sid: u32)
      requires Valid() && sid in streams
      modifies this`streams, streams[sid]
      ensures Valid() && streams == old(streams) - {sid}
      ensures forall k | 0 <= k < |made| && k != old(streams[sid].place) :: made[k].View() == old(made[k].View())
      ensures var s := old(streams[sid]); s.View() == S.Signal(S.ClosePipe(old(streams[sid].View()), S.Disconnected))
    {
      var s := streams[sid];
      s.ClosePipe(S.Disconnected);
      s.Signal();
      streams := streams - {sid};
    }

    /** The stream at k once the entries in `left` are all that remain of the table t. */
    static ghost function Swept(t: S.Table, left: set<u32>, k: nat): S.StreamState
      requires k < |t.made|
    {
      if S.InTable(t, k) && t.made[k].id !in left then S.Signal(S.ClosePipe(t.made[k], S.Disconnected)) else t.made[k]
    }

    /** The table t, of which the entries in `streams` are still to be closed. */
    ghost predicate Sweeping(t: S.Table)
      reads this, made
    {
      && |made| == |t.made|
      && (forall id | id in streams :: id in t.streams && t.streams[id] == streams[id].place)
      && (forall k | 0 <= k < |made| :: made[k].id == t.made[k].id && made[k].View() == Swept(t, streams.Keys, k))
    }

    method Sweep(sid: u32, ghost t: S.Table)
      requires Valid() && sid in streams && Sweeping(t)
      modifies this`streams, streams[sid]
      ensures Valid() && streams == old(streams) - {sid} && Sweeping(t)
    {
      ghost var s := streams[sid];
      CloseEntry(sid);
      forall k | 0 <= k < |made| ensures made[k].id == t.made[k].id && made[k].View() == Swept(t, streams.Keys, k) {
        if k == s.place {
          assert S.InTable(t, k);
        } else {
          assert S.InTable(t, k) ==> t.made[k].id != sid;
        }
      }
    }

    lemma SweepStarts()
      requires Valid()
      ensures Sweeping(View())
    {
    }

    lemma SweepEnds(t: S.Table)
      requires Valid() && Sweeping(t) && streams == map[] && counter == t.counter
      ensures View() == S.CloseAll(t)
    {
      assert View().made == S.CloseAll(t).made;
    }

    method SweepAll(ghost t: S.Table)
      requires Valid() && Sweeping(t)
      modifies this`streams, made
      ensures Valid() && Sweeping(t) && streams == map[]
    {
      while streams != map[]
        invariant Valid() && made == old(made) && Sweeping(t)
        decreases streams.Keys
      {
        var sid :| sid in streams;
        Sweep(sid, t);
      }
    }

    /** Every entry of the table, in the order the map happens to be iterated in. */
    method Close()
      requires Valid()
      modifies this`streams, made
      ensures Valid() && View() == S.CloseAll(old(View()))
    {
      ghost var t := View();
      SweepStarts();
      SweepAll(t);
      SweepEnds(t);
    }

    // ----- Push

    /** The stream of a Push that got r, the last made: listed if all was sent, else closed, released and dropped. */
    static ghost predicate IsPushed(t: S.Table, t': S.Table, r: PushResult)
    {
      var k, x := |t.made|, S.StreamState(t.counter, None, [], None, false, 1);
      var reason := if r.ReadFailed? then S.BodyFailed else S.SendFailed;
      && |t'.made| == k + 1 && t'.made[..k] == t.made && t'.counter == (t.counter + 2) % 0x1_0000_0000
      && (r.AllSent? ==> t'.made[k] == x && t'.streams == t.streams[t.counter := k])
      && (!r.AllSent? ==>
            && t'.made[k] == x.(closed := Some(reason), once := true, wg := 0)
            && t'.streams == t.streams - {t.counter})
    }

    /** Push up to its wait: a stream of its own, the request and the body under its id. */
    method StartPush(conn: Wire, services: seq<Bytes>, headers: Headers, body: Body) returns (s: Stream, r: PushResult)
      requires Valid() && conn.Valid() && body.pos == 0
      modifies this, conn, body
      ensures Valid() && conn.Valid() && fresh(s) && made == old(made) + [s]
      ensures IsPushed(old(View()), View(), r)
      ensures Progress(conn.refuses, old(conn.calls), old(conn.sent),
                       T.PushTrace(Request(old(counter), services, headers), body.script), conn.calls, conn.sent,
                       r.AllSent? || r.ReadFailed?)
      ensures (r.AllSent? ==> !T.ReadsBroken(body.script)) && (r.ReadFailed? ==> T.ReadsBroken(body.script))
    {
      ghost var t := View();
      s := NextStream();
      var q := Request(s.id, services, headers);
      r := SendPush(conn, q, body);
      SettleStream(s, r);
      PushIsSettled(t, View(), r);
    }

    /** The sends of a Push, which are no business of the table. */
    method SendPush(conn: Wire, q: Request, body: Body) returns (r: PushResult)
      requires Valid() && conn.Valid() && body.pos == 0
      modifies conn, body
      ensures Valid() && View() == old(View()) && conn.Valid()
      ensures Progress(conn.refuses, old(conn.calls), old(conn.sent), T.PushTrace(q, body.script), conn.calls,
                       conn.sent, r.AllSent? || r.ReadFailed?)
      ensures (r.AllSent? ==> !T.ReadsBroken(body.script)) && (r.ReadFailed? ==> T.ReadsBroken(body.script))
    {
      ghost var t := View();
      r := SendRequest(conn, q, body);
      assert View() == t;
    }

    static lemma PushIsSettled(t: S.Table, t': S.Table, r: PushResult)
      requires |S.NextStream(t).made| == |t.made| + 1 && IsSettled(S.NextStream(t), t', |t.made|, r)
      ensures IsPushed(t, t', r)
    {
      O.NextStreamOutcome(t);
      var t1 := S.NextStream(t);
      assert t1.made[..|t.made|] == t.made;
      forall j | 0 <= j < |t.made| ensures t'.made[j] == t.made[j] { assert t1.made[j] == t.made[j]; }
    }

    /** What becomes of the stream at k on Push's returns. */
    static ghost predicate IsSettled(t: S.Table, t': S.Table, k: nat, r: PushResult)
      requires k < |t.made|
    {
      if r.AllSent? then t' == t else O.ClosesAt(t, t', k, if r.ReadFailed? then S.BodyFailed else S.SendFailed)
    }

    method SettleStream(s: Stream, r: PushResult)
      requires Valid() && s in made
      modifies this`streams, s
      ensures Valid() && IsSettled(old(View()), View(), s.place, r)
    {
      ghost var t := View();
      if r.ReadFailed? {
        CloseStreamWithError(s, S.BodyFailed);
        O.CloseStreamOutcome(t, s.place, S.BodyFailed);
      } else if !r.AllSent? {
        CloseStreamWithError(s, S.SendFailed);
        O.CloseStreamOutcome(t, s.place, S.SendFailed);
      }
    }

    // ----- the goroutine of a request that is served

    /**
     The stream at k once its handler is done: closed, released and dropped if the last
     send was refused, still listed and unreleased if not, and without a body in either
     case; and no other stream changed.
     */
    static ghost predicate IsServed(t: S.Table, t': S.Table, k: nat, ok: bool)
      requires k < |t.made|
    {
      if ok then O.OnlyAt(t, t', k) && O.IsPipeClosed(t.made[k], t'.made[k], S.ReaderClosed) && t'.streams == t.streams
      else O.ClosesAt(t, t', k, S.SendFailed)
    }

    /** A handler that makes these calls over a pooled context, and what becomes of its stream. */
    method RunService(pool: ContextPool, s: Stream, headers: T.HeaderMap, conn: Wire,
                      actions: seq<T.Action>) returns (ok: bool)
      requires Valid() && s in made && pool.Valid() && conn.Valid()
      modifies this`streams, s, pool, pool.sp, conn
      ensures Valid() && pool.Valid() && conn.Valid()
      ensures Follows(conn.refuses, old(conn.calls), old(conn.sent), T.HandlerTrace(s.id, actions), conn.calls,
                      conn.sent)
      ensures conn.calls > old(conn.calls) && (ok <==> !conn.refuses(conn.calls - 1))
      ensures IsServed(old(View()), View(), s.place, ok)
    {
      ghost var t, c0, s0 := View(), conn.calls, conn.sent;
      ok := Serve(pool, headers, s.id, conn, actions);
      assert Follows(conn.refuses, c0, s0, T.HandlerTrace(s.id, actions), conn.calls, conn.sent);
      assert View() == t;
      EndService(s, ok);
    }

    method EndService(s: Stream, ok: bool)
      requires Valid() && s in made
      modifies this`streams, s
      ensures Valid() && IsServed(old(View()), View(), s.place, ok)
    {
      ghost var t := View();
      if !ok {
        CloseStreamWithError(s, S.SendFailed);
        O.CloseStreamOutcome(t, s.place, S.SendFailed);
      }
      ghost var t1 := View();
      CloseStreamBody(s);
      O.CloseReaderOutcome(t1, s.place);
    }

    method CloseStreamBody(s: Stream)
      requires Valid() && s in made
      modifies s`closed
      ensures Valid() && View() == S.CloseReader(old(View()), s.place)
    {
      s.CloseBody();
      assert View().made == old(View()).made[s.place := s.View()];
    }

    // ----- the dispatcher's branches, for a connection whose handshake was received

    /** The first requested service that this node offers. */
    method FindHandler(services: seq<Bytes>, offered: set<Bytes>) returns (service: Option<Bytes>)
      ensures service == S.FirstOffered(services, offered)
    {
      assert services[0..] == services;
      for i := 0 to |services|
        invariant S.FirstOffered(services, offered) == S.FirstOffered(services[i..], offered)
      {
        if services[i] in offered {
          return Some(services[i]);
        }
        assert services[i..][1..] == services[i + 1..];
      }
      return None;
    }

    method HandleServiceRequest(q: Request, offered: set<Bytes>, named: bool) returns (r: S.Outcome)
      requires Valid()
      modifies this
      ensures Valid() && (View(), r) == S.HandleRequest(old(View()), q, offered, named)
      ensures old(made) <= made
    {
      var s, created := RegisterStream(q.streamId);
      if !created {
        return S.Fails(S.StreamTaken);
      }
      var service := FindHandler(q.services, offered);
      match service {
        case Some(x) => r := if named then S.Serve(s.id, x) else S.Outcome.Panics;
        case None => r := S.Answer(Response(q.streamId, false, None));
      }
    }

    method HandleServiceResponse(p: Response) returns (r: S.Outcome)
      requires Valid()
      modifies made
      ensures Valid() && S.Valid(old(View())) && (View(), r) == S.HandleResponse(old(View()), p)
    {
      ViewIsValid();
      var x := GetStream(p.streamId);
      if x.None? {
        return S.Fails(S.NoSuchStream);
      }
      var s := x.value;
      s.header := Some(p);
      s.Signal();
      assert View().made == old(View()).made[s.place := s.View()];
      return S.Done;
    }

    method HandleData(d: Data) returns (r: S.Outcome)
      requires Valid()
      modifies this`streams, made
      ensures Valid() && S.Valid(old(View())) && (View(), r) == S.HandleData(old(View()), d)
    {
      ViewIsValid();
      var x := GetStream(d.streamId);
      if x.None? {
        return S.Fails(S.NoSuchStream);
      }
      var s := x.value;
      if |d.data| > S.CHUNK {
        CloseStreamWithError(s, S.Overlong);
        return S.Fails(S.TooLong);
      }
      if |d.data| == 0 {
        CloseStreamWithError(s, S.EndOfStream);
        return S.Done;
      }
      var ok := s.Write(d.data);
      if !ok {
        CloseStreamWithError(s, S.PipeClosed);
        return S.Fails(S.WriteFailed);
      }
      assert View().made == old(View()).made[s.place := s.View()];
      return S.Done;
    }

    method HandleMessage(body: Bytes, offered: set<Bytes>, named: bool) returns (r: S.Outcome)
      requires Valid()
      modifies this, made
      ensures Valid() && S.Valid(old(View())) && (View(), r) == S.HandleFrame(old(View()), body, offered, named)
    {
      ViewIsValid();
      if |body| < 1 {
        return S.Fails(S.Failure.NoOpcode);
      }
      var opcode, rest := body[0], body[1..];
      if opcode == SERVICE_REQUEST {
        var x := UnmarshalRequest(rest);
        match x {
          case Packet(p) => r := HandleServiceRequest(p, offered, named);
          case Panics => r := S.Outcome.Panics;
          case _ => r := S.Fails(S.Failure.Malformed);
        }
      } else if opcode == SERVICE_RESPONSE {
        var x := UnmarshalResponse(rest);
        match x {
          case Packet(p) => r := HandleServiceResponse(p);
          case Panics => r := S.Outcome.Panics;
          case _ => r := S.Fails(S.Failure.Malformed);
        }
      } else if opcode == DATA {
        var x := UnmarshalData(rest);
        match x {
          case Packet(p) => r := HandleData(p);
          case Panics => r := S.Outcome.Panics;
          case _ => r := S.Fails(S.Failure.Malformed);
        }
      } else {
        r := if opcode == HANDSHAKE || opcode == FIND_NODE_REQUEST then S.Elsewhere else S.Fails(S.UnknownOpcode);
      }
    }
  }
}
