/** The encoders and decoders themselves: loops that append to dst and advance buf. */
module PacketCode {
  import opened Basics
  import opened Packets
  import opened ServicePackets
  import opened DataPackets
  import opened Handshakes

  // ----- appending

  method AppendStr8(dst: Bytes, s: Bytes) returns (r: Bytes)
    ensures r == dst + Str8(s)
  {
    r := dst + [|s| % 0x100];
    r := r + s;
  }

  method AppendServices(dst: Bytes, services: seq<Bytes>) returns (r: Bytes)
    ensures r == dst + [|services| % 0x100] + AllStr8(services)
  {
    r := dst + [|services| % 0x100];
    for i := 0 to |services|
      invariant r + AllStr8(services[i..]) == dst + [|services| % 0x100] + AllStr8(services)
    {
      ghost var before := r;
      assert services[i..][1..] == services[i + 1..];
      r := AppendStr8(r, services[i]);
      assert before + (Str8(services[i]) + AllStr8(services[i + 1..])) == r + AllStr8(services[i + 1..]);
    }
    assert r + [] == r;
  }

  lemma AllHeadersOne(h: Header)
    ensures AllHeaders([h]) == HeaderBytes(h)
  {
    assert |[h][1..]| == 0;
  }

  lemma {:induction false} AllHeadersAppend(hs: seq<Header>, h: Header)
    ensures AllHeaders(hs + [h]) == AllHeaders(hs) + HeaderBytes(h)
  {
    if hs == [] {
      AllHeadersOne(h);
      assert hs + [h] == [h];
    } else {
      AllHeadersAppend(hs[1..], h);
      assert AllHeaders(hs + [h])
          == HeaderBytes(hs[0]) + AllHeaders(hs[1..] + [h]) by { assert (hs + [h])[1..] == hs[1..] + [h]; }
      Associated(HeaderBytes(hs[0]), AllHeaders(hs[1..]), HeaderBytes(h));
    }
  }

  method AppendHeader(dst: Bytes, name: Bytes, value: Bytes) returns (r: Bytes)
    ensures r == dst + HeaderBytes((name, value))
  {
    r := AppendStr8(dst, name);
    r := r + BE16(|value|);
    r := r + value;
  }

  /** What a map iteration has visited: `order` and `left` share the keys out. */
  ghost predicate Visiting(order: seq<Bytes>, left: set<Bytes>, m: map<Bytes, Bytes>)
  {
    && (forall k :: k in m <==> k in order || k in left)
    && (forall k | k in order :: k !in left)
    && (forall i, j | 0 <= i < j < |order| :: order[i] != order[j])
  }

  lemma EntriesAppend(order: seq<Bytes>, name: Bytes, m: map<Bytes, Bytes>)
    requires name in m && forall k | k in order :: k in m
    ensures AllHeaders(Entries(order + [name], m)) == AllHeaders(Entries(order, m)) + HeaderBytes((name, m[name]))
  {
    AllHeadersAppend(Entries(order, m), (name, m[name]));
    assert Entries(order + [name], m) == Entries(order, m) + [(name, m[name])];
  }

  lemma VisitingStep(order: seq<Bytes>, left: set<Bytes>, name: Bytes, m: map<Bytes, Bytes>)
    requires Visiting(order, left, m) && name in left
    ensures Visiting(order + [name], left - {name}, m)
  {
  }

  /** In the order the map happens to be iterated in. */
  method AppendEntries(dst: Bytes, m: map<Bytes, Bytes>) returns (r: Bytes)
    ensures exists order :: IsOrder(order, m) && r == dst + AllHeaders(Entries(order, m))
  {
    ghost var order: seq<Bytes> := [];
    r := dst;
    var left := m.Keys;
    while left != {}
      invariant Visiting(order, left, m)
      invariant r == dst + AllHeaders(Entries(order, m))
      decreases left
    {
      var name :| name in left;
      EntriesAppend(order, name, m);
      VisitingStep(order, left, name, m);
      r := AppendHeader(r, name, m[name]);
      left, order := left - {name}, order + [name];
    }
  }

  method AppendTable(dst: Bytes, headers: Headers) returns (r: Bytes)
    ensures exists order :: Iterates(order, headers) && r == dst + TableBytes(headers, order)
  {
    match headers {
      case None =>
        r := dst + BE16(0);
        assert Iterates([], headers);
      case Some(m) =>
        r := AppendEntries(dst + BE16(|m|), m);
        ghost var order :| IsOrder(order, m) && r == dst + BE16(|m|) + AllHeaders(Entries(order, m));
        assert Iterates(order, headers);
    }
  }

  lemma Appended(a: Bytes, b: Bytes, c: Bytes, d: Bytes, e: Bytes)
    ensures a + b + c + d + e == a + (b + c + d + e)
    ensures d == [] ==> a + b + c + e == a + (b + c + e)
  {
  }

  method AppendRequest(dst: Bytes, p: Request) returns (r: Bytes)
    ensures exists order :: Iterates(order, p.headers) && r == dst + EncodeRequest(p, order)
  {
    r := dst + BE32(p.streamId);
    r := AppendServices(r, p.services);
    ghost var front := r;
    r := AppendTable(r, p.headers);
    ghost var order :| Iterates(order, p.headers) && r == front + TableBytes(p.headers, order);
    Appended(dst, BE32(p.streamId), [|p.services| % 0x100], AllStr8(p.services), TableBytes(p.headers, order));
    assert r == dst + EncodeRequest(p, order);
  }

  method AppendResponse(dst: Bytes, p: Response) returns (r: Bytes)
    ensures exists order :: Iterates(order, p.headers) && r == dst + EncodeResponse(p, order)
  {
    r := dst + BE32(p.streamId);
    if p.handled {
      r := r + [1];
    } else {
      r := r + [0];
    }
    ghost var front := r;
    r := AppendTable(r, p.headers);
    ghost var order :| Iterates(order, p.headers) && r == front + TableBytes(p.headers, order);
    Appended(dst, BE32(p.streamId), [if p.handled then 1 else 0], [], TableBytes(p.headers, order));
    assert r == dst + EncodeResponse(p, order);
  }

  method AppendData(dst: Bytes, p: Data) returns (r: Bytes)
    ensures r == dst + EncodeData(p)
  {
    r := dst + BE32(p.streamId);
    r := r + BE16(|p.data|);
    r := r + p.data;
  }

  method AppendHandshake<Id(!new)>(c: IdCodec<Id>, dst: Bytes, p: Handshake<Id>) returns (r: Bytes)
    ensures r == dst + Encode(c, p)
  {
    if p.id.Some? {
      r := dst + [1];
      r := r + c.put(p.id.value);
    } else {
      r := dst + [0];
    }
    r := AppendServices(r, p.services);
    if p.id.Some? {
      r := r + p.signature;
    }
  }

  // ----- reading

  /** A list read after `done`. */
  function After<T>(done: seq<T>, more: Option<(seq<T>, Bytes)>): Option<(seq<T>, Bytes)>
  {
    match more
    case None => None
    case Some(x) => Some((done + x.0, x.1))
  }

  lemma AfterNothing<T>(more: Option<(seq<T>, Bytes)>)
    ensures After([], more) == more
  {
    if more.Some? {
      assert [] + more.value.0 == more.value.0;
    }
  }

  lemma StrsStep(b: Bytes, n: nat, done: seq<Bytes>)
    requires n > 0
    ensures match TakeStr8(b)
      case None => After(done, TakeStrs(b, n)) == None
      case Some(x) => After(done, TakeStrs(b, n)) == After(done + [x.0], TakeStrs(x.1, n - 1))
  {
    var x := TakeStr8(b);
    if x.Some? && TakeStrs(x.value.1, n - 1).Some? {
      var y := TakeStrs(x.value.1, n - 1).value.0;
      assert done + ([x.value.0] + y) == done + [x.value.0] + y;
    }
  }

  method ReadStr8(buf: Bytes) returns (r: Option<(Bytes, Bytes)>)
    ensures r == TakeStr8(buf)
  {
    if |buf| < 1 {
      return None;
    }
    var size, rest := buf[0] as nat, buf[1..];
    if |rest| < size {
      return None;
    }
    assert buf[1..1 + size] == rest[..size] && buf[1 + size..] == rest[size..];
    return Some((rest[..size], rest[size..]));
  }

  /** Fills a list of `size` services. */
  method ReadServices(b: Bytes, size: nat) returns (r: Option<(seq<Bytes>, Bytes)>)
    ensures r == TakeStrs(b, size)
  {
    var buf, services: seq<Bytes> := b, [];
    AfterNothing(TakeStrs(b, size));
    for i := 0 to size
      invariant |services| == i
      invariant After(services, TakeStrs(buf, size - i)) == TakeStrs(b, size)
    {
      StrsStep(buf, size - i, services);
      var x := ReadStr8(buf);
      match x {
        case None => return None;
        case Some(v) => services, buf := services + [v.0], v.1;
      }
    }
    assert services + [] == services;
    return Some((services, buf));
  }

  lemma HeadersStep(b: Bytes, n: nat, done: seq<Header>)
    requires n > 0
    ensures match TakeHeader(b)
      case None => After(done, TakeHeaders(b, n)) == None
      case Some(x) => After(done, TakeHeaders(b, n)) == After(done + [x.0], TakeHeaders(x.1, n - 1))
  {
    var x := TakeHeader(b);
    if x.Some? && TakeHeaders(x.value.1, n - 1).Some? {
      var y := TakeHeaders(x.value.1, n - 1).value.0;
      assert done + ([x.value.0] + y) == done + [x.value.0] + y;
    }
  }

  method ReadHeader(b: Bytes) returns (r: Option<(Header, Bytes)>)
    ensures r == TakeHeader(b)
  {
    var x := ReadStr8(b);
    if x.None? {
      return None;
    }
    var name, buf := x.value.0, x.value.1;
    if |buf| < 2 {
      return None;
    }
    var size, rest := ReadBE16(buf), buf[2..];
    if |rest| < size {
      return None;
    }
    assert buf[2..2 + size] == rest[..size] && buf[2 + size..] == rest[size..];
    return Some(((name, rest[..size]), rest[size..]));
  }

  /** Each header goes into the map as it is read. */
  method ReadTable(b: Bytes) returns (r: Option<(map<Bytes, Bytes>, Bytes)>)
    ensures r == match TakeTable(b)
      case None => None
      case Some(x) => Some((Stored(x.0), x.1))
  {
    if |b| < 2 {
      return None;
    }
    var size, buf := ReadBE16(b), b[2..];
    var headers: map<Bytes, Bytes> := map[];
    ghost var listed: seq<Header> := [];
    AfterNothing(TakeTable(b));
    for i := 0 to size
      invariant headers == Stored(listed)
      invariant After(listed, TakeHeaders(buf, size - i)) == TakeTable(b)
    {
      HeadersStep(buf, size - i, listed);
      var x := ReadHeader(buf);
      if x.None? {
        return None;
      }
      headers := headers[x.value.0.0 := x.value.0.1];
      listed, buf := listed + [x.value.0], x.value.1;
    }
    assert listed + [] == listed;
    return Some((headers, buf));
  }

  method UnmarshalRequest(b: Bytes) returns (r: Decoded<Request>)
    ensures r == DecodeRequest(b)
  {
    if |b| < 4 {
      return TooShort;
    }
    var id, buf := ReadBE32(b), b[4..];
    if |buf| == 0 {
      return Panics;   // buf[0] is read without a test
    }
    var size, tail := buf[0] as nat, buf[1..];
    assert b[4] == buf[0] && b[5..] == tail;
    var services := ReadServices(tail, size);
    if services.None? {
      return TooShort;
    }
    var headers := ReadTable(services.value.1);
    if headers.None? {
      return TooShort;
    }
    return Packet(Request(id, services.value.0, Some(headers.value.0)));
  }

  method UnmarshalResponse(b: Bytes) returns (r: Decoded<Response>)
    ensures r == DecodeResponse(b)
  {
    if |b| < 5 {
      return TooShort;
    }
    var id, buf := ReadBE32(b), b[4..];
    var handled, tail := buf[0] == 1, buf[1..];
    assert b[5..] == tail;
    var headers := ReadTable(tail);
    if headers.None? {
      return TooShort;
    }
    return Packet(Response(id, handled, Some(headers.value.0)));
  }

  /** The comparison is between 16-bit integers. */
  method UnmarshalData(b: Bytes) returns (r: Decoded<Data>)
    ensures r == DecodeData(b)
  {
    if |b| < 4 + 2 {
      return TooShort;
    }
    var id, buf := ReadBE32(b), b[4..];
    var size, tail := ReadBE16(buf), buf[2..];
    if |tail| % TWO16 < size {
      return TooShort;
    }
    Residue(|tail|);
    assert b[6..6 + size] == tail[..size];
    return Packet(Data(id, tail[..size]));
  }

  /** With the early test, the result is the one without. */
  method UnmarshalHandshake<Id(!new)>(c: IdCodec<Id>, b: Bytes) returns (r: Decoded<Handshake<Id>>)
    ensures r == Decode(c, b)
  {
    if |b| < 1 {
      return TooShort;
    }
    var hasId, buf := b[0] == 1, b[1..];
    var id: Option<Id> := None;
    if hasId {
      var x := c.take(buf);
      if x.None? {
        return BadId;
      }
      id, buf := Some(x.value.0), x.value.1;
    }
    if |buf| < 1 {
      return TooShort;
    }
    var size, rest := buf[0] as nat, buf[1..];
    if |rest| < size {
      TooFewForServices(rest, size);
      return TooShort;
    }
    var services := ReadServices(rest, size);
    if services.None? {
      return TooShort;
    }
    var signature, left := NoSignature(), services.value.1;
    if hasId {
      if |left| < SIGNATURE {
        return TooShort;
      }
      signature := left[..SIGNATURE];
    }
    return Packet(Handshake(id, services.value.0, signature));
  }
}
