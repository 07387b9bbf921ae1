/**
 Where each field of a packet stands in its bytes, by position and independently of
 the decoders: integers are big-endian, a string follows its length byte, and a table
 its two-byte count.
 */
module WireLayout {
  import opened Basics
  import opened Packets
  import opened ServicePackets
  import opened DataPackets
  import Handshakes
  import Session

  /** The big-endian value of a byte string. */
  function Value(b: Bytes): nat
  {
    if b == [] then 0 else Value(b[..|b| - 1]) * 0x100 + b[|b| - 1] as nat
  }

  lemma ValueNext(a: Bytes, x: byte)
    ensures Value(a + [x]) == Value(a) * 0x100 + x as nat
  {
    assert (a + [x])[..|a|] == a;
  }

  lemma ValueOfTwo(b: Bytes)
    requires |b| == 2
    ensures Value(b) == ReadBE16(b)
  {
    ValueNext([], b[0]);
    ValueNext([b[0]], b[1]);
    assert b == [b[0]] + [b[1]] && [] + [b[0]] == [b[0]];
  }

  lemma ValueAndFour(a: Bytes, b: Bytes)
    requires |b| == 4
    ensures Value(a + b) == Value(a) * TWO32 + ReadBE32(b)
  {
    ValueNext(a, b[0]);
    ValueNext(a + [b[0]], b[1]);
    ValueNext(a + [b[0]] + [b[1]], b[2]);
    ValueNext(a + [b[0]] + [b[1]] + [b[2]], b[3]);
    assert a + b == a + [b[0]] + [b[1]] + [b[2]] + [b[3]];
  }

  lemma Sixteen(n: nat)
    ensures Value(BE16(n)) == n % TWO16
  {
    ValueOfTwo(BE16(n));
    BE16RoundTrip(n, []);
    assert BE16(n) + [] == BE16(n);
  }

  lemma ThirtyTwo(n: nat)
    ensures Value(BE32(n)) == n % TWO32
  {
    ValueAndFour([], BE32(n));
    BE32RoundTrip(n, []);
    assert BE32(n) + [] == BE32(n) && [] + BE32(n) == BE32(n);
  }

  lemma SixtyFour(n: nat)
    ensures Value(BE64(n)) == n % TWO64
  {
    var hi, lo := BE32(n / TWO32), BE32(n % TWO32);
    ValueAndFour(hi, lo);
    ValueAndFour([], hi);
    BE64RoundTrip(n);
    assert [] + hi == hi && (hi + lo)[4..] == lo && ReadBE32(hi + lo) == ReadBE32(hi);
  }

  /** The three fixed-width integers are big-endian, cut to their width. */
  lemma IntegersAreBigEndian(n: nat)
    ensures Value(BE16(n)) == n % 0x1_0000 && Value(BE32(n)) == n % 0x1_0000_0000
    ensures Value(BE64(n)) == n % 0x1_0000_0000_0000_0000
  {
    Sixteen(n);
    ThirtyTwo(n);
    SixtyFour(n);
  }

  // ----- strings and headers in their places

  /** Its length byte stands at i, and the string follows. */
  predicate StringAt(b: Bytes, i: nat, s: Bytes)
  {
    i + 1 + |s| <= |b| && b[i] as nat == |s| && b[i + 1..i + 1 + |s|] == s
  }

  /** The two bytes at j, the higher one first. */
  predicate LengthAt(b: Bytes, j: nat, n: nat)
    requires j + 2 <= |b|
  {
    b[j] as nat * 0x100 + b[j + 1] as nat == n
  }

  /** A name with its length byte, the value's length in two bytes, and the value. */
  predicate HeaderAt(b: Bytes, i: nat, h: Header)
  {
    && StringAt(b, i, h.0)
    && var j := i + 1 + |h.0|;
       j + 2 + |h.1| <= |b| && LengthAt(b, j, |h.1|) && b[j + 2..j + 2 + |h.1|] == h.1
  }

  /** The room of the first k strings. */
  function StringsRoom(ss: seq<Bytes>, k: nat): nat
    requires k <= |ss|
  {
    if k == 0 then 0 else 1 + |ss[0]| + StringsRoom(ss[1..], k - 1)
  }

  function HeadersRoom(hs: seq<Header>, k: nat): nat
    requires k <= |hs|
  {
    if k == 0 then 0 else 3 + |hs[0].0| + |hs[0].1| + HeadersRoom(hs[1..], k - 1)
  }

  lemma StringMoves(a: Bytes, b: Bytes, c: Bytes, i: nat, s: Bytes)
    requires StringAt(b, i, s)
    ensures StringAt(a + b + c, |a| + i, s)
  {
    var j := i + 1;
    assert (a + b + c)[|a| + j..|a| + j + |s|] == b[j..j + |s|];
  }

  lemma HeaderMoves(a: Bytes, b: Bytes, c: Bytes, i: nat, h: Header)
    requires HeaderAt(b, i, h)
    ensures HeaderAt(a + b + c, |a| + i, h)
  {
    StringMoves(a, b, c, i, h.0);
    var j := i + 1 + |h.0|;
    assert (a + b + c)[|a| + j + 2..|a| + j + 2 + |h.1|] == b[j + 2..j + 2 + |h.1|];
  }

  lemma HeaderAfter(a: Bytes, b: Bytes, i: nat, h: Header)
    requires HeaderAt(b, i, h)
    ensures HeaderAt(a + b, |a| + i, h)
  {
    HeaderMoves(a, b, [], i, h);
    assert a + b + [] == a + b;
  }

  lemma {:induction false} StringsStand(ss: seq<Bytes>, k: nat)
    requires k < |ss| && forall s | s in ss :: Fits8(s)
    ensures StringAt(AllStr8(ss), StringsRoom(ss, k), ss[k])
  {
    var head, tail := Str8(ss[0]), AllStr8(ss[1..]);
    assert head + tail + [] == AllStr8(ss);
    if k == 0 {
      assert Fits8(ss[0]) && head[1..] == ss[0];
      StringMoves([], head, tail, 0, ss[0]);
      assert [] + head + tail == AllStr8(ss);
    } else {
      StringsStand(ss[1..], k - 1);
      StringMoves(head, tail, [], StringsRoom(ss[1..], k - 1), ss[k]);
    }
  }

  lemma HeaderStands(h: Header)
    requires FitsHeader(h)
    ensures HeaderAt(HeaderBytes(h), 0, h) && |HeaderBytes(h)| == 3 + |h.0| + |h.1|
  {
    var b := HeaderBytes(h);
    assert b[1..1 + |h.0|] == h.0;
    assert b[3 + |h.0|..3 + |h.0| + |h.1|] == h.1;
  }

  lemma {:induction false} HeadersStand(hs: seq<Header>, k: nat)
    requires k < |hs| && forall h | h in hs :: FitsHeader(h)
    ensures HeaderAt(AllHeaders(hs), HeadersRoom(hs, k), hs[k])
  {
    var head, tail := HeaderBytes(hs[0]), AllHeaders(hs[1..]);
    HeaderStands(hs[0]);
    assert head + tail + [] == AllHeaders(hs) && [] + head + tail == AllHeaders(hs);
    if k == 0 {
      HeaderMoves([], head, tail, 0, hs[0]);
    } else {
      HeadersStand(hs[1..], k - 1);
      HeaderMoves(head, tail, [], HeadersRoom(hs[1..], k - 1), hs[k]);
    }
  }

  lemma {:induction false} StringsLength(ss: seq<Bytes>)
    ensures |AllStr8(ss)| == StringsRoom(ss, |ss|)
  {
    if ss != [] {
      StringsLength(ss[1..]);
    }
  }

  /** Strings, or headers, one after the other from i on. */
  predicate StringsAt(b: Bytes, i: nat, ss: seq<Bytes>)
  {
    forall k | 0 <= k < |ss| :: StringAt(b, i + StringsRoom(ss, k), ss[k])
  }

  predicate HeadersAt(b: Bytes, i: nat, hs: seq<Header>)
  {
    forall k | 0 <= k < |hs| :: HeaderAt(b, i + HeadersRoom(hs, k), hs[k])
  }

  lemma StringsMove(a: Bytes, b: Bytes, c: Bytes, ss: seq<Bytes>)
    requires StringsAt(b, 0, ss)
    ensures StringsAt(a + b + c, |a|, ss)
  {
    forall k | 0 <= k < |ss| ensures StringAt(a + b + c, |a| + StringsRoom(ss, k), ss[k]) {
      StringMoves(a, b, c, StringsRoom(ss, k), ss[k]);
    }
  }

  lemma HeadersMove(a: Bytes, b: Bytes, hs: seq<Header>)
    requires HeadersAt(b, 0, hs)
    ensures HeadersAt(a + b, |a|, hs)
  {
    forall k | 0 <= k < |hs| ensures HeaderAt(a + b, |a| + HeadersRoom(hs, k), hs[k]) {
      HeaderAfter(a, b, HeadersRoom(hs, k), hs[k]);
    }
  }

  lemma AllStringsStand(ss: seq<Bytes>)
    requires forall s | s in ss :: Fits8(s)
    ensures StringsAt(AllStr8(ss), 0, ss)
  {
    forall k | 0 <= k < |ss| ensures StringAt(AllStr8(ss), StringsRoom(ss, k), ss[k]) {
      StringsStand(ss, k);
    }
  }

  lemma AllHeadersStand(hs: seq<Header>)
    requires forall h | h in hs :: FitsHeader(h)
    ensures HeadersAt(AllHeaders(hs), 0, hs)
  {
    forall k | 0 <= k < |hs| ensures HeaderAt(AllHeaders(hs), HeadersRoom(hs, k), hs[k]) {
      HeadersStand(hs, k);
    }
  }

  // ----- the packets

  /** A table at i: the count, then the headers one after the other in the order of the iteration. */
  ghost predicate TableAt(b: Bytes, i: nat, headers: Headers, order: seq<Bytes>)
    requires Iterates(order, headers)
  {
    && i + 2 <= |b| && LengthAt(b, i, |order|)
    && HeadersAt(b, i + 2, Entries(order, NilIsEmpty(headers)))
  }

  lemma CountedStand(a: Bytes, hs: seq<Header>, all: Bytes)
    requires HeadersAt(all, 0, hs) && |hs| < TWO16
    ensures var b := a + (BE16(|hs|) + all);
      |a| + 2 <= |b| && LengthAt(b, |a|, |hs|) && HeadersAt(b, |a| + 2, hs)
  {
    HeadersMove(a + BE16(|hs|), all, hs);
    assert a + BE16(|hs|) + all == a + (BE16(|hs|) + all);
  }

  lemma TableStands(a: Bytes, headers: Headers, order: seq<Bytes>)
    requires Iterates(order, headers) && HeadersFit(headers)
    ensures TableAt(a + TableBytes(headers, order), |a|, headers, order)
  {
    var hs := Entries(order, NilIsEmpty(headers));
    OrderLength(order, NilIsEmpty(headers));
    AllHeadersStand(hs);
    CountedStand(a, hs, AllHeaders(hs));
    assert headers.None? ==> BE16(0) + AllHeaders(hs) == BE16(0);
  }

  /** The first five bytes, the strings behind them, and what follows those. */
  lemma FiveAndStrings(id: u32, n: byte, ss: seq<Bytes>, all: Bytes, tail: Bytes)
    requires StringsAt(all, 0, ss)
    ensures var b := BE32(id) + [n] + all + tail;
      |b| >= 5 && Value(b[..4]) == id && b[4] == n && StringsAt(b, 5, ss)
  {
    var b := BE32(id) + [n] + all + tail;
    assert b[..4] == BE32(id);
    ThirtyTwo(id);
    StringsMove(BE32(id) + [n], all, tail, ss);
  }

  lemma SmallCount(n: nat)
    requires n < 0x100
    ensures n % 0x100 == n
  {
  }

  lemma FiveStringsTable(id: u32, n: byte, ss: seq<Bytes>, all: Bytes, headers: Headers, order: seq<Bytes>)
    requires StringsAt(all, 0, ss) && |all| == StringsRoom(ss, |ss|)
    requires HeadersFit(headers) && Iterates(order, headers)
    ensures var b := BE32(id) + [n] + all + TableBytes(headers, order);
      && |b| >= 5 && Value(b[..4]) == id && b[4] == n && StringsAt(b, 5, ss)
      && TableAt(b, 5 + |all|, headers, order)
  {
    FiveAndStrings(id, n, ss, all, TableBytes(headers, order));
    TableStands(BE32(id) + [n] + all, headers, order);
  }

  /** A service request: the id in four bytes, the number of services, the services, and the table. */
  lemma RequestLayout(p: Request, order: seq<Bytes>)
    requires RequestFits(p) && Iterates(order, p.headers)
    ensures var b := EncodeRequest(p, order); var n := |p.services|;
      && |b| >= 5 && Value(b[..4]) == p.streamId && b[4] as nat == n && StringsAt(b, 5, p.services)
      && TableAt(b, 5 + StringsRoom(p.services, n), p.headers, order)
  {
    var n := |p.services|;
    AllStringsStand(p.services);
    StringsLength(p.services);
    SmallCount(n);
    FiveStringsTable(p.streamId, n % 0x100, p.services, AllStr8(p.services), p.headers, order);
  }

  /** A service response: the id in four bytes, 1 if it was handled and else 0, and the table. */
  lemma ResponseLayout(p: Response, order: seq<Bytes>)
    requires HeadersFit(p.headers) && Iterates(order, p.headers)
    ensures var b := EncodeResponse(p, order);
      && |b| >= 5 && Value(b[..4]) == p.streamId && b[4] == (if p.handled then 1 else 0)
      && TableAt(b, 5, p.headers, order)
  {
    FlagAndTable(p.streamId, if p.handled then 1 else 0, p.headers, order);
  }

  lemma FlagAndTable(id: u32, flag: byte, headers: Headers, order: seq<Bytes>)
    requires HeadersFit(headers) && Iterates(order, headers)
    ensures var b := BE32(id) + [flag] + TableBytes(headers, order);
      && |b| >= 5 && Value(b[..4]) == id && b[4] == flag && TableAt(b, 5, headers, order)
  {
    FiveAndStrings(id, flag, [], [], TableBytes(headers, order));
    assert BE32(id) + [flag] + [] == BE32(id) + [flag];
    TableStands(BE32(id) + [flag], headers, order);
  }

  /** A data packet: the id in four bytes, the length in two, cut to 16 bits, and the data. */
  lemma DataLayout(p: Data)
    ensures var b := EncodeData(p);
      && |b| == 6 + |p.data| && Value(b[..4]) == p.streamId && Value(b[4..6]) == |p.data| % 0x1_0000
      && b[6..] == p.data
  {
    var b := EncodeData(p);
    assert b[..4] == BE32(p.streamId) && b[4..6] == BE16(|p.data|);
    ThirtyTwo(p.streamId);
    Sixteen(|p.data|);
  }

  /** A handshake: 1 and the id, or 0; the number of services; the services; with an id 64 bytes of signature. */
  lemma HandshakeLayout<Id(!new)>(c: Handshakes.IdCodec<Id>, p: Handshakes.Handshake<Id>)
    requires Handshakes.Fits(p)
    ensures var b := Handshakes.Encode(c, p); var n := |p.services|;
      var i := if p.id.None? then 1 else 1 + |c.put(p.id.value)|;
      var j := i + 1 + StringsRoom(p.services, n);
      && |b| == (if p.id.None? then j else j + 64) && b[0] == (if p.id.None? then 0 else 1)
      && (p.id.Some? ==> b[1..i] == c.put(p.id.value) && b[j..] == p.signature)
      && b[i] as nat == n && StringsAt(b, i + 1, p.services)
  {
    AllStringsStand(p.services);
    StringsLength(p.services);
    SmallCount(|p.services|);
    var n, strs := |p.services| % 0x100, AllStr8(p.services);
    match p.id
    case None =>
      BetweenStrings([0], n, p.services, strs, []);
      assert [0] + ([n] + strs) + [] == Handshakes.Encode(c, p);
    case Some(id) =>
      BetweenStrings([1] + c.put(id), n, p.services, strs, p.signature);
      assert ([1] + c.put(id))[1..] == c.put(id);
  }

  lemma BetweenStrings(front: Bytes, n: byte, ss: seq<Bytes>, all: Bytes, back: Bytes)
    requires StringsAt(all, 0, ss) && front != []
    ensures var b := front + ([n] + all) + back; var i := |front|;
      && |b| == i + 1 + |all| + |back| && b[0] == front[0] && b[1..i] == front[1..]
      && b[i] == n && StringsAt(b, i + 1, ss) && b[i + 1 + |all|..] == back
  {
    StringsMove(front + [n], all, back, ss);
    assert front + [n] + all + back == front + ([n] + all) + back;
  }

  // ----- frames of a session

  /** A frame: the ciphertext's length in four bytes and the ciphertext, sealed under the counter and zeros. */
  lemma FrameLayout(a: Session.Suite, i: nat, p: Bytes)
    requires a.nonceSize >= 8 && |Session.Frame(a, i, p)| - 4 < TWO32
    ensures var b := Session.Frame(a, i, p); var n := Session.Nonce(a, i);
      && |b| >= 4 && Value(b[..4]) == |b| - 4 && b[4..] == a.seal(n, p)
      && |n| == a.nonceSize && Value(n[..8]) == i % 0x1_0000_0000_0000_0000 && forall k | 8 <= k < |n| :: n[k] == 0
  {
    var n := Session.Nonce(a, i);
    var c := a.seal(n, p);
    assert Session.Frame(a, i, p)[..4] == BE32(|c|) && n[..8] == BE64(i);
    ThirtyTwo(|c|);
    SixtyFour(i);
  }

  /**
   A block with its length before it is read if and only if it is no longer than the limit
   and all of it is there.
   */
  lemma BlockIsRead(c: Bytes, rest: Bytes, max: nat)
    requires |c| < TWO32
    ensures Session.Sized(BE32(|c|) + c + rest, max) == if |c| <= max then Some((c, rest)) else None
    ensures forall k | 0 <= k < 4 + |c| :: Session.Sized((BE32(|c|) + c)[..k], max).None?
  {
    var head := BE32(|c|);
    assert head + c + rest == head + (c + rest);
    BE32RoundTrip(|c|, c + rest);
    if |c| <= max {
      Session.PrefixIsRead(c, rest, max);
    }
    forall k | 0 <= k < 4 + |c| ensures Session.Sized((head + c)[..k], max).None? {
      if k >= 4 {
        BE32RoundTrip(|c|, c[..k - 4]);
        assert (head + c)[..k] == head + c[..k - 4];
      }
    }
  }
}
