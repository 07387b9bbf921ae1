/**
 The wire format of the packets of the RPC layer, as functions: what an encoder
 appends and what a decoder makes of any buffer.  Names and values are byte
 strings.  A map is encoded in whatever order its iteration takes.
 */
module Packets {
  import opened Basics

  /**
   What a decoder returns: a packet, io.ErrUnexpectedEOF, the id codec's error, or an index out of
   range, where Go panics.
   */
  datatype Decoded<+T> = Packet(p: T) | TooShort | BadId | Panics

  type Header = (Bytes, Bytes)

  // ----- encoders of the parts; lengths are cut to their fields

  function Str8(s: Bytes): Bytes
  {
    [|s| % 0x100] + s
  }

  function HeaderBytes(h: Header): Bytes
  {
    Str8(h.0) + BE16(|h.1|) + h.1
  }

  function AllStr8(ss: seq<Bytes>): Bytes
  {
    if ss == [] then [] else Str8(ss[0]) + AllStr8(ss[1..])
  }

  function AllHeaders(hs: seq<Header>): Bytes
  {
    if hs == [] then [] else HeaderBytes(hs[0]) + AllHeaders(hs[1..])
  }

  // ----- decoders of the parts

  function TakeStr8(b: Bytes): Option<(Bytes, Bytes)>
  {
    if |b| < 1 || |b| - 1 < b[0] as nat then None else Some((b[1..1 + b[0] as nat], b[1 + b[0] as nat..]))
  }

  function TakeHeader(b: Bytes): Option<(Header, Bytes)>
  {
    match TakeStr8(b)
    case None => None
    case Some(x) =>
      if |x.1| < 2 || |x.1| - 2 < ReadBE16(x.1) then None
      else Some(((x.0, x.1[2..2 + ReadBE16(x.1)]), x.1[2 + ReadBE16(x.1)..]))
  }

  function TakeStrs(b: Bytes, n: nat): Option<(seq<Bytes>, Bytes)>
  {
    if n == 0 then Some(([], b))
    else
      match TakeStr8(b)
      case None => None
      case Some(x) =>
        match TakeStrs(x.1, n - 1)
        case None => None
        case Some(y) => Some(([x.0] + y.0, y.1))
  }

  function TakeHeaders(b: Bytes, n: nat): Option<(seq<Header>, Bytes)>
  {
    if n == 0 then Some(([], b))
    else
      match TakeHeader(b)
      case None => None
      case Some(x) =>
        match TakeHeaders(x.1, n - 1)
        case None => None
        case Some(y) => Some(([x.0] + y.0, y.1))
  }

  /** Two-byte count, then that many headers. */
  function TakeTable(b: Bytes): Option<(seq<Header>, Bytes)>
  {
    if |b| < 2 then None else TakeHeaders(b[2..], ReadBE16(b))
  }

  /** Headers stored one after the other: the last of a name stays. */
  function Stored(hs: seq<Header>): map<Bytes, Bytes>
  {
    if hs == [] then map[] else Stored(hs[..|hs| - 1])[hs[|hs| - 1].0 := hs[|hs| - 1].1]
  }

  // ----- the parts invert each other

  predicate Fits8(s: Bytes)
  {
    |s| < 0x100
  }

  predicate FitsHeader(h: Header)
  {
    |h.0| < 0x100 && |h.1| < TWO16
  }

  lemma Str8IsTaken(s: Bytes, rest: Bytes)
    requires Fits8(s)
    ensures TakeStr8(Str8(s) + rest) == Some((s, rest))
  {
    var b := Str8(s) + rest;
    assert b[0] as nat == |s|;
    assert b[1..1 + |s|] == s;
    assert b[1 + |s|..] == rest;
  }

  lemma TakenIsStr8(b: Bytes)
    requires TakeStr8(b).Some?
    ensures var x := TakeStr8(b).value; Fits8(x.0) && b == Str8(x.0) + x.1
  {
  }

  lemma HeaderIsTaken(h: Header, rest: Bytes)
    requires FitsHeader(h)
    ensures TakeHeader(HeaderBytes(h) + rest) == Some((h, rest))
  {
    var tail := BE16(|h.1|) + (h.1 + rest);
    assert HeaderBytes(h) + rest == Str8(h.0) + tail;
    Str8IsTaken(h.0, tail);
    BE16RoundTrip(|h.1|, h.1 + rest);
    assert tail[2..2 + |h.1|] == h.1;
    assert tail[2 + |h.1|..] == rest;
  }

  lemma TakenIsHeader(b: Bytes)
    requires TakeHeader(b).Some?
    ensures var x := TakeHeader(b).value; FitsHeader(x.0) && b == HeaderBytes(x.0) + x.1
  {
    var x := TakeStr8(b).value;
    var n := ReadBE16(x.1);
    assert b == Str8(x.0) + x.1 && Fits8(x.0) by { TakenIsStr8(b); }
    ValueSplits(x.1, n);
    Associated(Str8(x.0), BE16(n) + x.1[2..2 + n], x.1[2 + n..]);
    Associated(Str8(x.0), BE16(n), x.1[2..2 + n]);
  }

  lemma ValueSplits(b: Bytes, n: nat)
    requires |b| >= 2 && n == ReadBE16(b) && |b| - 2 >= n
    ensures b == BE16(n) + b[2..2 + n] + b[2 + n..]
  {
    BE16Inverse(b);
    assert b == b[..2] + b[2..2 + n] + b[2 + n..];
  }

  lemma Associated(a: Bytes, b: Bytes, c: Bytes)
    ensures a + b + c == a + (b + c)
  {
  }

  lemma {:induction false} StrsAreTaken(ss: seq<Bytes>, rest: Bytes)
    requires forall s | s in ss :: Fits8(s)
    ensures TakeStrs(AllStr8(ss) + rest, |ss|) == Some((ss, rest))
  {
    if ss == [] {
      assert AllStr8(ss) + rest == rest;
    } else {
      var tail := AllStr8(ss[1..]) + rest;
      assert AllStr8(ss) + rest == Str8(ss[0]) + tail;
      Str8IsTaken(ss[0], tail);
      StrsAreTaken(ss[1..], rest);
      assert [ss[0]] + ss[1..] == ss;
    }
  }

  lemma {:induction false} TakenAreStrs(b: Bytes, n: nat)
    requires TakeStrs(b, n).Some?
    ensures var x := TakeStrs(b, n).value; |x.0| == n && (forall s | s in x.0 :: Fits8(s)) && b == AllStr8(x.0) + x.1
  {
    if n > 0 {
      TakenIsStr8(b);
      var x := TakeStr8(b).value;
      TakenAreStrs(x.1, n - 1);
      var y := TakeStrs(x.1, n - 1).value;
      assert ([x.0] + y.0)[1..] == y.0;
      assert Str8(x.0) + (AllStr8(y.0) + y.1) == (Str8(x.0) + AllStr8(y.0)) + y.1;
    }
  }

  lemma {:induction false} HeadersAreTaken(hs: seq<Header>, rest: Bytes)
    requires forall h | h in hs :: FitsHeader(h)
    ensures TakeHeaders(AllHeaders(hs) + rest, |hs|) == Some((hs, rest))
  {
    if hs == [] {
      assert AllHeaders(hs) + rest == rest;
    } else {
      var tail := AllHeaders(hs[1..]) + rest;
      assert TakeHeader(AllHeaders(hs) + rest) == Some((hs[0], tail)) by {
        assert AllHeaders(hs) + rest == HeaderBytes(hs[0]) + tail;
        HeaderIsTaken(hs[0], tail);
      }
      assert TakeHeaders(tail, |hs| - 1) == Some((hs[1..], rest)) by { HeadersAreTaken(hs[1..], rest); }
      assert [hs[0]] + hs[1..] == hs;
    }
  }

  lemma {:induction false} TakenAreHeaders(b: Bytes, n: nat)
    requires TakeHeaders(b, n).Some?
    ensures var x := TakeHeaders(b, n).value;
      && |x.0| == n && (forall h | h in x.0 :: FitsHeader(h))
      && b == AllHeaders(x.0) + x.1
  {
    if n > 0 {
      var x := TakeHeader(b).value;
      assert FitsHeader(x.0) && b == HeaderBytes(x.0) + x.1 by { TakenIsHeader(b); }
      TakenAreHeaders(x.1, n - 1);
      var y := TakeHeaders(x.1, n - 1).value;
      assert AllHeaders([x.0] + y.0) == HeaderBytes(x.0) + AllHeaders(y.0) by { assert ([x.0] + y.0)[1..] == y.0; }
      Associated(HeaderBytes(x.0), AllHeaders(y.0), y.1);
    }
  }

  // ----- maps and the orders they are iterated in

  /** Every key once. */
  ghost predicate IsOrder(order: seq<Bytes>, m: map<Bytes, Bytes>)
  {
    && (forall k | k in order :: k in m) && (forall k | k in m :: k in order)
    && (forall i, j | 0 <= i < j < |order| :: order[i] != order[j])
  }

  function Entries(order: seq<Bytes>, m: map<Bytes, Bytes>): (hs: seq<Header>)
    requires forall k | k in order :: k in m
    ensures |hs| == |order| && forall i | 0 <= i < |hs| :: hs[i] == (order[i], m[order[i]])
  {
    seq(|order|, i requires 0 <= i < |order| => (order[i], m[order[i]]))
  }

  function Names(hs: seq<Header>): (ns: seq<Bytes>)
    ensures |ns| == |hs| && forall i | 0 <= i < |hs| :: ns[i] == hs[i].0
  {
    seq(|hs|, i requires 0 <= i < |hs| => hs[i].0)
  }

  predicate Distinct(hs: seq<Header>)
  {
    forall i, j | 0 <= i < j < |hs| :: hs[i].0 != hs[j].0
  }

  /** What is stored has the listed names, each with the value of its last listing. */
  lemma {:induction false} StoredKeys(hs: seq<Header>, k: Bytes)
    ensures k in Stored(hs) <==> k in Names(hs)
  {
    if hs != [] {
      var n := |hs| - 1;
      StoredKeys(hs[..n], k);
      assert Names(hs) == Names(hs[..n]) + [hs[n].0];
    }
  }

  lemma {:induction false} StoredValue(hs: seq<Header>, i: nat)
    requires Distinct(hs) && i < |hs|
    ensures hs[i].0 in Stored(hs) && Stored(hs)[hs[i].0] == hs[i].1
  {
    var n := |hs| - 1;
    if i < n {
      StoredValue(hs[..n], i);
      assert hs[..n][i] == hs[i];
    }
  }

  /** With distinct names, what is stored is just what was listed, in some order. */
  lemma DistinctAreStored(hs: seq<Header>)
    requires Distinct(hs)
    ensures IsOrder(Names(hs), Stored(hs)) && Entries(Names(hs), Stored(hs)) == hs
  {
    forall k ensures k in Stored(hs) <==> k in Names(hs) { StoredKeys(hs, k); }
    forall i | 0 <= i < |hs| ensures hs[i].0 in Stored(hs) && Stored(hs)[hs[i].0] == hs[i].1 { StoredValue(hs, i); }
  }

  /** Storing the entries of a map, in any order, gives the map. */
  lemma {:induction false} EntriesAreStored(order: seq<Bytes>, m: map<Bytes, Bytes>)
    requires IsOrder(order, m)
    ensures Stored(Entries(order, m)) == m && Distinct(Entries(order, m))
  {
    var hs := Entries(order, m);
    DistinctAreStored(hs);
    assert Names(hs) == order;
    var s := Stored(hs);
    assert s.Keys == m.Keys;
    forall k | k in s ensures s[k] == m[k] {
      var i :| 0 <= i < |order| && order[i] == k;
      assert Entries(Names(hs), s)[i] == hs[i];
    }
  }

  lemma {:induction false} DistinctSize<K>(s: seq<K>, keys: set<K>)
    requires forall k :: k in s <==> k in keys
    requires forall i, j | 0 <= i < j < |s| :: s[i] != s[j]
    ensures |s| == |keys|
  {
    if s == [] {
      assert keys == {};
    } else {
      var last := s[|s| - 1];
      var front := s[..|s| - 1];
      assert forall k :: k in s <==> k in front || k == last by { assert s == front + [last]; }
      DistinctSize(front, keys - {last});
      assert keys == (keys - {last}) + {last};
    }
  }

  lemma OrderLength(order: seq<Bytes>, m: map<Bytes, Bytes>)
    requires IsOrder(order, m)
    ensures |order| == |m|
  {
    DistinctSize(order, m.Keys);
    assert |m.Keys| == |m|;
  }

  // ----- the header table of both service packets

  type Headers = Option<map<Bytes, Bytes>>

  /** `order` is a way to iterate over headers; a nil map has none. */
  ghost predicate Iterates(order: seq<Bytes>, headers: Headers)
  {
    if headers.None? then order == [] else IsOrder(order, headers.value)
  }

  function TableBytes(headers: Headers, order: seq<Bytes>): Bytes
    requires headers.Some? ==> forall k | k in order :: k in headers.value
  {
    match headers
    case None => BE16(0)
    case Some(m) => BE16(|m|) + AllHeaders(Entries(order, m))
  }

  function NilIsEmpty(headers: Headers): map<Bytes, Bytes>
  {
    if headers.None? then map[] else headers.value
  }

  predicate HeadersFit(headers: Headers)
  {
    headers.Some? ==> |headers.value| < TWO16 && forall k | k in headers.value :: FitsHeader((k, headers.value[k]))
  }

  lemma TableAfterCount(b: Bytes, tail: Bytes, n: nat)
    requires |b| >= 2 && b[2..] == tail && ReadBE16(b) == n
    ensures TakeTable(b) == TakeHeaders(tail, n)
  {
  }

  lemma TableIsCounted(n: nat, tail: Bytes)
    requires n < TWO16
    ensures TakeTable(BE16(n) + tail) == TakeHeaders(tail, n)
  {
    assert ReadBE16(BE16(n) + tail) == n && (BE16(n) + tail)[2..] == tail by { BE16RoundTrip(n, tail); }
    TableAfterCount(BE16(n) + tail, tail, n);
  }

  lemma CountedAreTaken(hs: seq<Header>, rest: Bytes)
    requires |hs| < TWO16 && forall h | h in hs :: FitsHeader(h)
    ensures TakeTable(BE16(|hs|) + AllHeaders(hs) + rest) == Some((hs, rest))
  {
    TableIsCounted(|hs|, AllHeaders(hs) + rest);
    HeadersAreTaken(hs, rest);
    Associated(BE16(|hs|), AllHeaders(hs), rest);
  }

  lemma EntriesFit(order: seq<Bytes>, m: map<Bytes, Bytes>)
    requires IsOrder(order, m) && HeadersFit(Some(m))
    ensures |order| == |m| < TWO16 && forall h | h in Entries(order, m) :: FitsHeader(h)
  {
    OrderLength(order, m);
  }

  lemma TableIsTaken(headers: Headers, order: seq<Bytes>, rest: Bytes)
    requires Iterates(order, headers) && HeadersFit(headers)
    ensures TakeTable(TableBytes(headers, order) + rest) == Some((Entries(order, NilIsEmpty(headers)), rest))
    ensures Stored(Entries(order, NilIsEmpty(headers))) == NilIsEmpty(headers)
  {
    var m := NilIsEmpty(headers);
    EntriesFit(order, m);
    EntriesAreStored(order, m);
    CountedAreTaken(Entries(order, m), rest);
  }

  lemma TakenIsTable(b: Bytes)
    requires TakeTable(b).Some?
    ensures var x := TakeTable(b).value;
      |x.0| < TWO16 && (forall h | h in x.0 :: FitsHeader(h)) && b == BE16(|x.0|) + AllHeaders(x.0) + x.1
  {
    BE16Inverse(b);
    TakenAreHeaders(b[2..], ReadBE16(b));
    assert b == b[..2] + b[2..];
  }

  lemma {:induction false} StoredFits(hs: seq<Header>)
    requires forall h | h in hs :: FitsHeader(h)
    ensures |Stored(hs)| <= |hs| && forall k | k in Stored(hs) :: FitsHeader((k, Stored(hs)[k]))
  {
    if hs != [] {
      StoredFits(hs[..|hs| - 1]);
      assert FitsHeader(hs[|hs| - 1]);
      assert Stored(hs).Keys == Stored(hs[..|hs| - 1]).Keys + {hs[|hs| - 1].0};
    }
  }

  /** A table starts with the encoding of what it stores, in some order, exactly when its names are distinct. */
  lemma TableIsEncoding(b: Bytes)
    requires TakeTable(b).Some?
    ensures var x := TakeTable(b).value; var m := Some(Stored(x.0));
      Distinct(x.0) <==> exists order, rest :: IsOrder(order, m.value) && b == TableBytes(m, order) + rest
  {
    TakenIsTable(b);
    var x := TakeTable(b).value;
    var m := Stored(x.0);
    if Distinct(x.0) {
      DistinctAreStored(x.0);
      OrderLength(Names(x.0), m);
      assert b == TableBytes(Some(m), Names(x.0)) + x.1;
    }
    forall order, rest | IsOrder(order, m) && b == TableBytes(Some(m), order) + rest ensures Distinct(x.0) {
      StoredFits(x.0);
      EntriesAreStored(order, m);
      TableIsTaken(Some(m), order, rest);
    }
  }
}
