/**
 The service request and service response packets: what is encoded, what any
 buffer decodes to, and exactly when the two are inverse.
 */
module ServicePackets {
  import opened Basics
  import opened Packets

  datatype Request = Request(streamId: u32, services: seq<Bytes>, headers: Headers)
  datatype Response = Response(streamId: u32, handled: bool, headers: Headers)

  ghost function EncodeRequest(p: Request, order: seq<Bytes>): Bytes
    requires Iterates(order, p.headers)
  {
    BE32(p.streamId) + [|p.services| % 0x100] + AllStr8(p.services) + TableBytes(p.headers, order)
  }

  ghost function EncodeResponse(p: Response, order: seq<Bytes>): Bytes
    requires Iterates(order, p.headers)
  {
    BE32(p.streamId) + [if p.handled then 1 else 0] + TableBytes(p.headers, order)
  }

  /** The services and the headers as listed, duplicates included, and the bytes after them. */
  function ParseRequest(b: Bytes): Option<(seq<Bytes>, seq<Header>, Bytes)>
    requires |b| >= 5
  {
    match TakeStrs(b[5..], b[4] as nat)
    case None => None
    case Some(x) =>
      match TakeTable(x.1)
      case None => None
      case Some(y) => Some((x.0, y.0, y.1))
  }

  function DecodeRequest(b: Bytes): Decoded<Request>
  {
    if |b| < 4 then TooShort
    else if |b| == 4 then Panics
    else
      match ParseRequest(b)
      case None => TooShort
      case Some(x) => Packet(Request(ReadBE32(b), x.0, Some(Stored(x.1))))
  }

  function DecodeResponse(b: Bytes): Decoded<Response>
  {
    if |b| < 5 then TooShort
    else
      match TakeTable(b[5..])
      case None => TooShort
      case Some(y) => Packet(Response(ReadBE32(b), b[4] == 1, Some(Stored(y.0))))
  }

  predicate RequestFits(p: Request)
  {
    |p.services| < 0x100 && (forall s | s in p.services :: Fits8(s)) && HeadersFit(p.headers)
  }

  // ----- decoding what was encoded

  lemma FirstFive(id: u32, flag: byte, tail: Bytes)
    ensures var b := BE32(id) + [flag] + tail;
      |b| >= 5 && ReadBE32(b) == id && b[4] == flag && b[5..] == tail
  {
    var b := BE32(id) + [flag] + tail;
    assert b == BE32(id) + ([flag] + tail);
    BE32RoundTrip(id, [flag] + tail);
    assert b[4] == b[4..][0];
  }

  /** An encoded request, its first five bytes apart. */
  lemma RequestSplits(p: Request, order: seq<Bytes>, rest: Bytes)
    requires Iterates(order, p.headers)
    ensures var b := EncodeRequest(p, order) + rest; var table := TableBytes(p.headers, order) + rest;
      |b| >= 5 && ReadBE32(b) == p.streamId && b[4] == |p.services| % 0x100 && b[5..] == AllStr8(p.services) + table
  {
    var table := TableBytes(p.headers, order);
    var strs := AllStr8(p.services);
    var five := BE32(p.streamId) + [|p.services| % 0x100];
    assert five + strs + table + rest == five + (strs + (table + rest));
    FirstFive(p.streamId, |p.services| % 0x100, strs + (table + rest));
  }

  lemma ResponseSplits(p: Response, order: seq<Bytes>, rest: Bytes)
    requires Iterates(order, p.headers)
    ensures var b := EncodeResponse(p, order) + rest;
      |b| >= 5 && ReadBE32(b) == p.streamId && b[4] == (if p.handled then 1 else 0)
          && b[5..] == TableBytes(p.headers, order) + rest
  {
    var table := TableBytes(p.headers, order);
    var flag := if p.handled then 1 else 0;
    assert BE32(p.streamId) + [flag] + table + rest == BE32(p.streamId) + [flag] + (table + rest);
    FirstFive(p.streamId, flag, table + rest);
  }

  lemma PartsAreRequest(b: Bytes, ss: seq<Bytes>, table: Bytes, hs: seq<Header>, rest: Bytes)
    requires |b| >= 5 && TakeStrs(b[5..], b[4] as nat) == Some((ss, table)) && TakeTable(table) == Some((hs, rest))
    ensures DecodeRequest(b) == Packet(Request(ReadBE32(b), ss, Some(Stored(hs))))
  {
  }

  lemma RequestIsDecoded(p: Request, order: seq<Bytes>, rest: Bytes)
    requires RequestFits(p) && Iterates(order, p.headers)
    ensures DecodeRequest(EncodeRequest(p, order) + rest) == Packet(p.(headers := Some(NilIsEmpty(p.headers))))
  {
    var table := TableBytes(p.headers, order) + rest;
    var b := EncodeRequest(p, order) + rest;
    assert |b| >= 5 && ReadBE32(b) == p.streamId && b[4] as nat == |p.services|
        && b[5..] == AllStr8(p.services) + table by {
      RequestSplits(p, order, rest);
    }
    assert TakeStrs(AllStr8(p.services) + table, |p.services|)
        == Some((p.services, table)) by { StrsAreTaken(p.services, table); }
    TableIsTaken(p.headers, order, rest);
    PartsAreRequest(b, p.services, table, Entries(order, NilIsEmpty(p.headers)), rest);
  }

  lemma ParsedFits(b: Bytes)
    requires |b| >= 5 && ParseRequest(b).Some?
    ensures var x := ParseRequest(b).value;
      && |x.0| < 0x100 && (forall s | s in x.0 :: Fits8(s))
      && HeadersFit(Some(Stored(x.1)))
  {
    TakenAreStrs(b[5..], b[4] as nat);
    TakenIsTable(TakeStrs(b[5..], b[4] as nat).value.1);
    StoredFits(ParseRequest(b).value.1);
  }

  /**
   For every packet, every order its headers may be iterated in and any bytes
   that follow: decoding the encoding gives the packet back, nil headers as
   empty ones, if and only if the packet is within the limits of its length fields.
   */
  lemma RequestRoundTrip(p: Request, order: seq<Bytes>, rest: Bytes)
    requires Iterates(order, p.headers)
    ensures RequestFits(p)
        <==> DecodeRequest(EncodeRequest(p, order) + rest) == Packet(p.(headers := Some(NilIsEmpty(p.headers))))
  {
    var b := EncodeRequest(p, order) + rest;
    if RequestFits(p) {
      RequestIsDecoded(p, order, rest);
    } else if DecodeRequest(b).Packet? {
      ParsedFits(b);
    }
  }

  lemma ResponseIsDecoded(p: Response, order: seq<Bytes>, rest: Bytes)
    requires HeadersFit(p.headers) && Iterates(order, p.headers)
    ensures DecodeResponse(EncodeResponse(p, order) + rest) == Packet(p.(headers := Some(NilIsEmpty(p.headers))))
  {
    ResponseSplits(p, order, rest);
    TableIsTaken(p.headers, order, rest);
  }

  lemma ResponseRoundTrip(p: Response, order: seq<Bytes>, rest: Bytes)
    requires Iterates(order, p.headers)
    ensures HeadersFit(p.headers)
        <==> DecodeResponse(EncodeResponse(p, order) + rest) == Packet(p.(headers := Some(NilIsEmpty(p.headers))))
  {
    var b := EncodeResponse(p, order) + rest;
    if HeadersFit(p.headers) {
      ResponseIsDecoded(p, order, rest);
    } else if DecodeResponse(b).Packet? {
      TakenIsTable(b[5..]);
      StoredFits(TakeTable(b[5..]).value.0);
    }
  }

  // ----- encoding what was decoded

  /** The headers listed in an accepted buffer. */
  function Listed(b: Bytes): seq<Header>
    requires DecodeRequest(b).Packet?
  {
    ParseRequest(b).value.1
  }

  lemma Regrouped(a: Bytes, b: Bytes, c: Bytes, d: Bytes)
    ensures a + b + c + d == a + (b + (c + d))
  {
  }

  lemma PartsEncoded(b: Bytes, p: Request, order: seq<Bytes>)
    requires |b| >= 5 && p.streamId == ReadBE32(b) && |p.services| == b[4] as nat && Iterates(order, p.headers)
    ensures EncodeRequest(p, order) == b[..5] + AllStr8(p.services) + TableBytes(p.headers, order)
  {
    assert b[..5] == BE32(p.streamId) + [b[4]] by { BE32Inverse(b); }
    assert |p.services| % 0x100 == b[4];
  }

  lemma ListedIsEncoding(b: Bytes, order: seq<Bytes>, rest: Bytes)
    requires DecodeRequest(b).Packet? && IsOrder(order, DecodeRequest(b).p.headers.value)
    requires TakeStrs(b[5..], b[4] as nat).value.1 == TableBytes(DecodeRequest(b).p.headers, order) + rest
    ensures b == EncodeRequest(DecodeRequest(b).p, order) + rest
  {
    var p := DecodeRequest(b).p;
    var table := TableBytes(p.headers, order);
    TakenAreStrs(b[5..], b[4] as nat);
    PartsEncoded(b, p, order);
    Regrouped(b[..5], AllStr8(p.services), table, rest);
    assert b == b[..5] + b[5..];
  }

  lemma EncodingIsListed(b: Bytes, order: seq<Bytes>, rest: Bytes)
    requires DecodeRequest(b).Packet? && Iterates(order, DecodeRequest(b).p.headers)
    requires b == EncodeRequest(DecodeRequest(b).p, order) + rest
    ensures TakeStrs(b[5..], b[4] as nat).value.1 == TableBytes(DecodeRequest(b).p.headers, order) + rest
  {
    var p := DecodeRequest(b).p;
    var table := TableBytes(p.headers, order) + rest;
    assert b[5..] == AllStr8(p.services) + table by { RequestSplits(p, order, rest); }
    assert |p.services| == b[4] as nat
        && forall s | s in p.services :: Fits8(s) by { TakenAreStrs(b[5..], b[4] as nat); }
    assert TakeStrs(AllStr8(p.services) + table, |p.services|)
        == Some((p.services, table)) by { StrsAreTaken(p.services, table); }
  }

  /**
   An accepted request starts with an encoding of the decoded packet if and
   only if no header name is listed twice.
   */
  lemma RequestIsEncoding(b: Bytes)
    requires DecodeRequest(b).Packet?
    ensures var p := DecodeRequest(b).p;
      Distinct(Listed(b)) <==> exists order, rest :: Iterates(order, p.headers) && b == EncodeRequest(p, order) + rest
  {
    var p := DecodeRequest(b).p;
    var x := TakeStrs(b[5..], b[4] as nat).value.1;
    TableIsEncoding(x);
    if Distinct(Listed(b)) {
      var order, rest :| IsOrder(order, p.headers.value) && x == TableBytes(p.headers, order) + rest;
      ListedIsEncoding(b, order, rest);
    }
    forall order, rest | Iterates(order, p.headers) && b == EncodeRequest(p, order) + rest ensures Distinct(Listed(b)) {
      EncodingIsListed(b, order, rest);
    }
  }

  lemma ListedIsResponse(b: Bytes, order: seq<Bytes>, rest: Bytes)
    requires DecodeResponse(b).Packet? && b[4] <= 1 && IsOrder(order, DecodeResponse(b).p.headers.value)
    requires b[5..] == TableBytes(DecodeResponse(b).p.headers, order) + rest
    ensures b == EncodeResponse(DecodeResponse(b).p, order) + rest
  {
    var p := DecodeResponse(b).p;
    var table := TableBytes(p.headers, order);
    assert b[..5] == BE32(p.streamId) + [b[4]] by { BE32Inverse(b); }
    var five := b[..5];
    assert b == five + (table + rest);
    assert five + table + rest == five + (table + rest);
  }

  /** Also the flag byte must be one an encoder writes: any other is read as not handled. */
  lemma ResponseIsEncoding(b: Bytes)
    requires DecodeResponse(b).Packet?
    ensures var p := DecodeResponse(b).p;
      Distinct(TakeTable(b[5..]).value.0) && b[4] <= 1
      <==> exists order, rest :: Iterates(order, p.headers) && b == EncodeResponse(p, order) + rest
  {
    var p := DecodeResponse(b).p;
    TableIsEncoding(b[5..]);
    if Distinct(TakeTable(b[5..]).value.0) && b[4] <= 1 {
      var order, rest :| IsOrder(order, p.headers.value) && b[5..] == TableBytes(p.headers, order) + rest;
      ListedIsResponse(b, order, rest);
    }
    forall order, rest | Iterates(order, p.headers) && b == EncodeResponse(p, order) + rest
      ensures Distinct(TakeTable(b[5..]).value.0) && b[4] <= 1
    {
      ResponseSplits(p, order, rest);
    }
  }
}
