/**
 The handshake packet.  The node's id is encoded by another library, whose codec
 is a parameter here; the signature is a fixed number of bytes.
 */
module Handshakes {
  import opened Basics
  import opened Packets

  /** How the library writes and reads an id. */
  datatype IdCodec<!Id(!new)> = IdCodec(put: Id -> Bytes, take: Bytes -> Option<(Id, Bytes)>)
  {
    /** Reading what was written gives it back, and leaves what follows. */
    ghost predicate Lawful()
    {
      && (forall id, rest :: take(put(id) + rest) == Some((id, rest)))
      && (forall b :: IsInverse(b))
    }

    ghost predicate IsInverse(b: Bytes)
    {
      take(b).Some? ==> b == put(take(b).value.0) + take(b).value.1
    }
  }

  const SIGNATURE: nat := 64

  type Signature = s: Bytes | |s| == SIGNATURE witness NoSignature()

  /** The zero value. */
  function NoSignature(): (s: Bytes)
    ensures |s| == SIGNATURE
  {
    seq(SIGNATURE, i => 0)
  }

  datatype Handshake<Id(!new)> = Handshake(id: Option<Id>, services: seq<Bytes>, signature: Signature)

  function EncodeServices(services: seq<Bytes>): Bytes
  {
    [|services| % 0x100] + AllStr8(services)
  }

  function Encode<Id(!new)>(c: IdCodec<Id>, p: Handshake<Id>): Bytes
  {
    match p.id
    case None => [0] + EncodeServices(p.services)
    case Some(id) => [1] + c.put(id) + EncodeServices(p.services) + p.signature
  }

  function TakeServices(b: Bytes): Option<(seq<Bytes>, Bytes)>
  {
    if |b| < 1 then None else TakeStrs(b[1..], b[0] as nat)
  }

  /** Without the early test, which changes nothing (TooFewForServices). */
  function Decode<Id(!new)>(c: IdCodec<Id>, b: Bytes): Decoded<Handshake<Id>>
  {
    if |b| < 1 then TooShort
    else if b[0] != 1 then
      match TakeServices(b[1..])
      case None => TooShort
      case Some(x) => Packet(Handshake(None, x.0, NoSignature()))
    else
      match c.take(b[1..])
      case None => BadId
      case Some(i) =>
        match TakeServices(i.1)
        case None => TooShort
        case Some(x) => if |x.1| < SIGNATURE then TooShort else Packet(Handshake(Some(i.0), x.0, x.1[..SIGNATURE]))
  }

  predicate Fits<Id(!new)>(p: Handshake<Id>)
  {
    |p.services| < 0x100 && forall s | s in p.services :: Fits8(s)
  }

  /** Fewer bytes left than services announced: the services cannot all be there. */
  lemma {:induction false} TooFewForServices(b: Bytes, n: nat)
    requires |b| < n
    ensures TakeStrs(b, n).None?
  {
    if TakeStr8(b).Some? {
      TooFewForServices(TakeStr8(b).value.1, n - 1);
    }
  }

  lemma ServicesAreTaken(services: seq<Bytes>, rest: Bytes)
    requires |services| < 0x100 && forall s | s in services :: Fits8(s)
    ensures TakeServices(EncodeServices(services) + rest) == Some((services, rest))
  {
    var b := EncodeServices(services) + rest;
    assert b[0] as nat == |services|;
    assert b[1..] == AllStr8(services) + rest;
    StrsAreTaken(services, rest);
  }

  lemma Regrouped(b: Bytes, ss: seq<Bytes>, rest: Bytes)
    requires |b| >= 1 && |ss| == b[0] as nat && b[1..] == AllStr8(ss) + rest
    ensures b == EncodeServices(ss) + rest
  {
    var all := AllStr8(ss);
    assert |ss| % 0x100 == b[0];
    assert [b[0]] + all + rest == [b[0]] + (all + rest);
    assert b == [b[0]] + b[1..];
  }

  lemma TakenAreServices(b: Bytes)
    requires TakeServices(b).Some?
    ensures var x := TakeServices(b).value;
      |x.0| < 0x100 && (forall s | s in x.0 :: Fits8(s)) && b == EncodeServices(x.0) + x.1
  {
    TakenAreStrs(b[1..], b[0] as nat);
    var x := TakeServices(b).value;
    Regrouped(b, x.0, x.1);
  }

  lemma AnonymousIsDecoded<Id(!new)>(c: IdCodec<Id>, p: Handshake<Id>, rest: Bytes)
    requires c.Lawful() && Fits(p) && p.id.None?
    ensures Decode(c, Encode(c, p) + rest) == Packet(p.(signature := NoSignature()))
  {
    var b := Encode(c, p) + rest;
    assert b[1..] == EncodeServices(p.services) + rest;
    ServicesAreTaken(p.services, rest);
  }

  lemma NamedIsDecoded<Id(!new)>(c: IdCodec<Id>, p: Handshake<Id>, rest: Bytes)
    requires c.Lawful() && Fits(p) && p.id.Some?
    ensures Decode(c, Encode(c, p) + rest) == Packet(p)
  {
    var b := Encode(c, p) + rest;
    var after := p.signature + rest;
    assert b[1..] == c.put(p.id.value) + (EncodeServices(p.services) + after);
    ServicesAreTaken(p.services, after);
    assert after[..SIGNATURE] == p.signature;
  }

  lemma DecodedFits<Id(!new)>(c: IdCodec<Id>, b: Bytes)
    requires Decode(c, b).Packet?
    ensures Fits(Decode(c, b).p)
  {
    if b[0] != 1 {
      TakenAreServices(b[1..]);
    } else {
      TakenAreServices(c.take(b[1..]).value.1);
    }
  }

  /**
   With an id or without, and whatever follows: decoding the encoding gives the
   packet back, without an id with a zero signature, if and only if the services
   are within the limits of their length fields.
   */
  lemma HandshakeRoundTrip<Id(!new)>(c: IdCodec<Id>, p: Handshake<Id>, rest: Bytes)
    requires c.Lawful()
    ensures Fits(p)
      <==> Decode(c, Encode(c, p) + rest) == Packet(if p.id.None? then p.(signature := NoSignature()) else p)
  {
    if Fits(p) {
      if p.id.None? { AnonymousIsDecoded(c, p, rest); } else { NamedIsDecoded(c, p, rest); }
    } else if Decode(c, Encode(c, p) + rest).Packet? {
      DecodedFits(c, Encode(c, p) + rest);
    }
  }

  lemma NamedIsEncoding<Id(!new)>(c: IdCodec<Id>, b: Bytes)
    requires c.Lawful() && Decode(c, b).Packet? && b[0] == 1
    ensures Encode(c, Decode(c, b).p) <= b
  {
    var i := c.take(b[1..]).value;
    assert c.IsInverse(b[1..]);
    TakenAreServices(i.1);
    var x := TakeServices(i.1).value;
    assert x.1 == x.1[..SIGNATURE] + x.1[SIGNATURE..];
    var id, ss, sig, rest := c.put(i.0), EncodeServices(x.0), x.1[..SIGNATURE], x.1[SIGNATURE..];
    assert b == [1] + b[1..];
    assert [1] + (id + (ss + (sig + rest))) == [1] + id + ss + sig + rest;
  }

  /** An accepted buffer starts with the encoding of the decoded packet if and only if its first byte is 0 or 1. */
  lemma HandshakeIsEncoding<Id(!new)>(c: IdCodec<Id>, b: Bytes)
    requires c.Lawful() && Decode(c, b).Packet?
    ensures b[0] <= 1 <==> Encode(c, Decode(c, b).p) <= b
  {
    var e := Encode(c, Decode(c, b).p);
    assert |e| > 0 && e[0] <= 1;
    if b[0] == 1 {
      NamedIsEncoding(c, b);
    } else {
      TakenAreServices(b[1..]);
      assert b == [b[0]] + b[1..];
      var x := TakeServices(b[1..]).value;
      assert [b[0]] + (EncodeServices(x.0) + x.1) == [b[0]] + EncodeServices(x.0) + x.1;
    }
  }
}
