/** The data packet, whose decoder compares lengths after cutting one of them to 16 bits. */
module DataPackets {
  import opened Basics
  import opened Packets

  datatype Data = Data(streamId: u32, data: Bytes)

  function EncodeData(p: Data): Bytes
  {
    BE32(p.streamId) + BE16(|p.data|) + p.data
  }

  function DecodeData(b: Bytes): Decoded<Data>
  {
    if |b| < 6 then TooShort
    else if (|b| - 6) % TWO16 < ReadBE16(b[4..]) then TooShort
    else
      assert |b| - 6 >= (|b| - 6) % TWO16 by { Residue(|b| - 6); }
      Packet(Data(ReadBE32(b), b[6..6 + ReadBE16(b[4..])]))
  }

  lemma Residue(n: nat)
    ensures n % TWO16 <= n && (n < TWO16 <==> n % TWO16 == n) && n % TWO16 < TWO16
  {
  }

  lemma DataSplits(p: Data, rest: Bytes)
    ensures var b := EncodeData(p) + rest;
      |b| >= 6 && ReadBE32(b) == p.streamId && ReadBE16(b[4..]) == |p.data| % TWO16 && b[6..] == p.data + rest
  {
    var b := EncodeData(p) + rest;
    var tail := BE16(|p.data|) + (p.data + rest);
    assert b == BE32(p.streamId) + tail;
    BE32RoundTrip(p.streamId, tail);
    BE16RoundTrip(|p.data|, p.data + rest);
    assert b[6..] == b[4..][2..];
  }

  lemma DecodedParts(b: Bytes, id: u32, n: nat, tail: Bytes)
    requires |b| >= 6 && ReadBE32(b) == id && ReadBE16(b[4..]) == n && b[6..] == tail
    ensures n < TWO16 && |tail| % TWO16 <= |tail|
    ensures DecodeData(b) == if |tail| % TWO16 < n then TooShort else Packet(Data(id, tail[..n]))
  {
    Residue(|tail|);
    if |tail| % TWO16 >= n {
      assert b[6..6 + n] == tail[..n];
    }
  }

  /** An accepted buffer holds all the bytes it announces: it starts with the encoding of the packet. */
  lemma DataIsEncoding(b: Bytes)
    requires DecodeData(b).Packet?
    ensures EncodeData(DecodeData(b).p) <= b
  {
    var p := DecodeData(b).p;
    assert BE32(p.streamId) == b[..4] by { BE32Inverse(b); }
    assert BE16(|p.data|) == b[4..6] by {
      BE16Inverse(b[4..]);
      assert b[4..][..2] == b[4..6];
    }
    assert b[..4] + b[4..6] + b[6..6 + |p.data|] == b[..6 + |p.data|];
  }

  /**
   For any packet and any bytes after it, decoding the encoding gives the packet
   back if and only if its data fits the length field and the cut length of what
   follows the header still covers it.
   */
  lemma DataRoundTrip(p: Data, rest: Bytes)
    ensures |p.data| < TWO16 && (|p.data| + |rest|) % TWO16 >= |p.data|
        <==> DecodeData(EncodeData(p) + rest) == Packet(p)
  {
    DataSplits(p, rest);
    DecodedParts(EncodeData(p) + rest, p.streamId, |p.data| % TWO16, p.data + rest);
    Residue(|p.data|);
    assert |p.data| < TWO16 ==> (p.data + rest)[..|p.data|] == p.data;
  }

  /**
   Alone, every encoding is accepted; of the data it gives back as much as its length modulo 65536,
   so all of it up to 65535 bytes.
   */
  lemma EncodingIsAccepted(p: Data)
    ensures DecodeData(EncodeData(p)) == Packet(p.(data := p.data[..|p.data| % TWO16]))
    ensures |p.data| < TWO16 <==> DecodeData(EncodeData(p)) == Packet(p)
  {
    Residue(|p.data|);
    assert EncodeData(p) + [] == EncodeData(p) && p.data + [] == p.data;
    DataSplits(p, []);
    DecodedParts(EncodeData(p), p.streamId, |p.data| % TWO16, p.data);
  }

  /**
   Bytes that are all there are refused exactly when at least 65536 follow the header and the cut
   length is too small.
   */
  lemma RefusedThoughComplete(b: Bytes)
    requires |b| >= 6
    ensures DecodeData(b).TooShort? && |b| - 6 >= ReadBE16(b[4..])
      <==> |b| - 6 >= TWO16 && (|b| - 6) % TWO16 < ReadBE16(b[4..])
  {
    Residue(|b| - 6);
    DecodedParts(b, ReadBE32(b), ReadBE16(b[4..]), b[6..]);
  }
}
