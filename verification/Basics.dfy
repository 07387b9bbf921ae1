/** Bytes, big-endian integers, and the two wrapper types every module uses. */
module Basics {
  type byte = x: int | 0 <= x < 256
  type Bytes = seq<byte>

  datatype Option<+T> = None | Some(value: T)

  /** The errors of the source, as far as a caller can tell them apart. */
  datatype Error = ShutDown | IO(tag: nat)

  type u32 = x: int | 0 <= x < 0x1_0000_0000

  const TWO16: nat := 0x1_0000
  const TWO32: nat := 0x1_0000_0000
  const TWO64: nat := 0x1_0000_0000_0000_0000

  /** Byte strings one after the other. */
  function Joined(cs: seq<Bytes>): Bytes
  {
    if cs == [] then [] else cs[0] + Joined(cs[1..])
  }

  // Append/Put of a big-endian integer; the caller's integer is truncated as
  // Go's conversions uint8(x), uint16(x), uint32(x) truncate.
  function BE16(n: nat): (r: Bytes)
    ensures |r| == 2
  {
    [n / 0x100 % 0x100, n % 0x100]
  }

  function BE32(n: nat): (r: Bytes)
    ensures |r| == 4
  {
    [n / 0x100_0000 % 0x100, n / 0x1_0000 % 0x100, n / 0x100 % 0x100, n % 0x100]
  }

  function BE64(n: nat): (r: Bytes)
    ensures |r| == 8
  {
    BE32(n / TWO32) + BE32(n % TWO32)
  }

  function ReadBE16(b: Bytes): (n: nat)
    requires |b| >= 2
    ensures n < TWO16
  {
    (b[0] as nat) * 0x100 + b[1] as nat
  }

  function ReadBE32(b: Bytes): (n: nat)
    requires |b| >= 4
    ensures n < TWO32
  {
    (b[0] as nat) * 0x100_0000 + (b[1] as nat) * 0x1_0000 + (b[2] as nat) * 0x100 + b[3] as nat
  }

  function ReadBE64(b: Bytes): (n: nat)
    requires |b| >= 8
    ensures n < TWO64
  {
    ReadBE32(b) * TWO32 + ReadBE32(b[4..])
  }

  lemma BE16RoundTrip(n: nat, rest: Bytes)
    ensures ReadBE16(BE16(n) + rest) == n % TWO16
    ensures (BE16(n) + rest)[2..] == rest
  {
  }

  lemma BE32RoundTrip(n: nat, rest: Bytes)
    ensures ReadBE32(BE32(n) + rest) == n % TWO32
    ensures (BE32(n) + rest)[4..] == rest
  {
    var a, b, c, d := n / 0x100_0000 % 0x100, n / 0x1_0000 % 0x100, n / 0x100 % 0x100, n % 0x100;
    assert n / 0x100 == (n / 0x1_0000) * 0x100 + c;
    assert n / 0x1_0000 == (n / 0x100_0000) * 0x100 + b;
    assert n / 0x100_0000 == (n / TWO32) * 0x100 + a;
  }

  /** A 64-bit residue is its two 32-bit halves. */
  lemma Halves(n: nat)
    ensures n / TWO32 % TWO32 * TWO32 + n % TWO32 == n % TWO64
  {
    var q, hi, lo := n / TWO32 / TWO32, n / TWO32 % TWO32, n % TWO32;
    assert n == q * TWO64 + (hi * TWO32 + lo);
  }

  lemma BE64RoundTrip(n: nat)
    ensures ReadBE64(BE64(n)) == n % TWO64
  {
    var hi, lo := n / TWO32, n % TWO32;
    BE64Parts(hi, lo);
    Twice(n);
    Halves(n);
  }

  lemma BE64Parts(hi: nat, lo: nat)
    ensures ReadBE64(BE32(hi) + BE32(lo)) == hi % TWO32 * TWO32 + lo % TWO32
  {
    BE32RoundTrip(hi, BE32(lo));
    BE32RoundTrip(lo, []);
    assert BE32(lo) + [] == BE32(lo);
  }

  lemma Twice(n: nat)
    ensures n % TWO32 % TWO32 == n % TWO32
  {
  }

  lemma BE16Inverse(b: Bytes)
    requires |b| >= 2
    ensures BE16(ReadBE16(b)) == b[..2]
  {
    assert ReadBE16(b) / 0x100 == b[0];
  }

  lemma BE32Inverse(b: Bytes)
    requires |b| >= 4
    ensures BE32(ReadBE32(b)) == b[..4]
  {
    var n := ReadBE32(b);
    assert n / 0x100 == (b[0] as nat) * 0x1_0000 + (b[1] as nat) * 0x100 + b[2] as nat;
    assert n / 0x1_0000 == (b[0] as nat) * 0x100 + b[1] as nat;
    assert n / 0x100_0000 == b[0];
  }
}
