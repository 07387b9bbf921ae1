/**
 `SessionConn`: length-prefixed, encrypted frames over a byte stream.  The
 cipher is any pair of functions that obeys `Lawful`.  A Go slice is a window
 of an array; `ExtendSlice` re-slices in place when the capacity allows.
 */
module Session {
  import opened Basics

  // ----- the cipher and the frame format

  datatype Suite = Suite(nonceSize: nat, overhead: nat, seal: (Bytes, Bytes) -> Bytes,
      open: (Bytes, Bytes) -> Option<Bytes>)

  ghost predicate SealsWell(a: Suite, n: Bytes, p: Bytes)
  {
    |a.seal(n, p)| == |p| + a.overhead && a.open(n, a.seal(n, p)) == Some(p)
  }

  ghost predicate OpensWell(a: Suite, n: Bytes, c: Bytes)
  {
    a.open(n, c).Some? ==> |a.open(n, c).value| <= |c|
  }

  /** Opening what was sealed under the same nonce gives it back; no plaintext is longer than its ciphertext. */
  ghost predicate Lawful(a: Suite)
  {
    && a.nonceSize >= 8
    && (forall n: Bytes, p: Bytes :: SealsWell(a, n, p))
    && (forall n: Bytes, c: Bytes :: OpensWell(a, n, c))
  }

  function Zeros(n: nat): (z: Bytes)
    ensures |z| == n && forall i | 0 <= i < n :: z[i] == 0
  {
    seq(n, _ => 0)
  }

  /** The nonce of the i-th frame: the counter in 8 bytes, then zeros. */
  function Nonce(a: Suite, i: nat): (n: Bytes)
    requires a.nonceSize >= 8
    ensures |n| == a.nonceSize
  {
    BE64(i) + Zeros(a.nonceSize - 8)
  }

  function Frame(a: Suite, i: nat, p: Bytes): Bytes
    requires a.nonceSize >= 8
  {
    var c := a.seal(Nonce(a, i), p);
    BE32(|c|) + c
  }

  /** The stream that Writes of ps make, the first under nonce i. */
  function Frames(a: Suite, i: nat, ps: seq<Bytes>): Bytes
    requires a.nonceSize >= 8
    decreases |ps|
  {
    if ps == [] then [] else Frame(a, i, ps[0]) + Frames(a, (i + 1) % TWO64, ps[1..])
  }

  datatype Received = Received(p: Bytes, rest: Bytes) | Broken

  /** The first length-prefixed block of input and what follows it, if it is all there and not too long. */
  function Sized(input: Bytes, max: nat): Option<(Bytes, Bytes)>
  {
    if |input| < 4 then None
    else
      var n := ReadBE32(input);
      if n > max || |input| < 4 + n then None else Some((input[4..4 + n], input[4 + n..]))
  }

  /** One Read under nonce i from the stream input, into a buffer with room for max bytes of ciphertext. */
  function Receive(a: Suite, i: nat, input: Bytes, max: nat): Received
    requires a.nonceSize >= 8
  {
    match Sized(input, max)
    case None => Broken
    case Some(block) =>
      match a.open(Nonce(a, i), block.0)
      case None => Broken
      case Some(p) => Received(p, block.1)
  }

  /** k Reads in a row; they stop at the first that fails. */
  function ReceiveAll(a: Suite, i: nat, input: Bytes, max: nat, k: nat): Option<(seq<Bytes>, Bytes)>
    requires a.nonceSize >= 8
    decreases k
  {
    if k == 0 then Some(([], input))
    else
      var r := Receive(a, i, input, max);
      if r.Broken? then None
      else
        var more := ReceiveAll(a, (i + 1) % TWO64, r.rest, max, k - 1);
        if more.None? then None else Some(([r.p] + more.value.0, more.value.1))
  }

  lemma PrefixIsRead(c: Bytes, rest: Bytes, max: nat)
    requires |c| < TWO32 && |c| <= max
    ensures Sized(BE32(|c|) + c + rest, max) == Some((c, rest))
  {
    var input := BE32(|c|) + c + rest;
    assert input == BE32(|c|) + (c + rest);
    BE32RoundTrip(|c|, c + rest);
    assert input[4..4 + |c|] == c;
    assert input[4 + |c|..] == rest;
  }

  lemma SealedOpens(a: Suite, n: Bytes, p: Bytes)
    requires Lawful(a)
    ensures |a.seal(n, p)| == |p| + a.overhead && a.open(n, a.seal(n, p)) == Some(p)
  {
    assert SealsWell(a, n, p);
  }

  lemma FrameIsReceived(a: Suite, i: nat, p: Bytes, rest: Bytes, max: nat)
    requires Lawful(a) && |p| + a.overhead <= max && |p| + a.overhead < TWO32
    ensures Receive(a, i, Frame(a, i, p) + rest, max) == Received(p, rest)
  {
    SealedOpens(a, Nonce(a, i), p);
    PrefixIsRead(a.seal(Nonce(a, i), p), rest, max);
  }

  /**
   Whatever is written, the Reads of the peer, starting at the same nonce, give
   the same plaintexts with the same boundaries, and leave what follows.
   */
  lemma {:induction false} FramesAreReceived(a: Suite, i: nat, ps: seq<Bytes>, rest: Bytes, max: nat)
    requires Lawful(a) && forall p | p in ps :: |p| + a.overhead <= max && |p| + a.overhead < TWO32
    ensures ReceiveAll(a, i, Frames(a, i, ps) + rest, max, |ps|) == Some((ps, rest))
    decreases |ps|
  {
    if ps == [] {
      assert Frames(a, i, ps) + rest == rest;
    } else {
      var input := Frames(a, (i + 1) % TWO64, ps[1..]) + rest;
      assert Receive(a, i, Frames(a, i, ps) + rest, max) == Received(ps[0], input) by {
        assert Frames(a, i, ps) + rest == Frame(a, i, ps[0]) + input;
        FrameIsReceived(a, i, ps[0], input, max);
      }
      assert ReceiveAll(a, (i + 1) % TWO64, input, max, |ps| - 1) == Some((ps[1..], rest)) by {
        FramesAreReceived(a, (i + 1) % TWO64, ps[1..], rest, max);
      }
      assert [ps[0]] + ps[1..] == ps;
    }
  }

  /** One direction never uses a nonce twice within 2^64 frames, and repeats exactly then. */
  lemma NoncesDiffer(a: Suite, i: nat, j: nat)
    requires a.nonceSize >= 8
    ensures Nonce(a, i) == Nonce(a, j) <==> i % TWO64 == j % TWO64
  {
    BE64RoundTrip(i);
    BE64RoundTrip(j);
    BE64Mod(i);
    BE64Mod(j);
    assert Nonce(a, i)[..8] == BE64(i) && Nonce(a, j)[..8] == BE64(j);
  }

  lemma BE64Mod(i: nat)
    ensures BE64(i) == BE64(i % TWO64)
  {
    var k := i % TWO64;
    assert i == i / TWO64 * TWO64 + k;
    assert k % TWO32 == i % TWO32;
    assert k / TWO32 == i / TWO32 % TWO32;
    BE32Mod(i / TWO32);
  }

  lemma BE32Mod(i: nat)
    ensures BE32(i) == BE32(i % TWO32)
  {
    BE32RoundTrip(i, []);
    BE32Inverse(BE32(i) + []);
    assert BE32(i) + [] == BE32(i);
  }
}
