/**
 The 32-bit identifiers: `Conn.next`, whose two ends count 1, 3, 5, ... and
 2, 4, 6, ..., and the stream ids of `NextStream`, which count from 1 or 0.
 */
module Seqno {
  import opened Basics

  const DEFAULT_OFFSET: nat := 1
  const DEFAULT_DELTA: nat := 2
  const CLIENT_OFFSET: nat := 1
  const SERVER_OFFSET: nat := 2

  const HALF: nat := 0x8000_0000

  /** `next`: the field seq after a call, which is also the number handed out. */
  function Next(seqno: nat, offset: nat, delta: nat): nat
  {
    if seqno == 0 then (if offset == 0 then DEFAULT_OFFSET else offset)
    else (seqno + if delta == 0 then DEFAULT_DELTA else delta) % TWO32
  }

  /** The number handed out by the n-th call on a fresh connection. */
  function Nth(offset: nat, n: nat): nat
  {
    if n == 0 then 0 else Next(Nth(offset, n - 1), offset, DEFAULT_DELTA)
  }

  /** Adding 2 modulo 2^32 to twice a residue modulo 2^31 counts the residue on. */
  lemma CountOn(n: nat, low: nat)
    requires low <= 1
    ensures (2 * (n % HALF) + low + 2) % TWO32 == 2 * ((n + 1) % HALF) + low
  {
    if n % HALF == HALF - 1 {
      assert n + 1 == (n / HALF + 1) * HALF;
    } else {
      assert n + 1 == n / HALF * HALF + (n % HALF + 1);
    }
  }

  lemma Parity(r: nat, low: nat)
    requires low <= 1
    ensures (2 * r + low) % 2 == low
  {
  }

  lemma SameResidue(a: int, b: int)
    ensures a % HALF == b % HALF <==> (a - b) % HALF == 0
  {
    assert a == a / HALF * HALF + a % HALF && b == b / HALF * HALF + b % HALF;
    assert a - b == (a / HALF - b / HALF) * HALF + (a % HALF - b % HALF);
  }

  lemma {:induction false} ClientNth(n: nat)
    requires n > 0
    ensures Nth(CLIENT_OFFSET, n) == 2 * ((n - 1) % HALF) + 1
  {
    if n > 1 {
      ClientNth(n - 1);
      CountOn(n - 2, 1);
    }
  }

  lemma {:induction false} ServerNth(n: nat)
    ensures Nth(SERVER_OFFSET, n) == 2 * (n % HALF)
  {
    if n > 0 {
      ServerNth(n - 1);
      CountOn(n - 1, 0);
    }
  }

  lemma Doubled(a: nat, low: nat)
    requires low <= 1
    ensures (2 * a + low) % 0x1_0000_0000 == 2 * (a % HALF) + low
  {
    assert 2 * a + low == a / HALF * TWO32 + (2 * (a % HALF) + low);
  }

  /** Client numbers are 1, 3, 5, ... modulo 2^32: odd, so never 0, and repeat exactly every 2^31 calls. */
  lemma ClientNumbers(m: nat, n: nat)
    requires m > 0 && n > 0
    ensures Nth(1, n) == (2 * n - 1) % 0x1_0000_0000
    ensures Nth(CLIENT_OFFSET, n) % 2 == 1
    ensures Nth(CLIENT_OFFSET, m) == Nth(CLIENT_OFFSET, n) <==> (m - n) % HALF == 0
  {
    ClientNth(m);
    ClientNth(n);
    Parity((n - 1) % HALF, 1);
    SameResidue(m - 1, n - 1);
    Doubled(n - 1, 1);
    assert (m - 1) - (n - 1) == m - n;
  }

  /**
   Server numbers are 2, 4, 6, ... modulo 2^32: even, and they repeat exactly every 2^31 calls; every 2^31-th
   one is 0, the number that marks a frame as no request at all.
   */
  lemma ServerNumbers(m: nat, n: nat)
    requires m > 0 && n > 0
    ensures Nth(2, n) == 2 * n % 0x1_0000_0000
    ensures Nth(SERVER_OFFSET, n) % 2 == 0
    ensures Nth(SERVER_OFFSET, n) == 0 <==> n % HALF == 0
    ensures Nth(SERVER_OFFSET, m) == Nth(SERVER_OFFSET, n) <==> (m - n) % HALF == 0
  {
    ServerNth(m);
    ServerNth(n);
    Parity(n % HALF, 0);
    Doubled(n, 0);
    SameResidue(m, n);
  }

  predicate IsOffset(offset: nat)
  {
    offset == CLIENT_OFFSET || offset == SERVER_OFFSET
  }

  lemma FirstClientNumber(n: nat)
    requires 0 < n < HALF
    ensures Nth(CLIENT_OFFSET, n) == 2 * n - 1
  {
    ClientNth(n);
  }

  lemma FirstServerNumber(n: nat)
    requires n < HALF
    ensures Nth(SERVER_OFFSET, n) == 2 * n
  {
    ServerNth(n);
  }

  /** What the multiplexer needs of the first 2^31 - 1 numbers of one end. */
  lemma FirstNumbers(offset: nat, m: nat, n: nat)
    requires IsOffset(offset) && 0 < m < HALF && 0 < n < HALF
    ensures 0 < Nth(offset, n) < TWO32 && Nth(offset, n) % 2 == offset % 2
    ensures Nth(offset, m) == Nth(offset, n) ==> m == n
  {
    if offset == CLIENT_OFFSET {
      FirstClientNumber(m);
      FirstClientNumber(n);
    } else {
      FirstServerNumber(m);
      FirstServerNumber(n);
    }
  }

  /** The n-th stream id, counting from 0, of an end whose counter starts at `start`. */
  function StreamId(start: nat, n: nat): nat
  {
    if n == 0 then start else (StreamId(start, n - 1) + 2) % TWO32
  }

  lemma {:induction false} StreamIdClosed(start: nat, n: nat)
    requires start <= 1
    ensures StreamId(start, n) == 2 * (n % HALF) + start
  {
    if n > 0 {
      StreamIdClosed(start, n - 1);
      CountOn(n - 1, start);
    }
  }

  /**
   Stream ids keep the parity of their start through wraparound, so the two
   ends never choose the same id, and one end repeats exactly every 2^31 streams.
   */
  lemma StreamIds(start: nat, m: nat, n: nat)
    requires start <= 1
    ensures StreamId(start, n) % 2 == start
    ensures StreamId(start, m) == StreamId(start, n) <==> (m - n) % HALF == 0
    ensures StreamId(start, m) != StreamId(1 - start, n)
  {
    StreamIdClosed(start, m);
    StreamIdClosed(start, n);
    StreamIdClosed(1 - start, n);
    Parity(n % HALF, start);
    SameResidue(m, n);
  }

  /** One of the first n ids an end has given out. */
  ghost predicate Own(first: u32, n: nat, id: u32)
  {
    exists j: nat :: j < n && StreamId(first, j) == id
  }

  lemma OwnGrows(first: u32, n: nat)
    requires first <= 1
    ensures forall id: u32 :: Own(first, n + 1, id) <==> Own(first, n, id) || StreamId(first, n) == id
  {
    forall id: u32 | Own(first, n + 1, id) ensures Own(first, n, id) || StreamId(first, n) == id {
      var j: nat :| j < n + 1 && StreamId(first, j) == id;
    }
  }

  lemma NextIsNew(first: u32, n: nat)
    requires first <= 1 && n < HALF
    ensures forall id: u32 | Own(first, n, id) :: id != StreamId(first, n)
  {
    forall id: u32 | Own(first, n, id) ensures id != StreamId(first, n) {
      var j: nat :| j < n && StreamId(first, j) == id;
      StreamIds(first, n, j);
      assert (n - j) % HALF == n - j;
    }
  }

  lemma OthersAreNotOwn(first: u32, n: nat, id: u32)
    requires first <= 1 && id % 2 != first
    ensures !Own(first, n, id)
  {
    forall j: nat | j < n ensures StreamId(first, j) != id { StreamIds(first, j, j); }
  }
}
