/**
 The counters of an object pool, bumped by any number of acquires and releases
 while a ticker moves them: a 32-bit live counter is swapped for 0 and what it
 held is added to a 64-bit total, in two separate steps.
 */
module Metrics {
  import opened Basics

  /**
   One counter.  `counted` is the number of events so far, `recent` that since the
   last swap, `most` the greatest `recent` has ever been: they are not in the program.
   */
  datatype Cell = Cell(live: nat, moving: nat, total: nat, counted: nat, recent: nat, most: nat)
  {
    function Bump(): Cell
    {
      this.(live := Low(live + 1), counted := counted + 1, recent := recent + 1, most := Max(most, recent + 1))
    }

    function Swap(): Cell
    {
      this.(live := 0, moving := live, recent := 0)
    }

    function Add(): Cell
    {
      this.(moving := 0, total := (total + moving) % TWO64)
    }

    function Sum(): nat
    {
      live + moving + total
    }
  }

  function Max(a: nat, b: nat): nat
  {
    if a < b then b else a
  }

  predicate IsZero(c: Cell)
  {
    c.live == c.moving == c.total == c.counted == c.recent == c.most == 0
  }

  /** Acquires of new objects, acquires of pooled ones, and releases. */
  datatype Which = NA | NR | NP

  /** Where the ticker is: idle before a counter's swap, or about to add what it took. */
  datatype Flusher = ToSwap(w: Which) | ToAdd(w: Which)

  /**
   `free` objects are in the pool and `out` with callers; of the latter
   `gettingNew` and `gettingOld` have not been counted yet, and `putting` of those
   put back have not.
   */
  datatype State = State(na: Cell, nr: Cell, np: Cell, flusher: Flusher, free: nat, out: nat, gettingNew: nat,
      gettingOld: nat, putting: nat)

  datatype Step = GetNew | GetOld | CountNew | CountOld | Put | CountPut | Drop | Flush

  predicate Enabled(s: State, e: Step)
  {
    match e
    case GetNew => true
    case GetOld => s.free > 0
    case CountNew => s.gettingNew > 0
    case CountOld => s.gettingOld > 0
    case Put => s.out > s.gettingNew + s.gettingOld
    case CountPut => s.putting > 0
    case Drop => s.free > 0
    case Flush => true
  }

  function At(s: State, w: Which): Cell
  {
    match w
    case NA => s.na
    case NR => s.nr
    case NP => s.np
  }

  function Upd(s: State, w: Which, c: Cell): State
  {
    match w
    case NA => s.(na := c)
    case NR => s.(nr := c)
    case NP => s.(np := c)
  }

  function After(w: Which): Which
  {
    match w
    case NA => NR
    case NR => NP
    case NP => NA
  }

  function Next(s: State, e: Step): State
    requires Enabled(s, e)
  {
    match e
    case GetNew => s.(out := s.out + 1, gettingNew := s.gettingNew + 1)
    case GetOld => s.(free := s.free - 1, out := s.out + 1, gettingOld := s.gettingOld + 1)
    case CountNew => Upd(s, NA, s.na.Bump()).(gettingNew := s.gettingNew - 1)
    case CountOld => Upd(s, NR, s.nr.Bump()).(gettingOld := s.gettingOld - 1)
    case Put => s.(free := s.free + 1, out := s.out - 1, putting := s.putting + 1)
    case CountPut => Upd(s, NP, s.np.Bump()).(putting := s.putting - 1)
    case Drop => s.(free := s.free - 1)
    case Flush =>
      match s.flusher
      case ToSwap(w) => Upd(s, w, At(s, w).Swap()).(flusher := ToAdd(w))
      case ToAdd(w) => Upd(s, w, At(s, w).Add()).(flusher := ToSwap(After(w)))
  }

  predicate IsStart(s: State)
  {
    && IsZero(s.na) && IsZero(s.nr) && IsZero(s.np) && s.flusher == ToSwap(NA)
    && s.free == s.out == s.gettingNew == s.gettingOld == s.putting == 0
  }

  predicate IsRun(ss: seq<State>, es: seq<Step>)
  {
    && |ss| == |es| + 1 && IsStart(ss[0])
    && (forall i | 0 <= i < |es| :: Enabled(ss[i], es[i]) && ss[i + 1] == Next(ss[i], es[i]))
  }

  // ----- one counter

  function Low(n: nat): (r: nat)
    ensures r < TWO32
  {
    n % TWO32
  }

  /** Residues in general; the exact count unless an interval between two swaps saw 2^32 events. */
  predicate CellOk(c: Cell)
  {
    && c.live == Low(c.recent) && c.recent <= c.most
    && Low(c.Sum()) == Low(c.counted)
    && (c.counted < TWO64 ==> c.Sum() <= c.counted)
    && (c.counted < TWO64 ==> (c.most < TWO32 <==> c.Sum() == c.counted))
  }

  lemma BumpIsOk(c: Cell)
    requires CellOk(c)
    ensures CellOk(c.Bump())
  {
    OneMore(c.recent);
    OneMore(c.Sum());
    OneMore(c.counted);
    OneMore(c.live);
    var c' := c.Bump();
    if c.live + 1 == TWO32 {
      assert c'.Sum() == c.Sum() + 1 - TWO32;
      Shift(c.Sum() + 1);
    }
  }

  lemma OneMore(n: nat)
    ensures Low(n + 1) == if Low(n) == TWO32 - 1 then 0 else Low(n) + 1
  {
  }

  lemma Shift(n: nat)
    requires n >= TWO32
    ensures Low(n - TWO32) == Low(n)
  {
  }

  lemma SwapIsOk(c: Cell)
    requires CellOk(c) && c.moving == 0
    ensures CellOk(c.Swap())
  {
  }

  /** A residue modulo 2^64 has the same residue modulo 2^32. */
  lemma Narrow(n: nat, m: nat)
    ensures Low(n % TWO64 + m) == Low(n + m)
  {
    var q := n / TWO64;
    assert n + m == (n % TWO64 + m) + q * TWO32 * TWO32;
    Multiple(n % TWO64 + m, q * TWO32);
  }

  lemma Multiple(n: nat, q: nat)
    ensures Low(n + q * TWO32) == Low(n)
  {
  }

  lemma AddIsOk(c: Cell)
    requires CellOk(c)
    ensures CellOk(c.Add())
  {
    Narrow(c.total + c.moving, c.live);
    if c.counted < TWO64 {
      assert c.total + c.moving < TWO64;
    }
  }

  lemma ZeroIsOk(c: Cell)
    requires IsZero(c)
    ensures CellOk(c)
  {
  }
}
