/** The counters agree with the events and the objects in every run. */
module MetricsTheorems {
  import opened Basics
  import opened Metrics

  // ----- every run

  predicate Resting(s: State)
  {
    forall w :: s.flusher != ToAdd(w) ==> At(s, w).moving == 0
  }

  /** What was acquired is what was put back and what is still out, whether counted yet or not. */
  predicate Balanced(s: State)
  {
    && s.na.counted + s.gettingNew + s.nr.counted + s.gettingOld == s.np.counted + s.putting + s.out
    && s.gettingNew + s.gettingOld <= s.out
  }

  predicate Inv(s: State)
  {
    CellOk(s.na) && CellOk(s.nr) && CellOk(s.np) && Resting(s) && Balanced(s)
  }

  lemma FlushKeepsInv(s: State)
    requires Inv(s)
    ensures Inv(Next(s, Flush))
  {
    match s.flusher
    case ToSwap(w) =>
      assert At(s, w).moving == 0;
      SwapIsOk(At(s, w));
    case ToAdd(w) => AddIsOk(At(s, w));
  }

  lemma StepKeepsInv(s: State, e: Step)
    requires Inv(s) && Enabled(s, e)
    ensures Inv(Next(s, e))
  {
    match e
    case Flush => FlushKeepsInv(s);
    case CountNew => BumpIsOk(s.na);
    case CountOld => BumpIsOk(s.nr);
    case CountPut => BumpIsOk(s.np);
    case _ =>
  }

  lemma StartKeepsInv(s: State)
    requires IsStart(s)
    ensures Inv(s)
  {
    ZeroIsOk(s.na);
    ZeroIsOk(s.nr);
    ZeroIsOk(s.np);
    StartRests(s);
  }

  lemma StartRests(s: State)
    requires IsStart(s)
    ensures Resting(s) && Balanced(s)
  {
  }

  lemma {:induction false} RunKeepsInv(ss: seq<State>, es: seq<Step>, i: nat)
    requires IsRun(ss, es) && i <= |es|
    ensures Inv(ss[i])
  {
    if i == 0 {
      StartKeepsInv(ss[0]);
    } else {
      RunKeepsInv(ss, es, i - 1);
      StepKeepsInv(ss[i - 1], es[i - 1]);
      assert ss[i] == Next(ss[i - 1], es[i - 1]);
    }
  }

  /**
   At every moment of every run, for each counter: what is live, in transit and
   accumulated adds up to the events counted modulo 2^32; and, for fewer than
   2^64 events, to exactly that number if and only if there were never 2^32 events between two swaps.
   */
  lemma CountsAreConserved(ss: seq<State>, es: seq<Step>, i: nat, w: Which)
    requires IsRun(ss, es) && i <= |es|
    ensures var c := At(ss[i], w);
      Low(c.Sum()) == Low(c.counted) && (c.counted < TWO64 ==> (c.Sum() == c.counted <==> c.most < TWO32))
  {
    RunKeepsInv(ss, es, i);
  }

  predicate Exact(c: Cell)
  {
    c.counted < TWO64 && c.most < TWO32
  }

  /** With no acquire or release under way, acquires less puts are the objects still out, wherever the ticker is. */
  lemma AcquiresLessPutsAreOut(ss: seq<State>, es: seq<Step>, i: nat)
    requires IsRun(ss, es) && i <= |es|
    requires ss[i].gettingNew == 0 && ss[i].gettingOld == 0 && ss[i].putting == 0
    ensures var s := ss[i]; Exact(s.na) && Exact(s.nr) && Exact(s.np) ==> s.na.Sum() + s.nr.Sum() - s.np.Sum() == s.out
  {
    RunKeepsInv(ss, es, i);
  }
}
