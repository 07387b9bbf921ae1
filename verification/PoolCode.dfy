/** The two object pools and their counters, as the methods are written. */
module PoolCode {
  import opened Basics

  class PoolMetrics {
    var na: nat
    var nr: nat
    var np: nat
    var naa: nat
    var nra: nat
    var npa: nat

    constructor ()
      ensures na == nr == np == naa == nra == npa == 0
    {
      na, nr, np, naa, nra, npa := 0, 0, 0, 0, 0, 0;
    }

    /** With nothing else going on. */
    method SetMetrics()
      modifies this
      ensures na == nr == np == 0
      ensures naa == (old(naa) + old(na)) % TWO64 && nra == (old(nra) + old(nr)) % TWO64
      ensures npa == (old(npa) + old(np)) % TWO64
    {
      var took := na;
      na := 0;
      naa := (naa + took) % TWO64;
      took := nr;
      nr := 0;
      nra := (nra + took) % TWO64;
      took := np;
      np := 0;
      npa := (npa + took) % TWO64;
    }
  }

  class PendingWrite {
    var buf: Option<Bytes>
    var wait: bool
    var err: Option<Error>

    constructor ()
      ensures buf.None? && !wait && err.None?
    {
      buf, wait, err := None, false, None;
    }
  }

  class PendingWritePool {
    var sp: set<PendingWrite>
    const m: PoolMetrics

    constructor (m: PoolMetrics)
      ensures Valid() && sp == {} && this.m == m
    {
      sp, this.m := {}, m;
    }

    /** A pooled write carries no error of its last use. */
    ghost predicate Valid()
      reads this, sp
    {
      forall w | w in sp :: w.err.None?
    }

    method Acquire(buf: Bytes, wait: bool) returns (pw: PendingWrite)
      requires Valid()
      modifies this, m, sp
      ensures Valid() && pw !in sp && sp == old(sp) - {pw} && (fresh(pw) || pw in old(sp))
      ensures pw.buf == Some(buf) && pw.wait == wait && pw.err.None?
      ensures m.na == (if fresh(pw) then (old(m.na) + 1) % TWO32 else old(m.na))
      ensures m.nr == (if fresh(pw) then old(m.nr) else (old(m.nr) + 1) % TWO32)
    {
      if sp == {} {
        pw := new PendingWrite();
        m.na := (m.na + 1) % TWO32;
      } else {
        pw :| pw in sp;
        sp := sp - {pw};
        m.nr := (m.nr + 1) % TWO32;
      }
      pw.buf := Some(buf);
      pw.wait := wait;
    }

    method Release(pw: PendingWrite)
      requires Valid() && pw !in sp
      modifies this, m, pw
      ensures Valid() && sp == old(sp) + {pw} && m.np == (old(m.np) + 1) % TWO32
    {
      pw.err := None;
      sp := sp + {pw};
      m.np := (m.np + 1) % TWO32;
    }
  }

  class PendingRequest {
    var dst: Option<Bytes>
    var err: Option<Error>

    constructor ()
      ensures dst.None? && err.None?
    {
      dst, err := None, None;
    }
  }

  class PendingRequestPool {
    var sp: set<PendingRequest>
    const m: PoolMetrics

    constructor (m: PoolMetrics)
      ensures Valid() && sp == {} && this.m == m
    {
      sp, this.m := {}, m;
    }

    /** A pooled request keeps neither the caller's buffer nor an error. */
    ghost predicate Valid()
      reads this, sp
    {
      forall r | r in sp :: r.dst.None? && r.err.None?
    }

    method Acquire(dst: Bytes) returns (pr: PendingRequest)
      requires Valid()
      modifies this, m, sp
      ensures Valid() && pr !in sp && sp == old(sp) - {pr} && (fresh(pr) || pr in old(sp))
      ensures pr.dst == Some(dst) && pr.err.None?
      ensures m.na == (if fresh(pr) then (old(m.na) + 1) % TWO32 else old(m.na))
      ensures m.nr == (if fresh(pr) then old(m.nr) else (old(m.nr) + 1) % TWO32)
    {
      if sp == {} {
        pr := new PendingRequest();
        m.na := (m.na + 1) % TWO32;
      } else {
        pr :| pr in sp;
        sp := sp - {pr};
        m.nr := (m.nr + 1) % TWO32;
      }
      pr.dst := Some(dst);
    }

    method Release(pr: PendingRequest)
      requires Valid() && pr !in sp
      modifies this, m, pr
      ensures Valid() && sp == old(sp) + {pr} && m.np == (old(m.np) + 1) % TWO32
    {
      pr.dst := None;
      pr.err := None;
      sp := sp + {pr};
      m.np := (m.np + 1) % TWO32;
    }
  }
}
