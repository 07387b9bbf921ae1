/** The connection pool of a Client: a slice over one array, scanned and filtered in place. */
module ClientCode {

  class ClientConn {
    constructor () {}
  }

  type Entry = ClientConn?

  const DEFAULT_MAX: nat := 4

  /** A list without one of its elements. */
  function Without(s: seq<Entry>, x: ClientConn): seq<Entry>
  {
    if s == [] then []
    else
      var n := |s| - 1;
      if s[n] == x then Without(s[..n], x) else Without(s[..n], x) + [s[n]]
  }

  predicate Distinct(s: seq<Entry>)
  {
    forall i, j | 0 <= i < j < |s| :: s[i] != s[j]
  }

  lemma {:induction false} WithoutAbsent(s: seq<Entry>, x: ClientConn)
    requires x !in s
    ensures Without(s, x) == s
  {
    if s != [] {
      WithoutAbsent(s[..|s| - 1], x);
    }
  }

  /** From a list of distinct entries exactly that entry goes, and the others keep their order. */
  lemma {:induction false} WithoutIsRemoval(s: seq<Entry>, k: nat)
    requires Distinct(s) && k < |s| && s[k] != null
    ensures Without(s, s[k]) == s[..k] + s[k + 1..]
  {
    var n := |s| - 1;
    if k == n {
      WithoutAbsent(s[..n], s[n]);
    } else {
      WithoutIsRemoval(s[..n], k);
      assert s[..k] + s[k + 1..] == s[..n][..k] + s[..n][k + 1..] + [s[n]];
    }
  }

  lemma {:induction false} WithoutKeeps(s: seq<Entry>, x: ClientConn)
    ensures |Without(s, x)| <= |s| && forall e :: e in Without(s, x) <==> e in s && e != x
  {
    if s != [] {
      var n := |s| - 1;
      WithoutKeeps(s[..n], x);
      assert s == s[..n] + [s[n]];
    }
  }

  lemma {:induction false} WithoutIsDistinct(s: seq<Entry>, x: ClientConn)
    requires Distinct(s)
    ensures Distinct(Without(s, x))
  {
    if s != [] {
      var n := |s| - 1;
      WithoutIsDistinct(s[..n], x);
      WithoutKeeps(s[..n], x);
      assert s[n] !in Without(s[..n], x);
    }
  }

  class Client {
    const maxConns: int
    var data: array<Entry>
    var len: nat

    constructor (maxConns: int)
      ensures Valid() && Conns() == [] && fresh(data) && this.maxConns == maxConns
    {
      this.maxConns, data, len := maxConns, new Entry[0], 0;
    }

    function GetMaxConns(): nat
    {
      if maxConns <= 0 then DEFAULT_MAX else maxConns
    }

    /** The slice c.conns. */
    ghost function Conns(): seq<Entry>
      reads this, data
    {
      if len <= data.Length then data[..len] else []
    }

    /** Never more than n connections, n being the maximum set, or 4 if none is. */
    ghost predicate AtMostMax(n: nat)
    {
      (maxConns > 0 ==> n <= maxConns) && (maxConns <= 0 ==> n <= 4)
    }

    /** Within the maximum, each pooled once. */
    ghost predicate Valid()
      reads this, data
    {
      len <= data.Length && null !in Conns() && Distinct(Conns()) && AtMostMax(|Conns()|)
    }

    /** Go's append: in place while there is room, else into a larger array. */
    method Append(x: ClientConn)
      requires len <= data.Length
      modifies this`data, this`len, data
      ensures len <= data.Length && Conns() == old(Conns()) + [x] && (data == old(data) || fresh(data))
    {
      if len == data.Length {
        var bigger := new Entry[2 * len + 1];
        for i := 0 to len
          invariant len == old(len) == data.Length && data == old(data)
          invariant bigger[..i] == data[..i] && data[..len] == old(Conns())
        {
          bigger[i] := data[i];
        }
        data := bigger;
      }
      data[len] := x;
      len := len + 1;
      assert data[..len] == old(Conns()) + [x];
    }

    method NewClientConn() returns (cc: ClientConn)
      requires Valid() && AtMostMax(len + 1)
      modifies this`data, this`len, data
      ensures Valid() && fresh(cc) && Conns() == old(Conns()) + [cc] && (data == old(data) || fresh(data))
    {
      cc := new ClientConn();
      Append(cc);
    }

    /** Load number i: what connection i says of its pending writes when it is asked. */
    ghost predicate Busy(loads: nat -> nat, n: nat)
    {
      forall i: nat | i < n :: loads(i) > 0
    }

    /** The first of the least of the first n loads. */
    ghost predicate IsLeast(loads: nat -> nat, n: nat, k: nat)
    {
      k < n && (forall i: nat | i < n :: loads(k) <= loads(i)) && forall i: nat | i < k :: loads(k) < loads(i)
    }

    /**
     The first idle connection if there is one; else a new one if there is room;
     else the first of those with the least load.  Loads are read one at a time.
     */
    method GetClientConn(loads: nat -> nat) returns (cc: ClientConn)
      requires Valid()
      modifies this`data, this`len, data
      ensures Valid() && (data == old(data) || fresh(data))
      ensures Busy(loads, old(len)) && AtMostMax(old(len) + 1) ==> fresh(cc) && Conns() == old(Conns()) + [cc]
      ensures !(Busy(loads, old(len)) && AtMostMax(old(len) + 1)) ==> Conns() == old(Conns())
      ensures !Busy(loads, old(len))
          ==> exists k: nat :: k < old(len) && loads(k) == 0 && Busy(loads, k) && cc == old(Conns())[k]
      ensures Busy(loads, old(len)) && !AtMostMax(old(len) + 1)
          ==> exists k: nat :: IsLeast(loads, old(len), k) && cc == old(Conns())[k]
    {
      if len == 0 {
        cc := NewClientConn();
        return;
      }
      var k, mp := 0, loads(0);
      if mp == 0 {
        return Get(0);
      }
      for i := 1 to len
        invariant IsLeast(loads, i, k) && Busy(loads, i) && mp == loads(k)
      {
        var cp := loads(i);
        if cp == 0 {
          return Get(i);
        }
        if cp < mp {
          k, mp := i, cp;
        }
      }
      if len < GetMaxConns() {
        cc := NewClientConn();
        return;
      }
      return Get(k);
    }

    function Get(i: nat): (cc: ClientConn)
      requires Valid() && i < len
      reads this, data
      ensures cc == Conns()[i]
    {
      assert data[i] == Conns()[i] && data[i] in Conns();
      data[i]
    }

    /** One array is read from the front and written from the front. */
    method DeleteClientConn(conn: ClientConn)
      requires Valid()
      modifies this`len, data
      ensures Valid() && Conns() == Without(old(Conns()), conn) && |Conns()| <= |old(Conns())|
    {
      ghost var was := Conns();
      var entries := len;
      len := 0;
      for i := 0 to entries
        invariant len <= i && data[..len] == Without(was[..i], conn)
        invariant forall k | i <= k < entries :: data[k] == was[k]
      {
        assert was[..i + 1][..i] == was[..i];
        if data[i] != conn {
          data[len] := data[i];
          len := len + 1;
        }
      }
      assert was[..entries] == was;
      WithoutKeeps(was, conn);
      WithoutIsDistinct(was, conn);
    }
  }
}
