/**
 The two-way index of who offers what: Providers.services lists connections by
 service, Providers.providers has each connection's own services.
 */
module Registry {
  import opened Basics

  type Conn = nat
  /** The services of each registered connection. */
  type Offers = map<Conn, set<Bytes>>
  type Index = map<Bytes, set<Conn>>

  function Register(o: Offers, c: Conn, services: seq<Bytes>): Offers
  {
    o[c := (if c in o then o[c] else {}) + set s | s in services]
  }

  lemma RegisterNone(o: Offers, c: Conn, names: seq<Bytes>)
    ensures Register(o, c, []) == o[c := if c in o then o[c] else {}]
    ensures Register(Register(o, c, []), c, names) == Register(o, c, names)
    ensures c in o ==> Register(o, c, []) == o
  {
    var none: seq<Bytes> := [];
    var known := if c in o then o[c] else {};
    assert (set s | s in none) == {};
    assert known + {} == known;
  }

  lemma RegisterOneMore(o: Offers, c: Conn, names: seq<Bytes>, i: nat)
    requires i < |names|
    ensures Register(o, c, names[..i + 1]) == Register(Register(o, c, names[..i]), c, [names[i]])
  {
    var a, b := names[..i], names[..i + 1];
    assert b == a + [names[i]];
    assert (set s | s in b) == (set s | s in a) + (set s | s in [names[i]]);
    var known := if c in o then o[c] else {};
    assert known + (set s | s in b) == known + (set s | s in a) + (set s | s in [names[i]]);
  }

  function Deregister(o: Offers, c: Conn): Offers
  {
    o - {c}
  }

  predicate Lists(index: Index, s: Bytes, c: Conn)
  {
    s in index && c in index[s]
  }

  predicate Offering(o: Offers, c: Conn, s: Bytes)
  {
    c in o && s in o[c]
  }

  /** A connection is listed under a service exactly when it offers it, and no listed set is empty. */
  ghost predicate Agree(index: Index, o: Offers)
  {
    && (forall s, c :: Lists(index, s, c) <==> Offering(o, c, s))
    && (forall s | s in index :: index[s] != {})
  }

  /** So the table of providers leaves the index no choice. */
  lemma IndexIsDetermined(a: Index, b: Index, o: Offers)
    requires Agree(a, o) && Agree(b, o)
    ensures a == b
  {
    SameKeys(a, b, o);
    SameKeys(b, a, o);
    assert a.Keys == b.Keys;
    forall s | s in a ensures a[s] == b[s] {
      forall c ensures c in a[s] <==> c in b[s] {
        assert Lists(a, s, c) <==> Offering(o, c, s);
        assert Lists(b, s, c) <==> Offering(o, c, s);
      }
    }
  }

  lemma SameKeys(a: Index, b: Index, o: Offers)
    requires Agree(a, o) && Agree(b, o)
    ensures a.Keys <= b.Keys
  {
    forall s | s in a ensures s in b {
      var c :| c in a[s];
      assert Lists(a, s, c);
      assert Lists(b, s, c);
    }
  }

  // ----- histories

  /** A handshake received or answered, with the peer's id if it gave one, or the end of a connection. */
  datatype Op = Reg(c: Conn, id: Option<Bytes>, services: seq<Bytes>) | Dereg(c: Conn)

  function Do(o: Offers, op: Op): Offers
  {
    match op
    case Reg(c, _, services) => Register(o, c, services)
    case Dereg(c) => Deregister(o, c)
  }

  function After(ops: seq<Op>): Offers
  {
    if ops == [] then map[] else Do(After(ops[..|ops| - 1]), ops[|ops| - 1])
  }

  predicate Names(op: Op, c: Conn, s: Bytes)
  {
    op.Reg? && op.c == c && s in op.services
  }

  /** Registered for the service at i, and not deregistered since. */
  predicate StillRegistered(ops: seq<Op>, c: Conn, s: Bytes, i: nat)
  {
    i < |ops| && Names(ops[i], c, s) && forall j | i < j < |ops| :: ops[j] != Dereg(c)
  }

  /** After any history, what a connection offers is what it was ever registered for since it was last deregistered. */
  lemma {:induction false} OffersAreHistory(ops: seq<Op>, c: Conn, s: Bytes)
    ensures Offering(After(ops), c, s) <==> exists i: nat :: StillRegistered(ops, c, s, i)
  {
    if ops != [] {
      var n := |ops| - 1;
      var front, op := ops[..n], ops[n];
      OffersAreHistory(front, c, s);
      forall i: nat | i < n ensures StillRegistered(ops, c, s, i)
          <==> StillRegistered(front, c, s, i) && op != Dereg(c) {
        if StillRegistered(ops, c, s, i) {
          forall j | i < j < n ensures front[j] != Dereg(c) { assert ops[j] != Dereg(c); }
        }
      }
      assert StillRegistered(ops, c, s, n) <==> Names(op, c, s);
    }
  }

  // ----- who has announced an id

  /** Of each registered connection, the id it was last registered with. */
  type Ids = map<Conn, Option<Bytes>>

  function IdsAfter(ops: seq<Op>): Ids
  {
    if ops == [] then map[]
    else
      var before, op := IdsAfter(ops[..|ops| - 1]), ops[|ops| - 1];
      match op
      case Reg(c, id, _) => before[c := id]
      case Dereg(c) => before - {c}
  }

  /** The i-th operation is the last on the connection. */
  predicate IsLastOn(ops: seq<Op>, c: Conn, i: nat)
  {
    i < |ops| && ops[i].c == c && forall j | i < j < |ops| :: ops[j].c != c
  }

  /**
   After any history a connection is a provider if and only if the last operation on
   it registered it, and it is named, so that its requests can be served, if and only
   if that one gave an id: a later handshake without one takes the name away.
   */
  lemma {:induction false} NamedExactlyWhen(ops: seq<Op>, c: Conn)
    ensures c in IdsAfter(ops) <==> exists i: nat :: IsLastOn(ops, c, i) && ops[i].Reg?
    ensures c in IdsAfter(ops) && IdsAfter(ops)[c].Some?
        <==> exists i: nat :: IsLastOn(ops, c, i) && ops[i].Reg? && ops[i].id.Some?
  {
    if ops != [] {
      var n := |ops| - 1;
      var front, op := ops[..n], ops[n];
      NamedExactlyWhen(front, c);
      if op.c == c {
        assert IsLastOn(ops, c, n);
        assert forall i: nat | IsLastOn(ops, c, i) :: i == n by { OnlyLast(ops, c, n); }
      } else {
        forall i: nat ensures IsLastOn(ops, c, i) <==> IsLastOn(front, c, i) { LastOnFront(ops, c, i); }
      }
    }
  }

  lemma OnlyLast(ops: seq<Op>, c: Conn, n: nat)
    requires IsLastOn(ops, c, n)
    ensures forall i: nat | IsLastOn(ops, c, i) :: i == n
  {
  }

  lemma LastOnFront(ops: seq<Op>, c: Conn, i: nat)
    requires ops != [] && ops[|ops| - 1].c != c
    ensures IsLastOn(ops, c, i) <==> IsLastOn(ops[..|ops| - 1], c, i)
  {
    var front := ops[..|ops| - 1];
    if IsLastOn(ops, c, i) {
      forall j | i < j < |front| ensures front[j].c != c { assert ops[j].c != c; }
    }
    if IsLastOn(front, c, i) {
      forall j | i < j < |ops| ensures ops[j].c != c {
        if j < |front| { assert front[j].c != c; }
      }
    }
  }

  // ----- looking up

  /** How many of the requested services are offered, each as often as it is requested. */
  function Times(requested: seq<Bytes>, offered: set<Bytes>): nat
  {
    if requested == [] then 0
    else Times(requested[..|requested| - 1], offered) + if requested[|requested| - 1] in offered then 1 else 0
  }

  /** How often a connection is found when these services are looked up. */
  function Found(o: Offers, requested: seq<Bytes>, c: Conn): nat
  {
    if c in o then Times(requested, o[c]) else 0
  }

  lemma FoundOnceMore(o: Offers, requested: seq<Bytes>, i: nat, c: Conn)
    requires i < |requested|
    ensures Found(o, requested[..i + 1], c)
        == Found(o, requested[..i], c) + if Offering(o, c, requested[i]) then 1 else 0
  {
    assert requested[..i + 1][..i] == requested[..i];
  }
}
