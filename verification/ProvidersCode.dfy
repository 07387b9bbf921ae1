/** Providers: both maps, pruned and filled in loops. */
module ProvidersCode {
  import opened Basics
  import opened Registry

  /** What the index sees of a Provider. */
  class Member {
    const conn: Conn
    const firstId: nat
    var kadId: Option<Bytes>
    var services: set<Bytes>
    var closed: bool

    constructor (conn: Conn, firstId: nat)
      ensures this.conn == conn && this.firstId == firstId && services == {} && kadId.None? && !closed
    {
      this.conn, this.firstId, kadId, services, closed := conn, firstId, None, {}, false;
    }
  }

  class Providers {
    var services: map<Bytes, set<Conn>>
    var providers: map<Conn, Member>

    constructor ()
      ensures Valid() && Offers() == map[]
    {
      services, providers := map[], map[];
    }

    ghost function Offers(): Registry.Offers
      reads this, providers.Values
    {
      map c | c in providers :: providers[c].services
    }

    ghost function KnownIds(): Ids
      reads this, providers.Values
    {
      map c | c in providers :: providers[c].kadId
    }

    ghost predicate Valid()
      reads this, providers.Values
    {
      && (forall c | c in providers :: providers[c].conn == c)
      && Agree(services, Offers())
    }

    method FindProvider(conn: Conn) returns (p: Option<Member>)
      ensures p == if conn in providers then Some(providers[conn]) else None
    {
      p := if conn in providers then Some(providers[conn]) else None;
    }

    /** Whether the connection is a provider, and then whether its handler can be given the peer's id. */
    method IsNamed(conn: Conn) returns (r: Option<bool>)
      ensures r == if conn in KnownIds() then Some(KnownIds()[conn].Some?) else None
    {
      var p := FindProvider(conn);
      r := if p.Some? then Some(p.value.kadId.Some?) else None;
    }

    /** One service more. */
    method ListService(p: Member, service: Bytes)
      requires Valid() && p.conn in providers && providers[p.conn] == p
      modifies this`services, p`services
      ensures Valid() && Offers() == Register(old(Offers()), p.conn, [service]) && KnownIds() == old(KnownIds())
    {
      ghost var o := Offers();
      p.services := p.services + {service};
      if service !in services {
        services := services[service := {}];
      }
      services := services[service := services[service] + {p.conn}];
      assert Offers() == o[p.conn := o[p.conn] + {service}];
      assert {service} == set s | s in [service];
      forall s, c ensures Lists(services, s, c) <==> Offering(Offers(), c, s) {
        assert Lists(old(services), s, c) <==> Offering(o, c, s);
      }
    }

    method ListServices(p: Member, names: seq<Bytes>)
      requires Valid() && p.conn in providers && providers[p.conn] == p
      modifies this`services, p`services
      ensures Valid() && Offers() == Register(old(Offers()), p.conn, names) && KnownIds() == old(KnownIds())
    {
      ghost var o := Offers();
      RegisterNone(o, p.conn, names);
      assert names[..0] == [];
      for i := 0 to |names|
        invariant Valid() && Offers() == Register(o, p.conn, names[..i]) && KnownIds() == old(KnownIds())
      {
        RegisterOneMore(o, p.conn, names, i);
        ListService(p, names[i]);
      }
      assert names[..|names|] == names;
    }

    method FindOrAdd(conn: Conn, outgoing: bool) returns (p: Member, found: bool)
      requires Valid()
      modifies this`providers
      ensures Valid() && Offers() == Register(old(Offers()), conn, [])
      ensures KnownIds() == if found then old(KnownIds()) else old(KnownIds())[conn := None]
      ensures found == (conn in old(providers)) && conn in providers && providers[conn] == p && p.conn == conn
      ensures if found then providers == old(providers)
              else providers == old(providers)[conn := p] && fresh(p) && p.firstId == if outgoing then 1 else 0
    {
      ghost var o, ids := Offers(), KnownIds();
      found := conn in providers;
      if found {
        p := providers[conn];
      } else {
        p := new Member(conn, if outgoing then 1 else 0);
        providers := providers[conn := p];
        forall s, c ensures Lists(services, s, c) <==> Offering(Offers(), c, s) {
          assert Lists(services, s, c) <==> Offering(o, c, s);
        }
      }
      assert KnownIds() == if found then ids else ids[conn := None];
      RegisterNone(o, conn, []);
      assert Offers() == o[conn := if conn in o then o[conn] else {}];
    }

    method SetId(p: Member, id: Option<Bytes>)
      requires Valid() && p.conn in providers && providers[p.conn] == p
      modifies p`kadId
      ensures Valid() && Offers() == old(Offers()) && KnownIds() == old(KnownIds())[p.conn := id] && p.kadId == id
    {
      p.kadId := id;
    }

    method Announce(p: Member, id: Option<Bytes>, names: seq<Bytes>)
      requires Valid() && p.conn in providers && providers[p.conn] == p
      modifies this`services, p`services, p`kadId
      ensures Valid() && Offers() == Register(old(Offers()), p.conn, names)
      ensures KnownIds() == old(KnownIds())[p.conn := id] && p.kadId == id
    {
      SetId(p, id);
      ListServices(p, names);
    }

    method RegisterProvider(conn: Conn, id: Option<Bytes>, names: seq<Bytes>, outgoing: bool) returns (p: Member,
                            found: bool)
      requires Valid()
      modifies this, providers.Values
      ensures Valid() && Offers() == Register(old(Offers()), conn, names) && KnownIds() == old(KnownIds())[conn := id]
      ensures found == (conn in old(providers)) && conn in providers && providers[conn] == p && p.kadId == id
      ensures if found then providers == old(providers)
              else providers == old(providers)[conn := p] && fresh(p) && p.firstId == if outgoing then 1 else 0
    {
      RegisterNone(Offers(), conn, names);
      p, found := FindOrAdd(conn, outgoing);
      Announce(p, id, names);
    }

    method Unlist(p: Member, service: Bytes)
      requires p.conn !in providers && service in p.services && service in services
      modifies this`services
      ensures services == old(services) - {service}
          || services == old(services)[service := old(services)[service] - {p.conn}]
      ensures service in services ==> services[service] != {}
      ensures service !in services ==> old(services)[service] <= {p.conn}
    {
      services := services[service := services[service] - {p.conn}];
      if |services[service]| == 0 {
        services := services - {service};
      }
    }

    /** The index lists what is offered, and besides them only p's connection under the services `left`. */
    ghost predicate Pruning(p: Member, left: set<Bytes>)
      reads this, providers.Values
    {
      && (forall s, c :: Lists(services, s, c) <==> Offering(Offers(), c, s) || (c == p.conn && s in left))
      && (forall s | s in services :: services[s] != {})
    }

    method DeregisterProvider(conn: Conn) returns (p: Option<Member>)
      requires Valid()
      modifies this, providers.Values
      ensures Valid() && Offers() == Deregister(old(Offers()), conn) && KnownIds() == old(KnownIds()) - {conn}
      ensures if conn in old(providers) then p == Some(old(providers)[conn]) && p.value.closed else p.None?
      ensures providers == old(providers) - {conn}
    {
      ghost var o := Offers();
      if conn !in providers {
        assert Offers() == Deregister(o, conn);
        return None;
      }
      var provider := providers[conn];
      providers := providers - {conn};
      assert Offers() == Deregister(o, conn);
      Prune(provider, o);
      provider.closed := true;
      return Some(provider);
    }

    method Prune(p: Member, ghost o: Registry.Offers)
      requires p.conn !in providers && Agree(services, o) && Offers() == Deregister(o, p.conn)
      requires p.conn in o && o[p.conn] == p.services
      requires forall c | c in providers :: providers[c].conn == c
      modifies this`services
      ensures Valid()
    {
      var left := p.services;
      forall s, c ensures Lists(services, s, c) <==> Offering(Offers(), c, s) || (c == p.conn && s in left) {
        assert Lists(services, s, c) <==> Offering(o, c, s);
      }
      while left != {}
        invariant left <= p.services && Pruning(p, left)
        decreases left
      {
        var service :| service in left;
        assert Lists(services, service, p.conn);
        ghost var before := services;
        Unlist(p, service);
        left := left - {service};
        forall s, c ensures Lists(services, s, c) <==> Offering(Offers(), c, s) || (c == p.conn && s in left) {
          assert Lists(before, s, c) <==> Offering(Offers(), c, s) || (c == p.conn && s in left + {service});
        }
      }
    }
  
    /** The elements of a set, in the order it happens to be iterated in. */
    static method Elements(cs: set<Conn>) returns (r: seq<Conn>)
      ensures multiset(r) == multiset(cs)
    {
      var left := cs;
      r := [];
      while left != {}
        invariant left <= cs && multiset(r) == multiset(cs - left)
        decreases left
      {
        var c :| c in left;
        assert cs - (left - {c}) == (cs - left) + {c};
        r, left := r + [c], left - {c};
      }
      assert cs - {} == cs;
    }

    method ConnsFor(requested: seq<Bytes>) returns (conns: seq<Conn>)
      requires Valid()
      ensures forall c :: multiset(conns)[c] == Found(Offers(), requested, c)
    {
      conns := [];
      for i := 0 to |requested|
        invariant forall c :: multiset(conns)[c] == Found(Offers(), requested[..i], c)
      {
        var listed := if requested[i] in services then services[requested[i]] else {};
        var more := Elements(listed);
        forall c ensures multiset(conns + more)[c] == Found(Offers(), requested[..i + 1], c) {
          FoundOnceMore(Offers(), requested, i, c);
          assert Lists(services, requested[i], c) <==> Offering(Offers(), c, requested[i]);
          assert c in listed <==> Lists(services, requested[i], c);
        }
        conns := conns + more;
      }
      assert requested[..|requested|] == requested;
    }

    lemma FoundAreProviders(conns: seq<Conn>, requested: seq<Bytes>)
      requires forall c :: multiset(conns)[c] == Found(Offers(), requested, c)
      ensures forall c | c in conns :: c in providers
    {
      forall c | c in conns ensures c in providers {
        assert c in multiset(conns);
      }
    }

    /** Each provider once for every requested service it offers; never a nil one. */
    method GetProviders(requested: seq<Bytes>) returns (r: seq<Member>)
      requires Valid()
      ensures forall p | p in r :: p.conn in providers && providers[p.conn] == p
      ensures forall c | c in providers :: multiset(r)[providers[c]] == Times(requested, providers[c].services)
    {
      var conns := ConnsFor(requested);
      FoundAreProviders(conns, requested);
      r := [];
      for i := 0 to |conns|
        invariant forall p | p in r :: p.conn in providers && providers[p.conn] == p
        invariant forall c | c in providers :: multiset(r)[providers[c]] == multiset(conns[..i])[c]
      {
        assert conns[..i + 1] == conns[..i] + [conns[i]];
        r := r + [providers[conns[i]]];
      }
      assert conns[..|conns|] == conns;
      forall c | c in providers ensures multiset(r)[providers[c]] == Times(requested, providers[c].services) {
        assert multiset(conns)[c] == Found(Offers(), requested, c);
      }
    }
  }
}
