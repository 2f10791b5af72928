/** isSplit and Split of simulation/cluster.go: a cluster becomes two whose labels are one bit longer. */
module Splitting {
  import opened Cardinality
  import opened Ids
  import opened PrefixCode
  import opened Network
  import opened Invariant
  import opened SplitStep
  import opened Runs
  import opened Durability
  import opened Votes
  import opened Objects
  import opened Merging

  /** Members are filed under the string of their own identifier. */
  ghost predicate OwnKeys(mem: map<string, Peer>, m: nat) {
    forall k :: k in mem ==> Parse(k) == mem[k].id && |k| == m && Str(mem[k].id) == k
  }

  // ---------------------------------------------------------------- isSplit

  lemma UnderStep<P>(done: map<string, P>, l: Id, k: string, p: P)
    requires k !in done
    ensures Under(done[k := p], l) == if l <= Parse(k) then Under(done, l)[k := p] else Under(done, l)
    ensures k !in Under(done, l)
  {
    hide Parse;
  }

  /** Counts the members whose bit after the label is zero, and those whose bit is one. */
  method CountSides(mem: map<string, Peer>, l: Id, m: nat) returns (n0: nat, n1: nat)
    requires OwnKeys(mem, m) && |l| < m && forall k :: k in mem ==> l <= mem[k].id
    ensures n0 == |Under(mem, l + [false])| && n1 == |Under(mem, l + [true])|
  {
    hide Parse, Str, Under;
    n0, n1 := 0, 0;
    ghost var done: map<string, Peer> := map[];
    UnderNone<Peer>(l + [false]);
    UnderNone<Peer>(l + [true]);
    var todo := mem.Keys;
    while todo != {}
      invariant todo <= mem.Keys
      invariant forall k :: k in done ==> k in mem && k !in todo && done[k] == mem[k]
      invariant forall k :: k in mem && k !in todo ==> k in done
      invariant n0 == |Under(done, l + [false])| && n1 == |Under(done, l + [true])|
    {
      var k :| k in todo;
      var peer := mem[k];
      UnderBit(l, false, k);
      UnderBit(l, true, k);
      UnderStep(done, l + [false], k, peer);
      UnderStep(done, l + [true], k, peer);
      if peer.id[|l|] {
        AddSize(Under(done, l + [true]), k, peer);
        n1 := n1 + 1;
      } else {
        AddSize(Under(done, l + [false]), k, peer);
        n0 := n0 + 1;
      }
      done := done[k := peer];
      todo := todo - {k};
    }
    assert done == mem;
  }

  lemma UnderNone<P>(l: Id)
    ensures Under<P>(map[], l) == map[] && |Under<P>(map[], l)| == 0
  {
    hide Parse;
  }

  lemma OwnSides(mem: map<string, Peer>, l: Id, m: nat)
    requires OwnKeys(mem, m) && |l| < m && forall k :: k in mem ==> l <= mem[k].id
    ensures forall b :: |Under(mem, l + [b])| == |set k | k in mem && BitAt(l, k, b)|
  {
    hide BitAt, Parse, Str;
    forall b: bool
      ensures |Under(mem, l + [b])| == |set k | k in mem && BitAt(l, k, b)|
    {
      forall k | k in mem
        ensures BitAt(l, k, b) <==> l + [b] <= Parse(k)
      {
        UnderBit(l, b, k);
      }
      assert Under(mem, l + [b]).Keys == set k | k in mem && BitAt(l, k, b);
    }
  }

  /** Whether either side has TSplit members or more and the label can grow. */
  method IsSplit(cfg: Config, c: Cluster) returns (r: bool)
    requires OwnKeys(c.vc, cfg.m) && OwnKeys(c.vs, cfg.m) && |c.lbl| < cfg.m
    requires (forall k :: k in c.vc ==> c.lbl <= c.vc[k].id) && (forall k :: k in c.vs ==> c.lbl <= c.vs[k].id)
    ensures r <==>
            && |c.lbl| + 1 < cfg.m
            && |set k | k in c.vc && BitAt(c.lbl, k, false)| + |set k | k in c.vs && BitAt(c.lbl, k, false)|
               >= cfg.tsplit
            && |set k | k in c.vc && BitAt(c.lbl, k, true)| + |set k | k in c.vs && BitAt(c.lbl, k, true)| >= cfg.tsplit
    ensures r <==> CanSplit(cfg, c.AsNode())
  {
    hide Under, Parse, Str, BitAt, OwnKeys;
    OwnSides(c.vc, c.lbl, cfg.m);
    OwnSides(c.vs, c.lbl, cfg.m);
    if |c.lbl| + 1 == cfg.m {
      return false;
    }
    var a0, a1 := CountSides(c.vc, c.lbl, cfg.m);
    var b0, b1 := CountSides(c.vs, c.lbl, cfg.m);
    return a1 + b1 >= cfg.tsplit && a0 + b0 >= cfg.tsplit;
  }

  // ---------------------------------------------------------------- the two halves

  method TakeSide(mem: map<string, Peer>, l: Id, m: nat) returns (r: map<string, Peer>)
    requires OwnKeys(mem, m)
    ensures r == Under(mem, l)
  {
    hide Parse, Str, Under;
    r := map[];
    ghost var done: map<string, Peer> := map[];
    UnderNone<Peer>(l);
    var todo := mem.Keys;
    while todo != {}
      invariant todo <= mem.Keys
      invariant forall k :: k in done ==> k in mem && k !in todo && done[k] == mem[k]
      invariant forall k :: k in mem && k !in todo ==> k in done
      invariant r == Under(done, l)
    {
      var k :| k in todo;
      var peer := mem[k];
      UnderStep(done, l, k, peer);
      var keep := Prefix(l, peer.id);
      if keep {
        r := r[k := peer];
      }
      done := done[k := peer];
      todo := todo - {k};
    }
    assert done == mem;
  }

  /** The key of a member whose identifier no other member's is below. */
  method LowestOf(vs: map<string, Peer>, m: nat) returns (min: string)
    requires OwnKeys(vs, m) && vs != map[]
    ensures min in vs && forall j :: j in vs && j != min ==> Less(Parse(min), Parse(j))
  {
    hide Parse, Str, Less;
    var first: Peer? := null;
    min := "";
    var todo := vs.Keys;
    while todo != {}
      invariant todo <= vs.Keys
      invariant first == null ==> todo == vs.Keys
      invariant first != null ==> min in vs && min !in todo && vs[min] == first
      invariant first != null ==> forall j :: j in vs && j !in todo ==> !Less(Parse(j), Parse(min))
    {
      var k :| k in todo;
      var peer := vs[k];
      var take := first == null;
      if first != null {
        take := Gt(first.id, peer.id);
      }
      LessIrreflexive(peer.id);
      if take {
        if first != null {
          forall j | j in vs && j !in todo
            ensures !Less(Parse(j), Parse(k))
          {
            if Less(Parse(j), Parse(k)) {
              LessTransitive(Parse(j), Parse(k), Parse(min));
            }
          }
        }
        first, min := peer, k;
      }
      todo := todo - {k};
    }
    MinIsLowest(vs, m, min);
  }

  lemma MinIsLowest(vs: map<string, Peer>, m: nat, min: string)
    requires OwnKeys(vs, m) && min in vs && forall j :: j in vs ==> !Less(Parse(j), Parse(min))
    ensures forall j :: j in vs && j != min ==> Less(Parse(min), Parse(j))
  {
    hide Parse, Str, Less;
    forall j | j in vs && j != min
      ensures Less(Parse(min), Parse(j))
    {
      UnorderedIffComparable(Parse(min), Parse(j));
      StrInjective(vs[min].id, vs[j].id);
    }
  }

  /** A half under way: the core of one side, with spares of that side moved in. */
  ghost predicate Topping<P>(core: map<string, P>, spare: map<string, P>, vc: map<string, P>, vs: map<string, P>) {
    && (forall k :: k in vc ==> k !in vs && (k in core || k in spare))
    && (forall k :: k in core ==> k in vc)
    && (forall k :: k in spare ==> k in vc || k in vs)
    && (forall k :: k in vc ==> vc[k] == if k in core then core[k] else spare[k])
    && (forall k :: k in vs ==> k in spare && vs[k] == spare[k])
  }

  ghost predicate LowerMoved<P>(core: map<string, P>, vc: map<string, P>, vs: map<string, P>) {
    forall k, j :: k in vc && k !in core && j in vs ==> Less(Parse(k), Parse(j))
  }

  lemma ToppingStep<P>(core: map<string, P>, spare: map<string, P>, vc: map<string, P>, vs: map<string, P>, k: string)
    requires Topping(core, spare, vc, vs) && (forall j :: j in core ==> j !in spare) && k in vs
    ensures k !in vc && Topping(core, spare, vc[k := vs[k]], vs - {k})
  {
  }

  lemma LowerStep<P>(core: map<string, P>, vc: map<string, P>, vs: map<string, P>, k: string, p: P)
    requires LowerMoved(core, vc, vs) && k in vs && forall j :: j in vs && j != k ==> Less(Parse(k), Parse(j))
    ensures LowerMoved(core, vc[k := p], vs - {k})
  {
    hide Parse, Less;
  }

  /** The promotion loop: while the half has fewer than SMin core members, its lowest spare joins the core.
      It never runs out of spares. */
  method Promote(core: map<string, Peer>, spare: map<string, Peer>, smin: nat, m: nat)
    returns (vc: map<string, Peer>, vs: map<string, Peer>)
    requires OwnKeys(spare, m) && (forall k :: k in core ==> k !in spare) && |core| + |spare| >= smin
    ensures Topping(core, spare, vc, vs) && LowerMoved(core, vc, vs) && |vc| == Max(|core|, smin)
  {
    hide Parse, Less, Str, Topping, LowerMoved;
    vc, vs := core, spare;
    ToppingStart(core, spare);
    while |vc| < smin
      invariant Topping(core, spare, vc, vs) && LowerMoved(core, vc, vs) && |core| <= |vc| <= Max(|core|, smin)
                && |vc| + |vs| == |core| + |spare|
    {
      NonEmpty(vs);
      StillOwn(core, spare, vc, vs, m);
      var k := LowestOf(vs, m);
      var min := vs[k];
      ToppingStep(core, spare, vc, vs, k);
      LowerStep(core, vc, vs, k, min);
      AddSize(vc, k, min);
      RemoveSize(vs, k);
      vs := vs - {k};
      vc := vc[k := min];
    }
  }

  lemma ToppingStart<P>(core: map<string, P>, spare: map<string, P>)
    requires forall k :: k in core ==> k !in spare
    ensures Topping(core, spare, core, spare) && LowerMoved(core, core, spare)
  {
  }

  lemma StillOwn(core: map<string, Peer>, spare: map<string, Peer>, vc: map<string, Peer>, vs: map<string, Peer>,
                 m: nat)
    requires OwnKeys(spare, m) && Topping(core, spare, vc, vs)
    ensures OwnKeys(vs, m)
  {
  }

  /** One half of a split: side `b` of the members, topped up, and any of its core peers to copy from. */
  method MakeHalf(cfg: Config, c: Cluster, b: bool) returns (h: Half<Peer>)
    requires cfg.Ok() && OwnKeys(c.vc, cfg.m) && OwnKeys(c.vs, cfg.m) && (forall k :: k in c.vc ==> k !in c.vs)
    requires CanSplit(cfg, c.AsNode())
    ensures HalfOf(cfg, c.AsNode(), b, h)
  {
    hide Parse, Less, Str, Topping, LowerMoved, TopUp, Lowest;
    assert b in {false, true};
    var core := TakeSide(c.vc, c.lbl + [b], cfg.m);
    var spare := TakeSide(c.vs, c.lbl + [b], cfg.m);
    UnderOwn(c.vs, c.lbl + [b], cfg.m);
    var vc, vs := Promote(core, spare, cfg.smin, cfg.m);
    NonEmpty(vc);
    var pick :| pick in vc;
    h := Half(vc, vs, pick);
    ToppedUp(cfg.smin, core, spare, h);
  }

  lemma UnderOwn(mem: map<string, Peer>, l: Id, m: nat)
    requires OwnKeys(mem, m)
    ensures OwnKeys(Under(mem, l), m)
  {
    hide Parse, Str;
  }

  lemma ToppedUp<P>(smin: nat, core: map<string, P>, spare: map<string, P>, h: Half<P>)
    requires Topping(core, spare, h.vc, h.vs) && LowerMoved(core, h.vc, h.vs) && |h.vc| == Max(|core|, smin)
             && h.pick in h.vc
    ensures TopUp(smin, core, spare, h) && Lowest(core, h)
  {
  }

  // ---------------------------------------------------------------- copying the stores

  lemma SetStep<P, D>(keys: map<P, string>, data: map<P, D>, done: map<string, P>, k: string, p: P, d: D)
    requires p in data && p in keys && keys[p] == k && k !in done
    ensures SetData(keys, data, done[k := p], d) == SetData(keys, data, done, d)[p := d]
  {
  }

  lemma SetNone<P, D>(keys: map<P, string>, data: map<P, D>, d: D)
    ensures SetData(keys, data, map[], d) == data
  {
  }

  method FilterPick(reg: ClusterRegistry, q: Peer, l: Id)
    requires reg.OwnStores() && q in reg.peers
    modifies q.store
    ensures reg.Contents() == old(reg.Contents())[q := Filter(old(q.store.data), l)]
    ensures q.store.data == Filter(old(q.store.data), l)
  {
    hide Filter;
    q.store.Filter(l);
  }

  method ReplaceOne(reg: ClusterRegistry, peer: Peer, q: Peer)
    requires reg.OwnStores() && peer in reg.peers && q in reg.peers
    modifies peer`store
    ensures fresh(peer.store) && reg.OwnStores()
    ensures reg.Contents() == old(reg.Contents())[peer := old(reg.Contents())[q]]
  {
    var copy := q.store.Copy();
    peer.ReplaceData(copy);
  }

  /** Every core peer of a half, the copy peer included, gets its own copy of the copy peer's store. */
  method Replicate(reg: ClusterRegistry, vc: map<string, Peer>, q: Peer)
    requires reg.OwnStores() && q in reg.peers && (forall k :: k in vc ==> vc[k] in reg.peers && Str(vc[k].id) == k)
    modifies reg.peers`store
    ensures reg.OwnStores() && reg.Contents() == SetData(reg.Keys(), old(reg.Contents()), vc, old(q.store.data))
    ensures forall r :: r in reg.peers ==> r.store == old(r.store) || fresh(r.store)
  {
    hide Str, SetData, ClusterRegistry.OwnStores, ClusterRegistry.Contents, ClusterRegistry.Keys;
    ghost var keys, data := reg.Keys(), reg.Contents();
    reg.PeerSeen(q);
    ghost var d := q.store.data;
    ghost var done: map<string, Peer> := map[];
    SetNone(keys, data, d);
    var todo := vc.Keys;
    while todo != {}
      invariant todo <= vc.Keys
      invariant forall k :: k in done ==> k in vc && k !in todo && done[k] == vc[k]
      invariant forall k :: k in vc && k !in todo ==> k in done
      invariant reg.OwnStores() && reg.Contents() == SetData(keys, data, done, d)
      invariant q in reg.Contents() && reg.Contents()[q] == d
      invariant forall r :: r in reg.peers ==> r.store == old(r.store) || fresh(r.store)
    {
      var k :| k in todo;
      var peer := vc[k];
      reg.PeerSeen(peer);
      AtStart(keys, data, reg.Contents(), done, d);
      SetStep(keys, data, done, k, peer, d);
      ReplaceOne(reg, peer, q);
      done := done[k := peer];
      todo := todo - {k};
    }
    assert done == vc;
  }

  lemma AtStart<P, D>(keys: map<P, string>, data: map<P, D>, now: map<P, D>, done: map<string, P>, d: D)
    requires now == SetData(keys, data, done, d)
    ensures now.Keys == data.Keys
  {
  }

  /** Both copy peers drop the keys of the other side. */
  method FilterBoth(reg: ClusterRegistry, q0: Peer, q1: Peer, l0: Id, l1: Id)
    requires reg.OwnStores() && q0 in reg.peers && q1 in reg.peers && q0 != q1
    modifies reg.Stores()
    ensures reg.Contents() == old(reg.Contents())[q0 := Filter(old(q0.store.data), l0)]
                                                 [q1 := Filter(old(q1.store.data), l1)]
    ensures q0.store.data == Filter(old(q0.store.data), l0) && q1.store.data == Filter(old(q1.store.data), l1)
  {
    hide Filter, ClusterRegistry.Contents, ClusterRegistry.OwnStores;
    reg.StoreApart(q0, q1);
    reg.PeerSeen(q0);
    reg.PeerSeen(q1);
    FilterPick(reg, q0, l0);
    FilterPick(reg, q1, l1);
  }

  /** Each half's core copies its copy peer. */
  method ReplicateBoth(reg: ClusterRegistry, vc0: map<string, Peer>, vc1: map<string, Peer>, q0: Peer, q1: Peer)
    requires reg.OwnStores() && q0 in reg.peers && q1 in reg.peers
    requires (forall k :: k in vc0 ==> vc0[k] in reg.peers && Str(vc0[k].id) == k)
             && (forall k :: k in vc1 ==> vc1[k] in reg.peers && Str(vc1[k].id) == k)
    requires !Holds(reg.Keys(), vc0, q1)
    modifies reg.peers`store
    ensures reg.OwnStores()
    ensures reg.Contents() == SetData(reg.Keys(), SetData(reg.Keys(), old(reg.Contents()), vc0, old(q0.store.data)),
            vc1, old(q1.store.data))
    ensures forall r :: r in reg.peers ==> r.store == old(r.store) || fresh(r.store)
  {
    hide Str, SetData, ClusterRegistry.OwnStores, ClusterRegistry.Contents, ClusterRegistry.Keys, Holds;
    reg.PeerSeen(q1);
    NotSet(reg.Keys(), reg.Contents(), vc0, q0.store.data, q1);
    Replicate(reg, vc0, q0);
    reg.PeerSeen(q1);
    Replicate(reg, vc1, q1);
  }

  lemma NotSet<P, D>(keys: map<P, string>, data: map<P, D>, mem: map<string, P>, d: D, p: P)
    requires p in data && !Holds(keys, mem, p)
    ensures p in SetData(keys, data, mem, d) && SetData(keys, data, mem, d)[p] == data[p]
  {
  }

  lemma TwoCopies<P>(keys: map<P, string>, data: map<P, Data>, vc0: map<string, P>, vc1: map<string, P>, k0: string,
                     k1: string, d0: Data, d1: Data)
    requires Known(keys, data, vc0) && Known(keys, data, vc1) && k0 in vc0 && k1 in vc1
    requires forall k :: k in vc0 ==> k !in vc1
    ensures vc0[k0] != vc1[k1] && !Holds(keys, vc0, vc1[k1])
    ensures SetData(keys, SetData(keys, data[vc0[k0] := d0][vc1[k1] := d1], vc0, d0), vc1, d1)
            == SetData(keys, SetData(keys, data, vc0, d0), vc1, d1)
  {
  }

  /** Both copy peers drop the keys of the other side, then each half's core copies its copy peer. */
  method CopyStores(reg: ClusterRegistry, h0: Half<Peer>, h1: Half<Peer>, l0: Id, l1: Id)
    requires reg.OwnStores() && Known(reg.Keys(), reg.Contents(), h0.vc) && Known(reg.Keys(), reg.Contents(), h1.vc)
    requires h0.pick in h0.vc && h1.pick in h1.vc && forall k :: k in h0.vc ==> k !in h1.vc
    modifies reg.peers`store, reg.Stores()
    ensures reg.OwnStores()
    ensures reg.Contents() == SetData(reg.Keys(),
            SetData(reg.Keys(), old(reg.Contents()), h0.vc, Filter(old(h0.vc[h0.pick].store.data), l0)),
                                      h1.vc, Filter(old(h1.vc[h1.pick].store.data), l1))
    ensures forall r :: r in reg.peers ==> r.store == old(r.store) || fresh(r.store)
  {
    hide Str, SetData, Filter, Holds, ClusterRegistry.OwnStores, ClusterRegistry.Contents, ClusterRegistry.Keys, Known;
    var q0, q1 := h0.vc[h0.pick], h1.vc[h1.pick];
    reg.KnownFiled(h0.vc);
    reg.KnownFiled(h1.vc);
    TwoCopies(reg.Keys(), reg.Contents(), h0.vc, h1.vc, h0.pick, h1.pick, Filter(q0.store.data, l0),
      Filter(q1.store.data, l1));
    FilterBoth(reg, q0, q1, l0, l1);
    ReplicateBoth(reg, h0.vc, h1.vc, q0, q1);
  }

  // ---------------------------------------------------------------- the new cluster

  method AdoptOne(reg: ClusterRegistry, oc: Cluster, peer: Peer, t: PeerType)
    requires peer in reg.peers
    modifies peer`cluster, peer`peerType
    ensures reg.Homes() == old(reg.Homes())[peer := oc] && reg.Types() == old(reg.Types())[peer := t]
  {
    peer.SetCluster(oc);
    peer.SetType(t);
  }

  /** Members join `oc`, in the role `t`. */
  method Adopt(reg: ClusterRegistry, oc: Cluster, mem: map<string, Peer>, t: PeerType)
    requires forall k :: k in mem ==> mem[k] in reg.peers && Str(mem[k].id) == k
    modifies reg.peers`cluster, reg.peers`peerType
    ensures reg.Homes() == SetData(reg.Keys(), old(reg.Homes()), mem, oc)
    ensures reg.Types() == SetData(reg.Keys(), old(reg.Types()), mem, t)
  {
    hide Str, SetData, ClusterRegistry.Homes, ClusterRegistry.Types, ClusterRegistry.Keys;
    ghost var keys, homes, types := reg.Keys(), reg.Homes(), reg.Types();
    ghost var done: map<string, Peer> := map[];
    SetNone<Peer, Cluster?>(keys, homes, oc);
    SetNone(keys, types, t);
    var todo := mem.Keys;
    while todo != {}
      invariant todo <= mem.Keys
      invariant forall k :: k in done ==> k in mem && k !in todo && done[k] == mem[k]
      invariant forall k :: k in mem && k !in todo ==> k in done
      invariant reg.Homes() == SetData<Peer, Cluster?>(keys, homes, done, oc)
                && reg.Types() == SetData(keys, types, done, t)
    {
      var k :| k in todo;
      var peer := mem[k];
      reg.PeerSeen(peer);
      HomeSeen(reg, homes, types, done, oc, t, peer);
      SetStep<Peer, Cluster?>(keys, homes, done, k, peer, oc);
      SetStep(keys, types, done, k, peer, t);
      AdoptOne(reg, oc, peer, t);
      done := done[k := peer];
      todo := todo - {k};
    }
    assert done == mem;
  }

  lemma HomeSeen(reg: ClusterRegistry, homes: map<Peer, Cluster?>, types: map<Peer, PeerType>, done: map<string, Peer>,
                 oc: Cluster, t: PeerType, p: Peer)
    requires p in reg.peers && reg.Homes() == SetData<Peer, Cluster?>(reg.Keys(), homes, done, oc)
             && reg.Types() == SetData(reg.Keys(), types, done, t)
    ensures p in homes && p in types
  {
    assert p in reg.Homes() && p in reg.Types();
  }

  method SplitCluster(reg: ClusterRegistry, lbl: Id, vc: map<string, Peer>, vs: map<string, Peer>, rt: seq<Cluster>)
    returns (oc: Cluster)
    requires reg.cfg.Ok()
    requires (forall k :: k in vc ==> vc[k] in reg.peers && Str(vc[k].id) == k)
             && (forall k :: k in vs ==> vs[k] in reg.peers && Str(vs[k].id) == k)
    modifies reg.peers`cluster, reg.peers`peerType
    ensures fresh(oc) && oc.AsNode() == Node(lbl, rt, vc, vs, false, false)
    ensures oc.addHandler.threshold == Safety(reg.cfg.smin)
    ensures reg.Homes() == SetData(reg.Keys(), SetData(reg.Keys(), old(reg.Homes()), vc, oc), vs, oc)
    ensures reg.Types() == SetData(reg.Keys(), SetData(reg.Keys(), old(reg.Types()), vc, CORE), vs, SPARE)
    ensures reg.Contents() == old(reg.Contents()) && reg.Nodes() == old(reg.Nodes())
  {
    hide Str, SetData, ClusterRegistry.Homes, ClusterRegistry.Types, ClusterRegistry.Keys;
    oc := new Cluster(lbl, vc, vs, rt, Safety(reg.cfg.smin));
    Adopt(reg, oc, vc, CORE);
    Adopt(reg, oc, vs, SPARE);
  }

  method SetLabel(reg: ClusterRegistry, c: Cluster, lbl: Id)
    requires c in reg.known
    modifies reg`clusters, c`lbl
    ensures c.lbl == lbl && reg.clusters == (old(reg.clusters) - {Str(old(c.lbl))})[Str(lbl) := c]
    ensures reg.Nodes() == old(reg.Nodes())[c := old(c.AsNode()).(lbl := lbl)]
  {
    hide Str;
    reg.Update(lbl, c);
    c.lbl := lbl;
    assert forall x :: x in reg.known && x != c ==> x.AsNode() == old(x.AsNode());
  }

  method Shrink(reg: ClusterRegistry, c: Cluster, oc: Cluster, h0: Half<Peer>)
    requires c in reg.known
    modifies c`rt, c`vc, c`vs
    ensures reg.Nodes() == old(reg.Nodes())[c := old(c.AsNode()).(rt := old(c.rt) + [oc], vc := h0.vc, vs := h0.vs)]
  {
    c.rt := c.rt + [oc];
    c.vc := h0.vc;
    c.vs := h0.vs;
    assert forall x :: x in reg.known && x != c ==> x.AsNode() == old(x.AsNode());
  }

  /** The new cluster enters the registry, then the old one moves to its longer label and its half of the members. */
  method Install(reg: ClusterRegistry, c: Cluster, oc: Cluster, lbl: Id, h0: Half<Peer>)
    requires c in reg.known && oc !in reg.known && Str(oc.lbl) !in reg.clusters
    requires reg.Thresholds() && oc.addHandler.threshold == Safety(reg.cfg.smin)
    modifies reg`clusters, reg`known, c`lbl, c`rt, c`vc, c`vs
    ensures reg.Thresholds()
    ensures reg.known == old(reg.known) + {oc}
    ensures reg.clusters == (old(reg.clusters)[Str(old(oc.lbl)) := oc] - {Str(old(c.lbl))})[Str(lbl) := c]
    ensures reg.Nodes() == old(reg.Nodes())[oc := old(oc.AsNode())]
                                           [c := Node(lbl, old(c.rt) + [oc], h0.vc, h0.vs, c.merge, c.locked)]
    ensures reg.Contents() == old(reg.Contents()) && reg.Homes() == old(reg.Homes())
            && reg.OwnStores() == old(reg.OwnStores())
  {
    hide ClusterRegistry.Thresholds, Str, ClusterRegistry.OwnStores, ClusterRegistry.Nodes, Cluster.AsNode;
    Replace(reg, c, oc, lbl, h0);
    assert reg.Contents() == old(reg.Contents());
  }

  method Replace(reg: ClusterRegistry, c: Cluster, oc: Cluster, lbl: Id, h0: Half<Peer>)
    requires c in reg.known && oc !in reg.known && Str(oc.lbl) !in reg.clusters
    requires reg.Thresholds() && oc.addHandler.threshold == Safety(reg.cfg.smin)
    modifies reg`clusters, reg`known, c`lbl, c`rt, c`vc, c`vs
    ensures reg.Thresholds()
    ensures reg.known == old(reg.known) + {oc}
    ensures reg.clusters == (old(reg.clusters)[Str(old(oc.lbl)) := oc] - {Str(old(c.lbl))})[Str(lbl) := c]
    ensures reg.Nodes() == old(reg.Nodes())[oc := old(oc.AsNode())]
                                           [c := Node(lbl, old(c.rt) + [oc], h0.vc, h0.vs, c.merge, c.locked)]
  {
    hide Str, ClusterRegistry.Nodes;
    var ok := reg.Register(oc);
    AddKnown(reg, oc);
    SetLabel(reg, c, lbl);
    Shrink(reg, c, oc, h0);
  }

  ghost method AddKnown(reg: ClusterRegistry, oc: Cluster)
    modifies reg`known
    ensures reg.known == old(reg.known) + {oc} && reg.Nodes() == old(reg.Nodes())[oc := oc.AsNode()]
  {
    reg.known := reg.known + {oc};
  }

  lemma NoExtension(s: set<Id>, l: Id, b: bool)
    requires PrefixFree(s) && l in s
    ensures l + [b] !in s
  {
    assert l <= l + [b];
  }

  lemma LabelFree(v: Net<Cluster, Peer>, c: Cluster, b: bool)
    requires RegInv(v) && PrefixFree(Labels(v)) && c in v.nodes && Live(v, c)
    ensures Str(v.nodes[c].lbl + [b]) !in v.reg
  {
    hide Str;
    var own := v.nodes[c].lbl;
    assert own in Labels(v);
    NoExtension(Labels(v), own, b);
    if Str(own + [b]) in v.reg {
      ClusterRegistry.RegLive(v, Str(own + [b]));
      StrInjective(v.nodes[v.reg[Str(own + [b])]].lbl, own + [b]);
    }
  }

  // ---------------------------------------------------------------- types

  /** What SplitCluster does to the types: only the members of the new cluster are told their role. */
  ghost function Retyped<P>(keys: map<P, string>, types: map<P, PeerType>, h: Half<P>): map<P, PeerType> {
    SetData(keys, SetData(keys, types, h.vc, CORE), h.vs, SPARE)
  }

  lemma RetypedNew<P>(keys: map<P, string>, data: map<P, Data>, types: map<P, PeerType>, h: Half<P>)
    requires Known(keys, data, h.vc) && Known(keys, data, h.vs) && data.Keys == types.Keys
    requires forall k :: k in h.vc ==> k !in h.vs
    ensures RolesAgree(Retyped(keys, types, h), h.vc, h.vs)
  {
  }

  lemma RetypedOthers<P>(keys: map<P, string>, data: map<P, Data>, types: map<P, PeerType>, h: Half<P>,
                         mem: map<string, P>)
    requires Known(keys, data, mem) && data.Keys == types.Keys && forall k :: k in mem ==> !Has(h.vc, h.vs, k)
    ensures forall k :: k in mem ==> mem[k] in types && mem[k] in Retyped(keys, types, h)
                                     && Retyped(keys, types, h)[mem[k]] == types[mem[k]]
  {
  }

  lemma PromotedTypes<P>(smin: nat, types: map<P, PeerType>, core: map<string, P>, spare: map<string, P>, h: Half<P>)
    requires TopUp(smin, core, spare, h) && RolesAgree(types, core, spare)
    ensures forall k :: k in h.vc ==> (types[h.vc[k]] == CORE <==> k in core)
    ensures forall k :: k in h.vs ==> types[h.vs[k]] == SPARE
    ensures RolesAgree(types, h.vc, h.vs) <==> |core| >= smin
  {
    NoPromotionIff(smin, core, spare, h);
  }

  lemma UnderRoles<P>(types: map<P, PeerType>, vc: map<string, P>, vs: map<string, P>, l: Id)
    requires RolesAgree(types, vc, vs)
    ensures RolesAgree(types, Under(vc, l), Under(vs, l))
  {
    hide Parse;
  }

  /** If types agreed with roles before a split, they do in the new cluster, and in the cluster that stays
      exactly when SMin core members were on its side already: promoted spares are not told. */
  lemma SplitTypesIff<C, P>(cfg: Config, keys: map<P, string>, data: map<P, Data>, types: map<P, PeerType>,
                            n: Node<C, P>, h0: Half<P>, h1: Half<P>)
    requires Cell(cfg, keys, data, n.lbl, n.vc, n.vs, n.merging) && |n.lbl| < cfg.m
    requires HalfOf(cfg, n, false, h0) && HalfOf(cfg, n, true, h1) && data.Keys == types.Keys
    ensures RolesAgree(Retyped(keys, types, h1), h1.vc, h1.vs)
    ensures RolesAgree(types, n.vc, n.vs) ==>
              (RolesAgree(Retyped(keys, types, h1), h0.vc, h0.vs) <==> |Under(n.vc, n.lbl + [false])| >= cfg.smin)
  {
    hide RolesAgree, Retyped, Known, Under, TopUp, Lowest, Parse, Keyed, Replicas, AllHold;
    var l0 := n.lbl + [false];
    HalvesKnown(cfg, keys, data, n, h0, h1);
    RetypedNew(keys, data, types, h1);
    RetypedOthers(keys, data, types, h1, h0.vc);
    RetypedOthers(keys, data, types, h1, h0.vs);
    SameRoles(types, Retyped(keys, types, h1), h0.vc, h0.vs);
    if RolesAgree(types, n.vc, n.vs) {
      UnderRoles(types, n.vc, n.vs, l0);
      PromotedTypes(cfg.smin, types, Under(n.vc, l0), Under(n.vs, l0), h0);
    }
  }

  lemma SameRoles<P>(types: map<P, PeerType>, now: map<P, PeerType>, vc: map<string, P>, vs: map<string, P>)
    requires forall k :: k in vc ==> vc[k] in types && vc[k] in now && now[vc[k]] == types[vc[k]]
    requires forall k :: k in vs ==> vs[k] in types && vs[k] in now && now[vs[k]] == types[vs[k]]
    ensures RolesAgree(now, vc, vs) <==> RolesAgree(types, vc, vs)
  {
  }

  lemma HalvesKnown<C, P>(cfg: Config, keys: map<P, string>, data: map<P, Data>, n: Node<C, P>, h0: Half<P>,
                          h1: Half<P>)
    requires Cell(cfg, keys, data, n.lbl, n.vc, n.vs, n.merging) && |n.lbl| < cfg.m
    requires HalfOf(cfg, n, false, h0) && HalfOf(cfg, n, true, h1)
    ensures Known(keys, data, h0.vc) && Known(keys, data, h0.vs) && Known(keys, data, h1.vc) && Known(keys, data, h1.vs)
    ensures (forall k :: k in h1.vc ==> k !in h1.vs)
    ensures (forall k :: k in h0.vc ==> !Has(h1.vc, h1.vs, k)) && (forall k :: k in h0.vs ==> !Has(h1.vc, h1.vs, k))
  {
    hide Known, Under, Lowest, Parse, Keyed, Replicas, AllHold, TopUp, HalfOf, Has;
    var net: Net<C, P> := Net(cfg, map[], map[], keys, data);
    SplitKnown(net, n, h0, h1);
    HalvesApart(cfg, n, h0, h1);
    ApartHas(h0, h1);
    OneRole(cfg, keys, data, n, true, h1);
  }

  // ---------------------------------------------------------------- Split

  ghost predicate SplitParts(v: Net<Cluster, Peer>, c: Cluster, h0: Half<Peer>, h1: Half<Peer>) {
    && c in v.nodes && Live(v, c) && CanSplit(v.cfg, v.nodes[c])
    && HalfOf(v.cfg, v.nodes[c], false, h0) && HalfOf(v.cfg, v.nodes[c], true, h1)
    && h0.pick in h0.vc && h0.vc[h0.pick] in v.data && h1.pick in h1.vc && h1.vc[h1.pick] in v.data
  }

  /** Everything the heap steps of a split rely on. */
  lemma ReadyToSplit(v: Net<Cluster, Peer>, c: Cluster)
    requires Inv(v) && c in v.nodes && Live(v, c)
    ensures v.cfg.Ok() && |v.nodes[c].lbl| < v.cfg.m && Str(v.nodes[c].lbl + [true]) !in v.reg
    ensures NodeInv(v, v.nodes[c])
  {
    hide LinkInv, FlagInv, Str, Live, NodeInv;
    assert v.nodes[c].lbl in Labels(v);
    LabelFree(v, c, true);
  }

  lemma HalvesReady(v: Net<Cluster, Peer>, c: Cluster, h0: Half<Peer>, h1: Half<Peer>)
    requires c in v.nodes && Live(v, c) && NodeInv(v, v.nodes[c]) && |v.nodes[c].lbl| < v.cfg.m
             && CanSplit(v.cfg, v.nodes[c])
    requires HalfOf(v.cfg, v.nodes[c], false, h0) && HalfOf(v.cfg, v.nodes[c], true, h1)
    ensures SplitParts(v, c, h0, h1)
    ensures Known(v.keys, v.data, h0.vc) && Known(v.keys, v.data, h1.vc) && Known(v.keys, v.data, h1.vs)
    ensures forall k :: k in h0.vc ==> k !in h1.vc
  {
    hide Live, CanSplit, HalfOf, Known, Keyed, Replicas, AllHold;
    SplitKnown(v, v.nodes[c], h0, h1);
    HalvesApart(v.cfg, v.nodes[c], h0, h1);
    ApartCores(h0, h1);
  }

  lemma ApartCores<P>(h0: Half<P>, h1: Half<P>)
    requires Apart(h0, h1)
    ensures forall k :: k in h0.vc ==> k !in h1.vc
  {
    assert forall k :: k in h0.vc ==> Has(h0.vc, h0.vs, k);
  }

  ghost function SplitNet(v: Net<Cluster, Peer>, c: Cluster, oc: Cluster, h0: Half<Peer>, h1: Half<Peer>)
    : Net<Cluster, Peer>
    requires c in v.nodes && h0.pick in h0.vc && h0.vc[h0.pick] in v.data && h1.pick in h1.vc
             && h1.vc[h1.pick] in v.data
  {
    var n := v.nodes[c];
    var l0, l1 := n.lbl + [false], n.lbl + [true];
    v.(reg := (v.reg[Str(l1) := oc] - {Str(n.lbl)})[Str(l0) := c],
    nodes := v.nodes[oc := Node(l1, n.rt + [c], h1.vc, h1.vs, false, false)]
                    [c := Node(l0, n.rt + [oc], h0.vc, h0.vs, n.merging, n.locked)],
    data := SetData(v.keys, SetData(v.keys, v.data, h0.vc, Filter(v.data[h0.vc[h0.pick]], l0)), h1.vc,
      Filter(v.data[h1.vc[h1.pick]], l1)))
  }

  lemma SplitIsStep(v: Net<Cluster, Peer>, c: Cluster, oc: Cluster, h0: Half<Peer>, h1: Half<Peer>)
    requires SplitParts(v, c, h0, h1) && oc !in v.nodes
    ensures Enabled(v, Action.Split(c, oc, h0, h1))
            && SplitNet(v, c, oc, h0, h1) == Apply(v, Action.Split(c, oc, h0, h1))
  {
    hide Live, CanSplit, HalfOf, SetData, Filter, Str;
  }

  ghost function Resettled<P, C>(keys: map<P, string>, homes: map<P, C>, h: Half<P>, oc: C): map<P, C> {
    SetData(keys, SetData(keys, homes, h.vc, oc), h.vs, oc)
  }

  lemma HousesNew(keys: map<Peer, string>, data: map<Peer, Data>, homes: map<Peer, Cluster?>, h: Half<Peer>, c: Cluster,
                  oc: Cluster)
    requires Known(keys, data, h.vc) && Known(keys, data, h.vs) && Houses(homes, h.vc, c) && Houses(homes, h.vs, c)
    ensures Houses(Resettled(keys, homes, h, oc), h.vc, oc) && Houses(Resettled(keys, homes, h, oc), h.vs, oc)
  {
  }

  lemma HousesKept(keys: map<Peer, string>, data: map<Peer, Data>, homes: map<Peer, Cluster?>, h: Half<Peer>,
                   oc: Cluster, mem: map<string, Peer>, x: Cluster)
    requires Known(keys, data, mem) && Houses(homes, mem, x) && forall k :: k in mem ==> !Has(h.vc, h.vs, k)
    ensures Houses(Resettled(keys, homes, h, oc), mem, x)
  {
  }

  lemma HalfHoused(cfg: Config, n: Node<Cluster, Peer>, homes: map<Peer, Cluster?>, b: bool, h: Half<Peer>, c: Cluster)
    requires HalfOf(cfg, n, b, h) && Houses(homes, n.vc, c) && Houses(homes, n.vs, c)
    ensures Houses(homes, h.vc, c) && Houses(homes, h.vs, c)
  {
    hide Lowest, Parse;
  }

  lemma SplitStart(v: Net<Cluster, Peer>, act: Action<Cluster, Peer>)
    requires act.Split? && Enabled(v, act)
    ensures act.c in v.nodes && Live(v, act.c)
  {
  }

  lemma SplitHoused(v: Net<Cluster, Peer>, homes: map<Peer, Cluster?>, act: Action<Cluster, Peer>)
    requires Inv(v) && Housed(v, homes) && act.Split? && Enabled(v, act)
    ensures var homes' := Resettled(v.keys, homes, act.h1, act.oc);
            && Houses(homes', act.h0.vc, act.c) && Houses(homes', act.h0.vs, act.c)
            && Houses(homes', act.h1.vc, act.oc) && Houses(homes', act.h1.vs, act.oc)
  {
    hide Inv, Live, CanSplit, HalfOf, Houses, Resettled, Known, Keyed, Replicas, AllHold, Has;
    SplitStart(v, act);
    var n, h0, h1 := v.nodes[act.c], act.h0, act.h1;
    ReadyToSplit(v, act.c);
    HalfHoused(v.cfg, n, homes, false, h0, act.c);
    HalfHoused(v.cfg, n, homes, true, h1, act.c);
    SplitKnown(v, n, h0, h1);
    HalvesApart(v.cfg, n, h0, h1);
    ApartHas(h0, h1);
    HousesNew(v.keys, v.data, homes, h1, act.c, act.oc);
    HousesKept(v.keys, v.data, homes, h1, act.oc, h0.vc, act.c);
    HousesKept(v.keys, v.data, homes, h1, act.oc, h0.vs, act.c);
  }

  lemma ApartHas<P>(h0: Half<P>, h1: Half<P>)
    requires Apart(h0, h1)
    ensures (forall k :: k in h0.vc ==> !Has(h1.vc, h1.vs, k)) && (forall k :: k in h0.vs ==> !Has(h1.vc, h1.vs, k))
  {
    assert forall k :: k in h0.vc || k in h0.vs ==> Has(h0.vc, h0.vs, k);
  }

  lemma OtherResettled(v: Net<Cluster, Peer>, homes: map<Peer, Cluster?>, act: Action<Cluster, Peer>, x: Cluster)
    requires Inv(v) && Housed(v, homes) && act.Split? && Enabled(v, act) && x in v.nodes && Live(v, x) && x != act.c
    ensures var homes' := Resettled(v.keys, homes, act.h1, act.oc);
            && Houses(homes', v.nodes[x].vc, x)
            && Houses(homes', v.nodes[x].vs, x)
  {
    hide RegInv, LinkInv, FlagInv, Live, CanSplit, HalfOf, Houses, Resettled, Keyed, Replicas, AllHold;
    SplitStart(v, act);
    var n, q := v.nodes[act.c], v.nodes[x];
    ReadyToSplit(v, act.c);
    HalvesApart(v.cfg, n, act.h0, act.h1);
    MembersApart(v, act.c, x);
    assert NodeInv(v, q);
    HousesKept(v.keys, v.data, homes, act.h1, act.oc, q.vc, x);
    HousesKept(v.keys, v.data, homes, act.h1, act.oc, q.vs, x);
  }

  lemma WhoResettles(v: Net<Cluster, Peer>, homes: map<Peer, Cluster?>, act: Action<Cluster, Peer>)
    requires Inv(v) && act.Split? && Enabled(v, act)
    ensures var after := Resettled(v.keys, homes, act.h1, act.oc);
            && after.Keys == homes.Keys
            && forall p :: p in homes ==>
                 after[p] ==
                 if (exists k :: k in act.h1.vc && act.h1.vc[k] == p)
                    || (exists k :: k in act.h1.vs && act.h1.vs[k] == p)
                 then act.oc else homes[p]
  {
    hide Inv, Live, CanSplit, HalfOf, Keyed, Replicas, AllHold, Known, Resettled;
    SplitStart(v, act);
    ReadyToSplit(v, act.c);
    SplitKnown(v, v.nodes[act.c], act.h0, act.h1);
    Moving<Peer, Cluster?>(v.keys, v.data, homes, act.h1, act.oc);
  }

  lemma Moving<P, C>(keys: map<P, string>, data: map<P, Data>, homes: map<P, C>, h: Half<P>, oc: C)
    requires Known(keys, data, h.vc) && Known(keys, data, h.vs)
    ensures var after := Resettled(keys, homes, h, oc);
            && after.Keys == homes.Keys
            && forall p :: p in homes ==>
                 after[p] ==
                 if (exists k :: k in h.vc && h.vc[k] == p) || (exists k :: k in h.vs && h.vs[k] == p) then oc
                 else homes[p]
  {
  }

  /** After a split, the members of the new cluster belong to it and nobody else moved. */
  lemma HousedSplit(v: Net<Cluster, Peer>, homes: map<Peer, Cluster?>, act: Action<Cluster, Peer>)
    requires Inv(v) && Housed(v, homes) && act.Split? && Enabled(v, act)
    ensures Housed(Apply(v, act), Resettled(v.keys, homes, act.h1, act.oc))
    ensures Resettled(v.keys, homes, act.h1, act.oc).Keys == homes.Keys
    ensures forall p :: p in homes ==>
              Resettled(v.keys, homes, act.h1, act.oc)[p] ==
              if (exists k :: k in act.h1.vc && act.h1.vc[k] == p) || (exists k :: k in act.h1.vs && act.h1.vs[k] == p)
              then act.oc else homes[p]
  {
    hide Inv, Houses, Live, CanSplit, HalfOf, SetData, Resettled, Filter, Str, Labels, LinksLive, CompleteCode;
    WhoResettles(v, homes, act);
    SplitCode(v, act);
    SplitHoused(v, homes, act);
    forall x | x in v.nodes && Live(v, x) && x != act.c
      ensures var homes' := Resettled(v.keys, homes, act.h1, act.oc);
              && Houses(homes', v.nodes[x].vc, x)
              && Houses(homes', v.nodes[x].vs, x)
    {
      OtherResettled(v, homes, act, x);
    }
  }

  lemma CellOwnKeys(reg: ClusterRegistry, c: Cluster)
    requires Inv(reg.View()) && c in reg.known && reg.InService(c)
    ensures OwnKeys(c.vc, reg.cfg.m) && OwnKeys(c.vs, reg.cfg.m) && forall k :: k in c.vc ==> k !in c.vs
    ensures (forall k :: k in c.vc ==> c.lbl <= c.vc[k].id) && (forall k :: k in c.vs ==> c.lbl <= c.vs[k].id)
  {
    hide Parse, Str, Live, ClusterRegistry.Nodes, ClusterRegistry.InService;
    reg.MembersFiled(c);
    reg.NodeSeen(c);
    ReadyToSplit(reg.View(), c);
    var n := reg.View().nodes[c];
    FiledOwn(reg, n.lbl, c.vc);
    FiledOwn(reg, n.lbl, c.vs);
  }

  lemma FiledOwn(reg: ClusterRegistry, l: Id, mem: map<string, Peer>)
    requires Keyed(reg.cfg.m, l, mem) && forall k :: k in mem ==> Str(mem[k].id) == k
    ensures OwnKeys(mem, reg.cfg.m) && forall k :: k in mem ==> l <= mem[k].id
  {
    hide Parse, Str;
    forall k | k in mem
      ensures Parse(k) == mem[k].id && |k| == reg.cfg.m && l <= mem[k].id
    {
      StrRoundTrip(mem[k].id);
      assert GoodKey(reg.cfg.m, l, k);
    }
  }

  /** The heap steps of a split after the stores are copied. */
  method Settle(reg: ClusterRegistry, c: Cluster, h0: Half<Peer>, h1: Half<Peer>) returns (oc: Cluster)
    requires reg.cfg.Ok() && reg.Thresholds() && c in reg.known && Str(c.lbl + [true]) !in reg.clusters
             && |c.rt| == |c.lbl|
    requires forall k :: k in h1.vc ==> h1.vc[k] in reg.peers && Str(h1.vc[k].id) == k
    requires forall k :: k in h1.vs ==> h1.vs[k] in reg.peers && Str(h1.vs[k].id) == k
    modifies reg`clusters, reg`known, c`lbl, c`rt, c`vc, c`vs, reg.peers`cluster, reg.peers`peerType
    ensures reg.Thresholds()
    ensures oc !in old(reg.known) && fresh(oc) && reg.known == old(reg.known) + {oc}
    ensures var l0, l1 := old(c.lbl) + [false], old(c.lbl) + [true];
            && reg.clusters == (old(reg.clusters)[Str(l1) := oc] - {Str(old(c.lbl))})[Str(l0) := c]
            && reg.Nodes() == old(reg.Nodes())[oc := Node(l1, old(c.rt) + [c], h1.vc, h1.vs, false, false)]
                                              [c := Node(l0, old(c.rt) + [oc], h0.vc, h0.vs, c.merge, c.locked)]
    ensures reg.Homes() == Resettled(reg.Keys(), old(reg.Homes()), h1, oc)
    ensures reg.Contents() == old(reg.Contents()) && reg.OwnStores() == old(reg.OwnStores())
    ensures reg.Types() == Retyped(reg.Keys(), old(reg.Types()), h1)
  {
    hide ClusterRegistry.Thresholds, Str, SetData, ClusterRegistry.OwnStores, ClusterRegistry.Contents,
         ClusterRegistry.Keys, ClusterRegistry.Nodes, ClusterRegistry.Stores, ClusterRegistry.Homes,
         ClusterRegistry.Types;
    var l0, l1 := c.lbl + [false], c.lbl + [true];
    var rt := c.rt[..|c.lbl|] + [c];
    assert c.rt[..|c.lbl|] == c.rt;
    oc := SplitCluster(reg, l1, h1.vc, h1.vs, rt);
    Install(reg, c, oc, l0, h0);
  }

  /** The heap steps of a split, once the halves are chosen. */
  method SplitHeap(reg: ClusterRegistry, c: Cluster, h0: Half<Peer>, h1: Half<Peer>) returns (oc: Cluster)
    requires reg.cfg.Ok() && reg.Thresholds() && reg.OwnStores() && c in reg.known && |c.rt| == |c.lbl|
             && Str(c.lbl + [true]) !in reg.clusters
    requires Known(reg.Keys(), reg.Contents(), h0.vc) && Known(reg.Keys(), reg.Contents(), h1.vc)
             && Known(reg.Keys(), reg.Contents(), h1.vs)
    requires h0.pick in h0.vc && h1.pick in h1.vc && forall k :: k in h0.vc ==> k !in h1.vc
    modifies reg`clusters, reg`known, c`lbl, c`rt, c`vc, c`vs, reg.peers`cluster, reg.peers`peerType, reg.peers`store,
             reg.Stores()
    ensures reg.Thresholds()
    ensures oc !in old(reg.known) && fresh(oc) && reg.known == old(reg.known) + {oc} && reg.OwnStores()
    ensures var l0, l1 := old(c.lbl) + [false], old(c.lbl) + [true];
            && reg.clusters == (old(reg.clusters)[Str(l1) := oc] - {Str(old(c.lbl))})[Str(l0) := c]
            && reg.Nodes() == old(reg.Nodes())[oc := Node(l1, old(c.rt) + [c], h1.vc, h1.vs, false, false)]
                                              [c := Node(l0, old(c.rt) + [oc], h0.vc, h0.vs, c.merge, c.locked)]
            && reg.Contents() == SetData(reg.Keys(),
               SetData(reg.Keys(), old(reg.Contents()), h0.vc, Filter(old(h0.vc[h0.pick].store.data), l0)),
                                         h1.vc, Filter(old(h1.vc[h1.pick].store.data), l1))
    ensures reg.Homes() == Resettled(reg.Keys(), old(reg.Homes()), h1, oc)
    ensures reg.Types() == Retyped(reg.Keys(), old(reg.Types()), h1)
  {
    hide ClusterRegistry.Thresholds, Str, SetData, Filter, ClusterRegistry.OwnStores, ClusterRegistry.Contents,
         ClusterRegistry.Keys, ClusterRegistry.Nodes, ClusterRegistry.Stores, ClusterRegistry.Homes,
         ClusterRegistry.Types, Known, Resettled, Retyped;
    reg.KnownFiled(h1.vc);
    reg.KnownFiled(h1.vs);
    CopyStores(reg, h0, h1, c.lbl + [false], c.lbl + [true]);
    oc := Settle(reg, c, h0, h1);
  }

  method HalfSeen(reg: ClusterRegistry, c: Cluster, b: bool) returns (h: Half<Peer>)
    requires reg.cfg.Ok() && OwnKeys(c.vc, reg.cfg.m) && OwnKeys(c.vs, reg.cfg.m)
             && (forall k :: k in c.vc ==> k !in c.vs)
    requires CanSplit(reg.cfg, c.AsNode())
    ensures HalfOf(reg.cfg, c.AsNode(), b, h)
    ensures reg.View() == old(reg.View()) && (forall p :: p in reg.peers ==> p.store.data == old(p.store.data))
  {
    hide Parse, Less, Str, HalfOf, CanSplit, OwnKeys;
    h := MakeHalf(reg.cfg, c, b);
    assert reg.Contents() == old(reg.Contents());
  }

  method MakeHalves(reg: ClusterRegistry, c: Cluster) returns (h0: Half<Peer>, h1: Half<Peer>)
    requires reg.Valid() && c in reg.known && reg.InService(c) && CanSplit(reg.cfg, c.AsNode())
    ensures SplitParts(reg.View(), c, h0, h1)
    ensures Known(reg.Keys(), reg.Contents(), h0.vc) && Known(reg.Keys(), reg.Contents(), h1.vc)
            && Known(reg.Keys(), reg.Contents(), h1.vs)
    ensures reg.Contents()[h0.vc[h0.pick]] == h0.vc[h0.pick].store.data
            && reg.Contents()[h1.vc[h1.pick]] == h1.vc[h1.pick].store.data
    ensures forall k :: k in h0.vc ==> k !in h1.vc
    ensures reg.View() == old(reg.View())
  {
    hide Inv, Str, Housed, CanSplit, HalfOf, OwnKeys, Known, ClusterRegistry.OwnStores, ClusterRegistry.Contents,
         ClusterRegistry.Keys, ClusterRegistry.Nodes;
    ghost var v := reg.View();
    reg.NodeSeen(c);
    ReadyToSplit(v, c);
    CellOwnKeys(reg, c);
    h0 := HalfSeen(reg, c, false);
    h1 := HalfSeen(reg, c, true);
    HalvesReady(v, c, h0, h1);
    PickSeen(reg, h0);
    PickSeen(reg, h1);
  }

  method SplitView(reg: ClusterRegistry, c: Cluster, h0: Half<Peer>, h1: Half<Peer>) returns (oc: Cluster)
    requires reg.cfg.Ok() && reg.Thresholds() && reg.OwnStores() && c in reg.known && |c.rt| == |c.lbl|
             && Str(c.lbl + [true]) !in reg.clusters
    requires Known(reg.Keys(), reg.Contents(), h0.vc) && Known(reg.Keys(), reg.Contents(), h1.vc)
             && Known(reg.Keys(), reg.Contents(), h1.vs)
    requires SplitParts(reg.View(), c, h0, h1) && forall k :: k in h0.vc ==> k !in h1.vc
    requires reg.Contents()[h0.vc[h0.pick]] == h0.vc[h0.pick].store.data
             && reg.Contents()[h1.vc[h1.pick]] == h1.vc[h1.pick].store.data
    modifies reg`clusters, reg`known, c`lbl, c`rt, c`vc, c`vs, reg.peers`cluster, reg.peers`peerType, reg.peers`store,
             reg.Stores()
    ensures reg.Thresholds()
    ensures oc !in old(reg.View()).nodes && fresh(oc) && reg.known == old(reg.known) + {oc} && reg.OwnStores()
    ensures reg.View() == SplitNet(old(reg.View()), c, oc, h0, h1)
    ensures reg.Homes() == Resettled(reg.Keys(), old(reg.Homes()), h1, oc) && reg.Keys() == old(reg.Keys())
    ensures reg.Types() == Retyped(reg.Keys(), old(reg.Types()), h1)
  {
    hide ClusterRegistry.Thresholds, Str, SetData, Filter, Resettled, Retyped, Known, CanSplit, HalfOf, Live,
         ClusterRegistry.OwnStores, ClusterRegistry.Contents, ClusterRegistry.Keys, ClusterRegistry.Nodes,
         ClusterRegistry.Homes, ClusterRegistry.Types, ClusterRegistry.Stores;
    reg.NodeSeen(c);
    oc := SplitHeap(reg, c, h0, h1);
  }

  /** Split: both halves end up as clusters in service, as the step of the value model says. Peers move to the
      new cluster with their roles; a spare promoted in the half that stays is not told. */
  method Split(reg: ClusterRegistry, c: Cluster) returns (ghost act: Action<Cluster, Peer>)
    requires reg.Valid() && c in reg.known && reg.InService(c) && CanSplit(reg.cfg, c.AsNode())
    modifies reg`clusters, reg`known, c`lbl, c`rt, c`vc, c`vs, reg.peers`cluster, reg.peers`peerType, reg.peers`store,
             reg.Stores()
    ensures act.Split? && act.c == c && fresh(act.oc) && reg.known == old(reg.known) + {act.oc}
    ensures Enabled(old(reg.View()), act) && reg.View() == Apply(old(reg.View()), act)
    ensures reg.Valid()
    ensures c.AsNode() == Node(old(c.lbl) + [false], old(c.rt) + [act.oc], act.h0.vc, act.h0.vs, old(c.merge),
            old(c.locked))
    ensures act.oc.AsNode() == Node(old(c.lbl) + [true], old(c.rt) + [c], act.h1.vc, act.h1.vs, false, false)
    ensures RolesAgree(reg.Types(), act.oc.vc, act.oc.vs)
    ensures old(RolesAgree(reg.Types(), c.vc, c.vs)) ==>
              (RolesAgree(reg.Types(), c.vc, c.vs) <==> |Under(old(c.vc), old(c.lbl) + [false])| >= reg.cfg.smin)
    ensures reg.Types() == Retyped(reg.Keys(), old(reg.Types()), act.h1)
  {
    hide ClusterRegistry.Thresholds, Inv, Enabled, Apply, Str, Housed, SetData, Filter, CanSplit, Resettled,
         SplitParts, SplitNet, Known, RolesAgree, Retyped, Under, ClusterRegistry.OwnStores, ClusterRegistry.Contents,
         ClusterRegistry.Keys, ClusterRegistry.Nodes, ClusterRegistry.Homes, ClusterRegistry.Types,
         ClusterRegistry.Stores;
    ghost var v, homes, types := reg.View(), reg.Homes(), reg.Types();
    BeforeSplit(reg, c);
    reg.NodeSeen(c);
    TypesKnown(reg);
    var h0, h1 := MakeHalves(reg, c);
    var oc := SplitView(reg, c, h0, h1);
    act := Action.Split(c, oc, h0, h1);
    AfterSplitting(v, homes, c, oc, h0, h1);
    SplitTypes(v, types, c, oc, h0, h1);
    reg.NodeSeen(c);
    reg.NodeSeen(oc);
    HalvesAre(v, c, oc, h0, h1);
  }

  lemma HalvesAre(v: Net<Cluster, Peer>, c: Cluster, oc: Cluster, h0: Half<Peer>, h1: Half<Peer>)
    requires SplitParts(v, c, h0, h1) && oc != c
    ensures var w, n := SplitNet(v, c, oc, h0, h1), v.nodes[c];
            && oc in w.nodes && c in w.nodes
            && w.nodes[oc] == Node(n.lbl + [true], n.rt + [c], h1.vc, h1.vs, false, false)
            && w.nodes[c] == Node(n.lbl + [false], n.rt + [oc], h0.vc, h0.vs, n.merging, n.locked)
  {
    hide Live, CanSplit, HalfOf, SetData, Filter, Str;
  }

  lemma SplitTypes(v: Net<Cluster, Peer>, types: map<Peer, PeerType>, c: Cluster, oc: Cluster, h0: Half<Peer>,
                   h1: Half<Peer>)
    requires Inv(v) && SplitParts(v, c, h0, h1) && oc !in v.nodes && types.Keys == v.data.Keys
    ensures var w, n := SplitNet(v, c, oc, h0, h1), v.nodes[c];
            && RolesAgree(Retyped(v.keys, types, h1), w.nodes[oc].vc, w.nodes[oc].vs)
            && (RolesAgree(types, n.vc, n.vs) ==>
                  (RolesAgree(Retyped(v.keys, types, h1), w.nodes[c].vc, w.nodes[c].vs)
                   <==> |Under(n.vc, n.lbl + [false])| >= v.cfg.smin))
  {
    hide Inv, Live, CanSplit, HalfOf, RolesAgree, Retyped, Under, Cell, SetData, Filter, Str;
    ReadyToSplit(v, c);
    SplitTypesIff(v.cfg, v.keys, v.data, types, v.nodes[c], h0, h1);
  }

  lemma BeforeSplit(reg: ClusterRegistry, c: Cluster)
    requires reg.Valid() && c in reg.known && reg.InService(c)
    ensures reg.cfg.Ok() && |c.rt| == |c.lbl| && Str(c.lbl + [true]) !in reg.clusters
  {
    hide Inv, Str, Housed, ClusterRegistry.OwnStores;
    reg.NodeSeen(c);
    reg.TableFits(c);
    ReadyToSplit(reg.View(), c);
  }

  lemma AfterSplitting(v: Net<Cluster, Peer>, homes: map<Peer, Cluster?>, c: Cluster, oc: Cluster, h0: Half<Peer>,
                       h1: Half<Peer>)
    requires Inv(v) && Housed(v, homes) && SplitParts(v, c, h0, h1) && oc !in v.nodes
    ensures var act, w := Action.Split(c, oc, h0, h1), SplitNet(v, c, oc, h0, h1);
            Enabled(v, act) && w == Apply(v, act) && Inv(w) && Housed(w, Resettled(v.keys, homes, h1, oc))
  {
    hide Inv, Enabled, Apply, Housed, SplitParts, Resettled;
    var act := Action.Split(c, oc, h0, h1);
    SplitIsStep(v, c, oc, h0, h1);
    StepKeeps(v, act);
    HousedSplit(v, homes, act);
  }

  lemma PickSeen(reg: ClusterRegistry, h: Half<Peer>)
    requires h.pick in h.vc && h.vc[h.pick] in reg.Contents()
    ensures reg.Contents()[h.vc[h.pick]] == h.vc[h.pick].store.data
  {
  }
}
