/** Clusters, peers and the registry as the objects the simulation mutates, seen as a value of Network.dfy,
    and the repair of routing tables. */
module Objects {
  import opened Ids
  import opened PrefixCode
  import opened Network
  import opened Invariant
  import opened DataStore
  import opened Votes

  datatype PeerType = UNDEF | CORE | TEMP | SPARE

  /** put compares with the empty string where the key is missing. */
  predicate Unchanged(d: Data, x: string, val: string) {
    (if x in d then d[x] else "") == val
  }

  /** That answers whether the key held the value, exactly unless the value is empty and the key is missing. */
  lemma UnchangedIff(d: Data, x: string, val: string)
    ensures (Unchanged(d, x, val) <==> x in d && d[x] == val) <==> val != "" || x in d
  {
  }

  /** The empty string put under a missing key changes the store and yet counts as there already. */
  lemma EmptyPutUnnoticed()
    ensures var d: Data := map[]; Unchanged(d, "0", "") && "0" !in d && d["0" := ""] != d
  {
    var d: Data := map[];
    assert "0" in d["0" := ""];
  }

  class Peer {
    const id: Id
    var peerType: PeerType
    var cluster: Cluster?
    var store: MapWrapper

    constructor (id: Id)
      ensures this.id == id && peerType == UNDEF && cluster == null && fresh(store) && store.data == map[]
    {
      this.id := id;
      peerType := UNDEF;
      cluster := null;
      store := new MapWrapper(map[]);
    }

    method SetCluster(c: Cluster)
      modifies this`cluster
      ensures cluster == c
    {
      cluster := c;
    }

    method SetType(t: PeerType)
      modifies this`peerType
      ensures peerType == t
    {
      peerType := t;
    }

    method SetClusterType(c: Cluster, t: PeerType)
      modifies this`cluster, this`peerType
      ensures cluster == c && peerType == t
    {
      cluster := c;
      peerType := t;
    }

    method ReplaceData(data: MapWrapper)
      modifies this`store
      ensures store == data
    {
      store := data;
    }

    /** Whether the value counts as there already. */
    method Put(id: Id, val: string) returns (same: bool)
      modifies store
      ensures store.data == old(store.data)[Str(id) := val]
      ensures same <==> Unchanged(old(store.data), Str(id), val)
    {
      var key := String(id);
      var was := store.Swap(key, val);
      return was == val;
    }

    method Get(id: Id) returns (val: string, found: bool)
      ensures found <==> Str(id) in store.data
      ensures val == if found then store.data[Str(id)] else ""
    {
      var key := String(id);
      val, found := store.Get(key);
    }

    method Delete(id: Id) returns (val: string, found: bool)
      modifies store
      ensures found <==> Str(id) in old(store.data)
      ensures val == if found then old(store.data)[Str(id)] else ""
      ensures store.data == old(store.data) - {Str(id)}
    {
      var key := String(id);
      val, found := store.Delete(key);
    }
  }

  class Cluster {
    var lbl: Id
    var merge: bool
    var locked: bool
    var vc: map<string, Peer>
    var vs: map<string, Peer>
    var rt: seq<Cluster>
    var addHandler: PeerHandler<Peer>

    constructor (lbl: Id, vc: map<string, Peer>, vs: map<string, Peer>, rt: seq<Cluster>, safety: nat)
      ensures this.lbl == lbl && this.vc == vc && this.vs == vs && this.rt == rt && !merge && !locked
      ensures fresh(addHandler) && addHandler.threshold == safety && addHandler.freq == map[]
    {
      this.lbl := lbl;
      this.merge := false;
      this.locked := false;
      this.vc := vc;
      this.vs := vs;
      this.rt := rt;
      this.addHandler := new PeerHandler<Peer>(safety);
    }

    ghost function AsNode(): Node<Cluster, Peer>
      reads this
    {
      Node(lbl, rt, vc, vs, merge, locked)
    }
  }

  /** Members of a cluster in service point back at it. */
  ghost predicate Housed(net: Net<Cluster, Peer>, homes: map<Peer, Cluster?>) {
    forall c :: c in net.nodes && Live(net, c) ==>
        Houses(homes, net.nodes[c].vc, c) && Houses(homes, net.nodes[c].vs, c)
  }

  ghost predicate Houses(homes: map<Peer, Cluster?>, mem: map<string, Peer>, c: Cluster) {
    forall k :: k in mem ==> mem[k] in homes && homes[mem[k]] == c
  }

  /** Every core peer says it is core, every spare that it is a spare. */
  ghost predicate RolesAgree<P>(types: map<P, PeerType>, vc: map<string, P>, vs: map<string, P>) {
    && (forall k :: k in vc ==> vc[k] in types && types[vc[k]] == CORE)
    && (forall k :: k in vs ==> vs[k] in types && types[vs[k]] == SPARE)
  }

  class ClusterRegistry {
    const cfg: Config
    var clusters: map<string, Cluster>
    ghost var known: set<Cluster>
    ghost var peers: set<Peer>

    constructor (cfg: Config)
      ensures this.cfg == cfg && clusters == map[] && known == {} && peers == {}
    {
      this.cfg := cfg;
      clusters := map[];
      known, peers := {}, {};
    }

    ghost function Nodes(): map<Cluster, Node<Cluster, Peer>>
      reads this`known, known
    {
      map c | c in known :: c.AsNode()
    }

    ghost function Keys(): map<Peer, string>
      reads this`peers
    {
      map p | p in peers :: Str(p.id)
    }

    ghost function Stores(): set<MapWrapper>
      reads this`peers, peers`store
    {
      set p | p in peers :: p.store
    }

    ghost function Contents(): map<Peer, Data>
      reads this`peers, peers`store, Stores()
    {
      map p | p in peers :: p.store.data
    }

    ghost function View(): Net<Cluster, Peer>
      reads this, known, peers, Stores()
    {
      Net(cfg, clusters, Nodes(), Keys(), Contents())
    }

    ghost predicate Valid()
      reads this, known, peers, Stores()
    {
      Inv(View()) && OwnStores() && Housed(View(), Homes()) && Thresholds()
    }

    /** Every cluster admits a peer on the vote after SafteyValue others. */
    ghost predicate Thresholds()
      reads this`known, known`addHandler
    {
      0 < cfg.smin && forall c :: c in known ==> c.addHandler.threshold == Safety(cfg.smin)
    }

    /** Distinct peers own distinct store objects. */
    ghost predicate OwnStores()
      reads this`peers, peers`store
    {
      forall p, q :: p in peers && q in peers && p != q ==> p.store != q.store
    }

    ghost predicate InService(c: Cluster)
      reads this`clusters, c`lbl
    {
      Str(c.lbl) in clusters && clusters[Str(c.lbl)] == c
    }

    /** Where each peer says it belongs. */
    ghost function Homes(): map<Peer, Cluster?>
      reads this`peers, peers`cluster
    {
      map r | r in peers :: r.cluster
    }

    ghost function Types(): map<Peer, PeerType>
      reads this`peers, peers`peerType
    {
      map r | r in peers :: r.peerType
    }

    method Update(newlabel: Id, c: Cluster)
      modifies this`clusters
      ensures clusters == (old(clusters) - {Str(c.lbl)})[Str(newlabel) := c]
    {
      var was := String(c.lbl);
      clusters := clusters - {was};
      var now := String(newlabel);
      clusters := clusters[now := c];
    }

    method Merge(a: Cluster, b: Cluster, c: Cluster)
      modifies this`clusters
      ensures clusters == (old(clusters) - {Str(a.lbl), Str(b.lbl)})[Str(c.lbl) := c]
    {
      var ka := String(a.lbl);
      clusters := clusters - {ka};
      var kb := String(b.lbl);
      clusters := clusters - {kb};
      assert clusters == old(clusters) - {ka, kb};
      var kc := String(c.lbl);
      clusters := clusters[kc := c];
    }

    /** A label another cluster already holds is refused. */
    method Register(c: Cluster) returns (ok: bool)
      modifies this`clusters
      ensures ok <==> !(Str(c.lbl) in old(clusters) && old(clusters)[Str(c.lbl)] != c)
      ensures clusters == if ok then old(clusters)[Str(c.lbl) := c] else old(clusters)
    {
      var k := String(c.lbl);
      if k in clusters && clusters[k] != c {
        return false;
      }
      clusters := clusters[k := c];
      return true;
    }

    /** One scan of FixAllRT: over all other clusters, in any order, keeping the nearest seen so far. */
    method ScanNearest(c: Cluster, ideal: Id, start: Cluster?) returns (min: Cluster?)
      requires start != null ==> start != c && start in clusters.Values
      ensures min != null ==> min != c && min in clusters.Values
      ensures forall k :: k in clusters && clusters[k] != c ==> min != null && !Closer(ideal, clusters[k].lbl, min.lbl)
    {
      min := start;
      var todo := clusters.Keys;
      while todo != {}
        invariant todo <= clusters.Keys
        invariant min != null ==> min != c && min in clusters.Values
        invariant forall k :: k in clusters && k !in todo && clusters[k] != c ==>
                    min != null && !Closer(ideal, clusters[k].lbl, min.lbl)
      {
        var k :| k in todo;
        var rc := clusters[k];
        if rc != c {
          if min == null {
            LessIrreflexive(Xor(ideal, rc.lbl));
            min := rc;
          } else {
            var dm := Distance(min.lbl, ideal);
            var dr := Distance(rc.lbl, ideal);
            XorSymmetric(min.lbl, ideal);
            XorSymmetric(rc.lbl, ideal);
            var further := Gt(dm, dr);
            if further {
              forall j | j in clusters && j !in todo && clusters[j] != c
                ensures !Closer(ideal, clusters[j].lbl, rc.lbl)
              {
                if Closer(ideal, clusters[j].lbl, rc.lbl) {
                  CloserTransitive(ideal, clusters[j].lbl, rc.lbl, min.lbl);
                }
              }
              LessIrreflexive(Xor(ideal, rc.lbl));
              min := rc;
            }
          }
        }
        todo := todo - {k};
      }
    }

    /** The labels and registry are those of `v`; only routing tables may differ. */
    ghost predicate Reads(v: Net<Cluster, Peer>)
      reads this, known
    {
      v.cfg == cfg && v.reg == clusters && v.nodes.Keys == known && forall c :: c in known ==> c.lbl == v.nodes[c].lbl
    }

    static ghost predicate Repairable(v: Net<Cluster, Peer>) {
      RegInv(v) && CompleteCode(Labels(v), v.cfg.m)
    }

    static ghost predicate GoodTable(v: Net<Cluster, Peer>, own: Id, rt: seq<Cluster>) {
      |rt| <= |own| && forall i :: 0 <= i < |rt| ==> GoodSlot(v, own, i, rt[i])
    }

    static ghost predicate GoodSlot(v: Net<Cluster, Peer>, own: Id, i: nat, d: Cluster)
      requires i < |own|
    {
      d in v.nodes && Live(v, d) && Nearest(Labels(v), own, i, v.nodes[d].lbl)
    }

    lemma ScanIsNearest(v: Net<Cluster, Peer>, c: Cluster, i: nat, min: Cluster?)
      requires Repairable(v) && Reads(v) && c in known && Live(v, c) && i < |c.lbl|
      requires min != null ==> min != c && min in clusters.Values
      requires forall k :: k in clusters && clusters[k] != c ==>
                 min != null && !Closer(Flip(c.lbl, i), clusters[k].lbl, min.lbl)
      ensures min != null && GoodSlot(v, c.lbl, i, min)
    {
      var own, s := c.lbl, Labels(v);
      assert own in s;
      var l := AcrossAt(s, cfg.m, own, i);
      LabelOwner(v, l);
      assert min != null;
      forall y | y in s && y != own
        ensures !Closer(Flip(own, i), y, min.lbl)
      {
        LabelOwner(v, y);
      }
      var k :| k in clusters && clusters[k] == min;
      assert Live(v, min);
    }

    /** The pass over one cluster's table; the nearest cluster so far is carried from slot to slot. */
    method FixTable(ghost v: Net<Cluster, Peer>, c: Cluster)
      requires Repairable(v) && Reads(v) && c in known && Live(v, c) && |c.rt| == |c.lbl|
      modifies c`rt
      ensures |c.rt| == |c.lbl| && GoodTable(v, c.lbl, c.rt)
    {
      var min: Cluster? := null;
      for i := 0 to |c.rt|
        invariant |c.rt| == |c.lbl|
        invariant min != null ==> min != c && min in clusters.Values
        invariant forall j :: 0 <= j < i ==> GoodSlot(v, c.lbl, j, c.rt[j])
      {
        var ideal := Flip(c.lbl, i);
        min := ScanNearest(c, ideal, min);
        ScanIsNearest(v, c, i, min);
        c.rt := c.rt[i := min];
      }
    }

    /** Members are known peers filed under their own keys, each in one role. */
    ghost predicate Filed(c: Cluster)
      reads this`peers, c`vc, c`vs
    {
      && (forall k :: k in c.vc ==> c.vc[k] in peers && Str(c.vc[k].id) == k)
      && (forall k :: k in c.vs ==> c.vs[k] in peers && Str(c.vs[k].id) == k && k !in c.vc)
    }

    lemma MembersFiled(c: Cluster)
      requires Inv(View()) && c in known && InService(c)
      ensures Filed(c)
    {
      hide RegInv, LinkInv, FlagInv, CompleteCode, Parse, Str, Replicas, AllHold, Keyed, Sizes;
      assert Live(View(), c);
      assert NodeInv(View(), View().nodes[c]);
    }

    lemma NodeSeen(c: Cluster)
      requires c in known
      ensures c in Nodes() && Nodes()[c] == c.AsNode() && Nodes().Keys == known
      ensures Live(View(), c) <==> InService(c)
    {
      hide Str;
    }

    lemma KnownNodes()
      ensures Nodes().Keys == known
    {
    }

    lemma ReadyToRepair()
      requires Inv(View())
      ensures Repairable(View()) && forall c :: c in known && Live(View(), c) ==> |c.rt| == |c.lbl|
    {
      hide RegInv, MemberInv, FlagInv, CompleteCode, Str, Labels;
      forall c | c in known && Live(View(), c)
        ensures |c.rt| == |c.lbl|
      {
        assert NodeLinks(View(), c);
      }
    }

    lemma TableFits(c: Cluster)
      requires Valid() && c in known
      ensures |c.rt| == |c.lbl| && forall i :: 0 <= i < |c.rt| ==> c.rt[i] in known
    {
      hide RegInv, MemberInv, FlagInv, CompleteCode, Str, Labels;
      assert NodeLinks(View(), c);
    }

    lemma KnownFiled(mem: map<string, Peer>)
      requires Known(Keys(), Contents(), mem)
      ensures forall k :: k in mem ==> mem[k] in peers && Str(mem[k].id) == k
    {
    }

    lemma PeerSeen(p: Peer)
      requires p in peers
      ensures p in Keys() && Keys()[p] == Str(p.id) && p in Contents() && Contents()[p] == p.store.data
    {
    }

    lemma StoreApart(p: Peer, q: Peer)
      requires OwnStores() && p in peers && q in peers && p != q
      ensures p.store != q.store
    {
    }

    /** No operation at a cluster in service finds it locked for good. */
    lemma ServiceUnlocked(c: Cluster)
      requires Valid() && c in known && InService(c)
      ensures !c.locked
    {
      hide RegInv, LinkInv, MemberInv, CompleteCode, Str;
      NodeSeen(c);
      assert View().nodes[c] == c.AsNode();
    }

    static lemma RegLive(v: Net<Cluster, Peer>, k: string)
      requires RegInv(v) && k in v.reg
      ensures v.reg[k] in v.nodes && Live(v, v.reg[k]) && Str(v.nodes[v.reg[k]].lbl) == k
    {
    }

    static lemma FixIsStep(v: Net<Cluster, Peer>, w: Net<Cluster, Peer>, tables: map<Cluster, seq<Cluster>>)
      requires w.cfg == v.cfg && w.reg == v.reg && w.keys == v.keys && w.data == v.data && w.nodes.Keys == v.nodes.Keys
      requires forall c :: c in tables <==> c in v.nodes && Live(v, c)
      requires forall c :: c in v.nodes && Live(v, c) ==> |v.nodes[c].rt| == |v.nodes[c].lbl|
      requires forall c :: c in tables ==> |tables[c]| == |v.nodes[c].lbl| && GoodTable(v, v.nodes[c].lbl, tables[c])
      requires forall c :: c in v.nodes ==>
               w.nodes[c] == v.nodes[c].(rt := if c in tables then tables[c] else v.nodes[c].rt)
      ensures Enabled(v, Fix(tables)) && w == Apply(v, Fix(tables))
    {
      hide Labels, Nearest, Live, GoodTable, Refix, Active;
      FixAllowed(v, tables);
      FixApplies(v, w, tables);
    }

    static lemma FixAllowed(v: Net<Cluster, Peer>, tables: map<Cluster, seq<Cluster>>)
      requires forall c :: c in tables <==> c in v.nodes && Live(v, c)
      requires forall c :: c in v.nodes && Live(v, c) ==> |v.nodes[c].rt| == |v.nodes[c].lbl|
      requires forall c :: c in tables ==> |tables[c]| == |v.nodes[c].lbl| && GoodTable(v, v.nodes[c].lbl, tables[c])
      ensures Enabled(v, Fix(tables))
    {
      hide Labels, Nearest, Str;
      assert tables.Keys == Active(v);
    }

    static lemma FixApplies(v: Net<Cluster, Peer>, w: Net<Cluster, Peer>, tables: map<Cluster, seq<Cluster>>)
      requires w.cfg == v.cfg && w.reg == v.reg && w.keys == v.keys && w.data == v.data
      requires w.nodes.Keys == v.nodes.Keys && Enabled(v, Fix(tables))
      requires forall c :: c in v.nodes ==>
               w.nodes[c] == v.nodes[c].(rt := if c in tables then tables[c] else v.nodes[c].rt)
      ensures w == Apply(v, Fix(tables))
    {
      hide Labels, Nearest, Live, Active;
      assert w.nodes == Refix(v, tables);
    }

    /** The pass over every cluster, in any order. */
    method FixTables(ghost v: Net<Cluster, Peer>) returns (ghost tables: map<Cluster, seq<Cluster>>)
      requires Repairable(v) && Reads(v)
      requires forall c :: c in known && Live(v, c) ==> |c.rt| == |c.lbl|
      modifies known`rt
      ensures forall c :: c in tables <==> c in known && Live(v, c)
      ensures forall c :: c in known ==> c.rt == if c in tables then tables[c] else old(c.rt)
      ensures forall c :: c in tables ==> |tables[c]| == |c.lbl| && GoodTable(v, c.lbl, tables[c])
    {
      hide CompleteCode, RegInv, Labels, GoodTable, Str;
      tables := map[];
      var todo := clusters.Keys;
      while todo != {}
        invariant todo <= clusters.Keys && Reads(v)
        invariant forall c :: c in tables <==> c in known && Live(v, c) && Str(c.lbl) !in todo
        invariant forall c :: c in known ==> c.rt == if c in tables then tables[c] else old(c.rt)
        invariant forall c :: c in tables ==> |tables[c]| == |c.lbl| && GoodTable(v, c.lbl, tables[c])
      {
        var k :| k in todo;
        var c := clusters[k];
        RegLive(v, k);
        FixTable(v, c);
        tables := tables[c := c.rt];
        todo := todo - {k};
      }
    }

    method FixAllRT() returns (ghost tables: map<Cluster, seq<Cluster>>)
      requires Repairable(View())
      requires forall c :: c in known && Live(View(), c) ==> |c.rt| == |c.lbl|
      modifies known`rt
      ensures Enabled(old(View()), Fix(tables)) && View() == Apply(old(View()), Fix(tables))
      ensures Homes() == old(Homes()) && OwnStores() == old(OwnStores()) && Stores() == old(Stores())
    {
      hide Repairable, Live, GoodTable, Enabled, Apply, Str;
      ghost var v := View();
      tables := FixTables(v);
      assert Keys() == v.keys && Contents() == v.data;
      assert forall c :: c in known ==>
        c.AsNode() == v.nodes[c].(rt := if c in tables then tables[c] else v.nodes[c].rt);
      FixIsStep(v, View(), tables);
    }
  }
}
