/** Add of simulation/cluster.go: a vote for a peer, and what follows once enough votes are in. */
module Joining {
  import opened Ids
  import opened Network
  import opened Runs
  import opened Votes
  import opened SplitStep
  import opened Durability
  import opened Objects
  import opened Membership
  import opened Splitting

  // ---------------------------------------------------------------- runs grow at the end

  lemma {:induction false} RunThen<C, P>(net: Net<C, P>, acts: seq<Action<C, P>>, act: Action<C, P>)
    requires Legal(net, acts) && Enabled(Exec(net, acts), act) && Safe(Exec(net, acts), act)
    ensures Legal(net, acts + [act]) && Exec(net, acts + [act]) == Apply(Exec(net, acts), act)
    decreases |acts|
  {
    hide Enabled, Apply, Safe;
    var more := acts + [act];
    if acts == [] {
      assert more[1..] == [];
    } else {
      assert more[1..] == acts[1..] + [act] && more[0] == acts[0];
      RunThen(Apply(net, acts[0]), acts[1..], act);
    }
  }

  // ---------------------------------------------------------------- one new spare

  /** A peer nothing is stored at and nobody knows yet. */
  ghost predicate Newcomer(reg: ClusterRegistry, p: Peer)
    reads reg`peers, reg.peers`store, p`store, p.store
  {
    p !in reg.peers && p.store.data == map[] && |p.id| == reg.cfg.m && forall q :: q in reg.peers ==> q.store != p.store
  }

  method Enter(reg: ClusterRegistry, c: Cluster, p: Peer, pt: PeerType)
    requires c in reg.known && p !in reg.peers
    modifies c`vs, p`cluster, p`peerType
    ensures reg.Homes() == old(reg.Homes()) && reg.Types() == old(reg.Types()) && reg.Contents() == old(reg.Contents())
            && reg.OwnStores() == old(reg.OwnStores())
    ensures reg.Nodes() == old(reg.Nodes())[c := old(c.AsNode()).(vs := old(c.vs)[Str(p.id) := p])]
    ensures p.cluster == c && p.peerType == pt
  {
    hide Str, ClusterRegistry.Nodes, ClusterRegistry.OwnStores;
    AddVs(reg, c, p);
    p.SetCluster(c);
    p.SetType(pt);
    assert reg.Contents() == old(reg.Contents());
  }

  method AddVs(reg: ClusterRegistry, c: Cluster, p: Peer)
    requires c in reg.known
    modifies c`vs
    ensures reg.Nodes() == old(reg.Nodes())[c := old(c.AsNode()).(vs := old(c.vs)[Str(p.id) := p])]
  {
    hide Str;
    var key := String(p.id);
    c.vs := c.vs[key := p];
    assert forall x :: x in reg.known && x != c ==> x.AsNode() == old(x.AsNode());
  }

  ghost method Enrol(reg: ClusterRegistry, p: Peer)
    requires reg.OwnStores() && Newcomer(reg, p)
    modifies reg`peers
    ensures reg.peers == old(reg.peers) + {p} && reg.OwnStores()
    ensures reg.Keys() == old(reg.Keys())[p := Str(p.id)] && reg.Contents() == old(reg.Contents())[p := map[]]
    ensures reg.Homes() == old(reg.Homes())[p := p.cluster] && reg.Types() == old(reg.Types())[p := p.peerType]
  {
    hide Str, ClusterRegistry.OwnStores, ClusterRegistry.Keys, ClusterRegistry.Contents, ClusterRegistry.Homes,
         ClusterRegistry.Types;
    ghost var was, data, homes, types := reg.Keys(), reg.Contents(), reg.Homes(), reg.Types();
    Listed(reg);
    reg.peers := reg.peers + {p};
    MoreStores(reg, p, was, data, homes, types);
    MoreNames(reg, p, was, homes, types);
  }

  ghost predicate AsListed(keys: map<Peer, string>, data: map<Peer, Data>, homes: map<Peer, Cluster?>,
                           types: map<Peer, PeerType>)
    reads data.Keys
    reads set q | q in data.Keys :: q.store
  {
    && keys.Keys == data.Keys && homes.Keys == data.Keys && types.Keys == data.Keys
    && (forall q :: q in data ==>
         keys[q] == Str(q.id) && data[q] == q.store.data && homes[q] == q.cluster && types[q] == q.peerType)
    && (forall q, r :: q in data && r in data && q != r ==> q.store != r.store)
  }

  lemma Listed(reg: ClusterRegistry)
    requires reg.OwnStores()
    ensures AsListed(reg.Keys(), reg.Contents(), reg.Homes(), reg.Types()) && reg.Contents().Keys == reg.peers
  {
    hide Str;
  }

  lemma MoreStores(reg: ClusterRegistry, p: Peer, keys: map<Peer, string>, data: map<Peer, Data>,
                   homes: map<Peer, Cluster?>, types: map<Peer, PeerType>)
    requires AsListed(keys, data, homes, types) && reg.peers == data.Keys + {p} && p.store.data == map[]
             && forall q :: q in data ==> q.store != p.store
    ensures reg.OwnStores() && reg.Contents() == data[p := map[]]
  {
    hide Str;
  }

  lemma MoreNames(reg: ClusterRegistry, p: Peer, keys: map<Peer, string>, homes: map<Peer, Cluster?>,
                  types: map<Peer, PeerType>)
    requires keys.Keys == homes.Keys == types.Keys && reg.peers == keys.Keys + {p}
    requires forall q :: q in keys ==> keys[q] == Str(q.id) && homes[q] == q.cluster && types[q] == q.peerType
    ensures reg.Keys() == keys[p := Str(p.id)]
    ensures reg.Homes() == homes[p := p.cluster] && reg.Types() == types[p := p.peerType]
  {
    hide Str;
  }

  method JoinSeen(reg: ClusterRegistry, c: Cluster, p: Peer, pt: PeerType)
    requires reg.OwnStores() && c in reg.known && Newcomer(reg, p)
    modifies c`vs, p`cluster, p`peerType, reg`peers
    ensures reg.Nodes() == old(reg.Nodes())[c := old(c.AsNode()).(vs := old(c.vs)[Str(p.id) := p])]
    ensures reg.Keys() == old(reg.Keys())[p := Str(p.id)] && reg.Contents() == old(reg.Contents())[p := map[]]
    ensures reg.Homes() == old(reg.Homes())[p := c] && reg.Types() == old(reg.Types())[p := pt]
    ensures reg.OwnStores() && reg.peers == old(reg.peers) + {p} && reg.Stores() == old(reg.Stores()) + {p.store}
  {
    hide Str, ClusterRegistry.OwnStores, ClusterRegistry.Nodes, ClusterRegistry.Keys, ClusterRegistry.Contents,
         ClusterRegistry.Homes, ClusterRegistry.Types;
    Enter(reg, c, p, pt);
    Enrol(reg, p);
  }

  lemma JoinIsStep(v: Net<Cluster, Peer>, w: Net<Cluster, Peer>, c: Cluster, p: Peer)
    requires c in v.nodes && Live(v, c) && v.nodes[c].lbl <= p.id && |p.id| == v.cfg.m && p !in v.keys && p !in v.data
    requires Str(p.id) !in v.nodes[c].vc && Str(p.id) !in v.nodes[c].vs
    requires w.cfg == v.cfg && w.reg == v.reg && w.keys == v.keys[p := Str(p.id)] && w.data == v.data[p := map[]]
    requires w.nodes == v.nodes[c := v.nodes[c].(vs := v.nodes[c].vs[Str(p.id) := p])]
    ensures Enabled(v, Join(c, Str(p.id), p)) && w == Apply(v, Join(c, Str(p.id), p))
  {
    hide Live, Parse, IsBits, Str;
    StrRoundTrip(p.id);
  }

  lemma HousedJoin(v: Net<Cluster, Peer>, homes: map<Peer, Cluster?>, act: Action<Cluster, Peer>)
    requires Inv(v) && Housed(v, homes) && act.Join? && Enabled(v, act)
    ensures Housed(Apply(v, act), homes[act.p := act.c])
  {
    hide RegInv, LinkInv, FlagInv, Cell, Live;
    var w := Apply(v, act);
    SameLive(v, act);
    forall x | x in w.nodes && Live(w, x)
      ensures Houses(homes[act.p := act.c], w.nodes[x].vc, x) && Houses(homes[act.p := act.c], w.nodes[x].vs, x)
    {
      assert NodeInv(v, v.nodes[x]);
      NotNew(v.cfg, v.keys, v.data, v.nodes[x], act.p);
    }
  }

  lemma SameLive(v: Net<Cluster, Peer>, act: Action<Cluster, Peer>)
    requires act.Join? && Enabled(v, act)
    ensures forall x :: x in Apply(v, act).nodes && Live(Apply(v, act), x) ==> x in v.nodes && Live(v, x)
  {
    hide Str;
  }

  lemma NotNew(cfg: Config, keys: map<Peer, string>, data: map<Peer, Data>, n: Node<Cluster, Peer>, p: Peer)
    requires Cell(cfg, keys, data, n.lbl, n.vc, n.vs, n.merging) && p !in data
    ensures (forall k :: k in n.vc ==> n.vc[k] != p) && (forall k :: k in n.vs ==> n.vs[k] != p)
  {
    hide Keyed, Replicas, AllHold;
  }

  method JoinStep(reg: ClusterRegistry, c: Cluster, p: Peer, pt: PeerType) returns (ghost act: Action<Cluster, Peer>)
    requires reg.Valid() && c in reg.known && reg.InService(c) && Newcomer(reg, p)
    requires c.lbl <= p.id && Str(p.id) !in c.vc && Str(p.id) !in c.vs
    modifies c`vs, p`cluster, p`peerType, reg`peers
    ensures act == Join(c, Str(p.id), p)
    ensures Enabled(old(reg.View()), act) && reg.View() == Apply(old(reg.View()), act)
    ensures reg.Valid() && reg.Types() == old(reg.Types())[p := pt]
    ensures reg.peers == old(reg.peers) + {p} && reg.Stores() == old(reg.Stores()) + {p.store}
    ensures c.AsNode() == old(c.AsNode()).(vs := old(c.vs)[Str(p.id) := p])
  {
    hide ClusterRegistry.Thresholds, Inv, Enabled, Apply, Str, Housed, ClusterRegistry.OwnStores,
         ClusterRegistry.Homes, ClusterRegistry.Types;
    ghost var v, homes := reg.View(), reg.Homes();
    reg.NodeSeen(c);
    JoinSeen(reg, c, p, pt);
    reg.NodeSeen(c);
    act := Join(c, Str(p.id), p);
    JoinIsStep(v, reg.View(), c, p);
    StepKeeps(v, act);
    HousedJoin(v, homes, act);
  }

  /** isSplit, asked of a cluster in service. */
  method SplitDue(reg: ClusterRegistry, c: Cluster) returns (r: bool)
    requires reg.Valid() && c in reg.known && reg.InService(c)
    ensures r <==> CanSplit(reg.cfg, c.AsNode())
    ensures reg.View() == old(reg.View()) && reg.Valid() && reg.Types() == old(reg.Types())
  {
    hide Inv, Str, Housed, CanSplit, OwnKeys, NodeInv, ClusterRegistry.OwnStores;
    reg.NodeSeen(c);
    ReadyToSplit(reg.View(), c);
    CellOwnKeys(reg, c);
    r := IsSplit(reg.cfg, c);
    assert reg.Contents() == old(reg.Contents());
  }

  // ---------------------------------------------------------------- Add

  method SplitIfDue(reg: ClusterRegistry, c: Cluster, ghost v: Net<Cluster, Peer>,
                    ghost start: seq<Action<Cluster, Peer>>) returns (ghost acts: seq<Action<Cluster, Peer>>)
    requires reg.Valid() && c in reg.known && reg.InService(c)
    requires Legal(v, start) && reg.View() == Exec(v, start)
    modifies reg`clusters, reg`known, c`lbl, c`rt, c`vc, c`vs, reg.peers`cluster, reg.peers`peerType, reg.peers`store,
             reg.Stores()
    ensures Legal(v, acts) && reg.View() == Exec(v, acts) && reg.Valid()
    ensures start <= acts && if CanSplit(reg.cfg, old(c.AsNode()))
            then |acts| == |start| + 1 && acts[|start|].Split? && acts[|start|].c == c else acts == start
    ensures fresh(reg.known - old(reg.known))
  {
    hide Enabled, Apply, CanSplit, Inv, Housed, ClusterRegistry.View, ClusterRegistry.Valid;
    acts := start;
    var due := SplitDue(reg, c);
    if due {
      ghost var split := Splitting.Split(reg, c);
      RunThen(v, acts, split);
      acts := acts + [split];
    }
  }

  lemma SplittingIff(reg: ClusterRegistry, c: Cluster)
    requires reg.Valid() && c in reg.known && reg.InService(c)
    ensures var n := c.AsNode();
            CanSplit(reg.cfg, n) <==>
            && |n.lbl| + 1 < reg.cfg.m
            && |set k | k in n.vc.Keys + n.vs.Keys && BitAt(n.lbl, k, false)| >= reg.cfg.tsplit
            && |set k | k in n.vc.Keys + n.vs.Keys && BitAt(n.lbl, k, true)| >= reg.cfg.tsplit
  {
    hide Inv, Housed, CanSplit, BitAt, Str;
    reg.NodeSeen(c);
    LiveCell(reg.View(), c);
    CanSplitIff(reg.cfg, c.AsNode());
  }

  /** The peer becomes a spare, and the cluster splits if that makes both its halves large enough. */
  method Admit(reg: ClusterRegistry, c: Cluster, p: Peer, pt: PeerType) returns (ghost acts: seq<Action<Cluster, Peer>>)
    requires reg.Valid() && c in reg.known && reg.InService(c) && Newcomer(reg, p)
    requires c.lbl <= p.id && Str(p.id) !in c.vc && Str(p.id) !in c.vs
    modifies reg, reg.known, reg.peers, reg.Stores(), p, p.store
    ensures Legal(old(reg.View()), acts) && reg.View() == Exec(old(reg.View()), acts) && reg.Valid()
    ensures 1 <= |acts| <= 2 && acts[0] == Join(c, Str(p.id), p)
    ensures var n := old(c.AsNode()).(vs := old(c.vs)[Str(p.id) := p]);
            |acts| == 2 <==>
            && |n.lbl| + 1 < reg.cfg.m
            && |set k | k in n.vc.Keys + n.vs.Keys && BitAt(n.lbl, k, false)| >= reg.cfg.tsplit
            && |set k | k in n.vc.Keys + n.vs.Keys && BitAt(n.lbl, k, true)| >= reg.cfg.tsplit
    ensures |acts| == 2 ==> acts[1].Split? && acts[1].c == c
    ensures c.addHandler == old(c.addHandler)
    ensures fresh(reg.known - old(reg.known))
  {
    hide Enabled, Apply, Str, CanSplit, Inv, Housed, ClusterRegistry.View, ClusterRegistry.Valid,
         ClusterRegistry.Stores;
    ghost var v := reg.View();
    ghost var join := JoinStep(reg, c, p, pt);
    SplittingIff(reg, c);
    RunThen(v, [], join);
    acts := SplitIfDue(reg, c, v, [join]);
  }

  /** What follows enough votes: the admission, if the peer's identifier lies under the label, and the repair. */
  method Welcome(reg: ClusterRegistry, c: Cluster, p: Peer, pt: PeerType)
    returns (ghost acts: seq<Action<Cluster, Peer>>)
    requires reg.Valid() && c in reg.known && reg.InService(c)
    requires c.lbl <= p.id ==> Newcomer(reg, p) && Str(p.id) !in c.vc && Str(p.id) !in c.vs
    modifies reg, reg.known, reg.peers, reg.Stores(), p, p.store
    ensures var n := old(c.AsNode()).(vs := old(c.vs)[Str(p.id) := p]);
            if old(c.lbl) <= p.id then
              && 2 <= |acts| <= 3 && acts[0] == Join(c, Str(p.id), p)
              && (|acts| == 3 <==>
                   && |n.lbl| + 1 < reg.cfg.m
                   && |set k | k in n.vc.Keys + n.vs.Keys && BitAt(n.lbl, k, false)| >= reg.cfg.tsplit
                   && |set k | k in n.vc.Keys + n.vs.Keys && BitAt(n.lbl, k, true)| >= reg.cfg.tsplit)
              && (|acts| == 3 ==> acts[1].Split? && acts[1].c == c)
            else |acts| == 1
    ensures Legal(old(reg.View()), acts) && reg.View() == Exec(old(reg.View()), acts) && reg.Valid()
    ensures acts[|acts| - 1].Fix? && LinksLive(reg.View()) && c.addHandler == old(c.addHandler)
  {
    hide Enabled, Apply, Str, Inv, Housed, LinksLive, Newcomer, BitAt, ClusterRegistry.View, ClusterRegistry.Valid;
    ghost var v := reg.View();
    acts := [];
    var mine := Prefix(c.lbl, p.id);
    if mine {
      acts := Admit(reg, c, p, pt);
    }
    ghost var fix := Repair(reg);
    RunThen(v, acts, fix);
    acts := acts + [fix];
  }

  /** Add, as a run of steps: none while votes are missing; then a repair of the tables, preceded, when the
      peer's identifier lies under the label, by the admission and the split it may cause. The vote that admits
      is the one after SafteyValue others since the last admission of that identifier. */
  method Add(reg: ClusterRegistry, c: Cluster, p: Peer, pt: PeerType) returns (ghost acts: seq<Action<Cluster, Peer>>)
    requires reg.Valid() && c in reg.known && reg.InService(c)
    requires Str(p.id) !in c.vs && c.lbl <= p.id
             && Count(c.addHandler.freq, Str(p.id)) + 1 > ((reg.cfg.smin - 1) / 3 + 1) * 2 ==>
               Newcomer(reg, p) && Str(p.id) !in c.vc
    modifies reg, reg.known, reg.peers, reg.Stores(), p, p.store, c.addHandler
    ensures var counted := Str(p.id) !in old(c.vs);
            var admitted := counted
                            && Count(old(c.addHandler.freq), Str(p.id)) + 1 > ((reg.cfg.smin - 1) / 3 + 1) * 2;
            && (acts == [] <==> !admitted)
            && (admitted && !(old(c.lbl) <= p.id) ==> |acts| == 1)
            && (admitted && old(c.lbl) <= p.id ==> 2 <= |acts| <= 3 && acts[0] == Join(c, Str(p.id), p))
            && (forall id :: Count(c.addHandler.freq, id) ==
                    if id == Str(p.id) && admitted then 0
                    else Count(old(c.addHandler.freq), id) + if id == Str(p.id) && counted then 1 else 0)
    ensures var n := old(c.AsNode()).(vs := old(c.vs)[Str(p.id) := p]);
            |acts| > 1 ==>
              (|acts| == 3 <==>
                && |n.lbl| + 1 < reg.cfg.m
                && |set k | k in n.vc.Keys + n.vs.Keys && BitAt(n.lbl, k, false)| >= reg.cfg.tsplit
                && |set k | k in n.vc.Keys + n.vs.Keys && BitAt(n.lbl, k, true)| >= reg.cfg.tsplit)
    ensures |acts| == 3 ==> acts[1].Split? && acts[1].c == c
    ensures c.addHandler == old(c.addHandler)
    ensures Legal(old(reg.View()), acts) && reg.View() == Exec(old(reg.View()), acts) && reg.Valid()
    ensures acts != [] ==> acts[|acts| - 1].Fix? && LinksLive(reg.View())
  {
    hide Enabled, Apply, Str, Inv, Housed, LinksLive, Newcomer, Count, BitAt, ClusterRegistry.View,
         ClusterRegistry.Valid;
    acts := [];
    var key := String(p.id);
    if key in c.vs {
      return;
    }
    var admitted := Voted(reg, c, p);
    if admitted {
      acts := Welcome(reg, c, p, pt);
    }
  }

  /** The vote touches nothing but the counter. */
  method Voted(reg: ClusterRegistry, c: Cluster, p: Peer) returns (admitted: bool)
    requires reg.Valid() && c in reg.known
    modifies c.addHandler
    ensures admitted <==> Count(old(c.addHandler.freq), Str(p.id)) + 1 > ((reg.cfg.smin - 1) / 3 + 1) * 2
    ensures c.addHandler == old(c.addHandler)
    ensures forall id :: Count(c.addHandler.freq, id) ==
              if id == Str(p.id) then (if admitted then 0 else Count(old(c.addHandler.freq), id) + 1)
              else Count(old(c.addHandler.freq), id)
    ensures reg.View() == old(reg.View()) && reg.Valid() && c.AsNode() == old(c.AsNode())
    ensures Newcomer(reg, p) == old(Newcomer(reg, p))
  {
    hide Str, Vote, Inv, Housed, Count;
    var key := String(p.id);
    VoteCounts(c.addHandler.threshold, c.addHandler.freq, key);
    admitted := c.addHandler.Add(key, p);
    assert reg.Contents() == old(reg.Contents());
  }
}
