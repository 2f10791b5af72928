/** The first overlay: init of simulation/globals.go, NewCluster and addVc of simulation/cluster.go. */
module Bootstrap {
  import opened Cardinality
  import opened Ids
  import opened Network
  import opened Runs
  import opened Votes
  import opened Objects

  method NewCluster(reg: ClusterRegistry) returns (c: Cluster)
    requires reg.cfg.Ok() && reg.clusters == map[]
    modifies reg
    ensures fresh(c) && c.AsNode() == Node([], [], map[], map[], false, false)
    ensures c.addHandler.threshold == Safety(reg.cfg.smin)
    ensures reg.clusters == map["" := c] && reg.known == old(reg.known) + {c} && reg.peers == old(reg.peers)
  {
    c := new Cluster([], map[], map[], [], Safety(reg.cfg.smin));
    var ok := reg.Register(c);
    reg.known := reg.known + {c};
  }

  method AddVc(reg: ClusterRegistry, c: Cluster, p: Peer)
    modifies c`vc, p`cluster, p`peerType, reg`peers
    ensures c.vc == old(c.vc)[Str(p.id) := p] && p.cluster == c && p.peerType == CORE
            && reg.peers == old(reg.peers) + {p}
  {
    var key := String(p.id);
    c.vc := c.vc[key := p];
    p.SetCluster(c);
    p.SetType(CORE);
    reg.peers := reg.peers + {p};
  }

  /** The core being filled: exactly the known peers, each under its own key, empty, at home in `c`. */
  ghost predicate Filling(reg: ClusterRegistry, c: Cluster)
    reads reg, c, reg.peers, reg.Stores()
  {
    && reg.clusters == map["" := c] && reg.known == {c}
    && c.lbl == [] && c.rt == [] && c.vs == map[] && !c.merge && !c.locked
    && (forall p :: p in reg.peers ==>
         |p.id| == reg.cfg.m && p.store.data == map[] && p.cluster == c && p.peerType == CORE)
    && (forall k :: k in c.vc ==> c.vc[k] in reg.peers && Str(c.vc[k].id) == k)
    && reg.OwnStores()
  }

  method FillOne(reg: ClusterRegistry, c: Cluster, id: Id) returns (p: Peer)
    requires Filling(reg, c) && |id| == reg.cfg.m && Str(id) !in c.vc
    modifies c`vc, reg`peers
    ensures Filling(reg, c) && c.vc == old(c.vc)[Str(id) := p] && fresh(p) && fresh(p.store)
            && reg.peers == old(reg.peers) + {p}
  {
    hide Str;
    p := new Peer(id);
    AddVc(reg, c, p);
  }

  /** init: SMin new peers form the core of the one cluster without label bits. */
  method Init(cfg: Config, ids: seq<Id>) returns (reg: ClusterRegistry, c: Cluster)
    requires cfg.Ok() && |ids| == cfg.smin
    requires (forall i :: 0 <= i < |ids| ==> |ids[i]| == cfg.m)
             && (forall i, j :: 0 <= i < j < |ids| ==> ids[i] != ids[j])
    ensures fresh(reg) && reg.cfg == cfg && reg.known == {c} && reg.InService(c)
    ensures Boot(reg.View()) && reg.Valid() && LinksLive(reg.View())
    ensures forall i :: 0 <= i < |ids| ==> Str(ids[i]) in c.vc && c.vc[Str(ids[i])].cluster == c
    ensures RolesAgree(reg.Types(), c.vc, c.vs)
  {
    hide Str, Inv, LinksLive, Filling, Housed, Boot, ClusterRegistry.View;
    KeysApart(ids);
    reg := new ClusterRegistry(cfg);
    c := NewCluster(reg);
    NothingYet(reg, c);
    FillAll(reg, c, ids);
    BootedView(reg, c);
    BootInv(reg.View());
  }

  method FillAll(reg: ClusterRegistry, c: Cluster, ids: seq<Id>)
    requires Filling(reg, c) && c.vc == map[] && reg.peers == {}
    requires forall i :: 0 <= i < |ids| ==> |ids[i]| == reg.cfg.m
    requires forall i, j :: 0 <= i < j < |ids| ==> Str(ids[i]) != Str(ids[j])
    modifies c`vc, reg`peers
    ensures Filling(reg, c) && |c.vc| == |ids| && forall j :: 0 <= j < |ids| ==> Str(ids[j]) in c.vc
  {
    hide Str, Filling;
    for i := 0 to |ids|
      invariant Filling(reg, c) && |c.vc| == i && fresh(reg.peers)
      invariant forall j :: i <= j < |ids| ==> Str(ids[j]) !in c.vc
      invariant forall j :: 0 <= j < i ==> Str(ids[j]) in c.vc
    {
      ghost var was := c.vc;
      var p := FillOne(reg, c, ids[i]);
      AddSize(was, Str(ids[i]), p);
    }
  }

  lemma KeysApart(ids: seq<Id>)
    requires forall i, j :: 0 <= i < j < |ids| ==> ids[i] != ids[j]
    ensures forall i, j :: 0 <= i < j < |ids| ==> Str(ids[i]) != Str(ids[j])
  {
    hide Str;
    forall i, j | 0 <= i < j < |ids|
      ensures Str(ids[i]) != Str(ids[j])
    {
      StrInjective(ids[i], ids[j]);
    }
  }

  lemma NothingYet(reg: ClusterRegistry, c: Cluster)
    requires reg.clusters == map["" := c] && reg.known == {c} && reg.peers == {}
             && c.AsNode() == Node([], [], map[], map[], false, false)
    ensures Filling(reg, c)
  {
  }

  lemma BootedView(reg: ClusterRegistry, c: Cluster)
    requires Filling(reg, c) && reg.cfg.Ok() && |c.vc| == reg.cfg.smin
    ensures reg.known == {c} && (forall k :: k in c.vc ==> c.vc[k].cluster == c) && reg.OwnStores()
    ensures RolesAgree(reg.Types(), c.vc, c.vs)
    ensures Boot(reg.View()) && Housed(reg.View(), reg.Homes()) && reg.InService(c)
  {
    hide Str, Parse, IsBits;
    assert Str([]) == "" by {
      EmptyLabel();
    }
    var v := reg.View();
    forall k | k in c.vc
      ensures GoodKey(reg.cfg.m, [], k)
    {
      StrRoundTrip(c.vc[k].id);
    }
    assert First(v, v.nodes[c]);
  }

  lemma EmptyLabel()
    ensures Str([]) == ""
  {
  }
}
