/** Members leaving: replaceVC of simulation/cluster.go and Leave of simulation/stdPeer.go. */
module Membership {
  import opened Cardinality
  import opened Ids
  import opened PrefixCode
  import opened Network
  import opened Invariant
  import opened Steps
  import opened MergeStep
  import opened Runs
  import opened Durability
  import opened Objects
  import opened Merging

  // ---------------------------------------------------------------- a spare is nominated

  /** The spare takes the leaver's place. */
  method SwapIn(reg: ClusterRegistry, c: Cluster, p: Peer) returns (k: string)
    requires c in reg.known && Str(p.id) in c.vc && c.vs != map[]
    modifies c`vc, c`vs
    ensures k in old(c.vs) && c.vs == old(c.vs) - {k} && c.vc == (old(c.vc) - {Str(p.id)})[k := old(c.vs)[k]]
    ensures reg.Nodes() == old(reg.Nodes())[c := old(c.AsNode()).(vc := c.vc, vs := c.vs)]
  {
    hide Str;
    k :| k in c.vs;
    var nominee := c.vs[k];
    c.vs := c.vs - {k};
    var key := String(p.id);
    c.vc := c.vc - {key};
    c.vc := c.vc[k := nominee];
    assert forall x :: x in reg.known && x != c ==> x.AsNode() == old(x.AsNode());
  }

  /** The spare gets its own copy of the leaver's store and becomes core. */
  method TakeOver(reg: ClusterRegistry, q: Peer, p: Peer)
    requires reg.OwnStores() && p in reg.peers && q in reg.peers
    modifies q`store, q`peerType
    ensures fresh(q.store) && q.store.data == old(p.store.data) && q.peerType == CORE && reg.OwnStores()
    ensures reg.Contents() == old(reg.Contents())[q := old(p.store.data)]
    ensures reg.Types() == old(reg.Types())[q := CORE]
  {
    var copy := p.store.Copy();
    q.ReplaceData(copy);
    q.SetType(CORE);
  }

  /** replaceVC with a spare to nominate: it takes the leaver's place with a copy of its store; nothing else changes. */
  method Nominate(reg: ClusterRegistry, c: Cluster, p: Peer) returns (ghost nk: string)
    requires reg.OwnStores() && c in reg.known && p in reg.peers
    requires reg.Filed(c) && Str(p.id) in c.vc && c.vs != map[]
    modifies c`vc, c`vs, reg.peers`store, reg.peers`peerType
    ensures nk in old(c.vs) && c.vs == old(c.vs) - {nk}
    ensures var q := old(c.vs)[nk];
            && c.vc == (old(c.vc) - {Str(p.id)})[nk := q]
            && fresh(q.store) && q.store.data == old(p.store.data) && q.peerType == CORE
            && forall r :: r in reg.peers && r != q ==> r.store == old(r.store) && r.peerType == old(r.peerType)
    ensures reg.Nodes() == old(reg.Nodes())[c := old(c.AsNode()).(vc := c.vc, vs := c.vs)]
    ensures reg.Contents() == old(reg.Contents())[old(c.vs)[nk] := old(p.store.data)] && reg.OwnStores()
    ensures reg.Types() == old(reg.Types())[old(c.vs)[nk] := CORE]
  {
    hide Str, ClusterRegistry.OwnStores, ClusterRegistry.Nodes, ClusterRegistry.Types;
    ghost var data := reg.Contents();
    var k := SwapIn(reg, c, p);
    assert reg.Contents() == data;
    nk := k;
    TakeOver(reg, c.vc[k], p);
  }

  method LeaveNominating(reg: ClusterRegistry, c: Cluster, p: Peer) returns (ghost act: Action<Cluster, Peer>)
    requires reg.Valid() && c in reg.known && reg.InService(c)
    requires p in reg.peers && Str(p.id) in c.vc && c.vc[Str(p.id)] == p && c.vs != map[]
    modifies c`vc, c`vs, reg.peers`store, reg.peers`peerType
    ensures act.Leave? && act.c == c && act.key == Str(p.id)
    ensures Enabled(old(reg.View()), act) && reg.View() == Apply(old(reg.View()), act)
    ensures act.nominee in old(c.vs) && reg.Types() == old(reg.Types())[old(c.vs)[act.nominee] := CORE]
    ensures reg.Valid()
  {
    hide Inv, Enabled, Apply, Str, Housed, ClusterRegistry.OwnStores, ClusterRegistry.Filed, ClusterRegistry.Contents,
         ClusterRegistry.Keys, ClusterRegistry.Nodes, ClusterRegistry.Homes, ClusterRegistry.Types;
    ghost var v, homes := reg.View(), reg.Homes();
    reg.MembersFiled(c);
    reg.NodeSeen(c);
    reg.PeerSeen(p);
    ghost var nk := Nominate(reg, c, p);
    act := Action.Leave(c, Str(p.id), nk);
    LeaveIsStep(v, reg.View(), c, Str(p.id), nk);
    StepKeeps(v, act);
    HousedLeave(v, homes, act);
  }

  lemma LeaveIsStep(v: Net<Cluster, Peer>, w: Net<Cluster, Peer>, c: Cluster, key: string, nk: string)
    requires c in v.nodes && Live(v, c) && key in v.nodes[c].vc && nk in v.nodes[c].vs
    requires v.nodes[c].vc[key] in v.data
    requires w.cfg == v.cfg && w.reg == v.reg && w.keys == v.keys
    requires w.data == v.data[v.nodes[c].vs[nk] := v.data[v.nodes[c].vc[key]]]
    requires var n := v.nodes[c];
             w.nodes == v.nodes[c := n.(vc := (n.vc - {key})[nk := n.vs[nk]], vs := n.vs - {nk})]
    ensures Enabled(v, Action.Leave(c, key, nk)) && w == Apply(v, Action.Leave(c, key, nk))
  {
    hide Live;
  }

  lemma HousedLeave(v: Net<Cluster, Peer>, homes: map<Peer, Cluster?>, act: Action<Cluster, Peer>)
    requires Housed(v, homes) && act.Leave? && Enabled(v, act)
    ensures Housed(Apply(v, act), homes)
  {
    hide Str;
  }

  /** FixAllRT, as a step that keeps the overlay valid. */
  method Repair(reg: ClusterRegistry) returns (ghost fix: Action<Cluster, Peer>)
    requires reg.Valid()
    modifies reg.known`rt
    ensures fix.Fix? && Enabled(old(reg.View()), fix) && reg.View() == Apply(old(reg.View()), fix)
    ensures reg.Valid() && LinksLive(reg.View())
  {
    hide Enabled, Apply, Str, Housed, Inv, LinksLive, ClusterRegistry.OwnStores, ClusterRegistry.Contents,
         ClusterRegistry.Keys, ClusterRegistry.Nodes, ClusterRegistry.Homes;
    ghost var v := reg.View();
    reg.ReadyToRepair();
    ghost var tables := reg.FixAllRT();
    fix := Fix(tables);
    StepKeeps(v, fix);
    HousedFix(v, reg.Homes(), fix);
  }

  lemma HousedFix(v: Net<Cluster, Peer>, homes: map<Peer, Cluster?>, act: Action<Cluster, Peer>)
    requires Housed(v, homes) && act.Fix? && Enabled(v, act)
    ensures Housed(Apply(v, act), homes)
  {
    hide Str, Labels, Nearest;
  }

  // ---------------------------------------------------------------- no spare to nominate

  /** The leaver goes unreplaced and the cluster is marked as merging. */
  method DropSeen(reg: ClusterRegistry, c: Cluster, p: Peer)
    requires c in reg.known
    modifies c`vc, c`merge
    ensures c.vc == old(c.vc) - {Str(p.id)} && c.merge
    ensures reg.Nodes() == old(reg.Nodes())[c := old(c.AsNode()).(vc := old(c.vc) - {Str(p.id)}, merging := true)]
    ensures reg.Contents() == old(reg.Contents()) && reg.Homes() == old(reg.Homes())
            && reg.OwnStores() == old(reg.OwnStores())
    ensures reg.Stores() == old(reg.Stores()) && reg.Types() == old(reg.Types())
  {
    hide Str;
    var key := String(p.id);
    c.vc := c.vc - {key};
    c.merge := true;
    assert forall x :: x in reg.known && x != c ==> x.AsNode() == old(x.AsNode());
  }

  method LeaveDropping(reg: ClusterRegistry, c: Cluster, p: Peer) returns (ghost act: Action<Cluster, Peer>)
    requires reg.Valid() && c in reg.known && reg.InService(c)
    requires p in reg.peers && Str(p.id) in c.vc && c.vc[Str(p.id)] == p && c.vs == map[]
    modifies c`vc, c`merge
    ensures act == Drop(c, Str(p.id))
    ensures Enabled(old(reg.View()), act) && reg.View() == Apply(old(reg.View()), act)
    ensures reg.Valid()
  {
    hide Inv, Enabled, Apply, Str, Housed, ClusterRegistry.OwnStores, ClusterRegistry.Contents, ClusterRegistry.Keys,
         ClusterRegistry.Nodes, ClusterRegistry.Homes;
    ghost var v, homes := reg.View(), reg.Homes();
    reg.NodeSeen(c);
    DropSeen(reg, c, p);
    act := Drop(c, Str(p.id));
    DropIsStep(v, reg.View(), c, Str(p.id));
    StepKeeps(v, act);
    HousedDrop(v, homes, act);
  }

  lemma DropIsStep(v: Net<Cluster, Peer>, w: Net<Cluster, Peer>, c: Cluster, key: string)
    requires c in v.nodes && Live(v, c) && key in v.nodes[c].vc && v.nodes[c].vs == map[]
    requires w.cfg == v.cfg && w.reg == v.reg && w.keys == v.keys && w.data == v.data
    requires w.nodes == v.nodes[c := v.nodes[c].(vc := v.nodes[c].vc - {key}, merging := true)]
    ensures Enabled(v, Drop(c, key)) && w == Apply(v, Drop(c, key))
  {
    hide Live;
  }

  lemma HousedDrop(v: Net<Cluster, Peer>, homes: map<Peer, Cluster?>, act: Action<Cluster, Peer>)
    requires Housed(v, homes) && act.Drop? && Enabled(v, act)
    ensures Housed(Apply(v, act), homes)
  {
    hide Str;
  }

  lemma Partner(v: Net<Cluster, Peer>, c: Cluster)
    requires LinkInv(v) && c in v.nodes && v.nodes[c].lbl != []
    ensures var n := v.nodes[c]; |n.rt| == |n.lbl| && n.rt[|n.lbl| - 1] in v.nodes && n.rt[|n.lbl| - 1] != c
  {
    assert NodeLinks(v, c);
  }

  lemma CoreLess<P>(cfg: Config, keys: map<P, string>, data: map<P, Data>, lbl: Id, vc: map<string, P>,
                    vs: map<string, P>, key: string)
    requires Cell(cfg, keys, data, lbl, vc, vs, false) && key in vc
    ensures Known(keys, data, vc - {key}) && |vc - {key}| == cfg.smin - 1
  {
    hide Keyed, Replicas, AllHold;
    assert (vc - {key}).Keys == vc.Keys - {key};
  }

  lemma CoreKnown<P>(cfg: Config, keys: map<P, string>, data: map<P, Data>, lbl: Id, vc: map<string, P>,
                     vs: map<string, P>)
    requires Cell(cfg, keys, data, lbl, vc, vs, false) && cfg.Ok()
    ensures Known(keys, data, vc) && vc != map[]
  {
    hide Keyed, Replicas, AllHold, Known;
  }

  ghost function DroppedNet(v: Net<Cluster, Peer>, c: Cluster, key: string): Net<Cluster, Peer>
    requires c in v.nodes
  {
    v.(nodes := v.nodes[c := v.nodes[c].(vc := v.nodes[c].vc - {key}, merging := true)])
  }

  /** Once the leaver is gone, its cluster and the one in its last routing-table slot can be merged. */
  lemma MergeReady(v: Net<Cluster, Peer>, c: Cluster, key: string)
    requires Inv(v) && 1 < v.cfg.smin && c in v.nodes && Live(v, c) && key in v.nodes[c].vc && !v.nodes[c].merging
    requires var n := v.nodes[c];
             && n.lbl != [] && |n.rt| == |n.lbl| && n.rt[|n.lbl| - 1] in v.nodes
             && !v.nodes[n.rt[|n.lbl| - 1]].merging
    ensures Mergeable(DroppedNet(v, c, key), c, v.nodes[c].rt[|v.nodes[c].lbl| - 1])
  {
    hide RegInv, Cell, Known, Live;
    var b := v.nodes[c].rt[|v.nodes[c].lbl| - 1];
    Partner(v, c);
    var n, o := v.nodes[c], v.nodes[b];
    assert NodeInv(v, n) && NodeInv(v, o);
    CoreLess(v.cfg, v.keys, v.data, n.lbl, n.vc, n.vs, key);
    CoreKnown(v.cfg, v.keys, v.data, o.lbl, o.vc, o.vs);
    MembersApart(v, c, b);
  }

  lemma MergeIsStep(v: Net<Cluster, Peer>, c: Cluster, key: string, b: Cluster, m: Cluster, pa: string, pb: string,
                    kept: string)
    requires c in v.nodes && Live(v, c) && key in v.nodes[c].vc && v.nodes[c].vs == map[] && !v.nodes[c].merging
             && m !in v.nodes
    requires Mergeable(DroppedNet(v, c, key), c, b) && b == v.nodes[c].rt[|v.nodes[c].lbl| - 1]
    requires pa in v.nodes[c].vc - {key} && pb in v.nodes[b].vc && kept in v.nodes[b].vc
    ensures var act := Merge(c, key, b, m, pa, pb, kept);
            Enabled(v, act) && MergedNet(DroppedNet(v, c, key), c, b, m, pa, pb, kept) == Apply(v, act)
  {
    hide Live, Str, Combined;
  }

  /** Clusters in service after a merge, other than the merged one, are the other clusters from before, unchanged. */
  lemma MergeTouches(v: Net<Cluster, Peer>, act: Action<Cluster, Peer>)
    requires Inv(v) && act.Merge? && Enabled(v, act)
    ensures var w := Apply(v, act);
            forall c :: c in w.nodes && c != act.m && Live(w, c) ==>
                          c in v.nodes && Live(v, c) && c != act.c && c != act.b && w.nodes[c] == v.nodes[c]
  {
    hide Inv, Apply, Live, Enabled;
    MergeLive(v, act);
  }

  lemma HousesMerged(keys: map<Peer, string>, data: map<Peer, Data>, homes: map<Peer, Cluster?>, c: Cluster, b: Cluster,
                     avc: map<string, Peer>, key: string, bvc: map<string, Peer>, kept: string, m: Cluster)
    requires Known(keys, data, avc) && Known(keys, data, bvc) && kept in bvc && Houses(homes, avc, c)
             && Houses(homes, bvc, b)
    ensures Houses(Rehomed(keys, homes, avc - {key}, bvc, m), (avc - {key})[kept := bvc[kept]], m)
    ensures Houses(Rehomed(keys, homes, avc - {key}, bvc, m), bvc - {kept}, m)
  {
  }

  lemma HousesApart(keys: map<Peer, string>, data: map<Peer, Data>, homes: map<Peer, Cluster?>,
                    avc: map<string, Peer>, key: string, bvc: map<string, Peer>, m: Cluster, mem: map<string, Peer>,
                      c: Cluster)
    requires Known(keys, data, mem) && Houses(homes, mem, c) && forall k :: k in mem ==> k !in avc && k !in bvc
    ensures Houses(Rehomed(keys, homes, avc - {key}, bvc, m), mem, c)
  {
  }

  /** Where peers say they belong after a merge. */
  ghost function HomesAfter(v: Net<Cluster, Peer>, homes: map<Peer, Cluster?>, act: Action<Cluster, Peer>)
    : map<Peer, Cluster?>
  {
    if act.Merge? && act.c in v.nodes && act.b in v.nodes
    then Rehomed(v.keys, homes, v.nodes[act.c].vc - {act.key}, v.nodes[act.b].vc, act.m)
    else homes
  }

  lemma OtherHoused(v: Net<Cluster, Peer>, homes: map<Peer, Cluster?>, act: Action<Cluster, Peer>, c: Cluster)
    requires Inv(v) && Housed(v, homes) && act.Merge? && Enabled(v, act)
    requires c in v.nodes && Live(v, c) && c != act.c && c != act.b
    ensures Houses(HomesAfter(v, homes, act), v.nodes[c].vc, c) && Houses(HomesAfter(v, homes, act), v.nodes[c].vs, c)
  {
    hide Inv, Enabled, Live, Houses, Rehomed, Keyed, Known, Replicas, AllHold, Str, NodeLinks, Labels, PrefixFree,
         CompleteCode;
    InvParts(v);
    CodePrefixFree(Labels(v), v.cfg.m);
    MergeParts(v, act);
    LiveNode(v, c);
    var n, o, q := v.nodes[act.c], v.nodes[act.b], v.nodes[c];
    MembersApart(v, act.c, c);
    MembersApart(v, act.b, c);
    HousesApart(v.keys, v.data, homes, n.vc, act.key, o.vc, act.m, q.vc, c);
    HousesApart(v.keys, v.data, homes, n.vc, act.key, o.vc, act.m, q.vs, c);
  }

  lemma MergedHoused(v: Net<Cluster, Peer>, w: Net<Cluster, Peer>, homes: map<Peer, Cluster?>,
                     act: Action<Cluster, Peer>)
    requires Housed(v, homes) && Partners(v, act) && MergedFrom(v, w, act)
    ensures Houses(HomesAfter(v, homes, act), w.nodes[act.m].vc, act.m)
            && Houses(HomesAfter(v, homes, act), w.nodes[act.m].vs, act.m)
  {
    hide Live, Houses, Rehomed, Keyed, Replicas, AllHold, Known, Str, NodeLinks, Labels, Combined;
    var n, o := v.nodes[act.c], v.nodes[act.b];
    HousesMerged(v.keys, v.data, homes, act.c, act.b, n.vc, act.key, o.vc, act.kept, act.m);
  }

  lemma WhoMoves(v: Net<Cluster, Peer>, homes: map<Peer, Cluster?>, act: Action<Cluster, Peer>)
    requires Partners(v, act)
    ensures var n, o := v.nodes[act.c], v.nodes[act.b];
            && HomesAfter(v, homes, act).Keys == homes.Keys
            && forall p :: p in homes ==>
                 HomesAfter(v, homes, act)[p] ==
                 if (exists k :: k in n.vc && k != act.key && n.vc[k] == p) || (exists k :: k in o.vc && o.vc[k] == p)
                 then act.m else homes[p]
  {
    hide Live, Keyed, Replicas, AllHold, Sizes, NodeLinks, Labels, Str;
  }

  /** Members of the two merged cores now belong to `m`; nobody else moved. */
  lemma HousedMerge(v: Net<Cluster, Peer>, homes: map<Peer, Cluster?>, act: Action<Cluster, Peer>)
    requires Inv(v) && Housed(v, homes) && act.Merge? && Enabled(v, act)
    ensures Housed(Apply(v, act), HomesAfter(v, homes, act))
    ensures act.c in v.nodes && act.b in v.nodes && HomesAfter(v, homes, act).Keys == homes.Keys
    ensures var n, o := v.nodes[act.c], v.nodes[act.b];
            forall p :: p in homes ==>
              HomesAfter(v, homes, act)[p] ==
              if (exists k :: k in n.vc && k != act.key && n.vc[k] == p) || (exists k :: k in o.vc && o.vc[k] == p)
              then act.m else homes[p]
  {
    hide Apply, Enabled, Inv, Houses, Live, HomesAfter, Partners, NodeInv, Labels, Combined;
    var w := Apply(v, act);
    MergeParts(v, act);
    WhoMoves(v, homes, act);
    MergeResult(v, act);
    MergeTouches(v, act);
    MergedHoused(v, w, homes, act);
    forall c | c in w.nodes && Live(w, c) && c != act.m
      ensures Houses(HomesAfter(v, homes, act), w.nodes[c].vc, c) && Houses(HomesAfter(v, homes, act), w.nodes[c].vs, c)
    {
      OtherHoused(v, homes, act, c);
    }
  }

  /** replaceVC with nobody to nominate, when the merge goes ahead. */
  method LeaveMerging(reg: ClusterRegistry, c: Cluster, p: Peer) returns (ghost act: Action<Cluster, Peer>)
    requires reg.Valid() && c in reg.known && reg.InService(c)
    requires p in reg.peers && Str(p.id) in c.vc && c.vc[Str(p.id)] == p
    requires MergeDue(c) && 1 < reg.cfg.smin
    modifies c`vc, c`merge, c.rt`merge, c.rt`locked, reg`clusters, reg`known, reg.peers`cluster, reg.peers`peerType,
             reg.peers`store,
             reg.Stores()
    ensures act.Merge? && act.c == c && act.key == Str(p.id)
    ensures Enabled(old(reg.View()), act) && reg.View() == Apply(old(reg.View()), act)
    ensures reg.Valid() <==> Safe(old(reg.View()), act)
    ensures RolesAgree(reg.Types(), act.m.vc, act.m.vs)
  {
    hide Inv, Enabled, Apply, Str, Housed, Safe, Mergeable, MergedNet, Rehomed, Ranked, RolesAgree,
         ClusterRegistry.OwnStores, ClusterRegistry.Contents, ClusterRegistry.Keys, ClusterRegistry.Nodes,
         ClusterRegistry.Homes, ClusterRegistry.Types, ClusterRegistry.Stores;
    ghost var v, homes, types, key := reg.View(), reg.Homes(), reg.Types(), Str(p.id);
    TypesKnown(reg);
    var b := c.rt[|c.lbl| - 1];
    reg.NodeSeen(c);
    ValidLinks(v);
    Partner(v, c);
    reg.NodeSeen(b);
    MergeReady(v, c, key);
    DropSeen(reg, c, p);
    ghost var m, pa, pb, kept;
    m, pa, pb, kept := MergeView(reg, c, b);
    act := Merge(c, key, b, m, pa, pb, kept);
    MergeIsStep(v, c, key, b, m, pa, pb, kept);
    MergeKeepsIff(v, act);
    HousedMerge(v, homes, act);
    RolesSeen(reg, v, types, act);
  }

  lemma RolesSeen(reg: ClusterRegistry, v: Net<Cluster, Peer>, types: map<Peer, PeerType>, act: Action<Cluster, Peer>)
    requires Inv(v) && act.Merge? && Enabled(v, act) && types.Keys == v.data.Keys && reg.View() == Apply(v, act)
    requires act.c in v.nodes && act.b in v.nodes && act.kept in v.nodes[act.b].vc
             && reg.Types() == Ranked(v.keys, types, v.nodes[act.c].vc - {act.key}, v.nodes[act.b].vc, act.kept)
    ensures RolesAgree(reg.Types(), act.m.vc, act.m.vs)
  {
    hide Inv, Apply, Enabled, Ranked, RolesAgree, ClusterRegistry.Nodes, ClusterRegistry.Types;
    MergedRoles(v, types, act);
    reg.KnownNodes();
    reg.NodeSeen(act.m);
  }

  /** Every member of a merged cluster has been told its role. */
  lemma MergedRoles(v: Net<Cluster, Peer>, types: map<Peer, PeerType>, act: Action<Cluster, Peer>)
    requires Inv(v) && act.Merge? && Enabled(v, act) && types.Keys == v.data.Keys
    ensures act.c in v.nodes && act.b in v.nodes && act.kept in v.nodes[act.b].vc && act.m in Apply(v, act).nodes
    ensures var n, o, q := v.nodes[act.c], v.nodes[act.b], Apply(v, act).nodes[act.m];
            RolesAgree(Ranked(v.keys, types, n.vc - {act.key}, o.vc, act.kept), q.vc, q.vs)
  {
    hide Inv, Apply, Enabled, Live, Keyed, Replicas, AllHold, Known, Sizes, NodeLinks, Labels, Combined, Ranked,
         RolesAgree;
    MergeParts(v, act);
    MergeResult(v, act);
    var n, o := v.nodes[act.c], v.nodes[act.b];
    RankedRoles(v.keys, v.data, types, n.vc, act.key, o.vc, act.kept);
  }

  lemma RankedRoles(keys: map<Peer, string>, data: map<Peer, Data>, types: map<Peer, PeerType>, avc: map<string, Peer>,
                    key: string, bvc: map<string, Peer>, kept: string)
    requires Known(keys, data, avc) && Known(keys, data, bvc) && kept in bvc && types.Keys == data.Keys
    requires forall k :: k in bvc ==> k !in avc
    ensures RolesAgree(Ranked(keys, types, avc - {key}, bvc, kept), (avc - {key})[kept := bvc[kept]], bvc - {kept})
  {
  }

  lemma ValidLinks(v: Net<Cluster, Peer>)
    requires Inv(v)
    ensures LinkInv(v) && v.cfg.Ok()
  {
  }

  /** No spare is left, the cluster has label bits to give up, and neither it nor the cluster in its last
      routing-table slot has merged before. */
  predicate MergeDue(c: Cluster)
    reads c, c.rt
  {
    c.vs == map[] && !c.merge && c.lbl != [] && |c.rt| == |c.lbl| && !c.rt[|c.lbl| - 1].merge
  }

  lemma Another<P>(vc: map<string, P>, key: string)
    requires key in vc
    ensures |vc| > 1 <==> exists k :: k in vc && k != key
  {
    RemoveSize(vc, key);
    if |vc| > 1 {
      NonEmpty(vc - {key});
      var k :| k in vc - {key};
    }
    if k :| k in vc && k != key {
      assert k in vc - {key};
    }
  }

  /** A cluster that is not marked as merging is in service with a full core. */
  lemma UnmarkedCore(v: Net<Cluster, Peer>, c: Cluster)
    requires Inv(v) && c in v.nodes && !v.nodes[c].merging
    ensures |v.nodes[c].vc| == v.cfg.smin > 0
  {
    hide RegInv, LinkInv, CompleteCode, Keyed, Known, Replicas, AllHold, Str;
    assert Live(v, c);
    assert NodeInv(v, v.nodes[c]);
  }

  /** When a merge can follow the departure of a core peer: exactly if there is another core peer to merge from,
      no spare, a label bit to give up, and neither cluster is marked as merging. */
  lemma MergeEnabledIff(v: Net<Cluster, Peer>, c: Cluster, key: string, m: Cluster)
    requires Inv(v) && c in v.nodes && Live(v, c) && key in v.nodes[c].vc && m !in v.nodes
    ensures var n := v.nodes[c];
            (exists act: Action<Cluster, Peer> ::
               act.Merge? && act.c == c && act.key == key && act.m == m && Enabled(v, act)) <==>
            && 1 < v.cfg.smin && n.vs == map[] && !n.merging && n.lbl != []
            && |n.rt| == |n.lbl| && n.rt[|n.lbl| - 1] in v.nodes && !v.nodes[n.rt[|n.lbl| - 1]].merging
  {
    hide Inv, Live, Enabled;
    var n := v.nodes[c];
    ValidLinks(v);
    Another(n.vc, key);
    if 1 < v.cfg.smin && n.vs == map[] && !n.merging && n.lbl != [] && |n.rt| == |n.lbl|
       && n.rt[|n.lbl| - 1] in v.nodes && !v.nodes[n.rt[|n.lbl| - 1]].merging {
      var b := n.rt[|n.lbl| - 1];
      Partner(v, c);
      UnmarkedCore(v, c);
      UnmarkedCore(v, b);
      NonEmpty(v.nodes[b].vc);
      var pa :| pa in n.vc && pa != key;
      var pb :| pb in v.nodes[b].vc;
      CanMergeEnabled(v, Merge(c, key, b, m, pa, pb, pb));
    }
    if act: Action<Cluster, Peer> :| act.Merge? && act.c == c && act.key == key && act.m == m && Enabled(v, act) {
      CanMergeEnabled(v, act);
      UnmarkedCore(v, c);
    }
  }

  /** The same for every handle a merged cluster could get. */
  lemma MergesIff(v: Net<Cluster, Peer>, c: Cluster, key: string, due: bool)
    requires Inv(v) && c in v.nodes && Live(v, c) && key in v.nodes[c].vc
    requires var n := v.nodes[c];
             due <==>
             && 1 < v.cfg.smin && n.vs == map[] && !n.merging && n.lbl != []
             && |n.rt| == |n.lbl| && n.rt[|n.lbl| - 1] in v.nodes && !v.nodes[n.rt[|n.lbl| - 1]].merging
    ensures forall m: Cluster :: m !in v.nodes ==>
              (due <==> exists a: Action<Cluster, Peer> ::
                 a.Merge? && a.c == c && a.key == key && a.m == m && Enabled(v, a))
  {
    hide Inv, Live, Enabled;
    forall m: Cluster | m !in v.nodes
      ensures due <==> exists a: Action<Cluster, Peer> ::
                a.Merge? && a.c == c && a.key == key && a.m == m && Enabled(v, a)
    {
      MergeEnabledIff(v, c, key, m);
    }
  }

  lemma DueSeen(reg: ClusterRegistry, c: Cluster, key: string)
    requires reg.Valid() && c in reg.known && reg.InService(c) && key in c.vc && (MergeDue(c) ==> 1 < reg.cfg.smin)
    ensures var v := reg.View();
            && Inv(v) && c in v.nodes && Live(v, c) && v.nodes[c] == c.AsNode()
            && var n := v.nodes[c];
            MergeDue(c) <==>
            && 1 < v.cfg.smin && n.vs == map[] && !n.merging && n.lbl != []
            && |n.rt| == |n.lbl| && n.rt[|n.lbl| - 1] in v.nodes && !v.nodes[n.rt[|n.lbl| - 1]].merging
  {
    hide Inv, Housed, Str;
    reg.NodeSeen(c);
    reg.TableFits(c);
    if c.lbl != [] {
      reg.NodeSeen(c.rt[|c.lbl| - 1]);
    }
  }

  lemma CanMergeEnabled(v: Net<Cluster, Peer>, act: Action<Cluster, Peer>)
    requires act.Merge?
    ensures Enabled(v, act) <==> CanMerge(v, act)
  {
  }

  /** replaceVC: with a spare, the leaver is replaced and the tables are repaired; without one, the cluster
      shrinks and, the first time, merges with the cluster in its last routing-table slot. The overlay stays
      valid exactly unless that cluster's label is longer. A core of one has no peer left to merge from. */
  method ReplaceVC(reg: ClusterRegistry, c: Cluster, p: Peer)
    returns (ghost act: Action<Cluster, Peer>, ghost fix: Action<Cluster, Peer>)
    requires reg.Valid() && c in reg.known && reg.InService(c)
    requires p in reg.peers && Str(p.id) in c.vc && c.vc[Str(p.id)] == p
    requires MergeDue(c) ==> 1 < reg.cfg.smin
    modifies reg, reg.known, reg.peers, reg.Stores()
    ensures (act.Leave? || act.Drop? || act.Merge?) && act.c == c && act.key == Str(p.id)
    ensures act.Leave? <==> old(c.vs) != map[]
    ensures forall m: Cluster :: m !in old(reg.View()).nodes ==>
              (act.Merge? <==> exists a: Action<Cluster, Peer> ::
                 a.Merge? && a.c == c && a.key == Str(p.id) && a.m == m && Enabled(old(reg.View()), a))
    ensures Enabled(old(reg.View()), act)
    ensures act.Leave? ==> fix.Fix? && Enabled(Apply(old(reg.View()), act), fix)
                           && reg.View() == Apply(Apply(old(reg.View()), act), fix) && LinksLive(reg.View())
    ensures !act.Leave? ==> reg.View() == Apply(old(reg.View()), act)
    ensures reg.Valid() <==> Safe(old(reg.View()), act)
    ensures act.Leave? ==> act.nominee in old(c.vs) && reg.Types() == old(reg.Types())[old(c.vs)[act.nominee] := CORE]
    ensures act.Drop? ==> reg.Types() == old(reg.Types())
    ensures act.Merge? ==> RolesAgree(reg.Types(), act.m.vc, act.m.vs)
  {
    hide RolesAgree, ClusterRegistry.Types, Enabled, Apply, Str, LinksLive, Inv, Live, ClusterRegistry.Valid,
         ClusterRegistry.View;
    ghost var v, due := reg.View(), MergeDue(c);
    fix := Fix(map[]);
    reg.TableFits(c);
    DueSeen(reg, c, Str(p.id));
    if c.vs != map[] {
      act := LeaveNominating(reg, c, p);
      fix := Repair(reg);
    } else if c.merge || |c.lbl| == 0 || c.rt[|c.lbl| - 1].merge {
      act := LeaveDropping(reg, c, p);
    } else {
      act := LeaveMerging(reg, c, p);
    }
    MergesIff(v, c, Str(p.id), due);
  }

  /** Leave: the peer asks the cluster it belongs to to replace it. */
  method Leave(reg: ClusterRegistry, p: Peer)
    returns (ghost act: Action<Cluster, Peer>, ghost fix: Action<Cluster, Peer>)
    requires reg.Valid() && p in reg.peers && p.cluster != null && p.cluster in reg.known && reg.InService(p.cluster)
    requires Str(p.id) in p.cluster.vc && p.cluster.vc[Str(p.id)] == p
    requires MergeDue(p.cluster) ==> 1 < reg.cfg.smin
    modifies reg, reg.known, reg.peers, reg.Stores()
    ensures (act.Leave? || act.Drop? || act.Merge?) && act.c == old(p.cluster) && act.key == Str(p.id)
    ensures act.Leave? <==> old(p.cluster.vs) != map[]
    ensures forall m: Cluster :: m !in old(reg.View()).nodes ==>
              (act.Merge? <==> exists a: Action<Cluster, Peer> ::
                 a.Merge? && a.c == old(p.cluster) && a.key == Str(p.id) && a.m == m && Enabled(old(reg.View()), a))
    ensures Enabled(old(reg.View()), act)
    ensures act.Leave? ==> fix.Fix? && Enabled(Apply(old(reg.View()), act), fix)
                           && reg.View() == Apply(Apply(old(reg.View()), act), fix) && LinksLive(reg.View())
    ensures !act.Leave? ==> reg.View() == Apply(old(reg.View()), act)
    ensures reg.Valid() <==> Safe(old(reg.View()), act)
  {
    hide Enabled, Apply, Str, LinksLive, ClusterRegistry.Valid, ClusterRegistry.View;
    act, fix := ReplaceVC(reg, p.cluster, p);
  }

  /** Every core peer of a cluster in service may leave: it belongs to that cluster. */
  lemma CoreMayLeave(reg: ClusterRegistry, c: Cluster, k: string)
    requires reg.Valid() && c in reg.known && reg.InService(c) && k in c.vc
    ensures c.vc[k] in reg.peers && c.vc[k].cluster == c && Str(c.vc[k].id) == k
  {
    hide Inv, Str;
    reg.MembersFiled(c);
    reg.NodeSeen(c);
    assert Houses(reg.Homes(), reg.View().nodes[c].vc, c);
  }
}
