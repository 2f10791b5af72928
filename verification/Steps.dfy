/** Each step keeps the invariant, so every run does. */
module Steps {
  import opened Ids
  import opened PrefixCode
  import opened Network
  import opened Invariant

  ghost predicate SameTopology<C, P>(net: Net<C, P>, net': Net<C, P>) {
    SameLabels(net, net') && forall x :: x in net.nodes ==> net'.nodes[x].rt == net.nodes[x].rt
  }

  lemma SameTopologyKeeps<C, P>(net: Net<C, P>, net': Net<C, P>)
    requires SameTopology(net, net') && RegInv(net) && LinkInv(net)
    ensures RegInv(net') && LinkInv(net') && Labels(net') == Labels(net)
    ensures forall x :: x in net.nodes ==> (Live(net', x) <==> Live(net, x))
    ensures LinksLive(net) ==> LinksLive(net')
  {
    SameLabelsLive(net, net');
    forall c | c in net'.nodes
      ensures NodeLinks(net', c)
    {
      assert NodeLinks(net, c);
    }
  }

  /** The peers whose key no member of the cell has keep their stores. */
  ghost predicate OnlyWithin<P>(keys: map<P, string>, data: map<P, Data>, keys': map<P, string>, data': map<P, Data>,
                                vc: map<string, P>, vs: map<string, P>) {
    && (forall p :: p in keys ==> p in keys' && keys'[p] == keys[p])
    && (forall p :: p in data ==> p in data')
    && (forall p :: p in data && p in keys && keys[p] !in vc && keys[p] !in vs ==> data'[p] == data[p])
  }

  ghost predicate OnlyNode<C, P>(net: Net<C, P>, net': Net<C, P>, n: Node<C, P>) {
    net'.cfg == net.cfg && OnlyWithin(net.keys, net.data, net'.keys, net'.data, n.vc, n.vs)
  }

  lemma DisjointUntouched<P>(keys: map<P, string>, data: map<P, Data>, keys': map<P, string>, data': map<P, Data>,
                             vc: map<string, P>, vs: map<string, P>, mem: map<string, P>)
    requires OnlyWithin(keys, data, keys', data', vc, vs) && Known(keys, data, mem)
    requires forall k :: k in mem ==> k !in vc && k !in vs
    ensures Untouched(keys, data, keys', data', mem)
  {
  }

  /** When only members of one cluster are written, every other cluster's invariant carries over. */
  lemma OthersKeep<C, P>(net: Net<C, P>, net': Net<C, P>, c: C, x: C)
    requires CompleteCode(Labels(net), net.cfg.m) && MemberInv(net) && c in net.nodes && Live(net, c)
    requires OnlyNode(net, net', net.nodes[c])
    requires x in net.nodes && x != c && Live(net, x)
    ensures NodeInv(net', net.nodes[x])
  {
    var n, o := net.nodes[c], net.nodes[x];
    MembersApart(net, c, x);
    hide CompleteCode, Labels, Live, OnlyWithin, Keyed, Replicas, AllHold;
    DisjointUntouched(net.keys, net.data, net'.keys, net'.data, n.vc, n.vs, o.vc);
    DisjointUntouched(net.keys, net.data, net'.keys, net'.data, n.vc, n.vs, o.vs);
    CellFrame(net.cfg, net.keys, net.data, net'.keys, net'.data, o.lbl, o.vc, o.vs, o.merging);
  }

  /** A step at one cluster that keeps labels and tables keeps the invariant if it keeps that cluster's part. */
  lemma OneNodeKeeps<C, P>(net: Net<C, P>, net': Net<C, P>, c: C)
    requires Inv(net) && SameTopology(net, net') && c in net.nodes && Live(net, c)
    requires forall x :: x in net.nodes && x != c ==> net'.nodes[x] == net.nodes[x]
    requires net.nodes[c].merging ==> net'.nodes[c].merging
    requires net'.nodes[c].locked == net.nodes[c].locked
    requires OnlyNode(net, net', net.nodes[c])
    requires NodeInv(net', net'.nodes[c])
    ensures Inv(net')
  {
    hide NodeInv, NodeLinks, CompleteCode, PrefixFree, Labels;
    SameTopologyKeeps(net, net');
    forall x | x in net'.nodes && Live(net', x)
      ensures NodeInv(net', net'.nodes[x])
    {
      if x != c {
        OthersKeep(net, net', c, x);
      }
    }
  }

  lemma JoinCell<P>(cfg: Config, keys: map<P, string>, data: map<P, Data>,
                    lbl: Id, vc: map<string, P>, vs: map<string, P>, merging: bool, key: string, p: P)
    requires Cell(cfg, keys, data, lbl, vc, vs, merging) && GoodKey(cfg.m, lbl, key) && key !in vc && key !in vs
    requires p !in keys && p !in data
    ensures Cell(cfg, keys[p := key], data[p := map[]], lbl, vc, vs[key := p], merging)
    ensures OnlyWithin(keys, data, keys[p := key], data[p := map[]], vc, vs)
  {
    hide GoodKey, Sizes, DataUnder;
  }

  lemma LeaveCell<P>(cfg: Config, keys: map<P, string>, data: map<P, Data>,
                     lbl: Id, vc: map<string, P>, vs: map<string, P>, merging: bool, key: string, nominee: string)
    requires Cell(cfg, keys, data, lbl, vc, vs, merging) && key in vc && nominee in vs
    ensures Cell(cfg, keys, data[vs[nominee] := data[vc[key]]], lbl,
                 (vc - {key})[nominee := vs[nominee]], vs - {nominee}, merging)
    ensures OnlyWithin(keys, data, keys, data[vs[nominee] := data[vc[key]]], vc, vs)
  {
    hide GoodKey, Sizes, DataUnder, Known, Keyed, Replicas, AllHold, OnlyWithin;
    SwapSize(vc, key, nominee, vs[nominee]);
    SwapKeyed(cfg.m, lbl, vc, vs, key, nominee);
    SwapKnown(keys, data, vc, vs, key, nominee);
    SwapStores(keys, data, lbl, vc, vs, key, nominee);
  }

  lemma SwapKeyed<P>(m: nat, lbl: Id, vc: map<string, P>, vs: map<string, P>, key: string, nominee: string)
    requires Keyed(m, lbl, vc) && Keyed(m, lbl, vs) && (forall k :: k in vc ==> k !in vs) && key in vc && nominee in vs
    ensures Keyed(m, lbl, (vc - {key})[nominee := vs[nominee]]) && Keyed(m, lbl, vs - {nominee})
    ensures forall k :: k in (vc - {key})[nominee := vs[nominee]] ==> k !in vs - {nominee}
  {
    hide GoodKey;
  }

  lemma SwapKnown<P>(keys: map<P, string>, data: map<P, Data>, vc: map<string, P>, vs: map<string, P>, key: string,
                     nominee: string)
    requires Known(keys, data, vc) && Known(keys, data, vs) && key in vc && nominee in vs
    ensures var d := data[vs[nominee] := data[vc[key]]];
            Known(keys, d, (vc - {key})[nominee := vs[nominee]]) && Known(keys, d, vs - {nominee})
  {
  }

  lemma SwapStores<P>(keys: map<P, string>, data: map<P, Data>, lbl: Id, vc: map<string, P>, vs: map<string, P>,
                      key: string, nominee: string)
    requires Known(keys, data, vc) && Known(keys, data, vs) && (forall k :: k in vc ==> k !in vs) && key in vc
             && nominee in vs
    requires Replicas(data, lbl, vc) && AllHold(data, vs, map[])
    ensures var d := data[vs[nominee] := data[vc[key]]];
            && Replicas(d, lbl, (vc - {key})[nominee := vs[nominee]]) && AllHold(d, vs - {nominee}, map[])
            && OnlyWithin(keys, data, keys, d, vc, vs)
  {
    hide DataUnder;
    assert forall k :: k in vc ==> vc[k] != vs[nominee];
    assert forall k :: k in vs && k != nominee ==> vs[k] != vs[nominee];
  }

  lemma SwapSize<P>(m: map<string, P>, out: string, key: string, p: P)
    requires out in m && key !in m
    ensures |(m - {out})[key := p]| == |m| && |m - {out}| == |m| - 1
  {
    assert (m - {out}).Keys == m.Keys - {out};
    assert (m - {out})[key := p].Keys == m.Keys - {out} + {key};
  }

  lemma DropCell<P>(cfg: Config, keys: map<P, string>, data: map<P, Data>,
                    lbl: Id, vc: map<string, P>, vs: map<string, P>, merging: bool, key: string)
    requires Cell(cfg, keys, data, lbl, vc, vs, merging) && key in vc
    ensures Cell(cfg, keys, data, lbl, vc - {key}, vs, true)
  {
    hide GoodKey, DataUnder, Sizes;
    DropSize(cfg, vc, merging, key);
  }

  lemma DropSize<P>(cfg: Config, vc: map<string, P>, merging: bool, key: string)
    requires Sizes(cfg, |vc|, merging) && key in vc
    ensures Sizes(cfg, |vc - {key}|, true)
  {
    assert (vc - {key}).Keys == vc.Keys - {key};
  }

  lemma Rewritten<P>(keys: map<P, string>, data: map<P, Data>, vc: map<string, P>, vs: map<string, P>, x: string,
                     v: string)
    requires Known(keys, data, vc) && Known(keys, data, vs) && forall k :: k in vc ==> k !in vs
    ensures var d, e := Rewrite(keys, data, vc, x, v), Erase(keys, data, vc, x);
            && d.Keys == data.Keys && e.Keys == data.Keys
            && (forall k :: k in vc ==> d[vc[k]] == data[vc[k]][x := v] && e[vc[k]] == data[vc[k]] - {x})
            && (forall k :: k in vs ==> d[vs[k]] == data[vs[k]] && e[vs[k]] == data[vs[k]])
            && OnlyWithin(keys, data, keys, d, vc, vs) && OnlyWithin(keys, data, keys, e, vc, vs)
  {
  }

  lemma RewrittenReplicas<P>(data: map<P, Data>, d: map<P, Data>, lbl: Id, vc: map<string, P>, x: string, v: string)
    requires Replicas(data, lbl, vc) && d.Keys == data.Keys
    requires (lbl <= Parse(x) && forall k :: k in vc ==> d[vc[k]] == data[vc[k]][x := v]) || forall k :: k in vc ==>
             d[vc[k]] == data[vc[k]] - {x}
    ensures Replicas(d, lbl, vc)
  {
    hide Parse;
  }

  lemma SpareStay<P>(keys: map<P, string>, data: map<P, Data>, d: map<P, Data>, mem: map<string, P>)
    requires Known(keys, data, mem) && d.Keys == data.Keys
    ensures Known(keys, d, mem)
    ensures AllHold(data, mem, map[]) && (forall k :: k in mem ==> d[mem[k]] == data[mem[k]]) ==> AllHold(d, mem, map[])
  {
  }

  lemma PutCell<P>(cfg: Config, keys: map<P, string>, data: map<P, Data>,
                   lbl: Id, vc: map<string, P>, vs: map<string, P>, merging: bool, x: string, v: string)
    requires Cell(cfg, keys, data, lbl, vc, vs, merging) && lbl <= Parse(x)
    ensures Cell(cfg, keys, Rewrite(keys, data, vc, x, v), lbl, vc, vs, merging)
    ensures OnlyWithin(keys, data, keys, Rewrite(keys, data, vc, x, v), vc, vs)
  {
    hide GoodKey, Keyed, Known, Sizes, Parse, Rewrite, Erase, OnlyWithin, Replicas, AllHold;
    var d := Rewrite(keys, data, vc, x, v);
    Rewritten(keys, data, vc, vs, x, v);
    RewrittenReplicas(data, d, lbl, vc, x, v);
    SpareStay(keys, data, d, vc);
    SpareStay(keys, data, d, vs);
  }

  lemma DeleteCell<P>(cfg: Config, keys: map<P, string>, data: map<P, Data>,
                      lbl: Id, vc: map<string, P>, vs: map<string, P>, merging: bool, x: string)
    requires Cell(cfg, keys, data, lbl, vc, vs, merging)
    ensures Cell(cfg, keys, Erase(keys, data, vc, x), lbl, vc, vs, merging)
    ensures OnlyWithin(keys, data, keys, Erase(keys, data, vc, x), vc, vs)
  {
    hide GoodKey, Keyed, Known, Sizes, Parse, Rewrite, Erase, OnlyWithin, Replicas, AllHold;
    var d := Erase(keys, data, vc, x);
    Rewritten(keys, data, vc, vs, x, "");
    RewrittenReplicas(data, d, lbl, vc, x, "");
    SpareStay(keys, data, d, vc);
    SpareStay(keys, data, d, vs);
  }

  lemma SameIsReplicas<P>(data: map<P, Data>, l: Id, vc: map<string, P>, d: Data)
    requires AllHold(data, vc, d) && DataUnder(l, d)
    ensures Replicas(data, l, vc)
  {
    hide DataUnder;
  }

  /** Joining, leaving with a nominee, leaving without one, putting and deleting touch one cluster's members
      and stores and nobody's label or table. */
  lemma LocalKeeps<C, P>(net: Net<C, P>, act: Action<C, P>)
    requires Inv(net) && (act.Join? || act.Leave? || act.Drop? || act.Put? || act.Delete?) && Enabled(net, act)
    ensures Inv(Apply(net, act)) && SameTopology(net, Apply(net, act))
  {
    LocalNode(net, act);
    LocalShape(net, act);
    hide Apply, Enabled, Inv, OnlyNode, NodeInv;
    OneNodeKeeps(net, Apply(net, act), act.c);
  }

  lemma LocalShape<C, P>(net: Net<C, P>, act: Action<C, P>)
    requires MemberInv(net) && FlagInv(net)
    requires (act.Join? || act.Leave? || act.Drop? || act.Put? || act.Delete?) && Enabled(net, act)
    ensures var net' := Apply(net, act);
            && SameTopology(net, net') && act.c in net.nodes && Live(net, act.c)
            && (forall x :: x in net.nodes && x != act.c ==> net'.nodes[x] == net.nodes[x])
            && (net.nodes[act.c].merging ==> net'.nodes[act.c].merging)
            && net'.nodes[act.c].locked == net.nodes[act.c].locked
  {
    hide MemberInv, FlagInv, GoodKey, Str;
  }

  lemma LocalStart<C, P>(net: Net<C, P>, act: Action<C, P>)
    requires MemberInv(net) && (act.Join? || act.Leave? || act.Drop? || act.Put? || act.Delete?) && Enabled(net, act)
    ensures act.c in net.nodes && Live(net, act.c) && NodeInv(net, net.nodes[act.c])
    ensures forall k :: k in net.nodes[act.c].vc ==> net.nodes[act.c].vc[k] in net.data
  {
    hide Keyed, Replicas, AllHold, Sizes;
    assert NodeInv(net, net.nodes[act.c]);
  }

  lemma InvParts<C, P>(net: Net<C, P>)
    requires Inv(net)
    ensures MemberInv(net) && FlagInv(net) && RegInv(net) && LinkInv(net) && CompleteCode(Labels(net), net.cfg.m)
  {
  }

  lemma LiveLabel<C, P>(net: Net<C, P>, c: C)
    requires Inv(net) && c in net.nodes && Live(net, c)
    ensures net.nodes[c].lbl in Labels(net) && |net.nodes[c].lbl| < net.cfg.m
    ensures CompleteCode(Labels(net), net.cfg.m) && NodeInv(net, net.nodes[c])
  {
    hide RegInv, LinkInv, FlagInv, Live, NodeInv;
    assert net.nodes[c].lbl in Labels(net);
  }

  lemma LocalNode<C, P>(net: Net<C, P>, act: Action<C, P>)
    requires MemberInv(net) && FlagInv(net)
    requires (act.Join? || act.Leave? || act.Drop? || act.Put? || act.Delete?) && Enabled(net, act)
    ensures NodeInv(Apply(net, act), Apply(net, act).nodes[act.c]) && OnlyNode(net, Apply(net, act), net.nodes[act.c])
  {
    hide Cell, Parse, GoodKey, MemberInv, FlagInv;
    LocalStart(net, act);
    var n := net.nodes[act.c];
    match act
    case Join(_, key, p) =>
      JoinCell(net.cfg, net.keys, net.data, n.lbl, n.vc, n.vs, n.merging, key, p);
    case Leave(_, key, nominee) =>
      LeaveCell(net.cfg, net.keys, net.data, n.lbl, n.vc, n.vs, n.merging, key, nominee);
    case Drop(_, key) =>
      DropCell(net.cfg, net.keys, net.data, n.lbl, n.vc, n.vs, n.merging, key);
    case Put(_, x, v) =>
      PutCell(net.cfg, net.keys, net.data, n.lbl, n.vc, n.vs, n.merging, x, v);
    case Delete(_, x) =>
      DeleteCell(net.cfg, net.keys, net.data, n.lbl, n.vc, n.vs, n.merging, x);
  }

  lemma FixKeeps<C, P>(net: Net<C, P>, act: Action<C, P>)
    requires Inv(net) && act.Fix? && Enabled(net, act)
    ensures Inv(Apply(net, act)) && Repaired(Apply(net, act)) && LinksLive(Apply(net, act))
  {
    var net' := Apply(net, act);
    FixRepairs(net, act);
    SameLabelsLive(net, net');
    RepairedLinks(net');
    forall c | c in net'.nodes
      ensures NodeLinks(net', c)
    {
      assert Live(net, c) || NodeLinks(net, c);
    }
    forall c | c in net'.nodes && Live(net', c)
      ensures NodeInv(net', net'.nodes[c])
    {
      assert NodeInv(net, net.nodes[c]);
    }
  }
}
