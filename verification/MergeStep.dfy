/** What a merge does to labels, members and stores, and exactly when it keeps the invariant. */
module MergeStep {
  import opened Cardinality
  import opened Ids
  import opened PrefixCode
  import opened Network
  import opened Invariant
  import opened Steps

  /** Whichever copy peers the merge picked, every core peer of the merged cluster holds exactly the union
      of what the two clusters held, and the peers demoted to spares hold nothing. */
  lemma MergedStores<P>(keys: map<P, string>, data: map<P, Data>, vc: map<string, P>, bvc: map<string, P>,
                        kept: string, da: Data, db: Data)
    requires Known(keys, data, vc) && Known(keys, data, bvc) && (forall k :: k in vc ==> k !in bvc)
    requires AllHold(data, vc, da) && AllHold(data, bvc, db) && kept in bvc
    ensures var data' := Combined(keys, data, vc, bvc, kept, da, db);
            && AllHold(data', vc[kept := bvc[kept]], da + db)
            && AllHold(data', bvc - {kept}, map[])
            && OnlyWithin(keys, data, keys, data', vc, bvc)
            && data'.Keys == data.Keys
  {
    assert db + (da + db) == da + db;
    assert forall k :: k in bvc && k != kept ==> bvc[k] != bvc[kept];
  }

  /** The two sides' keys lie under different labels, so the union keeps every entry of both. */
  lemma NothingOverwritten(la: Id, lb: Id, da: Data, db: Data)
    requires DataUnder(la, da) && DataUnder(lb, db) && !Comparable(la, lb)
    ensures forall x :: x in da ==> x in da + db && (da + db)[x] == da[x]
    ensures forall x :: x in db ==> x in da + db && (da + db)[x] == db[x]
    ensures forall x :: x in da + db ==> x in da || x in db
  {
    forall x | x in da
      ensures x !in db
    {
      if x in db {
        PrefixesOfOne(la, lb, Parse(x));
      }
    }
  }

  lemma KeyedParent<P>(m: nat, l: Id, up: Id, mem: map<string, P>)
    requires Keyed(m, l, mem) && up <= l
    ensures Keyed(m, up, mem)
  {
    forall k | k in mem
      ensures GoodKey(m, up, k)
    {
      hide Parse, IsBits;
      assert GoodKey(m, l, k);
    }
  }

  lemma DataParent(l: Id, up: Id, d: Data)
    requires DataUnder(l, d) && up <= l
    ensures DataUnder(up, d)
  {
    hide Parse;
  }

  lemma MergedCell<P>(cfg: Config, keys: map<P, string>, data: map<P, Data>, up: Id,
                      la: Id, vc: map<string, P>, lb: Id, bvc: map<string, P>, kept: string, da: Data, db: Data)
    requires Keyed(cfg.m, la, vc) && Keyed(cfg.m, lb, bvc) && up <= la && up <= lb
    requires Known(keys, data, vc) && Known(keys, data, bvc) && (forall k :: k in vc ==> k !in bvc)
    requires AllHold(data, vc, da) && AllHold(data, bvc, db) && kept in bvc
    requires DataUnder(la, da) && DataUnder(lb, db)
    requires |vc| == cfg.smin - 1
    ensures Cell(cfg, keys, Combined(keys, data, vc, bvc, kept, da, db), up, vc[kept := bvc[kept]], bvc - {kept}, false)
    ensures OnlyWithin(keys, data, keys, Combined(keys, data, vc, bvc, kept, da, db), vc, bvc)
  {
    hide Parse, Combined, OnlyWithin, DataUnder, Keyed, AllHold, Known, Replicas;
    var data' := Combined(keys, data, vc, bvc, kept, da, db);
    MergedStores(keys, data, vc, bvc, kept, da, db);
    KeyedParent(cfg.m, la, up, vc);
    KeyedParent(cfg.m, lb, up, bvc);
    DataParent(la, up, da);
    DataParent(lb, up, db);
    UnionUnder(up, da, db);
    AddSize(vc, kept, bvc[kept]);
    MergedMembers(cfg.m, up, keys, data, vc, bvc, kept);
    SameIsReplicas(data', up, vc[kept := bvc[kept]], da + db);
    KnownDomain(keys, data, data', vc[kept := bvc[kept]]);
    KnownDomain(keys, data, data', bvc - {kept});
  }

  lemma KnownDomain<P>(keys: map<P, string>, data: map<P, Data>, data': map<P, Data>, mem: map<string, P>)
    requires Known(keys, data, mem) && data'.Keys == data.Keys
    ensures Known(keys, data', mem)
  {
  }

  lemma UnionUnder(l: Id, da: Data, db: Data)
    requires DataUnder(l, da) && DataUnder(l, db)
    ensures DataUnder(l, da + db)
  {
    hide Parse;
  }

  lemma MergedMembers<P>(m: nat, up: Id, keys: map<P, string>, data: map<P, Data>, vc: map<string, P>,
                         bvc: map<string, P>, kept: string)
    requires Keyed(m, up, vc) && Keyed(m, up, bvc) && Known(keys, data, vc) && Known(keys, data, bvc) && kept in bvc
    requires forall k :: k in vc ==> k !in bvc
    ensures Keyed(m, up, vc[kept := bvc[kept]]) && Keyed(m, up, bvc - {kept})
    ensures Known(keys, data, vc[kept := bvc[kept]]) && Known(keys, data, bvc - {kept})
    ensures forall k :: k in vc[kept := bvc[kept]] ==> k !in bvc - {kept}
  {
    hide GoodKey;
  }

  /** What is known of the two clusters of a merge beforehand: no member in common, and the partner lies under
      the sibling. */
  ghost predicate Partners<C, P>(net: Net<C, P>, act: Action<C, P>) {
    && act.Merge? && CanMerge(net, act) && Live(net, act.b)
    && var n, o := net.nodes[act.c], net.nodes[act.b];
    && NodeLinks(net, act.c) && NodeInv(net, n) && NodeInv(net, o) && n.lbl in Labels(net) && o.lbl in Labels(net)
    && (forall k :: k in o.vc || k in o.vs ==> k !in n.vc) && (forall k :: k in o.vc ==> k !in o.vs)
    && Sibling(n.lbl) <= o.lbl && Parent(n.lbl) <= n.lbl && Parent(n.lbl) <= o.lbl
    && (|o.lbl| == |n.lbl| <==> o.lbl == Sibling(n.lbl))
  }

  lemma PartnersApart<C, P>(net: Net<C, P>, c: C, b: C)
    requires PrefixFree(Labels(net)) && c in net.nodes && b in net.nodes && Live(net, c) && Live(net, b) && c != b
    requires NodeInv(net, net.nodes[c]) && NodeInv(net, net.nodes[b])
    ensures var n, o := net.nodes[c], net.nodes[b];
            (forall k :: k in o.vc || k in o.vs ==> k !in n.vc) && (forall k :: k in o.vc ==> k !in o.vs)
  {
    hide PrefixFree, Labels, Keyed, Known, Replicas, AllHold, Live;
    MembersApart(net, b, c);
  }

  lemma PartnerLabels<C, P>(net: Net<C, P>, c: C)
    requires c in net.nodes && NodeLinks(net, c) && net.nodes[c].lbl != []
    ensures var a := net.nodes[c].lbl;
            var o := net.nodes[net.nodes[c].rt[|a| - 1]].lbl;
            && Sibling(a) <= o && Parent(a) <= a && Parent(a) <= o && (|o| == |a| <==> o == Sibling(a))
  {
    hide LinkAt;
    PartnerIsSibling(net, c);
    assert Parent(net.nodes[c].lbl) <= Sibling(net.nodes[c].lbl);
  }

  lemma PartsAt<C, P>(net: Net<C, P>, c: C, b: C)
    requires Inv(net) && Live(net, c) && b in net.nodes && !net.nodes[b].merging
    ensures c in net.nodes && Live(net, b) && NodeLinks(net, c) && NodeInv(net, net.nodes[c])
            && NodeInv(net, net.nodes[b])
    ensures net.nodes[c].lbl in Labels(net) && net.nodes[b].lbl in Labels(net) && PrefixFree(Labels(net))
  {
    hide NodeLinks, NodeInv, RegInv, PrefixFree, Str;
  }

  lemma MergeParts<C, P>(net: Net<C, P>, act: Action<C, P>)
    requires Inv(net) && act.Merge? && Enabled(net, act)
    ensures Partners(net, act)
  {
    hide Inv, Live, NodeLinks, NodeInv, Labels, PrefixFree;
    PartsAt(net, act.c, act.b);
    PartnersApart(net, act.c, act.b);
    PartnerLabels(net, act.c);
  }

  /** What a merge makes of the two clusters and of the stores. */
  ghost predicate MergedFrom<C, P>(net: Net<C, P>, net': Net<C, P>, act: Action<C, P>) {
    && act.Merge? && CanMerge(net, act) && act.c in net'.nodes && act.b in net'.nodes && act.m in net'.nodes
    && var n, o := net.nodes[act.c], net.nodes[act.b];
    && net'.nodes[act.m].lbl == Parent(n.lbl) && net'.nodes[act.m].rt == n.rt[..|n.lbl| - 1]
    && net'.nodes[act.m].vc == (n.vc - {act.key})[act.kept := o.vc[act.kept]]
    && net'.nodes[act.m].vs == o.vc - {act.kept} && !net'.nodes[act.m].merging && !net'.nodes[act.m].locked
    && net'.nodes[act.c] == n.(vc := n.vc - {act.key}, merging := true)
       && net'.nodes[act.b] == o.(merging := true, locked := true)
    && net'.keys == net.keys && net'.cfg == net.cfg
    && net'.data == Combined(net.keys, net.data, n.vc - {act.key}, o.vc, act.kept,
                             Read(net.data, n.vc[act.pa]), Read(net.data, o.vc[act.pb]))
  }

  lemma MergeResult<C, P>(net: Net<C, P>, act: Action<C, P>)
    requires act.Merge? && Enabled(net, act)
    ensures MergedFrom(net, Apply(net, act), act)
  {
    hide Str, Combined, Live;
  }

  lemma MergeCells<P>(cfg: Config, keys: map<P, string>, data: map<P, Data>, up: Id,
                      la: Id, avc: map<string, P>, lb: Id, bvc: map<string, P>, key: string, pa: string, pb: string,
                        kept: string)
    requires Cell(cfg, keys, data, la, avc, map[], false) && Known(keys, data, bvc) && Keyed(cfg.m, lb, bvc)
             && Replicas(data, lb, bvc)
    requires up <= la && up <= lb && (forall k :: k in avc ==> k !in bvc)
    requires key in avc && pa in avc && pb in bvc && kept in bvc
    ensures var data' := Combined(keys, data, avc - {key}, bvc, kept, data[avc[pa]], data[bvc[pb]]);
            && Cell(cfg, keys, data', up, (avc - {key})[kept := bvc[kept]], bvc - {kept}, false)
            && OnlyWithin(keys, data, keys, data', avc, bvc)
  {
    hide Keyed, Replicas, AllHold, Combined, OnlyWithin, DataUnder, Known;
    var vc := avc - {key};
    SwapSize(avc, key, kept, bvc[kept]);
    KnownAt(keys, data, avc, pa);
    KnownAt(keys, data, bvc, pb);
    LessKeyed(cfg, keys, data, la, avc, key, pa);
    LessKeyed(cfg, keys, data, lb, bvc, kept, pb);
    MergedCell(cfg, keys, data, up, la, vc, lb, bvc, kept, data[avc[pa]], data[bvc[pb]]);
    WithinMore(keys, data, Combined(keys, data, vc, bvc, kept, data[avc[pa]], data[bvc[pb]]), vc, avc, bvc);
  }

  lemma KnownAt<P>(keys: map<P, string>, data: map<P, Data>, mem: map<string, P>, k: string)
    requires Known(keys, data, mem) && k in mem
    ensures mem[k] in data
  {
  }

  /** The merged cluster is in good order, and only stores of the two cores changed. */
  ghost predicate MergedWell<C, P>(net: Net<C, P>, net': Net<C, P>, act: Action<C, P>) {
    && act.Merge? && act.c in net.nodes && act.b in net.nodes && act.m in net'.nodes
    && NodeInv(net', net'.nodes[act.m])
    && OnlyWithin(net.keys, net.data, net'.keys, net'.data, net.nodes[act.c].vc, net.nodes[act.b].vc)
  }

  lemma PartnersMerge<C, P>(net: Net<C, P>, net': Net<C, P>, act: Action<C, P>)
    requires Partners(net, act) && MergedFrom(net, net', act)
    ensures MergedWell(net, net', act)
  {
    hide Combined, OnlyWithin, Keyed, Replicas, AllHold, Known, Live, NodeLinks, Labels;
    var n, o := net.nodes[act.c], net.nodes[act.b];
    KnownAt(net.keys, net.data, n.vc, act.pa);
    KnownAt(net.keys, net.data, o.vc, act.pb);
    MergeCells(net.cfg, net.keys, net.data, Parent(n.lbl), n.lbl, n.vc, o.lbl, o.vc, act.key, act.pa, act.pb, act.kept);
  }

  lemma MergeNode<C, P>(net: Net<C, P>, act: Action<C, P>)
    requires Inv(net) && act.Merge? && Enabled(net, act)
    ensures MergedWell(net, Apply(net, act), act)
  {
    hide Inv, Enabled, Apply, Partners, MergedFrom, MergedWell;
    MergeParts(net, act);
    MergeResult(net, act);
    PartnersMerge(net, Apply(net, act), act);
  }

  lemma LessKeyed<P>(cfg: Config, keys: map<P, string>, data: map<P, Data>, l: Id, vc: map<string, P>, key: string,
                     pick: string)
    requires Keyed(cfg.m, l, vc) && Known(keys, data, vc) && Replicas(data, l, vc) && pick in vc
    ensures Keyed(cfg.m, l, vc - {key}) && Known(keys, data, vc - {key})
    ensures AllHold(data, vc - {key}, data[vc[pick]]) && AllHold(data, vc, data[vc[pick]])
            && DataUnder(l, data[vc[pick]])
  {
    hide GoodKey, DataUnder;
  }

  lemma WithinMore<P>(keys: map<P, string>, data: map<P, Data>, data': map<P, Data>, vc: map<string, P>,
                      more: map<string, P>, vs: map<string, P>)
    requires OnlyWithin(keys, data, keys, data', vc, vs) && forall k :: k in vc ==> k in more
    ensures OnlyWithin(keys, data, keys, data', more, vs)
  {
  }

  lemma MergeIsShape<C, P>(net: Net<C, P>, act: Action<C, P>)
    requires MemberInv(net) && FlagInv(net) && act.Merge? && Enabled(net, act) && Live(net, act.b)
    ensures var net' := Apply(net, act);
            && MergeShape(net, net', act.c, act.b, act.m)
            && net'.cfg == net.cfg && net'.keys == net.keys
            && (forall x :: x in net.nodes && x != act.c && x != act.b ==> net'.nodes[x] == net.nodes[x])
            && net'.nodes[act.c].merging && net'.nodes[act.b].merging && !net'.nodes[act.m].locked
  {
    hide MemberInv, FlagInv, Str, Combined;
  }

  lemma MergeOthers<C, P>(net: Net<C, P>, net': Net<C, P>, c: C, b: C, x: C)
    requires CompleteCode(Labels(net), net.cfg.m) && MemberInv(net)
    requires c in net.nodes && Live(net, c) && b in net.nodes && Live(net, b)
    requires net'.cfg == net.cfg && net'.keys == net.keys
    requires OnlyWithin(net.keys, net.data, net'.keys, net'.data, net.nodes[c].vc, net.nodes[b].vc)
    requires x in net.nodes && x != c && x != b && Live(net, x)
    ensures NodeInv(net', net.nodes[x])
  {
    var n, o, q := net.nodes[c], net.nodes[b], net.nodes[x];
    MembersApart(net, c, x);
    MembersApart(net, b, x);
    hide CompleteCode, Labels, Live, OnlyWithin, Keyed, Replicas, AllHold;
    DisjointUntouched(net.keys, net.data, net'.keys, net'.data, n.vc, o.vc, q.vc);
    DisjointUntouched(net.keys, net.data, net'.keys, net'.data, n.vc, o.vc, q.vs);
    CellFrame(net.cfg, net.keys, net.data, net'.keys, net'.data, q.lbl, q.vc, q.vs, q.merging);
  }

  lemma CodePrefixFree(s: set<Id>, m: nat)
    requires CompleteCode(s, m)
    ensures PrefixFree(s)
  {
  }

  lemma MergeMembers<C, P>(net: Net<C, P>, net': Net<C, P>, c: C, b: C, m: C)
    requires CompleteCode(Labels(net), net.cfg.m) && MemberInv(net) && FlagInv(net)
    requires c in net.nodes && Live(net, c) && b in net.nodes && Live(net, b)
    requires net'.cfg == net.cfg && net'.keys == net.keys && net'.nodes.Keys == net.nodes.Keys + {m}
    requires OnlyWithin(net.keys, net.data, net'.keys, net'.data, net.nodes[c].vc, net.nodes[b].vc)
    requires Live(net', m) && !Live(net', c) && !Live(net', b) && NodeInv(net', net'.nodes[m])
    requires net'.nodes[c].merging && net'.nodes[b].merging && !net'.nodes[m].locked
    requires forall x :: x in net.nodes && x != c && x != b ==>
               net'.nodes[x] == net.nodes[x] && (Live(net', x) <==> Live(net, x))
    ensures MemberInv(net') && FlagInv(net')
  {
    hide CompleteCode, Labels, OnlyWithin, NodeInv, Live;
    forall x | x in net'.nodes && Live(net', x)
      ensures NodeInv(net', net'.nodes[x])
    {
      if x != m {
        MergeOthers(net, net', c, b, x);
      }
    }
  }

  /** A merge keeps the invariant exactly when the partner's label is as long as the leaver's, that is, when
      the partner is the true sibling. With a longer partner everything but the prefix code survives. */
  lemma MergeKeepsIff<C, P>(net: Net<C, P>, act: Action<C, P>)
    requires Inv(net) && act.Merge? && Enabled(net, act)
    ensures Inv(Apply(net, act)) <==> Safe(net, act)
    ensures var net' := Apply(net, act); RegInv(net') && LinkInv(net') && FlagInv(net') && MemberInv(net')
  {
    hide Inv, Enabled, Apply, NodeInv, CompleteCode, Labels, RegInv, LinkInv, OnlyWithin, MemberInv, FlagInv, Live,
         MergeShape, AfterMerge, NodeLinks;
    InvParts(net);
    MergeParts(net, act);
    MergeIsShape(net, act);
    MergeNode(net, act);
    var net', c, b, m := Apply(net, act), act.c, act.b, act.m;
    CodePrefixFree(Labels(net), net.cfg.m);
    MergeTopology(net, net', c, b, m);
    MergeKeepsLinks(net, net', c, b, m);
    KeysOfShape(net, net', c, b, m);
    MergeMembers(net, net', c, b, m);
    MergeKeepsCodeIff(Labels(net), net.cfg.m, net.nodes[c].lbl, net.nodes[b].lbl);
    SafeIff(net, act);
    InvIff(net, net', AfterMerge(Labels(net), net.nodes[c].lbl, net.nodes[b].lbl));
  }

  lemma SafeIff<C, P>(net: Net<C, P>, act: Action<C, P>)
    requires act.Merge? && Enabled(net, act) && Partners(net, act)
    ensures Safe(net, act) <==> net.nodes[act.b].lbl == Sibling(net.nodes[act.c].lbl)
  {
  }

  lemma InvIff<C, P>(net: Net<C, P>, net': Net<C, P>, s: set<Id>)
    requires Inv(net) && net'.cfg == net.cfg && Labels(net') == s
    requires RegInv(net') && LinkInv(net') && FlagInv(net') && MemberInv(net')
    ensures Inv(net') <==> CompleteCode(s, net.cfg.m)
  {
    hide RegInv, LinkInv, FlagInv, MemberInv, CompleteCode, Labels;
  }

  lemma KeysOfShape<C, P>(net: Net<C, P>, net': Net<C, P>, c: C, b: C, m: C)
    requires MergeShape(net, net', c, b, m)
    ensures net'.nodes.Keys == net.nodes.Keys + {m}
  {
  }

  lemma MergeLive<C, P>(net: Net<C, P>, act: Action<C, P>)
    requires Inv(net) && act.Merge? && Enabled(net, act)
    ensures var net' := Apply(net, act);
            && act.m in net'.nodes && Live(net', act.m) && !Live(net', act.c) && !Live(net', act.b)
            && net'.nodes.Keys == net.nodes.Keys + {act.m}
            && (forall x :: x in net.nodes && x != act.c && x != act.b ==>
                              net'.nodes[x] == net.nodes[x] && (Live(net', x) <==> Live(net, x)))
  {
    hide Inv, Apply, Enabled, MemberInv, FlagInv, LinkInv, NodeInv, NodeLinks, MergeShape, Labels, RegInv, Live, Str,
         CompleteCode;
    InvParts(net);
    MergeParts(net, act);
    MergeIsShape(net, act);
    var net' := Apply(net, act);
    CodePrefixFree(Labels(net), net.cfg.m);
    KeysOfShape(net, net', act.c, act.b, act.m);
    MergeTopology(net, net', act.c, act.b, act.m);
  }
}
