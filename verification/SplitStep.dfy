/** What a split does to members and stores, and that it keeps the invariant. */
module SplitStep {
  import opened Cardinality
  import opened Ids
  import opened PrefixCode
  import opened Network
  import opened Invariant
  import opened Steps

  predicate BitAt(l: Id, k: string, b: bool) {
    |l| < |k| && Parse(k)[|l|] == b
  }

  predicate Has<P>(vc: map<string, P>, vs: map<string, P>, k: string) {
    k in vc || k in vs
  }

  function PeerAt<P>(vc: map<string, P>, vs: map<string, P>, k: string): P
    requires Has(vc, vs, k)
  {
    if k in vc then vc[k] else vs[k]
  }

  lemma UnderBit(l: Id, b: bool, k: string)
    requires l <= Parse(k) && |l| < |k|
    ensures l + [b] <= Parse(k) <==> BitAt(l, k, b)
  {
    assert l + [b] <= Parse(k) ==> Parse(k)[|l|] == (l + [b])[|l|];
    if BitAt(l, k, b) {
      ExtendsOne(l, Parse(k), b);
    }
  }

  lemma MembersBit<P>(m: nat, l: Id, mem: map<string, P>, b: bool)
    requires Keyed(m, l, mem) && |l| < m
    ensures forall k :: k in mem ==> (BitAt(l, k, b) <==> l + [b] <= Parse(k)) && BitAt(l, k, b) != BitAt(l, k, !b)
  {
    forall k | k in mem
      ensures (BitAt(l, k, b) <==> l + [b] <= Parse(k)) && BitAt(l, k, b) != BitAt(l, k, !b)
    {
      hide Parse, IsBits;
      assert GoodKey(m, l, k);
      UnderBit(l, b, k);
    }
  }

  /** The halves of a split partition the members. Half `b` holds exactly the old members, core or spare,
      whose bit after the label is `b`, each the same peer as before and in one role only; and every member
      has that bit or the other. */
  lemma SplitPartition<C, P>(cfg: Config, n: Node<C, P>, b: bool, h: Half<P>)
    requires Keyed(cfg.m, n.lbl, n.vc) && Keyed(cfg.m, n.lbl, n.vs) && |n.lbl| < cfg.m && HalfOf(cfg, n, b, h)
    ensures forall k :: Has(h.vc, h.vs, k) <==> Has(n.vc, n.vs, k) && BitAt(n.lbl, k, b)
    ensures forall k :: Has(h.vc, h.vs, k) ==> PeerAt(h.vc, h.vs, k) == PeerAt(n.vc, n.vs, k)
    ensures forall k :: !(k in h.vc && k in h.vs)
    ensures forall k :: Has(n.vc, n.vs, k) ==> BitAt(n.lbl, k, b) != BitAt(n.lbl, k, !b)
  {
    hide Parse, BitAt, Keyed, Lowest;
    MembersBit(cfg.m, n.lbl, n.vc, b);
    MembersBit(cfg.m, n.lbl, n.vs, b);
  }

  lemma UnderSize<P>(mem: map<string, P>, l: Id)
    ensures |Under(mem, l)| <= |mem|
  {
    hide Parse;
    Subset(Under(mem, l).Keys, mem.Keys);
  }

  lemma TopUpSize<P>(smin: nat, core: map<string, P>, spare: map<string, P>, h: Half<P>)
    requires TopUp(smin, core, spare, h) && forall k :: k in core ==> k !in spare
    ensures |h.vc| + |h.vs| == |core| + |spare|
  {
    assert h.vc.Keys + h.vs.Keys == core.Keys + spare.Keys;
    assert |h.vc.Keys + h.vs.Keys| == |h.vc.Keys| + |h.vs.Keys|;
    assert |core.Keys + spare.Keys| == |core.Keys| + |spare.Keys|;
  }

  /** The members on one side are those whose next bit is that of the side. */
  lemma SideSize<C, P>(m: nat, n: Node<C, P>, b: bool)
    requires Keyed(m, n.lbl, n.vc) && Keyed(m, n.lbl, n.vs) && |n.lbl| < m && forall k :: k in n.vc ==> k !in n.vs
    ensures |Under(n.vc, n.lbl + [b])| + |Under(n.vs, n.lbl + [b])|
            == |set k | k in n.vc.Keys + n.vs.Keys && BitAt(n.lbl, k, b)|
  {
    hide Keyed, Parse, BitAt, Under;
    SideKeys(m, n.lbl, n.vc, b);
    SideKeys(m, n.lbl, n.vs, b);
    var x, y := Under(n.vc, n.lbl + [b]).Keys, Under(n.vs, n.lbl + [b]).Keys;
    Together(x, y, set k | k in n.vc.Keys + n.vs.Keys && BitAt(n.lbl, k, b));
  }

  lemma Together(x: set<string>, y: set<string>, z: set<string>)
    requires (forall k :: k in x ==> k !in y) && forall k :: k in z <==> k in x || k in y
    ensures |z| == |x| + |y|
  {
    assert z == x + y;
    assert x * y == {};
  }

  lemma SideKeys<P>(m: nat, l: Id, mem: map<string, P>, b: bool)
    requires Keyed(m, l, mem) && |l| < m
    ensures forall k :: k in Under(mem, l + [b]).Keys <==> k in mem && BitAt(l, k, b)
    ensures |Under(mem, l + [b])| == |Under(mem, l + [b]).Keys|
  {
    MembersBit(m, l, mem, b);
    hide Keyed, Parse, BitAt;
  }

  /** isSplit in terms of members: the label can grow, and TSplit members or more are on either side. */
  lemma CanSplitIff<C, P>(cfg: Config, n: Node<C, P>)
    requires Keyed(cfg.m, n.lbl, n.vc) && Keyed(cfg.m, n.lbl, n.vs) && forall k :: k in n.vc ==> k !in n.vs
    requires |n.lbl| < cfg.m
    ensures CanSplit(cfg, n) <==>
            && |n.lbl| + 1 < cfg.m
            && |set k | k in n.vc.Keys + n.vs.Keys && BitAt(n.lbl, k, false)| >= cfg.tsplit
            && |set k | k in n.vc.Keys + n.vs.Keys && BitAt(n.lbl, k, true)| >= cfg.tsplit
  {
    SideSize(cfg.m, n, false);
    SideSize(cfg.m, n, true);
    hide Keyed, BitAt, Under;
    assert CanSplit(cfg, n) ==> false in {false, true} && true in {false, true};
  }

  /** Each half has at least TSplit members, of which exactly SMin are core. */
  lemma HalfSizes<C, P>(cfg: Config, n: Node<C, P>, b: bool, h: Half<P>)
    requires |n.vc| <= cfg.smin && (forall k :: k in n.vc ==> k !in n.vs) && CanSplit(cfg, n) && HalfOf(cfg, n, b, h)
    ensures |h.vc| + |h.vs| >= cfg.tsplit && |h.vc| == cfg.smin
  {
    hide Parse, Lowest;
    var l := n.lbl + [b];
    UnderSize(n.vc, l);
    assert b in {false, true};
    TopUpSize(cfg.smin, Under(n.vc, l), Under(n.vs, l), h);
  }

  lemma HalfKeyed<P>(m: nat, l: Id, b: bool, vc: map<string, P>, vs: map<string, P>, smin: nat, h: Half<P>)
    requires Keyed(m, l, vc) && Keyed(m, l, vs) && TopUp(smin, Under(vc, l + [b]), Under(vs, l + [b]), h)
    ensures Keyed(m, l + [b], h.vc) && Keyed(m, l + [b], h.vs)
  {
    hide Parse, IsBits;
    assert forall k :: k in h.vc || k in h.vs ==> (k in vc || k in vs) && l + [b] <= Parse(k);
  }

  ghost predicate Apart<P>(a: Half<P>, b: Half<P>) {
    forall k :: Has(a.vc, a.vs, k) ==> !Has(b.vc, b.vs, k)
  }

  lemma HalvesApart<C, P>(cfg: Config, n: Node<C, P>, h0: Half<P>, h1: Half<P>)
    requires Keyed(cfg.m, n.lbl, n.vc) && Keyed(cfg.m, n.lbl, n.vs) && |n.lbl| < cfg.m
    requires HalfOf(cfg, n, false, h0) && HalfOf(cfg, n, true, h1)
    ensures Apart(h0, h1)
    ensures forall k :: k in h0.vc || k in h0.vs || k in h1.vc || k in h1.vs ==> k in n.vc || k in n.vs
  {
    SplitPartition(cfg, n, false, h0);
    SplitPartition(cfg, n, true, h1);
    hide HalfOf, Keyed, BitAt;
    assert forall k :: k in h0.vc || k in h0.vs ==> Has(h0.vc, h0.vs, k);
    assert forall k :: k in h1.vc || k in h1.vs ==> Has(h1.vc, h1.vs, k);
  }

  lemma SetOne<P>(keys: map<P, string>, data: map<P, Data>, mem: map<string, P>, d: Data, other: map<string, P>)
    requires Known(keys, data, mem) && Known(keys, data, other) && forall k :: k in other ==> k !in mem
    ensures AllHold(SetData(keys, data, mem, d), mem, d)
    ensures Untouched(keys, data, keys, SetData(keys, data, mem, d), other)
  {
  }

  lemma SetWithin<P>(keys: map<P, string>, data: map<P, Data>, vc: map<string, P>, vs: map<string, P>,
                     m0: map<string, P>, m1: map<string, P>, d0: Data, d1: Data)
    requires forall k :: k in m0 || k in m1 ==> k in vc || k in vs
    ensures OnlyWithin(keys, data, keys, SetData(keys, SetData(keys, data, m0, d0), m1, d1), vc, vs)
  {
  }

  /** Stores after a split: every core of a half holds that half's data, spares and strangers are as before. */
  lemma SplitStores<P>(keys: map<P, string>, data: map<P, Data>, h0: Half<P>, h1: Half<P>, d0: Data, d1: Data)
    requires Known(keys, data, h0.vc) && Known(keys, data, h0.vs) && Known(keys, data, h1.vc)
             && Known(keys, data, h1.vs)
    requires Apart(h0, h1)
    requires (forall k :: k in h0.vc ==> k !in h0.vs) && (forall k :: k in h1.vc ==> k !in h1.vs)
    ensures var data' := SetData(keys, SetData(keys, data, h0.vc, d0), h1.vc, d1);
            && AllHold(data', h0.vc, d0) && AllHold(data', h1.vc, d1)
            && Untouched(keys, data, keys, data', h0.vs) && Untouched(keys, data, keys, data', h1.vs)
  {
    assert forall k :: k in h0.vc || k in h0.vs ==> Has(h0.vc, h0.vs, k);
    assert forall k :: k in h1.vc || k in h1.vs ==> Has(h1.vc, h1.vs, k);
    var mid := SetData(keys, data, h0.vc, d0);
    SetOne(keys, data, h0.vc, d0, h0.vs);
    SetOne(keys, data, h0.vc, d0, h1.vc);
    SetOne(keys, data, h0.vc, d0, h1.vs);
    var data' := SetData(keys, mid, h1.vc, d1);
    hide Holds, SetData, Has, Apart;
    assert Known(keys, mid, h0.vc) && Known(keys, mid, h0.vs) && Known(keys, mid, h1.vc) && Known(keys, mid, h1.vs);
    SetOne(keys, mid, h1.vc, d1, h0.vc);
    SetOne(keys, mid, h1.vc, d1, h0.vs);
    SetOne(keys, mid, h1.vc, d1, h1.vs);
    UntouchedHold(keys, mid, data', h0.vc, d0);
    UntouchedTwice(keys, data, mid, data', h0.vs);
    UntouchedTwice(keys, data, mid, data', h1.vs);
  }

  lemma UntouchedHold<P>(keys: map<P, string>, data: map<P, Data>, data': map<P, Data>, mem: map<string, P>, d: Data)
    requires Untouched(keys, data, keys, data', mem) && AllHold(data, mem, d)
    ensures AllHold(data', mem, d)
  {
  }

  lemma UntouchedTwice<P>(keys: map<P, string>, data: map<P, Data>, mid: map<P, Data>, data': map<P, Data>,
                          mem: map<string, P>)
    requires Untouched(keys, data, keys, mid, mem) && Untouched(keys, mid, keys, data', mem)
    ensures Untouched(keys, data, keys, data', mem)
  {
  }

  lemma HalfCell<C, P>(cfg: Config, keys: map<P, string>, data: map<P, Data>, data': map<P, Data>,
                       n: Node<C, P>, b: bool, h: Half<P>, d: Data, merging: bool)
    requires Cell(cfg, keys, data, n.lbl, n.vc, n.vs, n.merging) && CanSplit(cfg, n) && HalfOf(cfg, n, b, h)
    requires Known(keys, data, h.vc) && Known(keys, data, h.vs)
    requires AllHold(data', h.vc, d) && Untouched(keys, data, keys, data', h.vs) && DataUnder(n.lbl + [b], d)
    ensures Cell(cfg, keys, data', n.lbl + [b], h.vc, h.vs, merging)
  {
    hide Parse, Lowest, Keyed, Replicas, DataUnder, CanSplit, HalfOf, AllHold, Known, Untouched;
    HalfSizes(cfg, n, b, h);
    HalfParts(cfg, keys, data, n, b, h);
    HalfStays(keys, data, data', h, d);
    SameIsReplicas(data', n.lbl + [b], h.vc, d);
  }

  lemma HalfParts<C, P>(cfg: Config, keys: map<P, string>, data: map<P, Data>, n: Node<C, P>, b: bool, h: Half<P>)
    requires Cell(cfg, keys, data, n.lbl, n.vc, n.vs, n.merging) && HalfOf(cfg, n, b, h)
    ensures Keyed(cfg.m, n.lbl + [b], h.vc) && Keyed(cfg.m, n.lbl + [b], h.vs) && (forall k :: k in h.vc ==> k !in h.vs)
    ensures AllHold(data, h.vs, map[])
  {
    hide Parse, Lowest, Keyed, Replicas, Known;
    HalfKeyed(cfg.m, n.lbl, b, n.vc, n.vs, cfg.smin, h);
  }

  lemma HalfStays<P>(keys: map<P, string>, data: map<P, Data>, data': map<P, Data>, h: Half<P>, d: Data)
    requires Known(keys, data, h.vc) && Known(keys, data, h.vs) && AllHold(data, h.vs, map[])
    requires AllHold(data', h.vc, d) && Untouched(keys, data, keys, data', h.vs)
    ensures Known(keys, data', h.vc) && Known(keys, data', h.vs) && AllHold(data', h.vs, map[])
  {
  }

  lemma SplitCode<C, P>(net: Net<C, P>, act: Action<C, P>)
    requires Inv(net) && act.Split? && Enabled(net, act)
    ensures var net' := Apply(net, act);
            && RegInv(net') && CompleteCode(Labels(net'), net.cfg.m) && LinkInv(net')
            && Live(net', act.c) && Live(net', act.oc)
            && (forall x :: x in net.nodes && x != act.c ==> (Live(net', x) <==> Live(net, x)))
            && (LinksLive(net) ==> LinksLive(net'))
  {
    var c, oc := act.c, act.oc;
    SplitIsShape(net, act);
    var net' := Apply(net, act);
    assert net.nodes[c].lbl in Labels(net);
    assert |net.nodes[c].lbl| + 1 < net.cfg.m;
    hide Apply, Enabled, MemberInv, FlagInv, SplitShape, LinkInv, LinksLive, Labels, RegInv;
    SplitTopology(net, net', c, oc);
    SplitKeepsLinks(net, net', c, oc);
    SplitKeepsCode(Labels(net), net.cfg.m, net.nodes[c].lbl);
  }

  lemma SplitIsShape<C, P>(net: Net<C, P>, act: Action<C, P>)
    requires MemberInv(net) && FlagInv(net) && act.Split? && Enabled(net, act)
    ensures var net' := Apply(net, act);
            && SplitShape(net, net', act.c, act.oc)
            && net'.cfg == net.cfg && net'.keys == net.keys
            && (forall x :: x in net.nodes && x != act.c ==> net'.nodes[x] == net.nodes[x])
            && net'.nodes[act.c].merging == net.nodes[act.c].merging
            && net'.nodes[act.c].locked == net.nodes[act.c].locked && !net'.nodes[act.oc].locked
  {
    hide MemberInv, FlagInv, Str, CanSplit, HalfOf, SetData;
  }

  ghost function SplitData<C, P>(keys: map<P, string>, data: map<P, Data>, n: Node<C, P>, h0: Half<P>,
                                 h1: Half<P>): map<P, Data>
    requires h0.pick in h0.vc && h0.vc[h0.pick] in data && h1.pick in h1.vc && h1.vc[h1.pick] in data
  {
    SetData(keys, SetData(keys, data, h0.vc, Filter(data[h0.vc[h0.pick]], n.lbl + [false])),
            h1.vc, Filter(data[h1.vc[h1.pick]], n.lbl + [true]))
  }

  lemma SplitCells<C, P>(cfg: Config, keys: map<P, string>, data: map<P, Data>, n: Node<C, P>, h0: Half<P>, h1: Half<P>)
    requires Cell(cfg, keys, data, n.lbl, n.vc, n.vs, n.merging) && |n.lbl| < cfg.m && CanSplit(cfg, n)
    requires HalfOf(cfg, n, false, h0) && HalfOf(cfg, n, true, h1)
    requires Known(keys, data, h0.vc) && Known(keys, data, h0.vs) && Known(keys, data, h1.vc)
             && Known(keys, data, h1.vs)
    ensures var data' := SplitData(keys, data, n, h0, h1);
            && Cell(cfg, keys, data', n.lbl + [false], h0.vc, h0.vs, n.merging)
            && Cell(cfg, keys, data', n.lbl + [true], h1.vc, h1.vs, false)
            && OnlyWithin(keys, data, keys, data', n.vc, n.vs)
  {
    hide Parse, HalfOf, CanSplit, AllHold, DataUnder, Apart, OnlyWithin, Filter, Untouched, Lowest, Keyed, Known,
         Replicas;
    OneRole(cfg, keys, data, n, false, h0);
    OneRole(cfg, keys, data, n, true, h1);
    var d0 := Filter(data[h0.vc[h0.pick]], n.lbl + [false]);
    var d1 := Filter(data[h1.vc[h1.pick]], n.lbl + [true]);
    HalvesApart(cfg, n, h0, h1);
    FilterUnder(data[h0.vc[h0.pick]], n.lbl + [false]);
    FilterUnder(data[h1.vc[h1.pick]], n.lbl + [true]);
    SplitStores(keys, data, h0, h1, d0, d1);
    SetWithin(keys, data, n.vc, n.vs, h0.vc, h1.vc, d0, d1);
    var data' := SetData(keys, SetData(keys, data, h0.vc, d0), h1.vc, d1);
    HalfCell(cfg, keys, data, data', n, false, h0, d0, n.merging);
    HalfCell(cfg, keys, data, data', n, true, h1, d1, false);
  }

  lemma OneRole<C, P>(cfg: Config, keys: map<P, string>, data: map<P, Data>, n: Node<C, P>, b: bool, h: Half<P>)
    requires HalfOf(cfg, n, b, h) && Known(keys, data, h.vc)
    ensures (forall k :: k in h.vc ==> k !in h.vs) && h.pick in h.vc && h.vc[h.pick] in data
  {
    hide Parse, Lowest;
  }

  lemma SplitNodes<C, P>(net: Net<C, P>, act: Action<C, P>)
    requires MemberInv(net) && FlagInv(net) && act.Split? && Enabled(net, act) && |net.nodes[act.c].lbl| < net.cfg.m
    ensures var net' := Apply(net, act);
            && NodeInv(net', net'.nodes[act.c]) && NodeInv(net', net'.nodes[act.oc])
            && OnlyNode(net, net', net.nodes[act.c])
  {
    hide Cell, HalfOf, CanSplit, OnlyWithin, Filter, SetData, Known, Parse, Str;
    var n := net.nodes[act.c];
    assert NodeInv(net, n);
    SplitKnown(net, n, act.h0, act.h1);
    SplitCells(net.cfg, net.keys, net.data, n, act.h0, act.h1);
  }

  lemma HalfKnown<C, P>(net: Net<C, P>, n: Node<C, P>, b: bool, h: Half<P>)
    requires HalfOf(net.cfg, n, b, h) && NodeInv(net, n)
    ensures Known(net.keys, net.data, h.vc) && Known(net.keys, net.data, h.vs)
  {
    hide Parse, Keyed, Lowest, Replicas, AllHold, Sizes, Known, Under;
    UnderKnown(net.keys, net.data, n.vc, n.lbl + [b]);
    UnderKnown(net.keys, net.data, n.vs, n.lbl + [b]);
    TopUpKnown(net.keys, net.data, net.cfg.smin, Under(n.vc, n.lbl + [b]), Under(n.vs, n.lbl + [b]), h);
  }

  lemma UnderKnown<P>(keys: map<P, string>, data: map<P, Data>, mem: map<string, P>, l: Id)
    requires Known(keys, data, mem)
    ensures Known(keys, data, Under(mem, l))
  {
    hide Parse;
  }

  lemma TopUpKnown<P>(keys: map<P, string>, data: map<P, Data>, smin: nat, core: map<string, P>, spare: map<string, P>,
                      h: Half<P>)
    requires TopUp(smin, core, spare, h) && Known(keys, data, core) && Known(keys, data, spare)
    ensures Known(keys, data, h.vc) && Known(keys, data, h.vs)
  {
  }

  lemma SplitKnown<C, P>(net: Net<C, P>, n: Node<C, P>, h0: Half<P>, h1: Half<P>)
    requires NodeInv(net, n) && HalfOf(net.cfg, n, false, h0) && HalfOf(net.cfg, n, true, h1)
    ensures Known(net.keys, net.data, h0.vc) && Known(net.keys, net.data, h0.vs)
    ensures Known(net.keys, net.data, h1.vc) && Known(net.keys, net.data, h1.vs)
    ensures h0.pick in h0.vc && h0.vc[h0.pick] in net.data && h1.pick in h1.vc && h1.vc[h1.pick] in net.data
  {
    HalfKnown(net, n, false, h0);
    HalfKnown(net, n, true, h1);
    hide NodeInv;
  }

  lemma FilterUnder(d: Data, l: Id)
    ensures DataUnder(l, Filter(d, l))
  {
    hide Parse;
  }

  lemma SplitMembers<C, P>(net: Net<C, P>, net': Net<C, P>, c: C, oc: C)
    requires CompleteCode(Labels(net), net.cfg.m) && MemberInv(net) && FlagInv(net) && c in net.nodes && Live(net, c)
    requires net'.nodes.Keys == net.nodes.Keys + {oc} && OnlyNode(net, net', net.nodes[c])
    requires net'.nodes[c].locked == net.nodes[c].locked && !net'.nodes[oc].locked
    requires Live(net', c) && Live(net', oc) && NodeInv(net', net'.nodes[c]) && NodeInv(net', net'.nodes[oc])
    requires forall x :: x in net.nodes && x != c ==> net'.nodes[x] == net.nodes[x] && (Live(net', x) <==> Live(net, x))
    ensures MemberInv(net') && FlagInv(net')
  {
    hide CompleteCode, Labels, OnlyNode, NodeInv, Live;
    forall x | x in net'.nodes && Live(net', x)
      ensures NodeInv(net', net'.nodes[x])
    {
      if x != c && x != oc {
        OthersKeep(net, net', c, x);
      }
    }
  }

  lemma SplitKeeps<C, P>(net: Net<C, P>, act: Action<C, P>)
    requires Inv(net) && act.Split? && Enabled(net, act)
    ensures Inv(Apply(net, act)) && (LinksLive(net) ==> LinksLive(Apply(net, act)))
  {
    assert net.nodes[act.c].lbl in Labels(net);
    SplitCode(net, act);
    SplitNodes(net, act);
    SplitIsShape(net, act);
    hide Apply, NodeInv, CompleteCode, Labels, RegInv, LinkInv, LinksLive, OnlyNode, MemberInv, FlagInv, Live;
    SplitMembers(net, Apply(net, act), act.c, act.oc);
  }

  lemma EnabledHalves<C, P>(net: Net<C, P>, act: Action<C, P>)
    requires act.Split? && Enabled(net, act)
    ensures act.c in net.nodes && Live(net, act.c) && act.h0.pick in act.h0.vc && act.h1.pick in act.h1.vc
    ensures HalfOf(net.cfg, net.nodes[act.c], false, act.h0) && HalfOf(net.cfg, net.nodes[act.c], true, act.h1)
  {
    hide CanSplit, Str, Lowest, Under;
  }
}
