/** What becomes of a stored entry: which steps keep it, when a split loses it, and reading one's writes. */
module Durability {
  import opened Cardinality
  import opened Ids
  import opened PrefixCode
  import opened Network
  import opened Invariant
  import opened Steps
  import opened SplitStep
  import opened MergeStep
  import opened Runs
  import opened Routing

  ghost predicate AllHave<P>(data: map<P, Data>, vc: map<string, P>, x: string, v: string) {
    vc != map[] && forall k :: k in vc ==> vc[k] in data && x in data[vc[k]] && data[vc[k]][x] == v
  }

  /** Cluster `c` answers for `x`, has a core, and every core peer holds `v` for `x`. */
  ghost predicate StoredAt<C, P>(net: Net<C, P>, c: C, x: string, v: string) {
    c in net.nodes && Live(net, c) && net.nodes[c].lbl <= Parse(x) && AllHave(net.data, net.nodes[c].vc, x, v)
  }

  ghost predicate Stored<C, P>(net: Net<C, P>, x: string, v: string) {
    exists c :: c in net.nodes && StoredAt(net, c, x, v)
  }

  // ---------------------------------------------------------------- splits

  /** The half of a split that answers for `x`. */
  function HalfFor<C, P>(n: Node<C, P>, h0: Half<P>, h1: Half<P>, x: string): Half<P>
    requires |n.lbl| < |x|
  {
    if Parse(x)[|n.lbl|] then h1 else h0
  }

  /** No spare is promoted into a half exactly when enough core members are already on that side. */
  lemma NoPromotionIff<P>(smin: nat, core: map<string, P>, spare: map<string, P>, h: Half<P>)
    requires TopUp(smin, core, spare, h)
    ensures (forall k :: k in h.vc ==> k in core) <==> |core| >= smin
  {
    assert core.Keys <= h.vc.Keys;
    if |core| >= smin {
      Subset(core.Keys, h.vc.Keys);
      assert core.Keys == h.vc.Keys;
    }
    assert h.vc.Keys <= core.Keys ==> h.vc.Keys == core.Keys;
  }

  lemma PromotedCount<P>(smin: nat, core: map<string, P>, spare: map<string, P>, h: Half<P>)
    requires TopUp(smin, core, spare, h)
    ensures |h.vc.Keys - core.Keys| + |core| == Max(|core|, smin)
  {
    var promoted := h.vc.Keys - core.Keys;
    assert h.vc.Keys == promoted + core.Keys;
  }

  /** Spares below a promoted one are promoted too, and every promoted one is below a spare left behind. */
  lemma PromotedBelow<P>(smin: nat, core: map<string, P>, spare: map<string, P>, h: Half<P>, k: string,
                         lower: set<string>)
    requires TopUp(smin, core, spare, h) && Lowest(core, h) && (forall j :: j in core ==> j !in spare) && k in spare
    requires forall j :: j in lower <==> j in spare && Less(Parse(j), Parse(k))
    ensures k in h.vc ==> lower <= (h.vc.Keys - core.Keys) - {k} && k in h.vc.Keys - core.Keys
    ensures k !in h.vc ==> h.vc.Keys - core.Keys <= lower
  {
    hide Parse, Less;
    LessIrreflexive(Parse(k));
    forall j | j in lower && j in h.vs && k in h.vc
      ensures false
    {
      LessTransitive(Parse(k), Parse(j), Parse(k));
    }
  }

  lemma LowestPromoted<P>(smin: nat, core: map<string, P>, spare: map<string, P>, h: Half<P>, k: string,
                          lower: set<string>)
    requires TopUp(smin, core, spare, h) && Lowest(core, h) && (forall j :: j in core ==> j !in spare) && k in spare
    requires forall j :: j in lower <==> j in spare && Less(Parse(j), Parse(k))
    ensures k in h.vc <==> |lower| + |core| < smin
  {
    hide Parse, Less, TopUp, Lowest;
    PromotedCount(smin, core, spare, h);
    PromotedBelow(smin, core, spare, h, k, lower);
    var promoted := h.vc.Keys - core.Keys;
    if k in h.vc {
      Subset(lower, promoted - {k});
    } else {
      Subset(promoted, lower);
    }
  }

  /** Which spares a split promotes: those of a side with fewer lower spares of that side than its core members
      fall short of SMin. */
  lemma PromotedIff<C, P>(net: Net<C, P>, act: Action<C, P>, k: string, b: bool, lower: set<string>,
                          cores: set<string>)
    requires Inv(net) && act.Split? && Enabled(net, act)
    requires act.c in net.nodes && k in net.nodes[act.c].vs && BitAt(net.nodes[act.c].lbl, k, b)
    requires var n := net.nodes[act.c];
             && (forall j :: j in lower <==> j in n.vs && BitAt(n.lbl, j, b) && Less(Parse(j), Parse(k)))
             && (forall j :: j in cores <==> j in n.vc && BitAt(n.lbl, j, b))
    ensures k in (if b then act.h1 else act.h0).vc <==> |lower| + |cores| < net.cfg.smin
  {
    hide Inv, Enabled, Live, Keyed, Parse, Less, BitAt, TopUp, Lowest, Under, Replicas, AllHold, Known, Sizes;
    EnabledHalves(net, act);
    LiveCell(net, act.c);
    var n, h := net.nodes[act.c], if b then act.h1 else act.h0;
    var core, spare := Under(n.vc, n.lbl + [b]), Under(n.vs, n.lbl + [b]);
    SideKeys(net.cfg.m, n.lbl, n.vc, b);
    SideKeys(net.cfg.m, n.lbl, n.vs, b);
    assert core.Keys == cores;
    assert HalfOf(net.cfg, n, b, h);
    LowestPromoted(net.cfg.smin, core, spare, h, k, lower);
  }

  lemma LiveCell<C, P>(net: Net<C, P>, c: C)
    requires Inv(net) && c in net.nodes && Live(net, c)
    ensures net.cfg.Ok()
    ensures var n := net.nodes[c];
            |n.lbl| < net.cfg.m && Keyed(net.cfg.m, n.lbl, n.vc) && Keyed(net.cfg.m, n.lbl, n.vs)
            && forall k :: k in n.vc ==> k !in n.vs
  {
    hide LinkInv, RegInv, FlagInv, Keyed, Replicas, AllHold, Live;
    assert NodeInv(net, net.nodes[c]) && net.nodes[c].lbl in Labels(net);
  }

  /** A core of SMin cannot fill two halves: some half always promotes a spare. */
  lemma SomeHalfPromotes<P>(m: nat, l: Id, vc: map<string, P>, smin: nat)
    requires Keyed(m, l, vc) && |l| < m && |vc| <= smin && 0 < smin
    ensures |Under(vc, l + [false])| < smin || |Under(vc, l + [true])| < smin
  {
    MembersBit(m, l, vc, false);
    MembersBit(m, l, vc, true);
    hide Parse, Keyed, BitAt;
    var a, b := Under(vc, l + [false]), Under(vc, l + [true]);
    assert a.Keys + b.Keys == vc.Keys;
    assert a.Keys * b.Keys == {};
    assert |a.Keys + b.Keys| == |a.Keys| + |b.Keys|;
  }

  /** The picked copy peer of the half that answers for `x` was a core peer before the split. */
  ghost predicate PickedCore<C, P>(n: Node<C, P>, h0: Half<P>, h1: Half<P>, x: string)
    requires |n.lbl| < |x|
  {
    HalfFor(n, h0, h1, x).pick in n.vc
  }

  lemma PickData<C, P>(cfg: Config, keys: map<P, string>, data: map<P, Data>, n: Node<C, P>, b: bool, h: Half<P>,
                       x: string, v: string)
    requires Cell(cfg, keys, data, n.lbl, n.vc, n.vs, n.merging) && HalfOf(cfg, n, b, h)
    requires AllHave(data, n.vc, x, v) && n.lbl + [b] <= Parse(x)
    ensures h.vc[h.pick] in data
    ensures var d := Filter(data[h.vc[h.pick]], n.lbl + [b]);
            if h.pick in n.vc then x in d && d[x] == v else x !in d
  {
    hide Parse, Keyed, Lowest, Sizes, Replicas;
  }

  lemma SplitNodesAre<C, P>(net: Net<C, P>, act: Action<C, P>)
    requires act.Split? && Enabled(net, act)
    ensures var nodes, l := Apply(net, act).nodes, net.nodes[act.c].lbl;
            && act.c in nodes && act.oc in nodes
            && nodes[act.c].lbl == l + [false] && nodes[act.c].vc == act.h0.vc
            && nodes[act.oc].lbl == l + [true] && nodes[act.oc].vc == act.h1.vc
  {
    hide Str, CanSplit, SetData, Filter, HalfOf;
  }

  /** The cluster that answers for `x` after its cluster split, and what its cores hold. */
  ghost predicate HolderAfter<C, P>(net: Net<C, P>, net': Net<C, P>, act: Action<C, P>, x: string) {
    && act.Split? && act.c in net.nodes && |net.nodes[act.c].lbl| < |x|
    && var n := net.nodes[act.c];
    var b := Parse(x)[|n.lbl|];
    var c', h := NewHome(act, b), HalfFor(n, act.h0, act.h1, x);
    && c' in net'.nodes && Live(net', c') && net'.nodes[c'].lbl == n.lbl + [b] && n.lbl + [b] <= Parse(x)
    && net'.nodes[c'].vc == h.vc && h.pick in h.vc && HalfOf(net.cfg, n, b, h)
    && AllHold(net'.data, h.vc, Filter(Read(net.data, h.vc[h.pick]), n.lbl + [b]))
  }

  function NewHome<C, P>(act: Action<C, P>, b: bool): C
    requires act.Split?
  {
    if b then act.oc else act.c
  }

  lemma SplitHolder<C, P>(net: Net<C, P>, act: Action<C, P>, x: string)
    requires Inv(net) && act.Split? && Enabled(net, act) && |x| == net.cfg.m && net.nodes[act.c].lbl <= Parse(x)
    ensures HolderAfter(net, Apply(net, act), act, x)
  {
    hide Apply, Enabled, Inv, HalfOf, Live, Labels, RegInv, CompleteCode, LinkInv, LinksLive, AllHold, Filter, Parse,
         NodeInv;
    EnabledHalves(net, act);
    LiveLabel(net, act.c);
    var n := net.nodes[act.c];
    ExtendsOne(n.lbl, Parse(x), Parse(x)[|n.lbl|]);
    SplitCode(net, act);
    SplitHeld(net, act);
    SplitNodesAre(net, act);
  }

  lemma SplitHeld<C, P>(net: Net<C, P>, act: Action<C, P>)
    requires Inv(net) && act.Split? && Enabled(net, act)
    ensures act.c in net.nodes && act.h0.pick in act.h0.vc && act.h1.pick in act.h1.vc
    ensures var data', n := Apply(net, act).data, net.nodes[act.c];
            && AllHold(data', act.h0.vc, Filter(Read(net.data, act.h0.vc[act.h0.pick]), n.lbl + [false]))
            && AllHold(data', act.h1.vc, Filter(Read(net.data, act.h1.vc[act.h1.pick]), n.lbl + [true]))
  {
    hide Inv, Labels, CompleteCode, Keyed, Replicas, Known, Filter, Parse, Str, CanSplit, HalfOf, Apart, Live, AllHold,
         SetData;
    EnabledHalves(net, act);
    LiveLabel(net, act.c);
    var n := net.nodes[act.c];
    SplitKnown(net, n, act.h0, act.h1);
    HalvesApart(net.cfg, n, act.h0, act.h1);
    OneRole(net.cfg, net.keys, net.data, n, false, act.h0);
    OneRole(net.cfg, net.keys, net.data, n, true, act.h1);
    SplitStores(net.keys, net.data, act.h0, act.h1,
                Filter(Read(net.data, act.h0.vc[act.h0.pick]), n.lbl + [false]),
                Filter(Read(net.data, act.h1.vc[act.h1.pick]), n.lbl + [true]));
    SplitDataIs(net, act);
  }

  lemma SplitDataIs<C, P>(net: Net<C, P>, act: Action<C, P>)
    requires act.Split? && Enabled(net, act)
    ensures act.c in net.nodes && act.h0.pick in act.h0.vc && act.h1.pick in act.h1.vc
    ensures var l := net.nodes[act.c].lbl;
            var d0 := Filter(Read(net.data, act.h0.vc[act.h0.pick]), l + [false]);
            var d1 := Filter(Read(net.data, act.h1.vc[act.h1.pick]), l + [true]);
            Apply(net, act).data == SetData(net.keys, SetData(net.keys, net.data, act.h0.vc, d0), act.h1.vc, d1)
  {
    hide CanSplit, Str, Lowest, Under, SetData, Filter;
  }

  /** A split keeps a stored entry exactly when the copy peer picked on the entry's side was already core:
      a promoted spare has nothing to copy. */
  lemma SplitKeepsEntryIff<C, P>(net: Net<C, P>, act: Action<C, P>, x: string, v: string)
    requires Inv(net) && act.Split? && Enabled(net, act) && |x| == net.cfg.m && StoredAt(net, act.c, x, v)
    ensures |net.nodes[act.c].lbl| < |x|
    ensures Stored(Apply(net, act), x, v) <==> PickedCore(net.nodes[act.c], act.h0, act.h1, x)
  {
    hide Apply, Enabled, Inv, Cell, HalfOf, Filter, Parse, Live, AllHave, AllHold, Labels, CompleteCode;
    SplitHolder(net, act, x);
    SplitKeeps(net, act);
    LiveLabel(net, act.c);
    var net', n := Apply(net, act), net.nodes[act.c];
    var b := Parse(x)[|n.lbl|];
    var c', h := NewHome(act, b), HalfFor(n, act.h0, act.h1, x);
    PickData(net.cfg, net.keys, net.data, n, b, h, x, v);
    StoredIsAt(net', c', x, v);
    HoldIsHave(net'.data, h.vc, h.pick, Filter(Read(net.data, h.vc[h.pick]), n.lbl + [b]), x, v);
  }

  lemma StoredIsAt<C, P>(net: Net<C, P>, c: C, x: string, v: string)
    requires Inv(net) && c in net.nodes && Live(net, c) && net.nodes[c].lbl <= Parse(x)
    ensures Stored(net, x, v) <==> AllHave(net.data, net.nodes[c].vc, x, v)
  {
    OwnerOfCode(net, c, x);
    hide Inv, Live, AllHave, Parse;
    if AllHave(net.data, net.nodes[c].vc, x, v) {
      assert StoredAt(net, c, x, v);
    }
  }

  lemma HoldIsHave<P>(data: map<P, Data>, vc: map<string, P>, pick: string, d: Data, x: string, v: string)
    requires AllHold(data, vc, d) && pick in vc
    ensures AllHave(data, vc, x, v) <==> x in d && d[x] == v
  {
  }

  lemma OwnerOfCode<C, P>(net: Net<C, P>, c: C, x: string)
    requires Inv(net) && c in net.nodes && Live(net, c) && net.nodes[c].lbl <= Parse(x)
    ensures forall e :: e in net.nodes && Live(net, e) && net.nodes[e].lbl <= Parse(x) ==> e == c
  {
    hide RegInv, LinkInv, MemberInv, FlagInv, Live, Parse, Labels;
    OwnerIfPrefix(net, c, Parse(x));
  }

  /** Whatever copy peer a split picks, it keeps what is stored on side `b`, exactly when SMin core members
      are already on that side or there is nothing to lose there. */
  lemma SplitLosesNothingIff<C, P>(cfg: Config, keys: map<P, string>, data: map<P, Data>, n: Node<C, P>, b: bool,
                                   h: Half<P>, d: Data)
    requires Cell(cfg, keys, data, n.lbl, n.vc, n.vs, n.merging) && HalfOf(cfg, n, b, h) && AllHold(data, n.vc, d)
    ensures (forall pick :: pick in h.vc ==>
              h.vc[pick] in data && Filter(data[h.vc[pick]], n.lbl + [b]) == Filter(d, n.lbl + [b]))
            <==> |Under(n.vc, n.lbl + [b])| >= cfg.smin || Filter(d, n.lbl + [b]) == map[]
  {
    hide Cell, HalfOf, Filter, Parse, AllHold, Under, Lowest;
    var l := n.lbl + [b];
    HalfTops(cfg, n, b, h);
    NoPromotionIff(cfg.smin, Under(n.vc, l), Under(n.vs, l), h);
    PickOutcome(cfg, keys, data, n, b, h, d);
  }

  lemma HalfTops<C, P>(cfg: Config, n: Node<C, P>, b: bool, h: Half<P>)
    requires HalfOf(cfg, n, b, h)
    ensures TopUp(cfg.smin, Under(n.vc, n.lbl + [b]), Under(n.vs, n.lbl + [b]), h)
  {
    hide TopUp, Under, Lowest;
  }

  lemma PickOutcome<C, P>(cfg: Config, keys: map<P, string>, data: map<P, Data>, n: Node<C, P>, b: bool, h: Half<P>,
                          d: Data)
    requires Cell(cfg, keys, data, n.lbl, n.vc, n.vs, n.merging) && HalfOf(cfg, n, b, h) && AllHold(data, n.vc, d)
    ensures forall k :: k in h.vc ==>
                          h.vc[k] in data
                          && Filter(data[h.vc[k]], n.lbl + [b])
                             == if k in Under(n.vc, n.lbl + [b]) then Filter(d, n.lbl + [b]) else map[]
  {
    hide Parse, Keyed, Lowest, Sizes, Replicas;
    assert Filter(map[], n.lbl + [b]) == map[];
  }

  // ---------------------------------------------------------------- undoing a split

  /** Filtering a store by both longer labels and merging the results gives the store back exactly when
      every key is longer than the label, as every m-bit key is. */
  lemma HalvesRestoreIff(l: Id, d: Data)
    requires DataUnder(l, d)
    ensures Filter(d, l + [false]) + Filter(d, l + [true]) == d <==> forall x :: x in d ==> |l| < |x|
  {
    forall x | x in d
      ensures x in Filter(d, l + [false]) || x in Filter(d, l + [true]) <==> |l| < |x|
    {
      UnderEither(l, x);
    }
    FilterPart(d, l + [false]);
    FilterPart(d, l + [true]);
    hide Parse, Filter;
    PartsRestoreIff(d, Filter(d, l + [false]), Filter(d, l + [true]));
  }

  lemma FilterPart(d: Data, l: Id)
    ensures forall x :: x in Filter(d, l) ==> x in d && Filter(d, l)[x] == d[x]
  {
    hide Parse;
  }

  lemma PartsRestoreIff(d: Data, a: Data, b: Data)
    requires forall x :: x in a ==> x in d && a[x] == d[x]
    requires forall x :: x in b ==> x in d && b[x] == d[x]
    ensures a + b == d <==> forall x :: x in d ==> x in a || x in b
  {
    assert forall x :: x in a + b <==> x in a || x in b;
  }

  lemma UnderEither(l: Id, x: string)
    requires l <= Parse(x)
    ensures l + [false] <= Parse(x) || l + [true] <= Parse(x) <==> |l| < |x|
  {
    if |l| < |x| {
      ExtendsOne(l, Parse(x), Parse(x)[|l|]);
    }
  }

  /** A merge takes over exactly the leaver's fellow core members and the partner's core, each in one role;
      so nobody but the leaver is lost exactly when the partner had no spares. */
  lemma MergeKeepsMembersIff<C, P>(net: Net<C, P>, act: Action<C, P>)
    requires Inv(net) && act.Merge? && Enabled(net, act)
    ensures CanMerge(net, act) && act.m in Apply(net, act).nodes
    ensures var n, o, q := net.nodes[act.c], net.nodes[act.b], Apply(net, act).nodes[act.m];
            && (forall k :: Has(q.vc, q.vs, k) <==> (k in n.vc && k != act.key) || k in o.vc)
            && (forall k :: Has(q.vc, q.vs, k) ==> PeerAt(q.vc, q.vs, k) == if k in n.vc then n.vc[k] else o.vc[k])
            && (forall k :: !(k in q.vc && k in q.vs))
            && ((forall k :: Has(o.vc, o.vs, k) ==> Has(q.vc, q.vs, k)) <==> o.vs == map[])
  {
    hide Inv, Apply, Enabled, Live, NodeInv, NodeLinks, Labels, Combined;
    MergeParts(net, act);
    MergeResult(net, act);
    var n, o := net.nodes[act.c], net.nodes[act.b];
    MembersTaken(n.vc, act.key, o.vc, act.kept);
    assert forall k :: k in o.vs ==> Has(o.vc, o.vs, k);
  }

  lemma MembersTaken<P>(avc: map<string, P>, key: string, bvc: map<string, P>, kept: string)
    requires kept in bvc && forall k :: k in avc ==> k !in bvc
    ensures var vc, vs := (avc - {key})[kept := bvc[kept]], bvc - {kept};
            && (forall k :: Has(vc, vs, k) <==> (k in avc && k != key) || k in bvc)
            && (forall k :: Has(vc, vs, k) ==> PeerAt(vc, vs, k) == if k in avc then avc[k] else bvc[k])
            && (forall k :: !(k in vc && k in vs))
  {
  }

  // ---------------------------------------------------------------- every step

  /** The step does not put another value under `x` or delete it, does not take the last core peer of the cluster
      that answers for it, and if it splits that cluster it copies `x`'s side from a peer that was core. */
  ghost predicate Keeps<C, P>(net: Net<C, P>, act: Action<C, P>, x: string, v: string)
    requires Enabled(net, act)
  {
    match act
    case Put(_, y, w) => y != x || w == v
    case Delete(_, y) => y != x
    case Drop(c, _) => net.nodes[c].lbl <= Parse(x) ==> |net.nodes[c].vc| > 1
    case Split(c, _, h0, h1) =>
      net.nodes[c].lbl <= Parse(x) ==> |net.nodes[c].lbl| < |x| && PickedCore(net.nodes[c], h0, h1, x)
    case _ => true
  }

  lemma JoinHave<P>(data: map<P, Data>, vc: map<string, P>, p: P, x: string, v: string)
    requires AllHave(data, vc, x, v) && p !in data
    ensures AllHave(data[p := map[]], vc, x, v)
  {
  }

  lemma LeaveHave<P>(data: map<P, Data>, vc: map<string, P>, key: string, nominee: string, q: P, x: string, v: string)
    requires AllHave(data, vc, x, v) && key in vc && (forall k :: k in vc ==> vc[k] != q)
    ensures AllHave(data[q := data[vc[key]]], (vc - {key})[nominee := q], x, v)
  {
    assert nominee in (vc - {key})[nominee := q];
  }

  lemma DropHave<P>(data: map<P, Data>, vc: map<string, P>, key: string, x: string, v: string)
    requires AllHave(data, vc, x, v) && key in vc && |vc| > 1
    ensures AllHave(data, vc - {key}, x, v)
  {
    assert (vc - {key}).Keys == vc.Keys - {key};
    assert |(vc - {key}).Keys| == |vc.Keys| - 1;
  }

  lemma WriteHave<P>(keys: map<P, string>, data: map<P, Data>, vc: map<string, P>, mem: map<string, P>, y: string,
                     w: string, x: string, v: string)
    requires AllHave(data, vc, x, v)
    ensures y != x || w == v ==> AllHave(Rewrite(keys, data, mem, y, w), vc, x, v)
    ensures y != x ==> AllHave(Erase(keys, data, mem, y), vc, x, v)
  {
  }

  lemma LocalEntry<C, P>(net: Net<C, P>, act: Action<C, P>, x: string, v: string)
    requires Inv(net) && (act.Join? || act.Leave? || act.Drop? || act.Put? || act.Delete?) && Enabled(net, act)
    requires |x| == net.cfg.m && Keeps(net, act, x, v) && StoredAt(net, act.c, x, v)
    ensures StoredAt(Apply(net, act), act.c, x, v)
  {
    hide Inv, RegInv, CompleteCode, Labels, LinkInv, FlagInv, MemberInv, Live, Parse, GoodKey, Cell, AllHave, Rewrite,
         Erase, Str;
    InvParts(net);
    LocalStart(net, act);
    var n := net.nodes[act.c];
    LocalShape(net, act);
    SameLabelsLive(net, Apply(net, act));
    ApartRoles(net.cfg, net.keys, net.data, n);
    match act
    case Join(_, _, p) => JoinHave(net.data, n.vc, p, x, v);
    case Leave(_, key, nominee) =>
      LeaveHave(net.data, n.vc, key, nominee, n.vs[nominee], x, v);
    case Drop(_, key) => DropHave(net.data, n.vc, key, x, v);
    case Put(_, y, w) => WriteHave(net.keys, net.data, n.vc, n.vc, y, w, x, v);
    case Delete(_, y) => WriteHave(net.keys, net.data, n.vc, n.vc, y, v, x, v);
  }

  lemma ApartRoles<C, P>(cfg: Config, keys: map<P, string>, data: map<P, Data>, n: Node<C, P>)
    requires Cell(cfg, keys, data, n.lbl, n.vc, n.vs, n.merging)
    ensures forall k, j :: k in n.vc && j in n.vs ==> n.vc[k] != n.vs[j]
    ensures forall k :: k in n.vc ==> n.vc[k] in data
  {
    hide Keyed, Sizes, Replicas, AllHold;
  }

  lemma UntouchedHave<P>(keys: map<P, string>, data: map<P, Data>, keys': map<P, string>, data': map<P, Data>,
                         vc: map<string, P>, x: string, v: string)
    requires Untouched(keys, data, keys', data', vc)
    ensures AllHave(data', vc, x, v) <==> AllHave(data, vc, x, v)
  {
  }

  lemma OtherEntry<C, P>(net: Net<C, P>, net': Net<C, P>, c: C, d: C, x: string, v: string)
    requires CompleteCode(Labels(net), net.cfg.m) && MemberInv(net) && c in net.nodes && Live(net, c)
    requires d in net.nodes && Live(net, d) && d != c && OnlyNode(net, net', net.nodes[d])
    requires c in net'.nodes && net'.nodes[c] == net.nodes[c] && Live(net', c)
    ensures StoredAt(net', c, x, v) <==> StoredAt(net, c, x, v)
  {
    var n, o := net.nodes[d], net.nodes[c];
    assert NodeInv(net, n) && NodeInv(net, o);
    MembersApart(net, d, c);
    hide CompleteCode, Labels, MemberInv, Parse, Live, AllHave, Keyed, Replicas, Sizes, AllHold, OnlyWithin;
    DisjointUntouched(net.keys, net.data, net'.keys, net'.data, n.vc, n.vs, o.vc);
    UntouchedHave(net.keys, net.data, net'.keys, net'.data, o.vc, x, v);
  }

  // ---------------------------------------------------------------- merges

  lemma MergeHave<P>(keys: map<P, string>, data: map<P, Data>, vc: map<string, P>, bvc: map<string, P>, kept: string,
                     la: Id, lb: Id, da: Data, db: Data, x: string, v: string)
    requires Known(keys, data, vc) && Known(keys, data, bvc) && (forall k :: k in vc ==> k !in bvc)
    requires AllHold(data, vc, da) && AllHold(data, bvc, db) && kept in bvc
    requires DataUnder(la, da) && DataUnder(lb, db) && !Comparable(la, lb)
    ensures AllHave(Combined(keys, data, vc, bvc, kept, da, db), vc[kept := bvc[kept]], x, v)
            <==> (x in da && da[x] == v) || (x in db && db[x] == v)
  {
    MergedStores(keys, data, vc, bvc, kept, da, db);
    NothingOverwritten(la, lb, da, db);
    var vc' := vc[kept := bvc[kept]];
    assert kept in vc';
    hide Combined, DataUnder, Known, OnlyWithin;
    HoldIsHave(Combined(keys, data, vc, bvc, kept, da, db), vc', kept, da + db, x, v);
  }

  lemma SiblingSide(a: Id, o: Id)
    requires a != [] && Sibling(a) <= o
    ensures !Comparable(a, o)
  {
    assert Sibling(a)[|a| - 1] != a[|a| - 1] && o[|a| - 1] == Sibling(a)[|a| - 1];
  }

  lemma MergeData<C, P>(net: Net<C, P>, net': Net<C, P>, act: Action<C, P>, x: string, v: string)
    requires Partners(net, act) && MergedFrom(net, net', act)
    ensures AllHave(net'.data, net'.nodes[act.m].vc, x, v) <==>
            AllHave(net.data, net.nodes[act.c].vc, x, v) || AllHave(net.data, net.nodes[act.b].vc, x, v)
  {
    hide Labels, Parse, Str, AllHave, Live, Sizes, AllHold, Combined, Keyed, Known, Replicas, NodeLinks;
    var n, o := net.nodes[act.c], net.nodes[act.b];
    SiblingSide(n.lbl, o.lbl);
    KnownAt(net.keys, net.data, n.vc, act.pa);
    KnownAt(net.keys, net.data, o.vc, act.pb);
    MergedHave(net.cfg, net.keys, net.data, n.lbl, n.vc, o.lbl, o.vc, act.key, act.pa, act.pb, act.kept, x, v);
  }

  lemma MergeEntry<C, P>(net: Net<C, P>, act: Action<C, P>, c: C, x: string, v: string)
    requires Inv(net) && act.Merge? && Enabled(net, act) && StoredAt(net, c, x, v) && (c == act.c || c == act.b)
    ensures act.m in Apply(net, act).nodes && StoredAt(Apply(net, act), act.m, x, v)
  {
    hide Apply, Enabled, Inv, Labels, Parse, Str, AllHave, Live, NodeInv, NodeLinks, Combined;
    MergeParts(net, act);
    MergeResult(net, act);
    MergeData(net, Apply(net, act), act, x, v);
    MergeLive(net, act);
  }

  lemma MergedHave<P>(cfg: Config, keys: map<P, string>, data: map<P, Data>, la: Id, avc: map<string, P>, lb: Id,
                      bvc: map<string, P>,
                      key: string, pa: string, pb: string, kept: string, x: string, v: string)
    requires Keyed(cfg.m, la, avc) && Known(keys, data, avc) && Replicas(data, la, avc)
    requires Keyed(cfg.m, lb, bvc) && Known(keys, data, bvc) && Replicas(data, lb, bvc)
    requires (forall k :: k in avc ==> k !in bvc) && !Comparable(la, lb)
    requires key in avc && pa in avc && pb in bvc && kept in bvc
    ensures AllHave(Combined(keys, data, avc - {key}, bvc, kept, Read(data, avc[pa]), Read(data, bvc[pb])),
                    (avc - {key})[kept := bvc[kept]], x, v)
            <==> AllHave(data, avc, x, v) || AllHave(data, bvc, x, v)
  {
    LessKeyed(cfg, keys, data, la, avc, key, pa);
    LessKeyed(cfg, keys, data, lb, bvc, kept, pb);
    hide Keyed, Replicas, AllHold, Combined, DataUnder, AllHave;
    HoldIsHave(data, avc, pa, data[avc[pa]], x, v);
    HoldIsHave(data, bvc, pb, data[bvc[pb]], x, v);
    MergeHave(keys, data, avc - {key}, bvc, kept, la, lb, data[avc[pa]], data[bvc[pb]], x, v);
  }

  lemma MergeOtherEntry<C, P>(net: Net<C, P>, act: Action<C, P>, c: C, x: string, v: string)
    requires Inv(net) && act.Merge? && Enabled(net, act) && c in net.nodes && Live(net, c) && c != act.c && c != act.b
    ensures c in Apply(net, act).nodes && (StoredAt(Apply(net, act), c, x, v) <==> StoredAt(net, c, x, v))
  {
    hide Apply, Enabled, Inv, Labels, CompleteCode, PrefixFree, Parse, Str, AllHave, Live, NodeLinks, Keyed, Replicas,
         AllHold, Sizes, OnlyWithin, Combined;
    InvParts(net);
    MergeParts(net, act);
    MergeNode(net, act);
    MergeResult(net, act);
    MergeLive(net, act);
    var net', n, o, q := Apply(net, act), net.nodes[act.c], net.nodes[act.b], net.nodes[c];
    LiveNode(net, c);
    CodePrefixFree(Labels(net), net.cfg.m);
    MembersApart(net, act.c, c);
    MembersApart(net, act.b, c);
    DisjointUntouched(net.keys, net.data, net'.keys, net'.data, n.vc, o.vc, q.vc);
    UntouchedHave(net.keys, net.data, net'.keys, net'.data, q.vc, x, v);
  }

  lemma LiveNode<C, P>(net: Net<C, P>, c: C)
    requires MemberInv(net) && Live(net, c)
    ensures c in net.nodes && NodeInv(net, net.nodes[c])
  {
    hide NodeInv, Str;
  }

  // ---------------------------------------------------------------- any step, any run

  lemma SplitEntry<C, P>(net: Net<C, P>, act: Action<C, P>, c: C, x: string, v: string)
    requires Inv(net) && act.Split? && Enabled(net, act) && |x| == net.cfg.m && Keeps(net, act, x, v)
             && StoredAt(net, c, x, v)
    ensures Stored(Apply(net, act), x, v)
  {
    if c == act.c {
      SplitKeepsEntryIff(net, act, x, v);
    } else {
      var net' := Apply(net, act);
      assert net.nodes[act.c].lbl in Labels(net);
      assert Live(net, act.c);
      SplitCode(net, act);
      SplitNodes(net, act);
      SplitIsShape(net, act);
      hide Apply, Enabled, NodeInv, CompleteCode, Labels, RegInv, LinkInv, LinksLive, OnlyNode, FlagInv, Live, AllHave,
           Parse, Keeps, MemberInv;
      OtherEntry(net, net', c, act.c, x, v);
    }
  }

  lemma LocalOtherEntry<C, P>(net: Net<C, P>, act: Action<C, P>, c: C, x: string, v: string)
    requires Inv(net) && (act.Join? || act.Leave? || act.Drop? || act.Put? || act.Delete?) && Enabled(net, act)
    requires c in net.nodes && Live(net, c) && c != act.c
    ensures StoredAt(Apply(net, act), c, x, v) <==> StoredAt(net, c, x, v)
  {
    LocalShape(net, act);
    LocalNode(net, act);
    var net' := Apply(net, act);
    SameLabelsLive(net, net');
    hide Apply, Enabled, NodeInv, CompleteCode, Labels, RegInv, LinkInv, OnlyNode, FlagInv, MemberInv, Live, AllHave,
         Parse;
    OtherEntry(net, net', c, act.c, x, v);
  }

  lemma FixEntry<C, P>(net: Net<C, P>, act: Action<C, P>, c: C, x: string, v: string)
    requires act.Fix? && Enabled(net, act)
    ensures Apply(net, act).nodes.Keys == net.nodes.Keys
    ensures StoredAt(Apply(net, act), c, x, v) <==> StoredAt(net, c, x, v)
  {
    hide Parse, Nearest, Labels, Str;
  }

  lemma KeptEntry<C, P>(net: Net<C, P>, act: Action<C, P>, c: C, x: string, v: string)
    requires Inv(net) && Enabled(net, act) && |x| == net.cfg.m && Keeps(net, act, x, v) && StoredAt(net, c, x, v)
    ensures Stored(Apply(net, act), x, v)
  {
    hide Inv, Enabled, Keeps, StoredAt, Apply;
    InNodes(net, c, x, v);
    match act
    case Split(_, _, _, _) => SplitEntry(net, act, c, x, v);
    case Fix(_) => FixEntry(net, act, c, x, v);
    case Merge(ac, _, b, m, _, _, _) =>
      if c == ac || c == b {
        MergeEntry(net, act, c, x, v);
      } else {
        MergeOtherEntry(net, act, c, x, v);
      }
    case _ =>
      StoredInNodes(net, act, c, x, v);
      if c == act.c {
        LocalEntry(net, act, x, v);
      } else {
        LocalOtherEntry(net, act, c, x, v);
      }
  }

  lemma InNodes<C, P>(net: Net<C, P>, c: C, x: string, v: string)
    requires StoredAt(net, c, x, v)
    ensures c in net.nodes && Live(net, c) && net.nodes[c].lbl <= Parse(x) && net.nodes[c].vc != map[]
  {
    hide Live, Parse;
  }

  /** The core that answers for `x` after a put, a delete or a drop at its cluster. */
  ghost function CoreAfter<C, P>(net: Net<C, P>, act: Action<C, P>): map<string, P>
    requires Enabled(net, act) && (act.Put? || act.Delete? || act.Drop?)
  {
    if act.Drop? then net.nodes[act.c].vc - {act.key} else net.nodes[act.c].vc
  }

  lemma LocalResult<C, P>(net: Net<C, P>, act: Action<C, P>)
    requires Enabled(net, act) && (act.Put? || act.Delete? || act.Drop?)
    ensures act.c in net.nodes && Live(net, act.c) && act.c in Apply(net, act).nodes
    ensures Apply(net, act).nodes[act.c].vc == CoreAfter(net, act)
            && Apply(net, act).nodes[act.c].lbl == net.nodes[act.c].lbl
    ensures Live(Apply(net, act), act.c)
    ensures act.Put? ==> Apply(net, act).data == Rewrite(net.keys, net.data, net.nodes[act.c].vc, act.x, act.v)
    ensures act.Delete? ==> Apply(net, act).data == Erase(net.keys, net.data, net.nodes[act.c].vc, act.x)
    ensures !act.Drop? ==> net.nodes[act.c].lbl <= Parse(act.x)
    ensures act.Drop? ==> act.key in net.nodes[act.c].vc
  {
    hide Parse, Str, Rewrite, Erase;
  }

  lemma WriteLoses<P>(cfg: Config, keys: map<P, string>, data: map<P, Data>, vc: map<string, P>, x: string, v: string,
                      w: string)
    requires Known(keys, data, vc) && vc != map[]
    ensures w != v ==> !AllHave(Rewrite(keys, data, vc, x, w), vc, x, v)
    ensures !AllHave(Erase(keys, data, vc, x), vc, x, v)
  {
    var k :| k in vc;
  }

  lemma LastLeft<P>(vc: map<string, P>, key: string)
    requires key in vc && |vc| <= 1
    ensures vc - {key} == map[]
  {
    RemoveSize(vc, key);
  }

  /** A step that does not keep the entry loses it. */
  lemma LostEntry<C, P>(net: Net<C, P>, act: Action<C, P>, c: C, x: string, v: string)
    requires Inv(net) && Enabled(net, act) && |x| == net.cfg.m && !Keeps(net, act, x, v) && StoredAt(net, c, x, v)
    ensures !Stored(Apply(net, act), x, v)
  {
    hide Inv, Enabled, StoredAt, Apply, Live, Parse, AllHave, CoreAfter, Stored, PickedCore, Rewrite, Erase;
    InNodes(net, c, x, v);
    StepKeeps(net, act);
    if act.Split? {
      SplitOwner(net, act, x);
      OwnerOfCode(net, c, x);
      SplitKeepsEntryIff(net, act, x, v);
    } else {
      LocalResult(net, act);
      OwnerOfCode(net, c, x);
      assert act.c == c;
      NotHeld(net, act, x, v);
      StoredIsAt(Apply(net, act), act.c, x, v);
    }
  }

  lemma SplitOwner<C, P>(net: Net<C, P>, act: Action<C, P>, x: string)
    requires Inv(net) && act.Split? && Enabled(net, act) && |x| == net.cfg.m
    ensures act.c in net.nodes && Live(net, act.c) && |net.nodes[act.c].lbl| < |x|
  {
    hide Inv, Enabled;
    EnabledHalves(net, act);
    LiveLabel(net, act.c);
  }

  lemma NotHeld<C, P>(net: Net<C, P>, act: Action<C, P>, x: string, v: string)
    requires Inv(net) && Enabled(net, act) && !Keeps(net, act, x, v) && !act.Split?
    requires net.nodes[act.c].vc != map[]
    ensures act.Put? || act.Delete? || act.Drop?
    ensures act.c in Apply(net, act).nodes
    ensures !AllHave(Apply(net, act).data, Apply(net, act).nodes[act.c].vc, x, v)
  {
    hide Inv, Enabled, Apply, Parse, Keyed, Replicas, AllHold, Known, Rewrite, Erase, Labels, CompleteCode, Live,
         AllHave;
    LocalResult(net, act);
    InvParts(net);
    if act.Drop? {
      LastLeft(net.nodes[act.c].vc, act.key);
      EmptyHasNone(Apply(net, act).data, x, v);
    } else {
      LocalStart(net, act);
      WriteLoses(net.cfg, net.keys, net.data, net.nodes[act.c].vc, x, v, if act.Put? then act.v else "");
    }
  }

  lemma EmptyHasNone<P>(data: map<P, Data>, x: string, v: string)
    ensures !AllHave(data, map[], x, v)
  {
  }

  /** Which steps keep a stored entry, wherever its owner ends up, and which lose it. */
  lemma StepKeepsEntryIff<C, P>(net: Net<C, P>, act: Action<C, P>, x: string, v: string)
    requires Inv(net) && Enabled(net, act) && |x| == net.cfg.m && Stored(net, x, v)
    ensures Stored(Apply(net, act), x, v) <==> Keeps(net, act, x, v)
  {
    hide Inv, Enabled, Keeps, StoredAt, Apply;
    var c :| c in net.nodes && StoredAt(net, c, x, v);
    if Keeps(net, act, x, v) {
      KeptEntry(net, act, c, x, v);
    } else {
      LostEntry(net, act, c, x, v);
    }
  }

  lemma StoredInNodes<C, P>(net: Net<C, P>, act: Action<C, P>, c: C, x: string, v: string)
    requires Inv(net) && (act.Join? || act.Leave? || act.Drop? || act.Put? || act.Delete?) && Enabled(net, act)
    requires StoredAt(net, c, x, v)
    ensures c in Apply(net, act).nodes
  {
    hide Inv, Live, AllHave, Parse;
    InvParts(net);
    LocalShape(net, act);
  }

  ghost predicate KeepsAll<C, P>(net: Net<C, P>, acts: seq<Action<C, P>>, x: string, v: string)
    requires Legal(net, acts)
    decreases |acts|
  {
    acts != [] ==> Keeps(net, acts[0], x, v) && KeepsAll(Apply(net, acts[0]), acts[1..], x, v)
  }

  /** The entry is stored before the run and after each of its steps. */
  ghost predicate StoredThroughout<C, P>(net: Net<C, P>, acts: seq<Action<C, P>>, x: string, v: string)
    requires Legal(net, acts)
    decreases |acts|
  {
    Stored(net, x, v) && (acts != [] ==> StoredThroughout(Apply(net, acts[0]), acts[1..], x, v))
  }

  /** A stored entry stays stored over a whole run exactly if every step of the run keeps it. */
  lemma {:induction false} RunsKeepEntryIff<C, P>(net: Net<C, P>, acts: seq<Action<C, P>>, x: string, v: string)
    requires Inv(net) && Legal(net, acts) && |x| == net.cfg.m && Stored(net, x, v)
    ensures StoredThroughout(net, acts, x, v) <==> KeepsAll(net, acts, x, v)
    ensures StoredThroughout(net, acts, x, v) ==> Stored(Exec(net, acts), x, v)
    decreases |acts|
  {
    hide Inv, Enabled, Safe, Keeps, Stored, Apply;
    if acts != [] {
      StepKeeps(net, acts[0]);
      StepKeepsEntryIff(net, acts[0], x, v);
      ApplyKeepsConfig(net, acts[0]);
      if Keeps(net, acts[0], x, v) {
        RunsKeepEntryIff(Apply(net, acts[0]), acts[1..], x, v);
      } else {
        NotThroughout(Apply(net, acts[0]), acts[1..], x, v);
      }
    }
  }

  lemma NotThroughout<C, P>(net: Net<C, P>, acts: seq<Action<C, P>>, x: string, v: string)
    requires Legal(net, acts) && !Stored(net, x, v)
    ensures !StoredThroughout(net, acts, x, v)
  {
  }

  lemma PutStores<C, P>(net: Net<C, P>, act: Action<C, P>)
    requires Inv(net) && act.Put? && Enabled(net, act) && net.nodes[act.c].vc != map[]
    ensures Stored(Apply(net, act), act.x, act.v)
  {
    hide Inv, Enabled, Apply, Parse, Live, Cell, Str, Rewrite, AllHave;
    InvParts(net);
    LocalStart(net, act);
    LocalShape(net, act);
    SameLabelsLive(net, Apply(net, act));
    PutResult(net, act);
    PutHave(net.cfg, net.keys, net.data, net.nodes[act.c], act.x, act.v);
    assert StoredAt(Apply(net, act), act.c, act.x, act.v);
  }

  lemma PutResult<C, P>(net: Net<C, P>, act: Action<C, P>)
    requires act.Put? && Enabled(net, act)
    ensures act.c in net.nodes && net.nodes[act.c].lbl <= Parse(act.x)
    ensures Apply(net, act) == net.(data := Rewrite(net.keys, net.data, net.nodes[act.c].vc, act.x, act.v))
  {
    hide Parse, Str, Rewrite;
  }

  lemma PutHave<C, P>(cfg: Config, keys: map<P, string>, data: map<P, Data>, n: Node<C, P>, x: string, v: string)
    requires Cell(cfg, keys, data, n.lbl, n.vc, n.vs, n.merging) && n.vc != map[]
    ensures AllHave(Rewrite(keys, data, n.vc, x, v), n.vc, x, v)
  {
    hide Keyed, Sizes, Replicas, AllHold;
  }

  /** Reading one's writes: once a put has reached the owner's core, then after any run that keeps the entry,
      a lookup sent from any cluster is routed to a cluster all of whose core peers answer the value put. */
  lemma ReadYourWrites<C, P>(net: Net<C, P>, act: Action<C, P>, acts: seq<Action<C, P>>, from: C)
    requires Inv(net) && act.Put? && Enabled(net, act) && net.nodes[act.c].vc != map[] && |act.x| == net.cfg.m
    requires Legal(Apply(net, act), acts) && KeepsAll(Apply(net, act), acts, act.x, act.v)
    requires var later := Exec(Apply(net, act), acts);
             LinksLive(later) && from in later.nodes && Live(later, from)
    ensures var later := Exec(Apply(net, act), acts);
            && Routable(later) && later.cfg == net.cfg
            && var path := Route(later, from, Parse(act.x));
            && path != [] && path[|path| - 1] in later.nodes
            && AllHave(later.data, later.nodes[path[|path| - 1]].vc, act.x, act.v)
  {
    hide Enabled, Inv, AllHave, Apply, LinksLive, Stored, Exec, Route, Parse, Live, Legal, KeepsAll, StoredThroughout,
         Routable;
    PutStores(net, act);
    StepKeeps(net, act);
    var after := Apply(net, act);
    ApplyKeepsConfig(net, act);
    RunsKeepConfig(after, acts);
    RunsKeepEntryIff(after, acts, act.x, act.v);
    RunsKeepInvariant(after, acts);
    var later := Exec(after, acts);
    RoutingReachesOwner(later, from, Parse(act.x));
    var path := Route(later, from, Parse(act.x));
    StoredIsAt(later, path[|path| - 1], act.x, act.v);
  }

  /** Under one key one value is stored. */
  lemma OneStored<C, P>(net: Net<C, P>, x: string, v: string)
    requires Inv(net) && Stored(net, x, v)
    ensures forall w :: Stored(net, x, w) <==> w == v
  {
    hide Inv, AllHave, Parse, Live;
    var c :| c in net.nodes && StoredAt(net, c, x, v);
    forall w
      ensures Stored(net, x, w) <==> w == v
    {
      StoredIsAt(net, c, x, w);
      OneValue(net.data, net.nodes[c].vc, x, v, w);
    }
  }

  lemma OneValue<P>(data: map<P, Data>, vc: map<string, P>, x: string, v: string, w: string)
    requires AllHave(data, vc, x, v)
    ensures AllHave(data, vc, x, w) <==> v == w
  {
    var k :| k in vc;
  }
}
