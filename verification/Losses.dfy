/** When no split of a cluster can lose an entry, decided before the split. */
module Losses {
  import opened Cardinality
  import opened Ids
  import opened Network
  import opened SplitStep
  import opened Durability
  import opened Splitting

  predicate AllKeys<P>(m: nat, mem: map<string, P>) {
    forall k :: k in mem ==> |k| == m && IsBits(k)
  }

  lemma KeysOrdered(j: string, k: string)
    requires |j| == |k| && IsBits(j) && IsBits(k) && j != k
    ensures Less(Parse(j), Parse(k)) || Less(Parse(k), Parse(j))
  {
    UnorderedIffComparable(Parse(j), Parse(k));
    ParseRoundTrip(j);
    ParseRoundTrip(k);
  }

  /** Among keys of one length there is a lowest. */
  lemma {:induction false} LowestKey<P>(m: nat, vs: map<string, P>) returns (k: string)
    requires AllKeys(m, vs) && vs != map[]
    ensures k in vs && forall j :: j in vs && j != k ==> Less(Parse(k), Parse(j))
    decreases |vs|
  {
    hide Less, Parse, IsBits;
    k :| k in vs;
    var rest := vs - {k};
    RemoveSize(vs, k);
    if rest != map[] {
      var l := LowestKey(m, rest);
      KeysOrdered(k, l);
      if Less(Parse(l), Parse(k)) {
        k := l;
      } else {
        forall j | j in vs && j != k && j != l
          ensures Less(Parse(k), Parse(j))
        {
          LessTransitive(Parse(k), Parse(l), Parse(j));
        }
      }
    }
  }

  /** The promotion of the lowest spares can always be carried out. */
  lemma {:induction false} ToppingExists<P>(m: nat, smin: nat, core: map<string, P>, spare: map<string, P>,
                                            vc: map<string, P>,
                                            vs: map<string, P>) returns (h: Half<P>)
    requires AllKeys(m, spare) && (forall k :: k in core ==> k !in spare) && 0 < smin
    requires Topping(core, spare, vc, vs) && LowerMoved(core, vc, vs)
    requires |core| <= |vc| <= Max(|core|, smin) <= |vc| + |vs|
    ensures TopUp(smin, core, spare, h) && Lowest(core, h)
    decreases smin - |vc|
  {
    hide Topping, LowerMoved, Less, Parse, IsBits, TopUp, Lowest;
    if |vc| >= smin {
      NonEmpty(vc);
      var pick :| pick in vc;
      h := Half(vc, vs, pick);
      ToppedUp(smin, core, spare, h);
    } else {
      NonEmpty(vs);
      StillKeys(m, core, spare, vc, vs);
      var k := LowestKey(m, vs);
      ToppingStep(core, spare, vc, vs, k);
      LowerStep(core, vc, vs, k, vs[k]);
      AddSize(vc, k, vs[k]);
      RemoveSize(vs, k);
      h := ToppingExists(m, smin, core, spare, vc[k := vs[k]], vs - {k});
    }
  }

  lemma StillKeys<P>(m: nat, core: map<string, P>, spare: map<string, P>, vc: map<string, P>, vs: map<string, P>)
    requires AllKeys(m, spare) && Topping(core, spare, vc, vs)
    ensures AllKeys(m, vs)
  {
    hide IsBits;
  }

  lemma UnderKeys<P>(m: nat, l: Id, mem: map<string, P>, l': Id)
    requires Keyed(m, l, mem)
    ensures AllKeys(m, Under(mem, l'))
  {
    hide Parse, IsBits;
  }

  lemma HalfExists<C, P>(cfg: Config, n: Node<C, P>, b: bool) returns (h: Half<P>)
    requires cfg.Ok() && Keyed(cfg.m, n.lbl, n.vs) && (forall k :: k in n.vc ==> k !in n.vs) && CanSplit(cfg, n)
    ensures HalfOf(cfg, n, b, h)
  {
    hide Keyed, Topping, LowerMoved, TopUp, Lowest, AllKeys, Parse;
    assert b in {false, true};
    var core, spare := Under(n.vc, n.lbl + [b]), Under(n.vs, n.lbl + [b]);
    UnderKeys(cfg.m, n.lbl, n.vs, n.lbl + [b]);
    ToppingStart(core, spare);
    h := ToppingExists(cfg.m, cfg.smin, core, spare, core, spare);
  }

  /** With fewer than SMin core members on a side, some half picks a promoted spare to copy from. */
  lemma PromotedPick<C, P>(cfg: Config, n: Node<C, P>, b: bool) returns (h: Half<P>)
    requires cfg.Ok() && Keyed(cfg.m, n.lbl, n.vs) && (forall k :: k in n.vc ==> k !in n.vs) && CanSplit(cfg, n)
    requires |Under(n.vc, n.lbl + [b])| < cfg.smin
    ensures HalfOf(cfg, n, b, h) && h.pick !in n.vc
  {
    hide Keyed, CanSplit, Under, Lowest, TopUp;
    h := HalfExists(cfg, n, b);
    var core, spare := Under(n.vc, n.lbl + [b]), Under(n.vs, n.lbl + [b]);
    NoPromotionIff(cfg.smin, core, spare, h);
    var k :| k in h.vc && k !in core;
    PickAgain(cfg.smin, core, spare, h, k);
    UnderWithin(n.vs, n.lbl + [b], k);
    h := h.(pick := k);
  }

  lemma PickAgain<P>(smin: nat, core: map<string, P>, spare: map<string, P>, h: Half<P>, k: string)
    requires TopUp(smin, core, spare, h) && Lowest(core, h) && k in h.vc
    ensures TopUp(smin, core, spare, h.(pick := k)) && Lowest(core, h.(pick := k)) && (k in core || k in spare)
  {
    hide Less, Parse;
  }

  lemma UnderWithin<P>(mem: map<string, P>, l: Id, k: string)
    ensures k in Under(mem, l) ==> k in mem
  {
    hide Parse;
  }

  lemma PickIsCore<C, P>(cfg: Config, n: Node<C, P>, b: bool, h: Half<P>)
    requires HalfOf(cfg, n, b, h) && |Under(n.vc, n.lbl + [b])| >= cfg.smin
    ensures h.pick in n.vc
  {
    hide Parse, Lowest;
    NoPromotionIff(cfg.smin, Under(n.vc, n.lbl + [b]), Under(n.vs, n.lbl + [b]), h);
  }

  lemma SplitAllowed<C, P>(net: Net<C, P>, act: Action<C, P>)
    requires act.Split? && act.c in net.nodes && Live(net, act.c) && act.oc !in net.nodes
             && CanSplit(net.cfg, net.nodes[act.c])
    requires HalfOf(net.cfg, net.nodes[act.c], false, act.h0) && HalfOf(net.cfg, net.nodes[act.c], true, act.h1)
    ensures Enabled(net, act)
  {
  }

  lemma SomeSplitLoses<C, P>(net: Net<C, P>, c: C, oc: C, x: string, v: string) returns (act: Action<C, P>)
    requires Inv(net) && |x| == net.cfg.m && StoredAt(net, c, x, v) && CanSplit(net.cfg, net.nodes[c])
             && oc !in net.nodes
    requires |net.nodes[c].lbl| < |x|
    requires |Under(net.nodes[c].vc, net.nodes[c].lbl + [Parse(x)[|net.nodes[c].lbl|]])| < net.cfg.smin
    ensures act.Split? && act.c == c && act.oc == oc && Enabled(net, act) && !Stored(Apply(net, act), x, v)
  {
    hide Inv, Enabled, Apply, Live, CanSplit, HalfOf, Parse, Under, Stored, Keyed;
    var n := net.nodes[c];
    LiveCell(net, c);
    var b := Parse(x)[|n.lbl|];
    var h := PromotedPick(net.cfg, n, b);
    var o := HalfExists(net.cfg, n, !b);
    act := Split(c, oc, if b then o else h, if b then h else o);
    SplitAllowed(net, act);
    SplitKeepsEntryIff(net, act, x, v);
  }

  /** When a cluster in service can split: exactly if its label can grow and TSplit members or more lie on
      either side. */
  lemma SplitEnabledIff<C, P>(net: Net<C, P>, c: C, oc: C)
    requires Inv(net) && c in net.nodes && Live(net, c) && oc !in net.nodes
    ensures var n := net.nodes[c];
            (exists h0, h1 :: Enabled(net, Split(c, oc, h0, h1))) <==>
            && |n.lbl| + 1 < net.cfg.m
            && |set k | k in n.vc.Keys + n.vs.Keys && BitAt(n.lbl, k, false)| >= net.cfg.tsplit
            && |set k | k in n.vc.Keys + n.vs.Keys && BitAt(n.lbl, k, true)| >= net.cfg.tsplit
  {
    hide Inv, Enabled, Keyed, BitAt, Live, HalfOf, CanSplit;
    var n := net.nodes[c];
    LiveCell(net, c);
    CanSplitIff(net.cfg, n);
    if CanSplit(net.cfg, n) {
      var h0 := HalfExists(net.cfg, n, false);
      var h1 := HalfExists(net.cfg, n, true);
      SplitAllowed(net, Split(c, oc, h0, h1));
    }
    if h0, h1 :| Enabled(net, Split(c, oc, h0, h1)) {
      EnabledCanSplit(net, Split(c, oc, h0, h1));
    }
  }

  lemma EnabledCanSplit<C, P>(net: Net<C, P>, act: Action<C, P>)
    requires act.Split? && Enabled(net, act)
    ensures act.c in net.nodes && CanSplit(net.cfg, net.nodes[act.c])
  {
    hide CanSplit, HalfOf;
  }

  lemma CoreSplitKeeps<C, P>(net: Net<C, P>, act: Action<C, P>, x: string, v: string)
    requires Inv(net) && |x| == net.cfg.m && act.Split? && Enabled(net, act) && StoredAt(net, act.c, x, v)
    requires |net.nodes[act.c].lbl| < |x|
    requires |Under(net.nodes[act.c].vc, net.nodes[act.c].lbl + [Parse(x)[|net.nodes[act.c].lbl|]])| >= net.cfg.smin
    ensures Stored(Apply(net, act), x, v)
  {
    hide Inv, Enabled, Apply, Live, HalfOf, Parse, Under, Stored;
    EnabledHalves(net, act);
    var n := net.nodes[act.c];
    PickIsCore(net.cfg, n, Parse(x)[|n.lbl|], HalfFor(n, act.h0, act.h1, x));
    SplitKeepsEntryIff(net, act, x, v);
  }

  /** A cluster that can split keeps a stored entry over every split it may make, whatever is picked, exactly
      when SMin of its core members are on the entry's side. */
  lemma EverySplitKeepsIff<C, P>(net: Net<C, P>, c: C, oc: C, x: string, v: string)
    requires Inv(net) && |x| == net.cfg.m && StoredAt(net, c, x, v) && CanSplit(net.cfg, net.nodes[c])
             && oc !in net.nodes
    ensures |net.nodes[c].lbl| < |x|
    ensures (forall act: Action<C, P> :: act.Split? && act.c == c && Enabled(net, act) ==>
            Stored(Apply(net, act), x, v)) <==>
            |Under(net.nodes[c].vc, net.nodes[c].lbl + [Parse(x)[|net.nodes[c].lbl|]])| >= net.cfg.smin
  {
    hide Inv, Enabled, Apply, Live, CanSplit, Parse, Under, Stored;
    LiveCell(net, c);
    var n := net.nodes[c];
    if |Under(n.vc, n.lbl + [Parse(x)[|n.lbl|]])| < net.cfg.smin {
      var act := SomeSplitLoses(net, c, oc, x, v);
    } else {
      forall act: Action<C, P> | act.Split? && act.c == c && Enabled(net, act)
        ensures Stored(Apply(net, act), x, v)
      {
        CoreSplitKeeps(net, act, x, v);
      }
    }
  }
}
