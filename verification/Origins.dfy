/** Where stored values come from: a step or a run leaves a value stored exactly if it was there and is kept, or
    was put and kept since. */
module Origins {
  import opened Ids
  import opened PrefixCode
  import opened Network
  import opened Invariant
  import opened Steps
  import opened SplitStep
  import opened MergeStep
  import opened Runs
  import opened Durability

  /** Replicas that all hold a value, seen from one of them. */
  lemma HeldByAll<P>(data: map<P, Data>, lbl: Id, vc: map<string, P>, k: string, x: string, v: string)
    requires Replicas(data, lbl, vc) && k in vc && x in data[vc[k]] && data[vc[k]][x] == v
    ensures AllHave(data, vc, x, v)
  {
    hide DataUnder;
  }

  // ---------------------------------------------------------------- joins, leaves, puts and deletes

  lemma JoinBack<P>(data: map<P, Data>, vc: map<string, P>, p: P, x: string, v: string)
    requires AllHave(data[p := map[]], vc, x, v) && forall k :: k in vc ==> vc[k] in data
    ensures AllHave(data, vc, x, v)
  {
  }

  lemma LeaveBack<P>(data: map<P, Data>, lbl: Id, vc: map<string, P>, key: string, nominee: string, q: P, x: string,
                     v: string)
    requires Replicas(data, lbl, vc) && key in vc
    requires AllHave(data[q := data[vc[key]]], (vc - {key})[nominee := q], x, v)
    ensures AllHave(data, vc, x, v)
  {
    assert nominee in (vc - {key})[nominee := q];
    hide DataUnder;
    HeldByAll(data, lbl, vc, key, x, v);
  }

  lemma DropBack<P>(data: map<P, Data>, lbl: Id, vc: map<string, P>, key: string, x: string, v: string)
    requires Replicas(data, lbl, vc) && AllHave(data, vc - {key}, x, v)
    ensures AllHave(data, vc, x, v)
  {
    var k :| k in vc - {key};
    HeldByAll(data, lbl, vc, k, x, v);
  }

  lemma PutBack<P>(keys: map<P, string>, data: map<P, Data>, vc: map<string, P>, y: string, w: string, x: string,
                   v: string)
    requires Known(keys, data, vc) && AllHave(Rewrite(keys, data, vc, y, w), vc, x, v)
    ensures if y == x then w == v else AllHave(data, vc, x, v)
  {
    var k :| k in vc;
  }

  lemma DeleteBack<P>(keys: map<P, string>, data: map<P, Data>, vc: map<string, P>, y: string, x: string, v: string)
    requires Known(keys, data, vc) && AllHave(Erase(keys, data, vc, y), vc, x, v)
    ensures y != x && AllHave(data, vc, x, v)
  {
    var k :| k in vc;
  }

  lemma LocalBack<C, P>(net: Net<C, P>, act: Action<C, P>, x: string, v: string)
    requires Inv(net) && (act.Join? || act.Leave? || act.Drop? || act.Put? || act.Delete?) && Enabled(net, act)
    requires act.c in net.nodes && act.c in Apply(net, act).nodes
    requires AllHave(Apply(net, act).data, Apply(net, act).nodes[act.c].vc, x, v)
    ensures AllHave(net.data, net.nodes[act.c].vc, x, v)
            || (act.Put? && act.x == x && act.v == v && net.nodes[act.c].vc != map[])
  {
    hide Inv, RegInv, CompleteCode, Labels, LinkInv, FlagInv, MemberInv, Live, Parse, GoodKey, AllHave, Rewrite,
         Erase, Str, Keyed, Replicas, Known, AllHold, Sizes;
    InvParts(net);
    LocalStart(net, act);
    var n := net.nodes[act.c];
    ApartRoles(net.cfg, net.keys, net.data, n);
    match act
    case Join(_, _, p) => JoinBack(net.data, n.vc, p, x, v);
    case Leave(_, key, nominee) => LeaveBack(net.data, n.lbl, n.vc, key, nominee, n.vs[nominee], x, v);
    case Drop(_, key) => DropBack(net.data, n.lbl, n.vc, key, x, v);
    case Put(_, y, w) =>
      PutBack(net.keys, net.data, n.vc, y, w, x, v);
      SomeHas(Apply(net, act).data, n.vc, x, v);
    case Delete(_, y) => DeleteBack(net.keys, net.data, n.vc, y, x, v);
  }

  lemma SomeHas<P>(data: map<P, Data>, vc: map<string, P>, x: string, v: string)
    requires AllHave(data, vc, x, v)
    ensures vc != map[]
  {
  }

  lemma LocalOrigin<C, P>(net: Net<C, P>, act: Action<C, P>, c: C, x: string, v: string)
    requires Inv(net) && (act.Join? || act.Leave? || act.Drop? || act.Put? || act.Delete?) && Enabled(net, act)
    requires StoredAt(Apply(net, act), c, x, v)
    ensures StoredAt(net, c, x, v) || (act.Put? && act.x == x && act.v == v && net.nodes[act.c].vc != map[])
  {
    hide Inv, Enabled, Apply, RegInv, CompleteCode, Labels, LinkInv, FlagInv, MemberInv, Live, Parse, Cell, AllHave;
    InvParts(net);
    LocalShape(net, act);
    SameLabelsLive(net, Apply(net, act));
    if c == act.c {
      LocalBack(net, act, x, v);
    } else {
      LocalOtherEntry(net, act, c, x, v);
    }
  }

  // ---------------------------------------------------------------- splits

  /** What a half copies was there before: a promoted spare has nothing to copy. */
  lemma PickBack<C, P>(cfg: Config, keys: map<P, string>, data: map<P, Data>, n: Node<C, P>, b: bool, h: Half<P>,
                       x: string, v: string)
    requires Cell(cfg, keys, data, n.lbl, n.vc, n.vs, n.merging) && HalfOf(cfg, n, b, h)
    requires var d := Filter(Read(data, h.vc[h.pick]), n.lbl + [b]); x in d && d[x] == v
    ensures AllHave(data, n.vc, x, v)
  {
    hide Parse, Keyed, Lowest, Sizes, Replicas, Known;
    if h.pick in n.vc {
      HeldByAll(data, n.lbl, n.vc, h.pick, x, v);
    }
  }

  lemma SplitOrigin<C, P>(net: Net<C, P>, act: Action<C, P>, c: C, x: string, v: string)
    requires Inv(net) && act.Split? && Enabled(net, act) && |x| == net.cfg.m && StoredAt(Apply(net, act), c, x, v)
    ensures StoredAt(net, if c == act.oc then act.c else c, x, v)
  {
    hide Inv, Enabled, Apply, RegInv, CompleteCode, Labels, LinkInv, LinksLive, FlagInv, MemberInv, Live, Parse, Cell,
         AllHave, HalfOf, Filter, AllHold, OnlyNode;
    InvParts(net);
    EnabledHalves(net, act);
    LiveLabel(net, act.c);
    SplitCode(net, act);
    SplitNodesAre(net, act);
    SplitIsShape(net, act);
    var net', n := Apply(net, act), net.nodes[act.c];
    if c == act.c || c == act.oc {
      SplitHolder(net, act, x);
      var b := Parse(x)[|n.lbl|];
      var h := HalfFor(n, act.h0, act.h1, x);
      assert net'.nodes[c].lbl[|n.lbl|] == b;
      assert c == NewHome(act, b);
      HoldIsHave(net'.data, h.vc, h.pick, Filter(Read(net.data, h.vc[h.pick]), n.lbl + [b]), x, v);
      LiveNode(net, act.c);
      PickBack(net.cfg, net.keys, net.data, n, b, h, x, v);
    } else {
      SplitNodes(net, act);
      OtherEntry(net, net', c, act.c, x, v);
    }
  }

  // ---------------------------------------------------------------- merges

  lemma MergeOrigin<C, P>(net: Net<C, P>, act: Action<C, P>, c: C, x: string, v: string)
    requires Inv(net) && act.Merge? && Enabled(net, act) && StoredAt(Apply(net, act), c, x, v)
    ensures Stored(net, x, v)
  {
    hide Inv, Enabled, Apply, Labels, Live, Parse, NodeInv, NodeLinks, AllHave, Combined;
    MergeLive(net, act);
    if c == act.m {
      MergeParts(net, act);
      MergeResult(net, act);
      MergeData(net, Apply(net, act), act, x, v);
      var from := if AllHave(net.data, net.nodes[act.c].vc, x, v) then act.c else act.b;
      PartHolds(net, act, from, x, v);
    } else {
      MergeOtherEntry(net, act, c, x, v);
    }
  }

  /** What a core holds lies under its label. */
  lemma PartHolds<C, P>(net: Net<C, P>, act: Action<C, P>, c: C, x: string, v: string)
    requires Partners(net, act) && (c == act.c || c == act.b) && AllHave(net.data, net.nodes[c].vc, x, v)
    ensures c in net.nodes && StoredAt(net, c, x, v)
  {
    hide Labels, Live, Parse, NodeLinks, Keyed, Known, AllHold, Sizes;
    UnderLabel(net.data, net.nodes[c].lbl, net.nodes[c].vc, x, v);
  }

  lemma UnderLabel<P>(data: map<P, Data>, lbl: Id, vc: map<string, P>, x: string, v: string)
    requires Replicas(data, lbl, vc) && AllHave(data, vc, x, v)
    ensures lbl <= Parse(x)
  {
    hide Parse;
    var k :| k in vc;
  }

  // ---------------------------------------------------------------- any step, any run

  lemma StepOrigin<C, P>(net: Net<C, P>, act: Action<C, P>, x: string, v: string)
    requires Inv(net) && Enabled(net, act) && |x| == net.cfg.m && Stored(Apply(net, act), x, v)
    ensures Stored(net, x, v) || (act.Put? && act.x == x && act.v == v && net.nodes[act.c].vc != map[])
  {
    hide Inv, Enabled, Apply, StoredAt;
    var c :| c in Apply(net, act).nodes && StoredAt(Apply(net, act), c, x, v);
    match act
    case Split(_, _, _, _) =>
      SplitOrigin(net, act, c, x, v);
      StoredSomewhere(net, if c == act.oc then act.c else c, x, v);
    case Fix(_) =>
      FixEntry(net, act, c, x, v);
      StoredSomewhere(net, c, x, v);
    case Merge(_, _, _, _, _, _, _) => MergeOrigin(net, act, c, x, v);
    case _ =>
      LocalOrigin(net, act, c, x, v);
      if StoredAt(net, c, x, v) {
        StoredSomewhere(net, c, x, v);
      }
  }

  lemma StoredSomewhere<C, P>(net: Net<C, P>, c: C, x: string, v: string)
    requires StoredAt(net, c, x, v)
    ensures Stored(net, x, v)
  {
    hide Live, Parse, AllHave;
  }

  /** What is stored after any step: what was stored and the step keeps, and what the step puts at a core. */
  lemma StepStoresIff<C, P>(net: Net<C, P>, act: Action<C, P>, x: string, v: string)
    requires Inv(net) && Enabled(net, act) && |x| == net.cfg.m
    ensures Stored(Apply(net, act), x, v) <==>
            || (Stored(net, x, v) && Keeps(net, act, x, v))
            || (act.Put? && act.x == x && act.v == v && net.nodes[act.c].vc != map[])
  {
    hide Inv, Enabled, Apply, Stored;
    if Stored(Apply(net, act), x, v) {
      StepOrigin(net, act, x, v);
    }
    if Stored(net, x, v) {
      StepKeepsEntryIff(net, act, x, v);
    }
    if act.Put? {
      LocalResult(net, act);
      if act.x == x && act.v == v && net.nodes[act.c].vc != map[] {
        PutStores(net, act);
      }
    }
  }

  /** Some step of the run puts `v` under `x` at a core, and every later step keeps it. */
  ghost predicate Written<C, P>(net: Net<C, P>, acts: seq<Action<C, P>>, x: string, v: string)
    requires Legal(net, acts)
    decreases |acts|
  {
    && acts != []
    && var act, later := acts[0], acts[1..];
    || (act.Put? && act.x == x && act.v == v && net.nodes[act.c].vc != map[] && KeepsAll(Apply(net, act), later, x, v))
    || Written(Apply(net, act), later, x, v)
  }

  /** What is stored after any run: what was stored and every step keeps, and what a step put and every later step
      keeps. Nothing else is ever found. */
  lemma {:induction false} RunsStoreIff<C, P>(net: Net<C, P>, acts: seq<Action<C, P>>, x: string, v: string)
    requires Inv(net) && Legal(net, acts) && |x| == net.cfg.m
    ensures Stored(Exec(net, acts), x, v) <==>
            (Stored(net, x, v) && KeepsAll(net, acts, x, v)) || Written(net, acts, x, v)
    decreases |acts|
  {
    hide Inv, Enabled, Safe, Keeps, Stored, Apply;
    if acts != [] {
      StepKeeps(net, acts[0]);
      StepStoresIff(net, acts[0], x, v);
      ApplyKeepsConfig(net, acts[0]);
      RunsStoreIff(Apply(net, acts[0]), acts[1..], x, v);
    }
  }
}
