/** The overlay as a value: what one instant of the simulation holds, and the atomic steps between
    instants. Clusters and peers are named by arbitrary handles `C` and `P`; the classes of
    Objects.dfy use the objects themselves. */
module Network {
  import opened Ids
  import opened PrefixCode

  type Data = map<string, string>

  /** Identifier width, core size and split size: M, SMin and TSplit of globals.go. */
  datatype Config = Config(m: nat, smin: nat, tsplit: nat) {
    predicate Ok() {
      0 < m && 0 < smin <= tsplit
    }
  }

  datatype Node<!C, !P> = Node(lbl: Id, rt: seq<C>, vc: map<string, P>, vs: map<string, P>, merging: bool,
                               locked: bool)

  /** `nodes` holds every cluster ever made; `reg` the ones in service, by label string. */
  datatype Net<!C(==), !P(==)> = Net(
    cfg: Config,
    reg: map<string, C>,
    nodes: map<C, Node<C, P>>,
    keys: map<P, string>,
    data: map<P, Data>)

  ghost predicate Live<C, P>(net: Net<C, P>, c: C) {
    && c in net.nodes
    && Str(net.nodes[c].lbl) in net.reg
    && net.reg[Str(net.nodes[c].lbl)] == c
  }

  ghost function Active<C, P>(net: Net<C, P>): set<C> {
    set c | c in net.nodes && Live(net, c)
  }

  ghost function Labels<C, P>(net: Net<C, P>): set<Id> {
    set c | c in net.nodes && Live(net, c) :: net.nodes[c].lbl
  }

  // ---------------------------------------------------------------- invariant

  ghost predicate RegInv<C, P>(net: Net<C, P>) {
    forall k :: k in net.reg ==> net.reg[k] in net.nodes && Str(net.nodes[net.reg[k]].lbl) == k
  }

  ghost predicate NodeLinks<C, P>(net: Net<C, P>, c: C)
    requires c in net.nodes
  {
    var n := net.nodes[c];
    && |n.rt| == |n.lbl|
    && forall i :: 0 <= i < |n.rt| ==> n.rt[i] in net.nodes && LinkAt(n.lbl, net.nodes[n.rt[i]].lbl, i)
  }

  ghost predicate LinkInv<C, P>(net: Net<C, P>) {
    forall c :: c in net.nodes ==> NodeLinks(net, c)
  }

  /** Every routing-table slot of a cluster in service names a cluster in service. */
  ghost predicate LinksLive<C, P>(net: Net<C, P>) {
    forall c, i :: c in net.nodes && Live(net, c) && 0 <= i < |net.nodes[c].rt| ==> Live(net, net.nodes[c].rt[i])
  }

  /** A cluster out of service was merged away and never merges again; only such a cluster is left locked. */
  ghost predicate FlagInv<C, P>(net: Net<C, P>) {
    forall c :: c in net.nodes ==> (!net.nodes[c].merging ==> Live(net, c)) && (Live(net, c) ==> !net.nodes[c].locked)
  }

  /** The string of an m-bit identifier under the label. */
  predicate GoodKey(m: nat, lbl: Id, k: string) {
    |k| == m && IsBits(k) && lbl <= Parse(k)
  }

  predicate Keyed<P>(m: nat, lbl: Id, mem: map<string, P>) {
    forall k :: k in mem ==> GoodKey(m, lbl, k)
  }

  /** Every member is a known peer filed under its own key. */
  ghost predicate Known<P>(keys: map<P, string>, data: map<P, Data>, mem: map<string, P>) {
    forall k :: k in mem ==> mem[k] in data && mem[k] in keys && keys[mem[k]] == k
  }

  predicate DataUnder(lbl: Id, d: Data) {
    forall x :: x in d ==> lbl <= Parse(x)
  }

  /** Core peers are replicas of one store, whose keys the label owns. */
  ghost predicate Replicas<P>(data: map<P, Data>, lbl: Id, vc: map<string, P>) {
    && (forall k :: k in vc ==> vc[k] in data && DataUnder(lbl, data[vc[k]]))
    && (forall k, j :: k in vc && j in vc ==> data[vc[k]] == data[vc[j]])
  }

  ghost predicate AllHold<P>(data: map<P, Data>, mem: map<string, P>, d: Data) {
    forall k :: k in mem ==> mem[k] in data && data[mem[k]] == d
  }

  predicate Sizes(cfg: Config, core: nat, merging: bool) {
    core <= cfg.smin && (!merging ==> core == cfg.smin)
  }

  /** One cluster's members and stores: keyed under the label, in one role each, cores replicated, spares empty. */
  ghost predicate Cell<P>(cfg: Config, keys: map<P, string>, data: map<P, Data>,
                          lbl: Id, vc: map<string, P>, vs: map<string, P>, merging: bool) {
    && Keyed(cfg.m, lbl, vc) && Keyed(cfg.m, lbl, vs)
    && Known(keys, data, vc) && Known(keys, data, vs)
    && (forall k :: k in vc ==> k !in vs)
    && Sizes(cfg, |vc|, merging)
    && Replicas(data, lbl, vc)
    && AllHold(data, vs, map[])
  }

  ghost predicate NodeInv<C, P>(net: Net<C, P>, n: Node<C, P>) {
    Cell(net.cfg, net.keys, net.data, n.lbl, n.vc, n.vs, n.merging)
  }

  ghost predicate MemberInv<C, P>(net: Net<C, P>) {
    forall c :: c in net.nodes && Live(net, c) ==> NodeInv(net, net.nodes[c])
  }

  ghost predicate Inv<C, P>(net: Net<C, P>) {
    && net.cfg.Ok()
    && RegInv(net)
    && CompleteCode(Labels(net), net.cfg.m)
    && LinkInv(net)
    && FlagInv(net)
    && MemberInv(net)
  }

  // ---------------------------------------------------------------- steps

  datatype Half<!P> = Half(vc: map<string, P>, vs: map<string, P>, pick: string)

  datatype Action<!C(==), !P(==)> =
    | Join(c: C, key: string, p: P)
    | Split(c: C, oc: C, h0: Half<P>, h1: Half<P>)
    | Fix(tables: map<C, seq<C>>)
    | Leave(c: C, key: string, nominee: string)
    | Drop(c: C, key: string)
    | Merge(c: C, key: string, b: C, m: C, pa: string, pb: string, kept: string)
    | Put(c: C, x: string, v: string)
    | Delete(c: C, x: string)

  function Filter(d: Data, lbl: Id): Data {
    map x | x in d && lbl <= Parse(x) :: d[x]
  }

  function Under<P>(mem: map<string, P>, lbl: Id): map<string, P> {
    map k | k in mem && lbl <= Parse(k) :: mem[k]
  }

  function Max(a: nat, b: nat): nat {
    if a < b then b else a
  }

  /** isSplit: both halves are large enough and the longer label still leaves a bit. */
  predicate CanSplit<C, P>(cfg: Config, n: Node<C, P>) {
    && |n.lbl| + 1 != cfg.m
    && (forall b :: b in {false, true} ==>
                      |Under(n.vc, n.lbl + [b])| + |Under(n.vs, n.lbl + [b])| >= cfg.tsplit)
  }

  /** The core members of one side, topped up to SMin with spares of that side. */
  ghost predicate TopUp<P>(smin: nat, core: map<string, P>, spare: map<string, P>, h: Half<P>) {
    && (forall k :: k in h.vc ==> k !in h.vs && (k in core || k in spare))
    && (forall k :: k in core ==> k in h.vc)
    && (forall k :: k in spare ==> k in h.vc || k in h.vs)
    && (forall k :: k in h.vc ==> h.vc[k] == if k in core then core[k] else spare[k])
    && (forall k :: k in h.vs ==> k in spare && h.vs[k] == spare[k])
    && |h.vc| == Max(|core|, smin)
    && h.pick in h.vc
  }

  /** Promoted spares have lower identifiers than the spares left behind. */
  ghost predicate Lowest<P>(core: map<string, P>, h: Half<P>) {
    forall k, j :: k in h.vc && k !in core && j in h.vs ==> Less(Parse(k), Parse(j))
  }

  ghost predicate HalfOf<C, P>(cfg: Config, n: Node<C, P>, b: bool, h: Half<P>) {
    && TopUp(cfg.smin, Under(n.vc, n.lbl + [b]), Under(n.vs, n.lbl + [b]), h)
    && Lowest(Under(n.vc, n.lbl + [b]), h)
  }

  /** A core peer leaves a cluster without spares for the first time, and the cluster in the last slot has not
      merged before. Copy peers are any remaining core peer and any core peer of the partner. */
  ghost predicate CanMerge<C, P>(net: Net<C, P>, act: Action<C, P>)
    requires act.Merge?
  {
    && act.c in net.nodes && Live(net, act.c) && act.b in net.nodes && act.b != act.c && act.m !in net.nodes
    && var n, o := net.nodes[act.c], net.nodes[act.b];
    && act.key in n.vc && n.vs == map[] && !n.merging && !o.merging
    && n.lbl != [] && |n.rt| == |n.lbl| && act.b == n.rt[|n.lbl| - 1]
    && act.pa in n.vc && act.pa != act.key && act.pb in o.vc && act.kept in o.vc
  }

  ghost predicate Enabled<C, P>(net: Net<C, P>, act: Action<C, P>) {
    match act
    case Join(c, key, p) =>
      && Live(net, c) && key !in net.nodes[c].vc && key !in net.nodes[c].vs
      && GoodKey(net.cfg.m, net.nodes[c].lbl, key)
      && p !in net.keys && p !in net.data
    case Split(c, oc, h0, h1) =>
      && Live(net, c) && oc !in net.nodes && CanSplit(net.cfg, net.nodes[c])
      && HalfOf(net.cfg, net.nodes[c], false, h0) && HalfOf(net.cfg, net.nodes[c], true, h1)
    case Fix(tables) =>
      && tables.Keys == Active(net)
      && (forall c :: c in tables ==> |tables[c]| == |net.nodes[c].rt| == |net.nodes[c].lbl|)
      && (forall c, i :: c in tables && 0 <= i < |tables[c]| ==>
                           Live(net, tables[c][i])
                           && Nearest(Labels(net), net.nodes[c].lbl, i, net.nodes[tables[c][i]].lbl))
    case Leave(c, key, nominee) =>
      Live(net, c) && key in net.nodes[c].vc && nominee in net.nodes[c].vs
    case Drop(c, key) =>
      Live(net, c) && key in net.nodes[c].vc && net.nodes[c].vs == map[]
    case Merge(_, _, _, _, _, _, _) => CanMerge(net, act)
    case Put(c, x, v) =>
      Live(net, c) && net.nodes[c].lbl <= Parse(x)
    case Delete(c, x) =>
      Live(net, c) && net.nodes[c].lbl <= Parse(x)
  }

  /** The partner of a merge must be the true sibling; every other step is safe whenever it is enabled. */
  ghost predicate Safe<C, P>(net: Net<C, P>, act: Action<C, P>)
    requires Enabled(net, act)
  {
    act.Merge? ==> |net.nodes[act.b].lbl| == |net.nodes[act.c].lbl|
  }

  ghost function Read<P>(data: map<P, Data>, p: P): Data {
    if p in data then data[p] else map[]
  }

  /** Peer `p` is the member of `mem` its own key names. */
  ghost predicate Holds<P>(keys: map<P, string>, mem: map<string, P>, p: P) {
    p in keys && keys[p] in mem && mem[keys[p]] == p
  }

  ghost function SetData<P, D>(keys: map<P, string>, data: map<P, D>, mem: map<string, P>, d: D): map<P, D> {
    map p | p in data :: if Holds(keys, mem, p) then d else data[p]
  }

  ghost function Rewrite<P>(keys: map<P, string>, data: map<P, Data>, mem: map<string, P>, x: string, v: string)
    : map<P, Data>
  {
    map p | p in data :: if Holds(keys, mem, p) then data[p][x := v] else data[p]
  }

  ghost function Erase<P>(keys: map<P, string>, data: map<P, Data>, mem: map<string, P>, x: string): map<P, Data> {
    map p | p in data :: if Holds(keys, mem, p) then data[p] - {x} else data[p]
  }

  /** Stores after a merge: the cores `vc` take in `db`, the kept core of the partner takes in both, the rest of
      `bvc` are emptied. */
  ghost function Combined<P>(keys: map<P, string>, data: map<P, Data>, vc: map<string, P>, bvc: map<string, P>,
                             kept: string,
                             da: Data, db: Data): map<P, Data>
    requires kept in bvc
  {
    map p | p in data ::
      if Holds(keys, vc, p) then data[p] + db
      else if p == bvc[kept] then data[p] + (da + db)
      else if Holds(keys, bvc, p) then map[]
      else data[p]
  }

  ghost function Refix<C, P>(net: Net<C, P>, tables: map<C, seq<C>>): map<C, Node<C, P>> {
    map c | c in net.nodes :: if c in tables then net.nodes[c].(rt := tables[c]) else net.nodes[c]
  }

  ghost function Apply<C, P>(net: Net<C, P>, act: Action<C, P>): Net<C, P>
    requires Enabled(net, act)
  {
    match act
    case Join(c, key, p) =>
      var n := net.nodes[c];
      net.(nodes := net.nodes[c := n.(vs := n.vs[key := p])], keys := net.keys[p := key], data := net.data[p := map[]])
    case Split(c, oc, h0, h1) =>
      var n := net.nodes[c];
      var l0, l1 := n.lbl + [false], n.lbl + [true];
      var d0, d1 := Filter(Read(net.data, h0.vc[h0.pick]), l0), Filter(Read(net.data, h1.vc[h1.pick]), l1);
      net.(
      reg := (net.reg[Str(l1) := oc] - {Str(n.lbl)})[Str(l0) := c],
      nodes := net.nodes[oc := Node(l1, n.rt + [c], h1.vc, h1.vs, false, false)]
      [c := Node(l0, n.rt + [oc], h0.vc, h0.vs, n.merging, n.locked)],
      data := SetData(net.keys, SetData(net.keys, net.data, h0.vc, d0), h1.vc, d1))
    case Fix(tables) =>
      net.(nodes := Refix(net, tables))
    case Leave(c, key, nominee) =>
      var n := net.nodes[c];
      net.(
      nodes := net.nodes[c := n.(vc := (n.vc - {key})[nominee := n.vs[nominee]], vs := n.vs - {nominee})],
      data := net.data[n.vs[nominee] := Read(net.data, n.vc[key])])
    case Drop(c, key) =>
      var n := net.nodes[c];
      net.(nodes := net.nodes[c := n.(vc := n.vc - {key}, merging := true)])
    case Merge(c, key, b, m, pa, pb, kept) =>
      var n, o := net.nodes[c], net.nodes[b];
      var vc := n.vc - {key};
      net.(
      reg := (net.reg - {Str(n.lbl), Str(o.lbl)})[Str(Parent(n.lbl)) := m],
      nodes := net.nodes[c := n.(vc := vc, merging := true)][b := o.(merging := true, locked := true)]
      [m := Node(Parent(n.lbl), n.rt[..|n.lbl| - 1], vc[kept := o.vc[kept]], o.vc - {kept}, false, false)],
      data := Combined(net.keys, net.data, vc, o.vc, kept, Read(net.data, n.vc[pa]), Read(net.data, o.vc[pb])))
    case Put(c, x, v) =>
      net.(data := Rewrite(net.keys, net.data, net.nodes[c].vc, x, v))
    case Delete(c, x) =>
      net.(data := Erase(net.keys, net.data, net.nodes[c].vc, x))
  }

  // ---------------------------------------------------------------- runs

  /** Every step is enabled when it is taken, and every merge is with a true sibling. */
  ghost predicate Legal<C, P>(net: Net<C, P>, acts: seq<Action<C, P>>)
    decreases |acts|
  {
    acts != [] ==> Enabled(net, acts[0]) && Safe(net, acts[0]) && Legal(Apply(net, acts[0]), acts[1..])
  }

  ghost function Exec<C, P>(net: Net<C, P>, acts: seq<Action<C, P>>): Net<C, P>
    requires Legal(net, acts)
    decreases |acts|
  {
    if acts == [] then net else Exec(Apply(net, acts[0]), acts[1..])
  }

  /** The network of globals.go's init: one cluster without label bits, SMin core peers, nothing stored. */
  ghost predicate First<C, P>(net: Net<C, P>, n: Node<C, P>) {
    && n.lbl == [] && n.rt == [] && !n.merging && !n.locked && n.vs == map[]
    && Keyed(net.cfg.m, [], n.vc) && Known(net.keys, net.data, n.vc) && |n.vc| == net.cfg.smin
  }

  ghost predicate Boot<C, P>(net: Net<C, P>) {
    && net.cfg.Ok()
    && (exists c :: c in net.nodes && net.nodes.Keys == {c} && net.reg == map["" := c] && First(net, net.nodes[c]))
    && (forall p :: p in net.data ==> net.data[p] == map[])
  }
}
