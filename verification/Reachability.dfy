/** The overlays of Counterexamples.dfy occur: legal runs from a first overlay lead to them. */
module Reachability {
  import opened Ids
  import opened PrefixCode
  import opened Network
  import opened SplitStep
  import opened Joining
  import opened Splitting
  import opened Losses
  import opened Counterexamples

  ghost predicate Reached<C, P>(boot: Net<C, P>, acts: seq<Action<C, P>>, net: Net<C, P>) {
    Boot(boot) && Legal(boot, acts) && Exec(boot, acts) == net
  }

  lemma Start<C, P>(boot: Net<C, P>)
    requires Boot(boot)
    ensures Reached(boot, [], boot)
  {
    hide Boot;
  }

  lemma Then<C, P>(boot: Net<C, P>, acts: seq<Action<C, P>>, net: Net<C, P>, act: Action<C, P>, next: Net<C, P>)
    requires Reached(boot, acts, net) && Enabled(net, act) && Safe(net, act) && Apply(net, act) == next
    ensures Reached(boot, acts + [act], next)
  {
    hide Boot, Legal, Exec, Enabled, Safe, Apply;
    RunThen(boot, acts, act);
  }

  function Joined<C, P>(net: Net<C, P>, c: C, key: string, p: P): Net<C, P>
    requires c in net.nodes
  {
    net.(nodes := net.nodes[c := net.nodes[c].(vs := net.nodes[c].vs[key := p])], keys := net.keys[p := key],
    data := net.data[p := map[]])
  }

  /** A run may go on with the admission of a new peer. */
  lemma ThenJoin<C, P>(boot: Net<C, P>, acts: seq<Action<C, P>>, net: Net<C, P>, c: C, key: string, p: P)
    requires Reached(boot, acts, net) && c in net.nodes && Live(net, c) && GoodKey(net.cfg.m, net.nodes[c].lbl, key)
    requires key !in net.nodes[c].vc && key !in net.nodes[c].vs && p !in net.keys && p !in net.data
    ensures Reached(boot, acts + [Join(c, key, p)], Joined(net, c, key, p))
  {
    hide Boot, Legal, Exec, Live, GoodKey;
    JoinAllowed(net, c, key, p);
    Then(boot, acts, net, Join(c, key, p), Joined(net, c, key, p));
  }

  lemma JoinAllowed<C, P>(net: Net<C, P>, c: C, key: string, p: P)
    requires c in net.nodes && Live(net, c) && GoodKey(net.cfg.m, net.nodes[c].lbl, key)
    requires key !in net.nodes[c].vc && key !in net.nodes[c].vs && p !in net.keys && p !in net.data
    ensures Enabled(net, Join(c, key, p)) && Apply(net, Join(c, key, p)) == Joined(net, c, key, p)
    ensures Safe(net, Join(c, key, p))
  {
    hide Live, GoodKey;
  }

  lemma JoinedLive<C, P>(net: Net<C, P>, c: C, key: string, p: P, d: C)
    requires c in net.nodes && d in net.nodes
    ensures Live(Joined(net, c, key, p), d) <==> Live(net, d)
  {
    hide Str;
  }

  // ---------------------------------------------------------------- one cluster

  const ONE0: Net<nat, nat> := Net(
    Config(3, 2, 3),
    map["" := 0],
    map[0 := Node([], [], map["100" := 0, "101" := 1], map[], false, false)],
    map[0 := "100", 1 := "101"],
    map[0 := map[], 1 := map[]])
  const ONE1: Net<nat, nat> := ONE0.(data := map[0 := ENTRY, 1 := ENTRY])
  const ONE2 := Joined(ONE1, 0, "000", 2)
  const ONE3 := Joined(ONE2, 0, "001", 3)
  const ONE4 := Joined(ONE3, 0, "010", 4)

  /** Two core peers and nothing else make a first overlay. */
  lemma PairBoots(net: Net<nat, nat>, j: string, p: nat, k: string, q: nat)
    requires net.cfg.Ok() && net.cfg.smin == 2 && j != k && p != q && GoodKey(net.cfg.m, [], j)
             && GoodKey(net.cfg.m, [], k)
    requires net.reg == map["" := 0] && net.nodes == map[0 := Node([], [], map[j := p, k := q], map[], false, false)]
    requires net.keys == map[p := j, q := k] && net.data == map[p := map[], q := map[]]
    ensures Boot(net) && Live(net, 0)
  {
    hide GoodKey, Parse;
    Sizes2(j, p, k, q);
    assert First(net, net.nodes[0]);
    assert Str([]) == "";
  }

  lemma OneBoots()
    ensures Boot(ONE0) && Live(ONE0, 0)
  {
    PairBoots(ONE0, "100", 0, "101", 1);
  }

  lemma OneWrites()
    ensures Rewrite(ONE0.keys, ONE0.data, ONE0.nodes[0].vc, "011", "v") == ONE1.data
  {
  }

  lemma OnePut()
    ensures var act := Action.Put(0, "011", "v"); Enabled(ONE0, act) && Safe(ONE0, act) && Apply(ONE0, act) == ONE1
  {
    hide Live, Rewrite;
    OneBoots();
    OneWrites();
  }

  lemma OneKeys()
    ensures GoodKey(3, [], "000") && GoodKey(3, [], "001") && GoodKey(3, [], "010") && GoodKey(3, [], "110")
  {
  }

  lemma OneIsJoined()
    ensures ONE == Joined(ONE4, 0, "110", 5)
  {
  }

  lemma OneLives()
    ensures Live(ONE1, 0) && Live(ONE2, 0) && Live(ONE3, 0) && Live(ONE4, 0)
  {
    OneBoots();
    assert Live(ONE1, 0);
    hide Live;
    JoinedLive(ONE1, 0, "000", 2, 0);
    JoinedLive(ONE2, 0, "001", 3, 0);
    JoinedLive(ONE3, 0, "010", 4, 0);
  }

  lemma OnePutRun()
    ensures Reached(ONE0, [Action.Put(0, "011", "v")], ONE1)
  {
    hide Reached, Boot, Live, Enabled, Apply, Safe, ONE0, ONE1;
    OneBoots();
    OnePut();
    Start(ONE0);
    Then(ONE0, [], ONE0, Action.Put(0, "011", "v"), ONE1);
    assert [] + [Action<nat, nat>.Put(0, "011", "v")] == [Action<nat, nat>.Put(0, "011", "v")];
  }

  /** The state in which a split loses an entry: two core peers, one put, four admissions. */
  lemma OneReachable() returns (acts: seq<Action<nat, nat>>)
    ensures Reached(ONE0, acts, ONE)
  {
    hide Reached, Boot, Legal, Exec, Live, GoodKey, Enabled, Apply, Safe, ONE;
    OnePutRun();
    OneLives();
    OneKeys();
    acts := [Action.Put(0, "011", "v")];
    ThenJoin(ONE0, acts, ONE1, 0, "000", 2);
    acts := acts + [Join(0, "000", 2)];
    ThenJoin(ONE0, acts, ONE2, 0, "001", 3);
    acts := acts + [Join(0, "001", 3)];
    ThenJoin(ONE0, acts, ONE3, 0, "010", 4);
    acts := acts + [Join(0, "010", 4)];
    ThenJoin(ONE0, acts, ONE4, 0, "110", 5);
    acts := acts + [Join(0, "110", 5)];
    OneIsJoined();
  }

  // ---------------------------------------------------------------- three clusters

  const THREE0: Net<nat, nat> := Net(
    Config(4, 2, 2),
    map["" := 0],
    map[0 := Node([], [], map["0000" := 0, "0100" := 2], map[], false, false)],
    map[0 := "0000", 2 := "0100"],
    map[0 := map[], 2 := map[]])
  const THREE1 := Joined(THREE0, 0, "1000", 5)
  const THREE2 := Joined(THREE1, 0, "1001", 6)

  // The cluster splits on its first bit.
  const FIRST: Action<nat, nat> := Split(0, 2, Half(map["0000" := 0, "0100" := 2], map[], "0000"),
                                         Half(map["1000" := 5, "1001" := 6], map[], "1000"))
  const THREE3: Net<nat, nat> := Net(
    Config(4, 2, 2),
    map["1" := 2, "0" := 0],
    map[0 := Node([false], [2], map["0000" := 0, "0100" := 2], map[], false, false),
        2 := Node([true], [0], map["1000" := 5, "1001" := 6], map[], false, false)],
    map[0 := "0000", 2 := "0100", 5 := "1000", 6 := "1001"],
    map[0 := map[], 2 := map[], 5 := map[], 6 := map[]])
  const THREE4 := Joined(THREE3, 0, "0001", 1)
  const THREE5 := Joined(THREE4, 0, "0101", 3)

  // Its first half splits again.
  const SECOND: Action<nat, nat> := Split(0, 1, Half(map["0000" := 0, "0001" := 1], map[], "0000"),
                                          Half(map["0100" := 2, "0101" := 3], map[], "0100"))
  const THREE6: Net<nat, nat> := Net(
    Config(4, 2, 2),
    map["1" := 2, "01" := 1, "00" := 0],
    map[0 := Node([false, false], [2, 1], map["0000" := 0, "0001" := 1], map[], false, false),
        1 := Node([false, true], [2, 0], map["0100" := 2, "0101" := 3], map[], false, false),
        2 := Node([true], [0], map["1000" := 5, "1001" := 6], map[], false, false)],
    map[0 := "0000", 2 := "0100", 5 := "1000", 6 := "1001", 1 := "0001", 3 := "0101"],
    map[0 := map[], 2 := map[], 5 := map[], 6 := map[], 1 := map[], 3 := map[]])
  const THREE7 := Joined(THREE6, 1, "0110", 4)

  lemma ThreeBoots()
    ensures Boot(THREE0) && Live(THREE0, 0)
  {
    PairBoots(THREE0, "0000", 0, "0100", 2);
  }

  lemma PairUnder<P>(j: string, p: P, k: string, q: P, l: Id)
    requires j != k
    ensures Under(map[j := p, k := q], l)
            == if l <= Parse(j) then (if l <= Parse(k) then map[j := p, k := q] else map[j := p])
               else if l <= Parse(k) then map[k := q] else map[]
  {
    hide Under, Parse;
    UnderNone<P>(l);
    UnderStep(map[], l, j, p);
    UnderStep(map[j := p], l, k, q);
  }

  /** A side with two members in all: both become core. */
  lemma WholeSide<P>(core: map<string, P>, spare: map<string, P>, all: map<string, P>, pick: string)
    requires |all| == 2 && |core| <= 2 && pick in all
    requires forall k :: k in all ==> (k in core || k in spare) && all[k] == if k in core then core[k] else spare[k]
    requires (forall k :: k in core ==> k in all) && (forall k :: k in spare ==> k in all)
    ensures TopUp(2, core, spare, Half(all, map[], pick)) && Lowest(core, Half(all, map[], pick))
  {
  }

  lemma Sizes2<P>(j: string, p: P, k: string, q: P)
    requires j != k
    ensures |map[j := p, k := q]| == 2 && |map[j := p]| == 1
  {
    assert map[j := p, k := q].Keys == {j, k} && map[j := p].Keys == {j};
  }

  lemma BitsOf(k: string, a: bool, b: bool)
    requires |k| >= 2
    ensures [a] <= Parse(k) <==> a == (k[0] == '1')
    ensures [a, b] <= Parse(k) <==> a == (k[0] == '1') && b == (k[1] == '1')
  {
    var x := Parse(k);
    assert x[0] == (k[0] == '1') && x[1] == (k[1..][0] == '1');
    assert x[0] == a ==> x[..1] == [a];
    assert [a] <= x ==> x[0] == [a][0];
    assert x[0] == a && x[1] == b ==> x[..2] == [a, b];
    assert [a, b] <= x ==> x[0] == [a, b][0] && x[1] == [a, b][1];
  }

  /** A split when nothing is stored yet. */
  lemma SplitEmpty<C, P>(net: Net<C, P>, act: Action<C, P>)
    requires act.Split? && Enabled(net, act) && forall p :: p in net.data ==> net.data[p] == map[]
    ensures act.c in net.nodes
    ensures var n := net.nodes[act.c];
            var l0, l1 := n.lbl + [false], n.lbl + [true];
            Apply(net, act) == net.(reg := (net.reg[Str(l1) := act.oc] - {Str(n.lbl)})[Str(l0) := act.c],
                                    nodes := net.nodes[act.oc := Node(l1, n.rt + [act.c], act.h1.vc, act.h1.vs, false,
                                      false)]
                                             [act.c := Node(l0, n.rt + [act.oc], act.h0.vc, act.h0.vs, n.merging,
                                               n.locked)])
  {
    hide Live, CanSplit, HalfOf, Str, SetData, Filter;
    EnabledHalves(net, act);
    NothingToSplit(net.keys, net.data, act.h0, act.h1, net.nodes[act.c].lbl + [false], net.nodes[act.c].lbl + [true]);
  }

  lemma NothingToSplit<P>(keys: map<P, string>, data: map<P, Data>, h0: Half<P>, h1: Half<P>, l0: Id, l1: Id)
    requires (forall p :: p in data ==> data[p] == map[]) && h0.pick in h0.vc && h1.pick in h1.vc
    ensures SetData(keys, SetData(keys, data, h0.vc, Filter(Read(data, h0.vc[h0.pick]), l0)),
                    h1.vc, Filter(Read(data, h1.vc[h1.pick]), l1)) == data
  {
  }

  lemma SidesOfFirst(b: bool)
    ensures Under(THREE2.nodes[0].vc, [b]) == if b then map[] else map["0000" := 0, "0100" := 2]
    ensures Under(THREE2.nodes[0].vs, [b]) == if b then map["1000" := 5, "1001" := 6] else map[]
  {
    hide Under, Parse;
    assert THREE2.nodes[0].vs == map["1000" := 5, "1001" := 6];
    BitsOf("0000", b, false);
    BitsOf("0100", b, false);
    BitsOf("1000", b, false);
    BitsOf("1001", b, false);
    PairUnder<nat>("0000", 0, "0100", 2, [b]);
    PairUnder<nat>("1000", 5, "1001", 6, [b]);
  }

  lemma FirstHalf(b: bool)
    ensures |Under(THREE2.nodes[0].vc, [b])| + |Under(THREE2.nodes[0].vs, [b])| >= 2
    ensures HalfOf(THREE2.cfg, THREE2.nodes[0], b, if b then FIRST.h1 else FIRST.h0)
  {
    hide Under, TopUp, Lowest;
    var none: Id := [];
    assert none + [b] == [b];
    SidesOfFirst(b);
    Sizes2<nat>("0000", 0, "0100", 2);
    Sizes2<nat>("1000", 5, "1001", 6);
    if b {
      WholeSide<nat>(map[], map["1000" := 5, "1001" := 6], map["1000" := 5, "1001" := 6], "1000");
    } else {
      WholeSide<nat>(map["0000" := 0, "0100" := 2], map[], map["0000" := 0, "0100" := 2], "0000");
    }
  }

  lemma FirstLives()
    ensures Live(THREE1, 0) && Live(THREE2, 0)
  {
    hide Live;
    ThreeBoots();
    JoinedLive(THREE0, 0, "1000", 5, 0);
    JoinedLive(THREE1, 0, "1001", 6, 0);
  }

  lemma FirstSplits()
    ensures Enabled(THREE2, FIRST) && Safe(THREE2, FIRST)
  {
    hide Under, HalfOf, Enabled, Live;
    FirstLives();
    var none: Id := [];
    assert none + [false] == [false] && none + [true] == [true];
    FirstHalf(false);
    FirstHalf(true);
    SplitAllowed(THREE2, FIRST);
  }

  lemma FirstResult()
    ensures Enabled(THREE2, FIRST) && Apply(THREE2, FIRST) == THREE3
  {
    hide Enabled, Apply, Str;
    FirstSplits();
    SplitEmpty(THREE2, FIRST);
    var none: Id := [];
    assert none + [false] == [false] && none + [true] == [true];
    ShortStrings();
    FirstReg();
    FirstPeers();
    FirstNodes();
    var n := THREE2.nodes[0];
    assert n.lbl == [] && n.rt == [] && n.rt + [0] == [0] && n.rt + [2] == [2];
    assert THREE3.nodes[2] == Node(n.lbl + [true], n.rt + [0], FIRST.h1.vc, FIRST.h1.vs, false, false);
    assert THREE3.nodes[0] == Node(n.lbl + [false], n.rt + [2], FIRST.h0.vc, FIRST.h0.vs, n.merging, n.locked);
  }

  lemma ShortStrings()
    ensures Str([]) == "" && Str([false]) == "0" && Str([true]) == "1"
    ensures Str([false, false]) == "00" && Str([false, true]) == "01"
  {
  }

  lemma FirstReg()
    ensures (THREE2.reg["1" := 2] - {""})["0" := 0] == THREE3.reg
  {
  }

  lemma FirstPeers()
    ensures THREE2.keys == THREE3.keys && THREE2.data == THREE3.data
  {
  }

  lemma FirstNodes()
    ensures THREE2.nodes[2 := THREE3.nodes[2]][0 := THREE3.nodes[0]] == THREE3.nodes
  {
  }

  lemma SidesOfSecond(b: bool)
    ensures Under(THREE5.nodes[0].vc, [false, b]) == if b then map["0100" := 2] else map["0000" := 0]
    ensures Under(THREE5.nodes[0].vs, [false, b]) == if b then map["0101" := 3] else map["0001" := 1]
  {
    hide Under, Parse;
    assert THREE5.nodes[0].vs == map["0001" := 1, "0101" := 3];
    BitsOf("0000", false, b);
    BitsOf("0100", false, b);
    BitsOf("0001", false, b);
    BitsOf("0101", false, b);
    PairUnder<nat>("0000", 0, "0100", 2, [false, b]);
    PairUnder<nat>("0001", 1, "0101", 3, [false, b]);
  }

  lemma SecondHalf(b: bool)
    ensures |Under(THREE5.nodes[0].vc, [false, b])| + |Under(THREE5.nodes[0].vs, [false, b])| >= 2
    ensures HalfOf(THREE5.cfg, THREE5.nodes[0], b, if b then SECOND.h1 else SECOND.h0)
  {
    hide Under, TopUp, Lowest;
    assert [false] + [b] == [false, b];
    SidesOfSecond(b);
    Sizes2<nat>("0000", 0, "0001", 1);
    Sizes2<nat>("0100", 2, "0101", 3);
    Sizes2<nat>("0101", 3, "0000", 0);
    Sizes2<nat>("0001", 1, "0000", 0);
    if b {
      WholeSide<nat>(map["0100" := 2], map["0101" := 3], map["0100" := 2, "0101" := 3], "0100");
    } else {
      WholeSide<nat>(map["0000" := 0], map["0001" := 1], map["0000" := 0, "0001" := 1], "0000");
    }
  }

  lemma SecondLives()
    ensures Live(THREE3, 0) && Live(THREE4, 0) && Live(THREE5, 0) && Live(THREE6, 1)
  {
    ShortStrings();
    hide Str;
    assert Live(THREE3, 0) && Live(THREE6, 1);
    JoinedLive(THREE3, 0, "0001", 1, 0);
    JoinedLive(THREE4, 0, "0101", 3, 0);
  }

  lemma SecondSplits()
    ensures Enabled(THREE5, SECOND) && Safe(THREE5, SECOND)
  {
    hide Under, HalfOf, Enabled, Live;
    SecondLives();
    assert [false] + [false] == [false, false] && [false] + [true] == [false, true];
    SecondHalf(false);
    SecondHalf(true);
    SplitAllowed(THREE5, SECOND);
  }

  lemma SecondReg()
    ensures (THREE5.reg["01" := 1] - {"0"})["00" := 0] == THREE6.reg
  {
  }

  lemma SecondPeers()
    ensures THREE5.keys == THREE6.keys && THREE5.data == THREE6.data
  {
  }

  lemma SecondNodes()
    ensures THREE5.nodes[1 := THREE6.nodes[1]][0 := THREE6.nodes[0]] == THREE6.nodes
  {
  }

  lemma SecondResult()
    ensures Enabled(THREE5, SECOND) && Apply(THREE5, SECOND) == THREE6
  {
    hide Enabled, Apply, Str;
    SecondSplits();
    SplitEmpty(THREE5, SECOND);
    ShortStrings();
    SecondReg();
    SecondPeers();
    SecondNodes();
    var n := THREE5.nodes[0];
    assert n.lbl + [false] == [false, false] && n.lbl + [true] == [false, true];
    assert n.rt == [2] && n.rt + [0] == [2, 0] && n.rt + [1] == [2, 1];
    assert THREE6.nodes[1] == Node(n.lbl + [true], n.rt + [0], SECOND.h1.vc, SECOND.h1.vs, false, false);
    assert THREE6.nodes[0] == Node(n.lbl + [false], n.rt + [1], SECOND.h0.vc, SECOND.h0.vs, n.merging, n.locked);
  }

  // A repair that keeps the tables but for cluster 1, whose one slot may name either half of the other side.
  const TABLES: map<nat, seq<nat>> := map[0 := [2, 1], 1 := [2, 0], 2 := [1]]

  lemma SevenLive()
    ensures Labels(THREE7) == {[false, false], [false, true], [true]} && forall c :: c in THREE7.nodes ==>
            Live(THREE7, c)
  {
    ShortStrings();
    hide Str;
    assert Live(THREE7, 0) && Live(THREE7, 1) && Live(THREE7, 2);
    assert THREE7.nodes[0].lbl in Labels(THREE7) && THREE7.nodes[1].lbl in Labels(THREE7)
      && THREE7.nodes[2].lbl in Labels(THREE7);
  }

  lemma NearestSlots(s: set<Id>)
    requires s == {[false, false], [false, true], [true]}
    ensures Nearest(s, [false, false], 0, [true]) && Nearest(s, [false, false], 1, [false, true])
    ensures Nearest(s, [false, true], 0, [true]) && Nearest(s, [false, true], 1, [false, false])
    ensures Nearest(s, [true], 0, [false, true])
  {
    ThreeCode();
    hide CompleteCode, Nearest;
    assert Flip([false, false], 0) == [true, false] && Flip([false, false], 1) == [false, true];
    assert Flip([false, true], 0) == [true, true] && Flip([false, true], 1) == [false, false];
    assert Flip([true], 0) == [false];
    NearestIffComparable(s, 4, [false, false], 0, [true]);
    NearestIffComparable(s, 4, [false, false], 1, [false, true]);
    NearestIffComparable(s, 4, [false, true], 0, [true]);
    NearestIffComparable(s, 4, [false, true], 1, [false, false]);
    NearestIffComparable(s, 4, [true], 0, [false, true]);
  }

  ghost predicate GoodTable(net: Net<nat, nat>, c: nat, table: seq<nat>) {
    && c in net.nodes && |table| == |net.nodes[c].rt| == |net.nodes[c].lbl|
    && forall i :: 0 <= i < |table| ==>
         Live(net, table[i]) && Nearest(Labels(net), net.nodes[c].lbl, i, net.nodes[table[i]].lbl)
  }

  lemma TablesGood()
    ensures GoodTable(THREE7, 0, [2, 1]) && GoodTable(THREE7, 1, [2, 0]) && GoodTable(THREE7, 2, [1])
  {
    hide Live, Labels, Nearest;
    SevenLive();
    NearestSlots(Labels(THREE7));
  }

  lemma FixFrom(net: Net<nat, nat>, tables: map<nat, seq<nat>>)
    requires tables.Keys == Active(net) && forall c :: c in tables ==> GoodTable(net, c, tables[c])
    ensures Enabled(net, Fix(tables)) && Safe(net, Fix(tables))
    ensures Apply(net, Fix(tables)) == net.(nodes := Refix(net, tables))
  {
    hide Live, Labels, Nearest;
  }

  lemma ActiveSeven()
    ensures TABLES.Keys == Active(THREE7)
  {
    hide Live;
    SevenLive();
    assert TABLES.Keys == {0, 1, 2} && THREE7.nodes.Keys == {0, 1, 2};
  }

  lemma RefixedNodes()
    ensures var nodes := Refix(THREE7, TABLES);
            nodes.Keys == {0, 1, 2} && nodes[0] == THREE.nodes[0] && nodes[1] == THREE.nodes[1]
              && nodes[2] == THREE.nodes[2]
  {
  }

  lemma LastNodes()
    ensures Refix(THREE7, TABLES) == THREE.nodes
  {
    hide Refix;
    RefixedNodes();
    assert THREE.nodes.Keys == {0, 1, 2};
  }

  lemma LastKeys()
    ensures THREE7.keys == THREE.keys
  {
    assert THREE7.keys.Keys == {0, 1, 2, 3, 4, 5, 6} && THREE.keys.Keys == {0, 1, 2, 3, 4, 5, 6};
  }

  lemma LastData()
    ensures THREE7.data == THREE.data
  {
    assert THREE7.data.Keys == {0, 1, 2, 3, 4, 5, 6} && THREE.data.Keys == {0, 1, 2, 3, 4, 5, 6};
  }

  lemma LastReg()
    ensures THREE7.reg == THREE.reg && THREE7.cfg == THREE.cfg
  {
  }

  lemma FixResult()
    ensures Enabled(THREE7, Fix(TABLES)) && Safe(THREE7, Fix(TABLES)) && Apply(THREE7, Fix(TABLES)) == THREE
  {
    hide Enabled, Apply, Safe, GoodTable, Refix, Active;
    ActiveSeven();
    TablesGood();
    FixFrom(THREE7, TABLES);
    LastNodes();
    LastKeys();
    LastData();
    LastReg();
  }

  lemma ThreeKeys()
    ensures GoodKey(4, [], "1000") && GoodKey(4, [], "1001") && GoodKey(4, [false], "0001")
            && GoodKey(4, [false], "0101")
    ensures GoodKey(4, [false, true], "0110")
  {
  }

  /** The state in which merges break the prefix code, lose messages, spares and live links: two core peers, four
      admissions with two splits, one more admission and a repair. */
  lemma ThreeReachable() returns (acts: seq<Action<nat, nat>>)
    ensures Reached(THREE0, acts, THREE)
  {
    hide Reached, Boot, Legal, Exec, Live, GoodKey, Enabled, Apply, Safe, THREE;
    acts := ToThree3();
    acts := ToThree6(acts);
    SecondLives();
    ThreeKeys();
    ThenJoin(THREE0, acts, THREE6, 1, "0110", 4);
    acts := acts + [Join(1, "0110", 4)];
    FixResult();
    Then(THREE0, acts, THREE7, Fix(TABLES), THREE);
    acts := acts + [Fix(TABLES)];
  }

  lemma ToThree3() returns (acts: seq<Action<nat, nat>>)
    ensures Reached(THREE0, acts, THREE3)
  {
    hide Reached, Boot, Legal, Exec, Live, GoodKey, Enabled, Apply, Safe;
    ThreeBoots();
    FirstLives();
    ThreeKeys();
    Start(THREE0);
    ThenJoin(THREE0, [], THREE0, 0, "1000", 5);
    acts := [] + [Join(0, "1000", 5)];
    ThenJoin(THREE0, acts, THREE1, 0, "1001", 6);
    acts := acts + [Join(0, "1001", 6)];
    FirstResult();
    FirstSplits();
    Then(THREE0, acts, THREE2, FIRST, THREE3);
    acts := acts + [FIRST];
  }

  lemma ToThree6(start: seq<Action<nat, nat>>) returns (acts: seq<Action<nat, nat>>)
    requires Reached(THREE0, start, THREE3)
    ensures Reached(THREE0, acts, THREE6)
  {
    hide Reached, Boot, Legal, Exec, Live, GoodKey, Enabled, Apply, Safe, THREE0;
    SecondLives();
    ThreeKeys();
    ThenJoin(THREE0, start, THREE3, 0, "0001", 1);
    acts := start + [Join(0, "0001", 1)];
    ThenJoin(THREE0, acts, THREE4, 0, "0101", 3);
    acts := acts + [Join(0, "0101", 3)];
    SecondResult();
    SecondSplits();
    Then(THREE0, acts, THREE5, SECOND, THREE6);
    acts := acts + [SECOND];
  }
}
