/** Overlays in which a step of the simulation does not do what its surroundings rely on. */
module Counterexamples {
  import opened Ids
  import opened PrefixCode
  import opened Network
  import opened SplitStep
  import opened MergeStep
  import opened Runs
  import opened Durability
  import opened Objects
  import opened Splitting
  import opened Losses
  import opened Routing
  import opened Relaying
  import opened Blocking

  /** A core of two replicas, with spares, is a cluster in good order. */
  lemma PairCell<P>(cfg: Config, keys: map<P, string>, data: map<P, Data>, lbl: Id, j: string, p: P, k: string, q: P,
                    vs: map<string, P>, d: Data)
    requires cfg.smin == 2 && j != k && GoodKey(cfg.m, lbl, j) && GoodKey(cfg.m, lbl, k)
    requires p in keys && keys[p] == j && q in keys && keys[q] == k && p in data && data[p] == d && q in data
             && data[q] == d
    requires Keyed(cfg.m, lbl, vs) && Known(keys, data, vs) && AllHold(data, vs, map[]) && j !in vs && k !in vs
    requires DataUnder(lbl, d)
    ensures Cell(cfg, keys, data, lbl, map[j := p, k := q], vs, false)
  {
    hide GoodKey, DataUnder;
    PairSize(j, p, k, q);
  }

  lemma PairSize<P>(j: string, p: P, k: string, q: P)
    requires j != k
    ensures |map[j := p, k := q]| == 2
  {
    assert map[j := p, k := q].Keys == {j, k};
  }

  // ---------------------------------------------------------------- three clusters

  // Clusters 0, 1 and 2 have the labels 00, 01 and 1, two core peers each, and 01 has a spare. The table of 1
  // names 01.
  const THREE: Net<nat, nat> := Net(
    Config(4, 2, 2),
    map["00" := 0, "01" := 1, "1" := 2],
    map[0 := Node([false, false], [2, 1], map["0000" := 0, "0001" := 1], map[], false, false),
        1 := Node([false, true], [2, 0], map["0100" := 2, "0101" := 3], map["0110" := 4], false, false),
        2 := Node([true], [1], map["1000" := 5, "1001" := 6], map[], false, false)],
    map[0 := "0000", 1 := "0001", 2 := "0100", 3 := "0101", 4 := "0110", 5 := "1000", 6 := "1001"],
    map[0 := map[], 1 := map[], 2 := map[], 3 := map[], 4 := map[], 5 := map[], 6 := map[]])

  lemma NotBelow(a: Id, b: Id, i: nat)
    requires i < |a| && i < |b| && a[i] != b[i]
    ensures !(a <= b) && !(b <= a)
  {
  }

  lemma ThreeCode()
    ensures CompleteCode({[false, false], [false, true], [true]}, 4)
  {
    var s: set<Id> := {[false, false], [false, true], [true]};
    NotBelow([false, false], [false, true], 1);
    NotBelow([false, false], [true], 0);
    NotBelow([false, true], [true], 0);
    forall x: Id | |x| == 4
      ensures Owned(s, x)
    {
      if x[0] {
        assert [true] in s && [true] <= x;
      } else if x[1] {
        assert [false, true] in s && [false, true] <= x;
      } else {
        assert [false, false] in s && [false, false] <= x;
      }
    }
  }

  lemma ThreeStrings()
    ensures Str([false, false]) == "00" && Str([false, true]) == "01" && Str([true]) == "1"
  {
  }

  lemma ThreeLive()
    ensures RegInv(THREE) && FlagInv(THREE) && (forall c :: c in THREE.nodes ==> Live(THREE, c))
    ensures Labels(THREE) == {[false, false], [false, true], [true]}
  {
    ThreeStrings();
    hide Str;
    assert THREE.nodes[0].lbl in Labels(THREE) && THREE.nodes[1].lbl in Labels(THREE)
      && THREE.nodes[2].lbl in Labels(THREE);
  }

  lemma ThreeLinks()
    ensures LinkInv(THREE)
  {
    assert NodeLinks(THREE, 0) && NodeLinks(THREE, 1) && NodeLinks(THREE, 2);
  }

  lemma CellOf00()
    ensures NodeInv(THREE, THREE.nodes[0])
  {
    hide Cell;
    PairCell(THREE.cfg, THREE.keys, THREE.data, [false, false], "0000", 0, "0001", 1, map[], map[]);
  }

  lemma CellOf01()
    ensures NodeInv(THREE, THREE.nodes[1])
  {
    hide Cell;
    PairCell(THREE.cfg, THREE.keys, THREE.data, [false, true], "0100", 2, "0101", 3, map["0110" := 4], map[]);
  }

  lemma CellOf1()
    ensures NodeInv(THREE, THREE.nodes[2])
  {
    hide Cell;
    PairCell(THREE.cfg, THREE.keys, THREE.data, [true], "1000", 5, "1001", 6, map[], map[]);
  }

  lemma ThreeInv()
    ensures Inv(THREE) && LinksLive(THREE)
  {
    hide RegInv, FlagInv, LinkInv, CompleteCode, Labels, NodeInv, Live;
    ThreeLive();
    ThreeCode();
    ThreeLinks();
    CellOf00();
    CellOf01();
    CellOf1();
  }

  // The cluster labelled 1 loses a core peer and merges with 01, whose label is longer than its own.
  const DEEPER: Action<nat, nat> := Merge(2, "1000", 1, 3, "1001", "0100", "0100")

  // The cluster labelled 00 loses a core peer and merges with its sibling 01.
  const SIBLINGS: Action<nat, nat> := Merge(0, "0000", 1, 3, "0001", "0100", "0100")

  lemma DeeperAllowed()
    ensures Enabled(THREE, DEEPER) && !Safe(THREE, DEEPER)
  {
    ThreeLive();
  }

  lemma SiblingsAllowed()
    ensures Enabled(THREE, SIBLINGS) && Safe(THREE, SIBLINGS)
  {
    ThreeLive();
  }

  /** A merge that is allowed and breaks the invariant: 00 is left under the merged label. */
  lemma DeeperPartnerBreaks()
    ensures Inv(THREE) && Enabled(THREE, DEEPER) && !Inv(Apply(THREE, DEEPER))
  {
    hide Inv, Enabled, Apply, Safe, LinksLive;
    ThreeInv();
    DeeperAllowed();
    MergeKeepsIff(THREE, DEEPER);
  }

  /** A safe merge after which a table names a cluster out of service: 1 still points at 01. */
  lemma MergeLeavesDeadLink()
    ensures Inv(THREE) && LinksLive(THREE) && Enabled(THREE, SIBLINGS) && Safe(THREE, SIBLINGS)
    ensures !LinksLive(Apply(THREE, SIBLINGS))
  {
    hide Inv, Enabled, Apply, Safe, LinksLive, Live;
    ThreeInv();
    SiblingsAllowed();
    MergeKeepsLinksLiveIff(THREE, SIBLINGS);
    ThreeLive();
    assert PointsAt(THREE, 2, 0, 1);
  }

  /** The same merge loses the partner's spare 0110: no cluster in service has it afterwards. */
  lemma MergeDropsSpare()
    ensures Inv(THREE) && Enabled(THREE, SIBLINGS) && "0110" in THREE.nodes[1].vs
    ensures var net := Apply(THREE, SIBLINGS);
            forall c :: c in net.nodes && Live(net, c) ==> !Has(net.nodes[c].vc, net.nodes[c].vs, "0110")
  {
    hide Inv, Enabled, Apply, Safe, LinksLive, Live;
    ThreeInv();
    SiblingsAllowed();
    MergeKeepsMembersIff(THREE, SIBLINGS);
    MergeLive(THREE, SIBLINGS);
    SpareElsewhere();
  }

  lemma SpareElsewhere()
    ensures "0110" !in THREE.nodes[0].vc && "0110" !in THREE.nodes[1].vc
            && !Has(THREE.nodes[2].vc, THREE.nodes[2].vs, "0110")
    ensures SIBLINGS.c == 0 && SIBLINGS.b == 1 && SIBLINGS.m == 3 && THREE.nodes.Keys == {0, 1, 2}
  {
  }

  lemma ThreeCalm()
    ensures Calm(THREE, SIBLINGS)
  {
    hide Inv, Enabled, Apply, Safe, LinksLive, Live;
    ThreeInv();
    SiblingsAllowed();
    ThreeFilled();
    ThreeKeyed();
  }

  lemma ThreeFilled()
    ensures CoresFilled(THREE)
  {
    hide Live;
    assert "0000" in THREE.nodes[0].vc && "0100" in THREE.nodes[1].vc && "1000" in THREE.nodes[2].vc;
  }

  lemma ThreeKeyed()
    ensures CoresKeyed(THREE)
  {
    hide Keyed, Known, Replicas, AllHold, Sizes;
    CellOf00();
    CellOf01();
    CellOf1();
  }

  /** And a message that starts at 1 for a key on the other side is lost on its way to 01, whichever of the two
      clusters owned the key, although it arrived before. */
  lemma MergeLosesMessage(t: Id)
    requires |t| == 4 && !t[0]
    ensures Calm(THREE, SIBLINGS) && THREE.cfg.m == 4 && 2 in THREE.nodes && Live(THREE, 2) && Arrives(THREE, 2, t)
    ensures var net := Apply(THREE, SIBLINGS);
            && Inv(net) && CoresKeyed(net) && net.cfg.m == 4 && 2 in net.nodes && Live(net, 2)
            && !Arrives(net, 2, t)
  {
    hide THREE, SIBLINGS, Inv, Enabled, Apply, Safe, LinksLive, Live, CoresFilled, CoresKeyed, Arrives, NextHop,
         NodeLinks;
    ThreeCalm();
    ThirdIsOne();
    FirstHop(t);
    CalmArrives(THREE, SIBLINGS, 2, t);
    FirstHopLost(THREE, SIBLINGS, 2, t);
  }

  lemma ThirdIsOne()
    ensures THREE.cfg.m == 4 && SIBLINGS.Merge? && SIBLINGS.b == 1 && Third(THREE, SIBLINGS, 2)
    ensures 2 in THREE.nodes && Live(THREE, 2)
  {
    hide Live;
    ThreeLive();
  }

  lemma FirstHop(t: Id)
    requires |t| == 4 && !t[0]
    ensures !(THREE.nodes[2].lbl <= t) && NodeLinks(THREE, 2) && |THREE.nodes[2].lbl| <= |t|
            && NextHop(THREE, 2, t) == 1
  {
    NotBelow([true], t, 0);
    ThreeLinks();
  }

  // ---------------------------------------------------------------- one cluster

  // Cluster 0 has no label bits, the core peers 100 and 101, which hold an entry at 011, and four spares.
  const ENTRY: Data := map["011" := "v"]
  const ONE: Net<nat, nat> := Net(
    Config(3, 2, 3),
    map["" := 0],
    map[0 := Node([], [], map["100" := 0, "101" := 1], map["000" := 2, "001" := 3, "010" := 4, "110" := 5], false,
      false)],
    map[0 := "100", 1 := "101", 2 := "000", 3 := "001", 4 := "010", 5 := "110"],
    map[0 := ENTRY, 1 := ENTRY, 2 := map[], 3 := map[], 4 := map[], 5 := map[]])

  lemma OneKeyed()
    ensures GoodKey(3, [], "100") && GoodKey(3, [], "101") && Keyed(3, [], ONE.nodes[0].vs)
  {
  }

  lemma OneKnown()
    ensures Known(ONE.keys, ONE.data, ONE.nodes[0].vs) && AllHold(ONE.data, ONE.nodes[0].vs, map[])
  {
  }

  lemma OneCell()
    ensures NodeInv(ONE, ONE.nodes[0])
  {
    hide Cell, Keyed, Known, AllHold, GoodKey, Parse;
    OneKeyed();
    OneKnown();
    PairCell(ONE.cfg, ONE.keys, ONE.data, [], "100", 0, "101", 1, ONE.nodes[0].vs, ENTRY);
  }

  lemma OneLive()
    ensures Live(ONE, 0) && Labels(ONE) == {[]} && RegInv(ONE) && FlagInv(ONE) && LinkInv(ONE)
  {
    assert Str([]) == "";
    assert Live(ONE, 0);
    assert ONE.nodes[0].lbl in Labels(ONE);
  }

  lemma OneCode()
    ensures CompleteCode({[]}, 3)
  {
    forall x: Id | |x| == 3
      ensures Owned({[]}, x)
    {
      var none: Id := [];
      assert none in {none} && none <= x;
    }
  }

  lemma OneInv()
    ensures Inv(ONE)
  {
    hide RegInv, FlagInv, LinkInv, CompleteCode, Labels, NodeInv, Live;
    OneLive();
    OneCode();
    OneCell();
  }

  lemma FirstBit(x: Id, b: bool)
    requires x != []
    ensures [b] <= x <==> x[0] == b
  {
    assert x[0] == b ==> x[..1] == [b];
    assert [b] <= x ==> x[0] == [b][0];
  }

  lemma SideOf(k: string, b: bool)
    requires k != ""
    ensures [b] <= Parse(k) <==> b == (k[0] == '1')
  {
    FirstBit(Parse(k), b);
  }

  lemma OneBits(b: bool)
    ensures [b] <= Parse("100") <==> b
    ensures [b] <= Parse("101") <==> b
    ensures [b] <= Parse("110") <==> b
    ensures [b] <= Parse("000") <==> !b
    ensures [b] <= Parse("001") <==> !b
    ensures [b] <= Parse("010") <==> !b
  {
    SideOf("100", b);
    SideOf("101", b);
    SideOf("110", b);
    SideOf("000", b);
    SideOf("001", b);
    SideOf("010", b);
  }

  lemma CoreSides(b: bool)
    ensures Under(ONE.nodes[0].vc, [b]) == if b then MOVING else map[]
  {
    hide Under, Parse;
    OneBits(b);
    UnderNone<nat>([b]);
    UnderStep<nat>(map[], [b], "100", 0);
    UnderStep<nat>(map["100" := 0], [b], "101", 1);
  }

  lemma SpareSides(b: bool)
    ensures Under(ONE.nodes[0].vs, [b]) == if b then map["110" := 5] else map["000" := 2, "001" := 3, "010" := 4]
  {
    hide Under, Parse;
    OneBits(b);
    UnderNone<nat>([b]);
    UnderStep<nat>(map[], [b], "000", 2);
    UnderStep<nat>(map["000" := 2], [b], "001", 3);
    UnderStep<nat>(map["000" := 2, "001" := 3], [b], "010", 4);
    UnderStep<nat>(map["000" := 2, "001" := 3, "010" := 4], [b], "110", 5);
  }

  lemma OneSizes()
    ensures |map["100" := 0, "101" := 1]| == 2 && |map["000" := 2, "001" := 3, "010" := 4]| == 3
            && |map["110" := 5]| == 1
  {
    assert map["100" := 0, "101" := 1].Keys == {"100", "101"};
    assert map["000" := 2, "001" := 3, "010" := 4].Keys == {"000", "001", "010"};
    assert map["110" := 5].Keys == {"110"};
  }

  const STAYING: map<string, nat> := map["000" := 2, "001" := 3]
  const MOVING: map<string, nat> := map["100" := 0, "101" := 1]

  function Splits(pick: string): Action<nat, nat> {
    Split(0, 1, Half(STAYING, map["010" := 4], pick), Half(MOVING, map["110" := 5], "100"))
  }

  lemma OneCanSplit()
    ensures CanSplit(ONE.cfg, ONE.nodes[0])
  {
    hide Under;
    var none: Id := [];
    assert none + [false] == [false] && none + [true] == [true];
    CoreSides(false);
    CoreSides(true);
    SpareSides(false);
    SpareSides(true);
    OneSizes();
  }

  lemma LowerAt(j: string, k: string, i: nat)
    requires LessAt(Parse(j), Parse(k), i)
    ensures Less(Parse(j), Parse(k))
  {
  }

  lemma Promoted()
    ensures Less(Parse("000"), Parse("010")) && Less(Parse("001"), Parse("010"))
  {
    LowerAt("000", "010", 1);
    LowerAt("001", "010", 1);
  }

  lemma StayingHalf(pick: string)
    requires pick in STAYING
    ensures TopUp(2, map[], map["000" := 2, "001" := 3, "010" := 4], Half(STAYING, map["010" := 4], pick))
    ensures Lowest(map[], Half(STAYING, map["010" := 4], pick))
  {
    hide Less, Parse;
    Promoted();
    OneSizes();
  }

  lemma MovingHalf()
    ensures TopUp(2, MOVING, map["110" := 5], Half(MOVING, map["110" := 5], "100"))
    ensures Lowest(MOVING, Half(MOVING, map["110" := 5], "100"))
  {
    hide Less, Parse;
    OneSizes();
  }

  lemma OneHalves(pick: string)
    requires pick in STAYING
    ensures HalfOf(ONE.cfg, ONE.nodes[0], false, Splits(pick).h0)
            && HalfOf(ONE.cfg, ONE.nodes[0], true, Splits(pick).h1)
  {
    hide Under, TopUp, Lowest;
    var none: Id := [];
    assert none + [false] == [false] && none + [true] == [true];
    CoreSides(false);
    CoreSides(true);
    SpareSides(false);
    SpareSides(true);
    StayingHalf(pick);
    MovingHalf();
  }

  lemma OneSplits(pick: string)
    requires pick in STAYING
    ensures Enabled(ONE, Splits(pick))
  {
    hide Enabled, Live, CanSplit, HalfOf;
    OneLive();
    OneCanSplit();
    OneHalves(pick);
    SplitAllowed(ONE, Splits(pick));
  }

  lemma EntryHeld()
    ensures AllHave(ONE.data, ONE.nodes[0].vc, "011", "v")
  {
    assert "100" in ONE.nodes[0].vc;
  }

  lemma EntrySide()
    ensures ONE.nodes[0].lbl <= Parse("011") && !Parse("011")[0]
  {
  }

  lemma EntryStored()
    ensures StoredAt(ONE, 0, "011", "v") && !Parse("011")[0]
  {
    hide Live, AllHave, Parse;
    OneLive();
    EntryHeld();
    EntrySide();
    assert 0 in ONE.nodes;
  }

  /** A split that is allowed and loses an entry the whole core held, whichever copy peer it picks on the
      entry's side: both core peers there were spares before. */
  lemma SplitCanLose(pick: string)
    requires pick in STAYING
    ensures Inv(ONE) && Enabled(ONE, Splits(pick)) && Stored(ONE, "011", "v")
            && !Stored(Apply(ONE, Splits(pick)), "011", "v")
  {
    hide Inv, Enabled, Apply, StoredAt, Parse;
    OneInv();
    OneSplits(pick);
    EntryStored();
    assert 0 in ONE.nodes;
    SplitKeepsEntryIff(ONE, Splits(pick), "011", "v");
  }

  const TYPES: map<nat, PeerType> := map[0 := CORE, 1 := CORE, 2 := SPARE, 3 := SPARE, 4 := SPARE, 5 := SPARE]

  lemma CoreTypes()
    ensures forall k :: k in ONE.nodes[0].vc ==> ONE.nodes[0].vc[k] in TYPES && TYPES[ONE.nodes[0].vc[k]] == CORE
  {
  }

  lemma SpareTypes()
    ensures forall k :: k in ONE.nodes[0].vs ==> ONE.nodes[0].vs[k] in TYPES && TYPES[ONE.nodes[0].vs[k]] == SPARE
  {
  }

  lemma TypesKnown()
    ensures TYPES.Keys == ONE.data.Keys
  {
    assert TYPES.Keys == {0, 1, 2, 3, 4, 5} && ONE.data.Keys == {0, 1, 2, 3, 4, 5};
  }

  lemma TypesAgree()
    ensures RolesAgree(TYPES, ONE.nodes[0].vc, ONE.nodes[0].vs)
  {
    CoreTypes();
    SpareTypes();
  }

  /** The same split leaves the types of its promoted spares behind: they agreed with the roles before. */
  lemma SplitForgetsTypes(pick: string)
    requires pick in STAYING
    ensures Enabled(ONE, Splits(pick)) && RolesAgree(TYPES, ONE.nodes[0].vc, ONE.nodes[0].vs)
    ensures !RolesAgree(Retyped(ONE.keys, TYPES, Splits(pick).h1), Splits(pick).h0.vc, Splits(pick).h0.vs)
  {
    hide Enabled, RolesAgree, Retyped, HalfOf, Cell, Under;
    OneSplits(pick);
    OneHalves(pick);
    OneCell();
    TypesKnown();
    TypesAgree();
    CoreSides(false);
    var none: Id := [];
    assert none + [false] == [false];
    SplitTypesIff(ONE.cfg, ONE.keys, ONE.data, TYPES, ONE.nodes[0], Splits(pick).h0, Splits(pick).h1);
  }
}
