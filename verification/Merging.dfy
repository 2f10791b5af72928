/** Merge of simulation/merge.go: two clusters' cores, stores and registry entries become one. */
module Merging {
  import opened Cardinality
  import opened Ids
  import opened PrefixCode
  import opened Network
  import opened MergeStep
  import opened DataStore
  import opened Votes
  import opened Objects

  /** What merging one side does to the stores: members in `core` get what they gain, members in `spare` are emptied. */
  ghost function SideData<P, D>(keys: map<P, string>, data: map<P, D>, core: map<string, P>, spare: map<string, P>,
                                gained: map<P, D>, empty: D): map<P, D>
    requires gained.Keys == data.Keys
  {
    map p | p in data ::
      if Holds(keys, core, p) then gained[p] else if Holds(keys, spare, p) then empty else data[p]
  }

  ghost function Gain<P>(data: map<P, Data>, d: Data): map<P, Data> {
    map p | p in data :: data[p] + d
  }

  method TakeStore(reg: ClusterRegistry, peer: Peer, other: Peer)
    requires reg.OwnStores() && peer in reg.peers && other in reg.peers && peer != other
    modifies peer.store
    ensures other.store.data == old(other.store.data)
    ensures reg.Contents() == old(reg.Contents())[peer := old(peer.store.data) + old(other.store.data)]
  {
    peer.store.Merge(other.store);
  }

  method TakeName(reg: ClusterRegistry, id: string, peer: Peer, m: Cluster)
    requires peer in reg.peers
    modifies m`vc, peer`cluster, peer`peerType
    ensures m.vc == old(m.vc)[id := peer] && peer.cluster == m && peer.peerType == CORE
    ensures reg.Homes() == old(reg.Homes())[peer := m] && reg.Types() == old(reg.Types())[peer := CORE]
  {
    m.vc := m.vc[id := peer];
    peer.SetClusterType(m, CORE);
  }

  method TakeIn(reg: ClusterRegistry, id: string, peer: Peer, other: Peer, m: Cluster)
    requires reg.OwnStores() && peer in reg.peers && other in reg.peers && peer != other
    modifies m`vc, peer`cluster, peer`peerType, peer.store
    ensures m.vc == old(m.vc)[id := peer]
    ensures peer.store == old(peer.store) && peer.cluster == m && peer.peerType == CORE
    ensures other.store.data == old(other.store.data)
    ensures reg.OwnStores() && reg.Homes() == old(reg.Homes())[peer := m]
            && reg.Types() == old(reg.Types())[peer := CORE]
    ensures reg.Contents() == old(reg.Contents())[peer := old(peer.store.data) + old(other.store.data)]
  {
    hide ClusterRegistry.OwnStores, ClusterRegistry.Homes, ClusterRegistry.Types;
    TakeStore(reg, peer, other);
    ghost var data := reg.Contents();
    TakeName(reg, id, peer, m);
    assert reg.Contents() == data;
  }

  method EmptyStore(reg: ClusterRegistry, peer: Peer)
    requires reg.OwnStores() && peer in reg.peers
    modifies peer`store
    ensures fresh(peer.store) && reg.OwnStores() && reg.Contents() == old(reg.Contents())[peer := map[]]
  {
    var empty := new MapWrapper(map[]);
    peer.ReplaceData(empty);
  }

  method Demote(reg: ClusterRegistry, id: string, peer: Peer, m: Cluster)
    requires reg.OwnStores() && peer in reg.peers
    modifies m`vs, peer`cluster, peer`peerType, peer`store
    ensures m.vs == old(m.vs)[id := peer]
    ensures fresh(peer.store) && peer.cluster == m && peer.peerType == SPARE
    ensures reg.OwnStores() && reg.Homes() == old(reg.Homes())[peer := m]
            && reg.Types() == old(reg.Types())[peer := SPARE]
    ensures reg.Contents() == old(reg.Contents())[peer := map[]]
  {
    hide ClusterRegistry.OwnStores, ClusterRegistry.Homes, ClusterRegistry.Types;
    DemoteName(reg, id, peer, m);
    assert reg.Contents() == old(reg.Contents());
    EmptyStore(reg, peer);
  }

  method DemoteName(reg: ClusterRegistry, id: string, peer: Peer, m: Cluster)
    requires peer in reg.peers
    modifies m`vs, peer`cluster, peer`peerType
    ensures m.vs == old(m.vs)[id := peer] && peer.cluster == m && peer.peerType == SPARE
    ensures reg.Homes() == old(reg.Homes())[peer := m] && reg.Types() == old(reg.Types())[peer := SPARE]
  {
    m.vs := m.vs[id := peer];
    peer.SetClusterType(m, SPARE);
  }

  lemma SideCore<P, D>(keys: map<P, string>, data: map<P, D>, core: map<string, P>, spare: map<string, P>,
                       gained: map<P, D>, empty: D, k: string, p: P)
    requires gained.Keys == data.Keys && p in data && p in keys && keys[p] == k && k !in core && k !in spare
    ensures SideData(keys, data, core[k := p], spare, gained, empty)
            == SideData(keys, data, core, spare, gained, empty)[p := gained[p]]
    ensures SideData(keys, data, core, spare, gained, empty)[p] == data[p]
  {
  }

  lemma SideSpare<P, D>(keys: map<P, string>, data: map<P, D>, core: map<string, P>, spare: map<string, P>,
                        gained: map<P, D>, empty: D, k: string, p: P)
    requires gained.Keys == data.Keys && p in data && p in keys && keys[p] == k && k !in core && k !in spare
    ensures SideData(keys, data, core, spare[k := p], gained, empty)
            == SideData(keys, data, core, spare, gained, empty)[p := empty]
  {
  }

  ghost function AllAt(peers: set<Peer>, m: Cluster?): map<Peer, Cluster?> {
    map r | r in peers :: m
  }

  ghost function CoreAt(peers: set<Peer>): map<Peer, PeerType> {
    map r | r in peers :: CORE
  }

  /** Some of the members have been taken as core, the other handled ones as spares. */
  ghost predicate Handled(side: map<string, Peer>, todo: set<string>, core: map<string, Peer>,
                          spare: map<string, Peer>) {
    && (forall k :: k in core ==> k in side && k !in todo && core[k] == side[k])
    && (forall k :: k in spare ==> k in side && k !in todo && spare[k] == side[k] && k !in core)
    && (forall k :: k in side && k !in todo ==> k in core || k in spare)
  }

  lemma HandledStep(side: map<string, Peer>, todo: set<string>, core: map<string, Peer>, spare: map<string, Peer>,
                    k: string)
    requires Handled(side, todo, core, spare) && k in todo && k in side
    ensures k !in core && k !in spare
    ensures Handled(side, todo - {k}, core[k := side[k]], spare) && Handled(side, todo - {k}, core, spare[k := side[k]])
  {
  }

  ghost function Plus<P>(base: map<string, P>, more: map<string, P>): map<string, P> {
    base + more
  }

  lemma PlusOne<P>(base: map<string, P>, more: map<string, P>, k: string, p: P)
    requires k !in more
    ensures Plus(base, more)[k := p] == Plus(base, more[k := p])
  {
  }

  lemma SizeOne<P>(more: map<string, P>, k: string, p: P)
    requires k !in more
    ensures |more[k := p]| == |more| + 1 && more[k := p] != map[]
  {
    AddSize(more, k, p);
    assert k in more[k := p];
  }

  /** What a merge pass starts from. */
  datatype Before = Before(vc: map<string, Peer>, vs: map<string, Peer>, keys: map<Peer, string>, data: map<Peer, Data>,
                           homes: map<Peer, Cluster?>, types: map<Peer, PeerType>, d: Data)

  /** How far a pass over `side` has come. */
  ghost predicate Passed(reg: ClusterRegistry, m: Cluster, b: Before, side: map<string, Peer>, todo: set<string>,
                         core: map<string, Peer>, spare: map<string, Peer>)
    reads reg, reg.peers, reg.Stores(), m
  {
    && b.data.Keys == reg.peers && b.homes.Keys == reg.peers && b.types.Keys == reg.peers
    && Handled(side, todo, core, spare)
    && m.vc == Plus(b.vc, core) && m.vs == Plus(b.vs, spare)
    && reg.OwnStores()
    && reg.Contents() == SideData(b.keys, b.data, core, spare, Gain(b.data, b.d), map[])
    && reg.Homes() == SideData(b.keys, b.homes, core, spare, AllAt(b.homes.Keys, m), m)
    && reg.Types() == SideData(b.keys, b.types, core, spare, CoreAt(b.types.Keys), SPARE)
  }

  /** What taking one more member as core changes. */
  lemma CoreStep(b: Before, m: Cluster, core: map<string, Peer>, spare: map<string, Peer>, id: string, peer: Peer)
    requires peer in b.data && peer in b.homes && peer in b.types && peer in b.keys && b.keys[peer] == id
    requires id !in core && id !in spare && Gain(b.data, b.d).Keys == b.data.Keys
    ensures AllAt(b.homes.Keys, m).Keys == b.homes.Keys && CoreAt(b.types.Keys).Keys == b.types.Keys
    ensures SideData(b.keys, b.data, core[id := peer], spare, Gain(b.data, b.d), map[])
            == SideData(b.keys, b.data, core, spare, Gain(b.data, b.d), map[])[peer := b.data[peer] + b.d]
            && SideData(b.keys, b.data, core, spare, Gain(b.data, b.d), map[])[peer] == b.data[peer]
    ensures SideData(b.keys, b.homes, core[id := peer], spare, AllAt(b.homes.Keys, m), m)
            == SideData(b.keys, b.homes, core, spare, AllAt(b.homes.Keys, m), m)[peer := m]
    ensures SideData(b.keys, b.types, core[id := peer], spare, CoreAt(b.types.Keys), SPARE)
            == SideData(b.keys, b.types, core, spare, CoreAt(b.types.Keys), SPARE)[peer := CORE]
  {
    hide SideData;
    SideCore(b.keys, b.data, core, spare, Gain(b.data, b.d), map[], id, peer);
    SideCore(b.keys, b.homes, core, spare, AllAt(b.homes.Keys, m), m, id, peer);
    SideCore(b.keys, b.types, core, spare, CoreAt(b.types.Keys), SPARE, id, peer);
  }

  lemma SpareStep(b: Before, m: Cluster, core: map<string, Peer>, spare: map<string, Peer>, id: string, peer: Peer)
    requires peer in b.data && peer in b.homes && peer in b.types && peer in b.keys && b.keys[peer] == id
    requires id !in core && id !in spare && Gain(b.data, b.d).Keys == b.data.Keys
    ensures AllAt(b.homes.Keys, m).Keys == b.homes.Keys && CoreAt(b.types.Keys).Keys == b.types.Keys
    ensures SideData(b.keys, b.data, core, spare[id := peer], Gain(b.data, b.d), map[])
            == SideData(b.keys, b.data, core, spare, Gain(b.data, b.d), map[])[peer := map[]]
    ensures SideData(b.keys, b.homes, core, spare[id := peer], AllAt(b.homes.Keys, m), m)
            == SideData(b.keys, b.homes, core, spare, AllAt(b.homes.Keys, m), m)[peer := m]
    ensures SideData(b.keys, b.types, core, spare[id := peer], CoreAt(b.types.Keys), SPARE)
            == SideData(b.keys, b.types, core, spare, CoreAt(b.types.Keys), SPARE)[peer := SPARE]
  {
    hide SideData;
    SideSpare(b.keys, b.data, core, spare, Gain(b.data, b.d), map[], id, peer);
    SideSpare(b.keys, b.homes, core, spare, AllAt(b.homes.Keys, m), m, id, peer);
    SideSpare(b.keys, b.types, core, spare, CoreAt(b.types.Keys), SPARE, id, peer);
  }

  method MergeCore(reg: ClusterRegistry, m: Cluster, id: string, peer: Peer, other: Peer, ghost b: Before,
                   side: map<string, Peer>, ghost todo: set<string>,
                   ghost core: map<string, Peer>, ghost spare: map<string, Peer>)
    requires Passed(reg, m, b, side, todo, core, spare) && b.keys == reg.Keys() && id in todo && id in side
             && side[id] == peer
    requires peer in reg.peers && Str(peer.id) == id && peer != other && other in reg.peers && other.store.data == b.d
    modifies m`vc, peer`cluster, peer`peerType, peer.store
    ensures Passed(reg, m, b, side, todo - {id}, core[id := peer], spare)
    ensures peer.store == old(peer.store) && other.store.data == b.d && id !in core
  {
    hide Str, SideData, Handled, Gain, Plus, AllAt, CoreAt, ClusterRegistry.Homes, ClusterRegistry.Types,
         ClusterRegistry.OwnStores, ClusterRegistry.Contents, ClusterRegistry.Keys;
    GainKeys(b.data, b.d);
    reg.PeerSeen(peer);
    HandledStep(side, todo, core, spare, id);
    CoreStep(b, m, core, spare, id, peer);
    PlusOne(b.vc, core, id, peer);
    TakeIn(reg, id, peer, other, m);
  }

  method MergeSpare(reg: ClusterRegistry, m: Cluster, id: string, peer: Peer, other: Peer, ghost b: Before,
                    side: map<string, Peer>, ghost todo: set<string>,
                    ghost core: map<string, Peer>, ghost spare: map<string, Peer>)
    requires Passed(reg, m, b, side, todo, core, spare) && b.keys == reg.Keys() && id in todo && id in side
             && side[id] == peer
    requires peer in reg.peers && Str(peer.id) == id && peer != other && other in reg.peers && other.store.data == b.d
    modifies m`vs, peer`cluster, peer`peerType, peer`store
    ensures Passed(reg, m, b, side, todo - {id}, core, spare[id := peer])
    ensures fresh(peer.store) && other.store.data == b.d && id !in spare
  {
    hide Str, SideData, Handled, Gain, Plus, AllAt, CoreAt, ClusterRegistry.Homes, ClusterRegistry.Types,
         ClusterRegistry.OwnStores, ClusterRegistry.Contents, ClusterRegistry.Keys;
    GainKeys(b.data, b.d);
    reg.PeerSeen(peer);
    HandledStep(side, todo, core, spare, id);
    SpareStep(b, m, core, spare, id, peer);
    PlusOne(b.vs, spare, id, peer);
    Demote(reg, id, peer, m);
  }

  /** One pass of Merge: members of `side` join `m`, as core while there is room and as emptied spares after;
      every core one takes in the store of `other`. */
  method MergeSide(reg: ClusterRegistry, m: Cluster, side: map<string, Peer>, other: Peer, count: nat, ghost b: Before)
    returns (i: nat, ghost core: map<string, Peer>, ghost spare: map<string, Peer>)
    requires reg.OwnStores() && other in reg.peers && count <= reg.cfg.smin
    requires forall k :: k in side ==> side[k] in reg.peers && Str(side[k].id) == k && side[k] != other
    requires b == Before(m.vc, m.vs, reg.Keys(), reg.Contents(), reg.Homes(), reg.Types(),
             other.store.data)
    modifies m`vc, m`vs, reg.peers`cluster, reg.peers`peerType, reg.peers`store, reg.Stores()
    ensures Passed(reg, m, b, side, {}, core, spare)
    ensures i == count + |core| && i <= reg.cfg.smin && (spare != map[] ==> i == reg.cfg.smin)
    ensures forall r :: r in reg.peers ==> r.store == old(r.store) || fresh(r.store)
  {
    hide Str, Passed, ClusterRegistry.OwnStores, ClusterRegistry.Contents, ClusterRegistry.Keys, ClusterRegistry.Homes,
         ClusterRegistry.Types;
    i, core, spare := count, map[], map[];
    var todo := side.Keys;
    PassStart(reg, m, b, side);
    while todo != {}
      invariant todo <= side.Keys && Passed(reg, m, b, side, todo, core, spare)
      invariant i == count + |core| && i <= reg.cfg.smin && (spare != map[] ==> i == reg.cfg.smin)
      invariant other.store.data == b.d
      invariant forall r :: r in reg.peers ==> r.store == old(r.store) || fresh(r.store)
    {
      var id :| id in todo;
      if i < reg.cfg.smin {
        MergeCore(reg, m, id, side[id], other, b, side, todo, core, spare);
        i := i + 1;
        SizeOne(core, id, side[id]);
        core := core[id := side[id]];
      } else {
        MergeSpare(reg, m, id, side[id], other, b, side, todo, core, spare);
        SizeOne(spare, id, side[id]);
        spare := spare[id := side[id]];
      }
      todo := todo - {id};
    }
  }

  lemma PassStart(reg: ClusterRegistry, m: Cluster, b: Before, side: map<string, Peer>)
    requires reg.OwnStores() && b.vc == m.vc && b.vs == m.vs && b.keys == reg.Keys() && b.data == reg.Contents()
             && b.homes == reg.Homes() && b.types == reg.Types()
    ensures Passed(reg, m, b, side, side.Keys, map[], map[])
  {
    hide SideData, Gain, Plus, ClusterRegistry.OwnStores;
    GainKeys(b.data, b.d);
    PlusNone(b.vc);
    PlusNone(b.vs);
    SideNone(b.keys, b.data, Gain(b.data, b.d), map[]);
    SideNone(b.keys, b.homes, AllAt(b.homes.Keys, m), m);
    SideNone(b.keys, b.types, CoreAt(b.types.Keys), SPARE);
  }

  lemma GainKeys<P>(data: map<P, Data>, d: Data)
    ensures Gain(data, d).Keys == data.Keys && forall p :: p in data ==> Gain(data, d)[p] == data[p] + d
  {
  }

  lemma SideNone<P, D>(keys: map<P, string>, data: map<P, D>, gained: map<P, D>, empty: D)
    requires gained.Keys == data.Keys
    ensures SideData(keys, data, map[], map[], gained, empty) == data
  {
  }

  lemma PlusNone<P>(one: map<string, P>)
    ensures Plus(map[], one) == one && Plus(one, map[]) == one
  {
  }

  lemma AllCore(side: map<string, Peer>, core: map<string, Peer>, spare: map<string, Peer>, smin: nat)
    requires Handled(side, {}, core, spare) && |side| < smin && (spare != map[] ==> |core| == smin)
    ensures core == side && spare == map[]
  {
    assert core.Keys <= side.Keys;
    Subset(core.Keys, side.Keys);
  }

  lemma OneCore(side: map<string, Peer>, core: map<string, Peer>, spare: map<string, Peer>) returns (kept: string)
    requires Handled(side, {}, core, spare) && side != map[] && |core| <= 1 && (spare != map[] ==> |core| == 1)
    ensures kept in side && core == map[kept := side[kept]] && spare == side - {kept}
  {
    if spare == map[] {
      var k :| k in side;
      assert k in core;
    }
    kept :| kept in core;
    assert |core.Keys - {kept}| == 0;
    assert core.Keys == {kept};
  }

  lemma TwoPasses<P>(keys: map<P, string>, data: map<P, Data>, mid: map<P, Data>, vc: map<string, P>,
                     bvc: map<string, P>, kept: string, da: Data, db: Data)
    requires Known(keys, data, vc) && Known(keys, data, bvc) && (forall k :: k in vc ==> k !in bvc) && kept in bvc
    requires mid == SideData(keys, data, vc, map[], Gain(data, db), map[])
    ensures SideData(keys, mid, map[kept := bvc[kept]], bvc - {kept}, Gain(mid, da + db), map[])
            == Combined(keys, data, vc, bvc, kept, da, db)
  {
    hide Gain, Known;
    GainKeys(data, db);
    GainKeys(mid, da + db);
    KeptApart(keys, data, bvc, kept);
  }

  lemma KeptApart<P>(keys: map<P, string>, data: map<P, Data>, bvc: map<string, P>, kept: string)
    requires Known(keys, data, bvc) && kept in bvc
    ensures forall p :: Holds(keys, map[kept := bvc[kept]], p) <==> p == bvc[kept]
    ensures forall p :: Holds(keys, bvc - {kept}, p) <==> Holds(keys, bvc, p) && p != bvc[kept]
    ensures Holds(keys, bvc, bvc[kept])
  {
  }

  ghost function Rehomed<P, C>(keys: map<P, string>, homes: map<P, C>, vc: map<string, P>, bvc: map<string, P>,
                               m: C): map<P, C> {
    map p | p in homes :: if Holds(keys, vc, p) || Holds(keys, bvc, p) then m else homes[p]
  }

  /** The roles after a merge. */
  ghost function Ranked<P>(keys: map<P, string>, types: map<P, PeerType>, vc: map<string, P>, bvc: map<string, P>,
                           kept: string): map<P, PeerType>
    requires kept in bvc
  {
    map p | p in types ::
      if Holds(keys, vc, p) || p == bvc[kept] then CORE else if Holds(keys, bvc, p) then SPARE else types[p]
  }

  lemma TwoRanks<P>(keys: map<P, string>, data: map<P, Data>, types: map<P, PeerType>, vc: map<string, P>,
                    bvc: map<string, P>, kept: string, all: map<P, PeerType>)
    requires Known(keys, data, bvc) && (forall k :: k in vc ==> k !in bvc) && kept in bvc
    requires all.Keys == types.Keys && forall p :: p in all ==> all[p] == CORE
    ensures var mid := SideData(keys, types, vc, map[], all, SPARE);
            mid.Keys == types.Keys && SideData(keys, mid, map[kept := bvc[kept]], bvc - {kept}, all, SPARE)
              == Ranked(keys, types, vc, bvc, kept)
  {
    hide Known;
    KeptApart(keys, data, bvc, kept);
  }

  lemma TwoMoves<P, C>(keys: map<P, string>, homes: map<P, C>, vc: map<string, P>, bvc: map<string, P>, kept: string,
                       all: map<P, C>, m: C)
    requires all.Keys == homes.Keys && (forall p :: p in all ==> all[p] == m) && kept in bvc
    ensures var mid := SideData(keys, homes, vc, map[], all, m);
            mid.Keys == homes.Keys && SideData(keys, mid, map[kept := bvc[kept]], bvc - {kept}, all, m)
              == Rehomed(keys, homes, vc, bvc, m)
  {
  }

  /** The first pass: every core peer of the leaving side stays core, with what `cb` holds added. */
  method FirstPass(reg: ClusterRegistry, m: Cluster, avc: map<string, Peer>, cb: Peer) returns (i: nat)
    requires reg.OwnStores() && cb in reg.peers && m.vc == map[] && m.vs == map[] && |avc| < reg.cfg.smin
    requires forall k :: k in avc ==> avc[k] in reg.peers && Str(avc[k].id) == k && avc[k] != cb
    modifies m`vc, m`vs, reg.peers`cluster, reg.peers`peerType, reg.peers`store, reg.Stores()
    ensures i == |avc| && m.vc == avc && m.vs == map[] && reg.OwnStores()
    ensures reg.Contents() == SideData(reg.Keys(), old(reg.Contents()), avc, map[],
            Gain(old(reg.Contents()), old(cb.store.data)), map[])
    ensures reg.Homes() == SideData(reg.Keys(), old(reg.Homes()), avc, map[],
            AllAt(old(reg.Homes()).Keys, m), m)
    ensures reg.Types() == SideData(reg.Keys(), old(reg.Types()), avc, map[], CoreAt(old(reg.Types()).Keys), SPARE)
    ensures forall r :: r in reg.peers ==> r.store == old(r.store) || fresh(r.store)
  {
    hide Str, SideData, Combined, ClusterRegistry.OwnStores, ClusterRegistry.Contents, ClusterRegistry.Keys,
         ClusterRegistry.Homes, ClusterRegistry.Types, Known, Handled, Gain, Plus, AllAt, CoreAt, Rehomed, Ranked;
    ghost var b := Before(m.vc, m.vs, reg.Keys(), reg.Contents(), reg.Homes(), reg.Types(), cb.store.data);
    ghost var core, spare;
    i, core, spare := MergeSide(reg, m, avc, cb, 0, b);
    AllCore(avc, core, spare, reg.cfg.smin);
    PlusNone(avc);
    PlusNone<Peer>(map[]);
  }

  /** The second pass: there is room for one core peer; it takes in what `ca` now holds. */
  method SecondPass(reg: ClusterRegistry, m: Cluster, bvc: map<string, Peer>, ca: Peer, count: nat)
    returns (ghost kept: string)
    requires reg.OwnStores() && ca in reg.peers && m.vs == map[] && bvc != map[] && count + 1 == reg.cfg.smin
    requires forall k :: k in bvc ==> bvc[k] in reg.peers && Str(bvc[k].id) == k && bvc[k] != ca
    modifies m`vc, m`vs, reg.peers`cluster, reg.peers`peerType, reg.peers`store, reg.Stores()
    ensures kept in bvc && m.vc == Plus(old(m.vc), map[kept := bvc[kept]]) && m.vs == bvc - {kept} && reg.OwnStores()
    ensures reg.Contents() == SideData(reg.Keys(), old(reg.Contents()), map[kept := bvc[kept]], bvc - {kept},
            Gain(old(reg.Contents()), old(ca.store.data)), map[])
    ensures reg.Homes() == SideData(reg.Keys(), old(reg.Homes()), map[kept := bvc[kept]], bvc - {kept},
            AllAt(old(reg.Homes()).Keys, m), m)
    ensures reg.Types() == SideData(reg.Keys(), old(reg.Types()), map[kept := bvc[kept]], bvc - {kept},
            CoreAt(old(reg.Types()).Keys), SPARE)
    ensures forall r :: r in reg.peers ==> r.store == old(r.store) || fresh(r.store)
  {
    hide Str, SideData, Combined, ClusterRegistry.OwnStores, ClusterRegistry.Contents, ClusterRegistry.Keys,
         ClusterRegistry.Homes, ClusterRegistry.Types, Known, Handled, Gain, Plus, AllAt, CoreAt, Rehomed, Ranked;
    ghost var b := Before(m.vc, m.vs, reg.Keys(), reg.Contents(), reg.Homes(), reg.Types(), ca.store.data);
    ghost var core, spare;
    var i;
    i, core, spare := MergeSide(reg, m, bvc, ca, count, b);
    kept := OneCore(bvc, core, spare);
    PlusNone(bvc - {kept});
  }

  /** Both passes of Merge over the two cores. */
  method MergePasses(reg: ClusterRegistry, m: Cluster, avc: map<string, Peer>, bvc: map<string, Peer>, ka: string,
                     kb: string) returns (ghost kept: string)
    requires reg.cfg.Ok() && reg.OwnStores() && m.vc == map[] && m.vs == map[]
    requires Known(reg.Keys(), reg.Contents(), avc) && Known(reg.Keys(), reg.Contents(), bvc)
    requires (forall k :: k in avc ==> k !in bvc) && |avc| == reg.cfg.smin - 1 && ka in avc && kb in bvc
    modifies m`vc, m`vs, reg.peers`cluster, reg.peers`peerType, reg.peers`store, reg.Stores()
    ensures kept in bvc && m.vc == avc[kept := bvc[kept]] && m.vs == bvc - {kept} && reg.OwnStores()
    ensures reg.Contents() == Combined(reg.Keys(), old(reg.Contents()), avc, bvc, kept, old(reg.Contents())[avc[ka]],
            old(reg.Contents())[bvc[kb]])
    ensures reg.Homes() == Rehomed(reg.Keys(), old(reg.Homes()), avc, bvc, m)
    ensures reg.Types() == Ranked(reg.Keys(), old(reg.Types()), avc, bvc, kept)
    ensures forall r :: r in reg.peers ==> r.store == old(r.store) || fresh(r.store)
  {
    hide Str, SideData, Combined, ClusterRegistry.OwnStores, ClusterRegistry.Contents, ClusterRegistry.Keys,
         ClusterRegistry.Homes, ClusterRegistry.Types, Known, Handled, Gain, Plus, AllAt, CoreAt, Rehomed, Ranked;
    ghost var keys, data, homes, types := reg.Keys(), reg.Contents(), reg.Homes(), reg.Types();
    reg.KnownFiled(avc);
    reg.KnownFiled(bvc);
    var ca, cb := avc[ka], bvc[kb];
    reg.PeerSeen(ca);
    reg.PeerSeen(cb);
    var i := FirstPass(reg, m, avc, cb);
    ghost var mid := reg.Contents();
    GainKeys(data, data[cb]);
    SideAt(keys, data, avc, Gain(data, data[cb]), map[], ka);
    reg.PeerSeen(ca);
    kept := SecondPass(reg, m, bvc, ca, i);
    TwoPasses(keys, data, mid, avc, bvc, kept, data[ca], data[cb]);
    AllAtIs(homes.Keys, m);
    CoreAtIs(types.Keys);
    TwoMoves(keys, homes, avc, bvc, kept, AllAt(homes.Keys, m), m);
    TwoRanks(keys, data, types, avc, bvc, kept, CoreAt(types.Keys));
    MergedMaps(avc, bvc, kept);
  }

  lemma TypesKnown(reg: ClusterRegistry)
    ensures reg.Types().Keys == reg.Contents().Keys
  {
  }

  lemma CoreAtIs(peers: set<Peer>)
    ensures CoreAt(peers).Keys == peers && forall p :: p in peers ==> CoreAt(peers)[p] == CORE
  {
  }

  lemma AllAtIs(peers: set<Peer>, m: Cluster?)
    ensures AllAt(peers, m).Keys == peers && forall p :: p in peers ==> AllAt(peers, m)[p] == m
  {
  }

  /** Merge: `m` takes all of `a`'s core and as many of `b`'s as fit, and the others as emptied spares. `b`'s
      spares are not taken over. */
  method Merge(reg: ClusterRegistry, a: Cluster, b: Cluster)
    returns (m: Cluster, ghost pa: string, ghost pb: string, ghost kept: string)
    requires reg.Thresholds()
    requires reg.cfg.Ok() && 1 < reg.cfg.smin && reg.OwnStores() && a in reg.known && b in reg.known && a != b
    requires Known(reg.Keys(), reg.Contents(), a.vc) && Known(reg.Keys(), reg.Contents(), b.vc)
    requires (forall k :: k in a.vc ==> k !in b.vc) && |a.vc| == reg.cfg.smin - 1 && b.vc != map[]
    requires a.lbl != [] && |a.rt| == |a.lbl| && !b.merge && !b.locked
    modifies b`merge, b`locked, reg`clusters, reg`known, reg.peers`cluster, reg.peers`peerType, reg.peers`store,
             reg.Stores()
    ensures reg.Thresholds()
    ensures m !in old(reg.known)
    ensures reg.clusters == (old(reg.clusters) - {Str(a.lbl), Str(b.lbl)})[Str(Parent(a.lbl)) := m]
    ensures pa in old(a.vc) && pb in old(b.vc) && kept in old(b.vc)
    ensures reg.Nodes() == old(reg.Nodes())[b := old(b.AsNode()).(merging := true, locked := true)]
                           [m := Node(Parent(a.lbl), old(a.rt)[..|a.lbl| - 1], old(a.vc)[kept := old(b.vc)[kept]],
                             old(b.vc) - {kept}, false, false)]
    ensures reg.OwnStores() && reg.Keys() == old(reg.Keys())
    ensures reg.Contents() == Combined(reg.Keys(), old(reg.Contents()), old(a.vc), old(b.vc), kept,
            old(reg.Contents())[old(a.vc)[pa]], old(reg.Contents())[old(b.vc)[pb]])
    ensures reg.Homes() == Rehomed(reg.Keys(), old(reg.Homes()), old(a.vc), old(b.vc), m)
    ensures reg.Types() == Ranked(reg.Keys(), old(reg.Types()), old(a.vc), old(b.vc), kept)
  {
    hide ClusterRegistry.Thresholds, Str, Combined, Rehomed, Ranked, ClusterRegistry.OwnStores,
         ClusterRegistry.Contents, ClusterRegistry.Keys, ClusterRegistry.Nodes, ClusterRegistry.Stores,
         ClusterRegistry.Types, ClusterRegistry.Homes, Known, Cluster.AsNode;
    ghost var keys, data, homes := reg.Keys(), reg.Contents(), reg.Homes();
    m := NewMerged(reg, a, b);
    pa, pb, kept := FillMerged(reg, a, b, m, keys, data, homes);
  }

  /** The new cluster takes its members and replaces the two in the registry. */
  method FillMerged(reg: ClusterRegistry, a: Cluster, b: Cluster, m: Cluster, ghost keys: map<Peer, string>,
                    ghost data: map<Peer, Data>, ghost homes: map<Peer, Cluster?>)
    returns (ghost pa: string, ghost pb: string, ghost kept: string)
    requires reg.Thresholds() && m.addHandler.threshold == Safety(reg.cfg.smin)
    requires reg.cfg.Ok() && 1 < reg.cfg.smin && reg.OwnStores()
    requires m !in reg.known && m != a && m != b && m.vc == map[] && m.vs == map[]
    requires keys == reg.Keys() && data == reg.Contents() && homes == reg.Homes()
    requires Known(keys, data, a.vc) && Known(keys, data, b.vc)
    requires (forall k :: k in a.vc ==> k !in b.vc) && |a.vc| == reg.cfg.smin - 1 && b.vc != map[]
    modifies m`vc, m`vs, reg`clusters, reg`known, reg.peers`cluster, reg.peers`peerType, reg.peers`store, reg.Stores()
    ensures reg.Thresholds()
    ensures reg.clusters == (old(reg.clusters) - {Str(a.lbl), Str(b.lbl)})[Str(m.lbl) := m]
    ensures pa in a.vc && pb in b.vc && kept in b.vc && a.vc[pa] in data && b.vc[pb] in data
    ensures reg.Nodes() == old(reg.Nodes())[m := old(m.AsNode()).(vc := a.vc[kept := b.vc[kept]], vs := b.vc - {kept})]
    ensures reg.OwnStores() && reg.Keys() == keys
    ensures reg.Contents() == Combined(keys, data, a.vc, b.vc, kept, data[a.vc[pa]], data[b.vc[pb]])
    ensures reg.Homes() == Rehomed(keys, homes, a.vc, b.vc, m)
    ensures reg.Types() == Ranked(keys, old(reg.Types()), a.vc, b.vc, kept)
  {
    hide ClusterRegistry.Thresholds, Str, Combined, Rehomed, Ranked, Known, ClusterRegistry.OwnStores,
         ClusterRegistry.Contents, ClusterRegistry.Keys, ClusterRegistry.Nodes, ClusterRegistry.Stores,
         ClusterRegistry.Types, ClusterRegistry.Homes;
    pa, pb, kept := MergeCores(reg, m, a.vc, b.vc);
    KnownAt(keys, data, a.vc, pa);
    KnownAt(keys, data, b.vc, pb);
    RegisterMerged(reg, a, b, m);
  }

  method NewMerged(reg: ClusterRegistry, a: Cluster, b: Cluster) returns (m: Cluster)
    requires reg.cfg.Ok() && a.lbl != [] && |a.rt| == |a.lbl| && b in reg.known
    modifies b`merge, b`locked
    ensures m.addHandler.threshold == Safety(reg.cfg.smin)
    ensures fresh(m) && m !in reg.known
            && m.AsNode() == Node(Parent(a.lbl), a.rt[..|a.lbl| - 1], map[], map[], false, false)
    ensures m.vc == map[] && m.vs == map[] && m.lbl == Parent(a.lbl) && reg.Keys() == old(reg.Keys())
    ensures reg.Nodes() == old(reg.Nodes())[b := old(b.AsNode()).(merging := true, locked := true)]
    ensures reg.Contents() == old(reg.Contents()) && reg.Homes() == old(reg.Homes())
            && reg.OwnStores() == old(reg.OwnStores()) && reg.Types() == old(reg.Types())
    ensures reg.Stores() == old(reg.Stores())
  {
    hide ClusterRegistry.OwnStores, ClusterRegistry.Nodes;
    MarkMerging(reg, b);
    assert reg.Contents() == old(reg.Contents());
    m := new Cluster(a.lbl[..|a.lbl| - 1], map[], map[], a.rt[..|a.lbl| - 1], Safety(reg.cfg.smin));
  }

  method MarkMerging(reg: ClusterRegistry, b: Cluster)
    requires b in reg.known
    modifies b`merge, b`locked
    ensures reg.Nodes() == old(reg.Nodes())[b := old(b.AsNode()).(merging := true, locked := true)]
  {
    b.merge := true;
    b.locked := true;
    assert forall x :: x in reg.known && x != b ==> x.AsNode() == old(x.AsNode());
  }

  method RegisterMerged(reg: ClusterRegistry, a: Cluster, b: Cluster, m: Cluster)
    requires reg.Thresholds() && m.addHandler.threshold == Safety(reg.cfg.smin)
    modifies reg`clusters, reg`known
    ensures reg.Thresholds()
    ensures reg.clusters == (old(reg.clusters) - {Str(a.lbl), Str(b.lbl)})[Str(m.lbl) := m]
    ensures reg.Nodes() == old(reg.Nodes())[m := m.AsNode()]
    ensures reg.Contents() == old(reg.Contents()) && reg.Homes() == old(reg.Homes())
            && reg.OwnStores() == old(reg.OwnStores()) && reg.Types() == old(reg.Types())
  {
    hide Str;
    reg.Merge(a, b, m);
    reg.known := reg.known + {m};
    assert forall x :: x in old(reg.known) ==> x.AsNode() == old(x.AsNode());
  }

  /** Any core peer of each side serves as its copy peer. */
  method MergeCores(reg: ClusterRegistry, m: Cluster, avc: map<string, Peer>, bvc: map<string, Peer>)
    returns (ghost pa: string, ghost pb: string, ghost kept: string)
    requires reg.cfg.Ok() && 1 < reg.cfg.smin && reg.OwnStores() && m.vc == map[] && m.vs == map[]
    requires Known(reg.Keys(), reg.Contents(), avc) && Known(reg.Keys(), reg.Contents(), bvc)
    requires (forall k :: k in avc ==> k !in bvc) && |avc| == reg.cfg.smin - 1 && bvc != map[]
    modifies m`vc, m`vs, reg.peers`cluster, reg.peers`peerType, reg.peers`store, reg.Stores()
    ensures pa in avc && pb in bvc && kept in bvc
    ensures m.vc == avc[kept := bvc[kept]] && m.vs == bvc - {kept} && reg.OwnStores()
    ensures m !in reg.known ==> reg.Nodes() == old(reg.Nodes())
    ensures reg.Contents() == Combined(reg.Keys(), old(reg.Contents()), avc, bvc, kept, old(reg.Contents())[avc[pa]],
            old(reg.Contents())[bvc[pb]])
    ensures reg.Homes() == Rehomed(reg.Keys(), old(reg.Homes()), avc, bvc, m)
    ensures reg.Types() == Ranked(reg.Keys(), old(reg.Types()), avc, bvc, kept)
  {
    hide Str, Combined, Rehomed, Ranked, ClusterRegistry.OwnStores, ClusterRegistry.Contents, ClusterRegistry.Keys,
         ClusterRegistry.Nodes, ClusterRegistry.Stores, ClusterRegistry.Types, ClusterRegistry.Homes, Known;
    NonEmpty(avc);
    var ka :| ka in avc;
    var kb :| kb in bvc;
    pa, pb := ka, kb;
    kept := MergePasses(reg, m, avc, bvc, ka, kb);
  }

  lemma SideAt<P, D>(keys: map<P, string>, data: map<P, D>, core: map<string, P>, gained: map<P, D>, empty: D,
                     k: string)
    requires gained.Keys == data.Keys && k in core && core[k] in data && core[k] in keys && keys[core[k]] == k
    ensures SideData(keys, data, core, map[], gained, empty)[core[k]] == gained[core[k]]
  {
  }

  lemma MergedMaps<P>(avc: map<string, P>, bvc: map<string, P>, kept: string)
    requires kept in bvc
    ensures Plus(avc, map[kept := bvc[kept]]) == avc[kept := bvc[kept]]
  {
  }

  // ---------------------------------------------------------------- seen as values

  /** What a merge of `a` and `b` relies on. */
  ghost predicate Mergeable(v: Net<Cluster, Peer>, a: Cluster, b: Cluster) {
    && v.cfg.Ok() && 1 < v.cfg.smin && a in v.nodes && b in v.nodes && a != b
    && var n, o := v.nodes[a], v.nodes[b];
    && Known(v.keys, v.data, n.vc) && Known(v.keys, v.data, o.vc) && (forall k :: k in n.vc ==> k !in o.vc)
    && |n.vc| == v.cfg.smin - 1 && o.vc != map[] && n.lbl != [] && |n.rt| == |n.lbl| && !o.merging && !o.locked
  }

  ghost function MergedNet(v: Net<Cluster, Peer>, a: Cluster, b: Cluster, m: Cluster, pa: string, pb: string,
                           kept: string): Net<Cluster, Peer>
    requires Mergeable(v, a, b) && pa in v.nodes[a].vc && pb in v.nodes[b].vc && kept in v.nodes[b].vc
  {
    var n, o := v.nodes[a], v.nodes[b];
    v.(reg := (v.reg - {Str(n.lbl), Str(o.lbl)})[Str(Parent(n.lbl)) := m],
    nodes := v.nodes[b := o.(merging := true, locked := true)]
    [m := Node(Parent(n.lbl), n.rt[..|n.lbl| - 1], n.vc[kept := o.vc[kept]], o.vc - {kept}, false, false)],
    data := Combined(v.keys, v.data, n.vc, o.vc, kept, v.data[n.vc[pa]], v.data[o.vc[pb]]))
  }

  method MergeView(reg: ClusterRegistry, a: Cluster, b: Cluster)
    returns (m: Cluster, ghost pa: string, ghost pb: string, ghost kept: string)
    requires reg.Thresholds()
    requires reg.OwnStores() && a in reg.known && b in reg.known && Mergeable(reg.View(), a, b)
    modifies b`merge, b`locked, reg`clusters, reg`known, reg.peers`cluster, reg.peers`peerType, reg.peers`store,
             reg.Stores()
    ensures reg.Thresholds()
    ensures m !in old(reg.View()).nodes
    ensures var v := old(reg.View());
            && pa in v.nodes[a].vc && pb in v.nodes[b].vc && kept in v.nodes[b].vc
            && reg.View() == MergedNet(v, a, b, m, pa, pb, kept)
            && reg.Homes() == Rehomed(v.keys, old(reg.Homes()), v.nodes[a].vc, v.nodes[b].vc, m)
            && reg.Types() == Ranked(v.keys, old(reg.Types()), v.nodes[a].vc, v.nodes[b].vc, kept)
    ensures reg.OwnStores()
  {
    hide Str, Combined, Rehomed, Ranked, ClusterRegistry.OwnStores, ClusterRegistry.Contents, ClusterRegistry.Keys,
         ClusterRegistry.Nodes, ClusterRegistry.Stores, ClusterRegistry.Types, ClusterRegistry.Homes, Known;
    reg.NodeSeen(a);
    reg.NodeSeen(b);
    m, pa, pb, kept := Merge(reg, a, b);
  }
}
