/** getClosestCluster of simulation/cluster.go and the events of simulation/event.go: messages travel from
    cluster to cluster until one owns their key. */
module Forwarding {
  import opened Ids
  import opened PrefixCode
  import opened Network
  import opened Runs
  import opened Routing
  import opened Relaying
  import opened Durability
  import opened Origins
  import opened Objects

  /** The links of a routing table, as labels. */
  ghost function LinkLabels(net: Net<Cluster, Peer>, c: Cluster): seq<Id>
    requires c in net.nodes && NodeLinks(net, c)
  {
    seq(|net.nodes[c].rt|, i requires 0 <= i < |net.nodes[c].rt| => net.nodes[net.nodes[c].rt[i]].lbl)
  }

  /** A link no other link beats is the next hop. */
  lemma UnbeatenIsNext(net: Net<Cluster, Peer>, c: Cluster, t: Id, j: nat)
    requires c in net.nodes && NodeLinks(net, c) && |net.nodes[c].lbl| <= |t| && !(net.nodes[c].lbl <= t)
    requires j < |net.nodes[c].rt| && forall i :: 0 <= i < |net.nodes[c].rt| ==>
             !Closer(t, net.nodes[net.nodes[c].rt[i]].lbl, net.nodes[net.nodes[c].rt[j]].lbl)
    ensures net.nodes[c].rt[j] == NextHop(net, c, t)
  {
    hide LinkAt, Closer;
    var links := LinkLabels(net, c);
    StrictlyClosest(net.nodes[c].lbl, links, t);
    var k := Common(net.nodes[c].lbl, t);
    assert links[k] == net.nodes[net.nodes[c].rt[k]].lbl && links[j] == net.nodes[net.nodes[c].rt[j]].lbl;
  }

  /** The clusters are as `v` has them. */
  ghost predicate Mirrors(v: Net<Cluster, Peer>)
    reads v.nodes.Keys
  {
    forall c :: c in v.nodes ==> c.AsNode() == v.nodes[c]
  }

  /** The scan over the routing table settles on the link at the first bit to correct. */
  method ClosestCluster(ghost v: Net<Cluster, Peer>, c: Cluster, target: Id) returns (r: Cluster)
    requires Mirrors(v) && c in v.nodes && NodeLinks(v, c) && |c.lbl| <= |target|
    ensures r == NextHop(v, c, target)
  {
    hide LinkAt, Closer, Common;
    var own := Prefix(c.lbl, target);
    if |c.lbl| == 0 || own {
      return c;
    }
    assert forall i :: 0 <= i < |c.rt| ==> c.rt[i].lbl == v.nodes[c.rt[i]].lbl;
    r := c.rt[0];
    ghost var at := 0;
    LessIrreflexive(Xor(target, r.lbl));
    for i := 0 to |c.lbl|
      invariant 0 <= at < |c.rt| && r == c.rt[at]
      invariant forall j :: 0 <= j < i ==> !Closer(target, c.rt[j].lbl, r.lbl)
    {
      var d := Distance(target, c.rt[i].lbl);
      var best := Distance(target, r.lbl);
      var nearer := Lt(d, best);
      CloserIs(target, c.rt[i].lbl, r.lbl);
      if nearer {
        KeepsBeating(target, c.rt, i, r);
        r, at := c.rt[i], i;
      }
    }
    UnbeatenIsNext(v, c, target, at);
  }

  lemma CloserIs(t: Id, a: Id, b: Id)
    ensures Closer(t, a, b) <==> Less(Xor(t, a), Xor(t, b))
  {
  }

  lemma KeepsBeating(t: Id, rt: seq<Cluster>, i: nat, r: Cluster)
    requires i < |rt| && Closer(t, rt[i].lbl, r.lbl) && forall j :: 0 <= j < i ==> !Closer(t, rt[j].lbl, r.lbl)
    ensures forall j :: 0 <= j <= i ==> !Closer(t, rt[j].lbl, rt[i].lbl)
  {
    LessIrreflexive(Xor(t, rt[i].lbl));
    CloserIs(t, rt[i].lbl, rt[i].lbl);
    hide Closer;
    forall j | 0 <= j < i
      ensures !Closer(t, rt[j].lbl, rt[i].lbl)
    {
      if Closer(t, rt[j].lbl, rt[i].lbl) {
        CloserTransitive(t, rt[j].lbl, rt[i].lbl, r.lbl);
      }
    }
  }

  // ---------------------------------------------------------------- forwarding

  lemma CanForward(v: Net<Cluster, Peer>, c: Cluster, t: Id)
    requires Routable(v) && c in v.nodes && Live(v, c) && |t| == v.cfg.m
    ensures NodeLinks(v, c) && |v.nodes[c].lbl| <= |t|
    ensures var d := NextHop(v, c, t);
            && d in v.nodes && Live(v, d)
            && Route(v, c, t) == (if v.nodes[c].lbl <= t then [c] else [c] + Route(v, d, t))
            && Route(v, d, t) != []
            && (v.nodes[c].lbl <= t ==> d == c)
            && (!(v.nodes[c].lbl <= t) ==>
                 v.nodes[c].lbl != v.nodes[d].lbl && Common(v.nodes[c].lbl, t) < Common(v.nodes[d].lbl, t) <= v.cfg.m)
  {
    HopLive(v, c, t);
    HopProgress(v, c, t);
    HopLive(v, NextHop(v, c, t), t);
  }

  /** JoinEvent.fire, at any member of `c`. */
  method FireJoin(ghost v: Net<Cluster, Peer>, c: Cluster, id: Id) returns (reply: Reply<Cluster>)
    requires Mirrors(v) && c in v.nodes && NodeLinks(v, c) && |c.lbl| <= |id|
    ensures reply == JoinFire(v, c, id)
  {
    hide NextHop, NodeLinks;
    HopProgress(v, c, id);
    var d := ClosestCluster(v, c, id);
    var same := Eq(c.lbl, d.lbl);
    if same {
      var mine := Prefix(d.lbl, id);
      if mine {
        return JoinSpare(d);
      }
      return JoinTemp(d);
    }
    return Forward(d);
  }

  /** The hops of a lookup, put or delete: the message goes on to the nearest cluster until that is the
      cluster it is at. It ends at the owner of the key, by the route of the value model. */
  method Travel(ghost v: Net<Cluster, Peer>, c: Cluster, key: Id) returns (owner: Cluster, ghost path: seq<Cluster>)
    requires Mirrors(v) && Routable(v) && c in v.nodes && Live(v, c) && |key| == v.cfg.m
    ensures path == Route(v, c, key) && path != [] && owner == path[|path| - 1]
    ensures owner in v.nodes && Live(v, owner) && v.nodes[owner].lbl <= key
    decreases v.cfg.m - Common(v.nodes[c].lbl, key)
  {
    hide Routable, NextHop, NodeLinks, Common, Live;
    CanForward(v, c, key);
    var d := ClosestCluster(v, c, key);
    var same := Eq(d.lbl, c.lbl);
    if same {
      return c, [c];
    }
    owner, path := Travel(v, d, key);
    path := [c] + path;
  }

  // ---------------------------------------------------------------- at the owner

  lemma RewriteStep<P>(keys: map<P, string>, data: map<P, Data>, done: map<string, P>, k: string, p: P, x: string,
                       val: string)
    requires p in data && p in keys && keys[p] == k && k !in done
    ensures Rewrite(keys, data, done, x, val)[p] == data[p]
    ensures Rewrite(keys, data, done[k := p], x, val) == Rewrite(keys, data, done, x, val)[p := data[p][x := val]]
  {
  }

  lemma RewriteNone<P>(keys: map<P, string>, data: map<P, Data>, x: string, val: string)
    ensures Rewrite(keys, data, map[], x, val) == data
  {
  }

  lemma EraseStep<P>(keys: map<P, string>, data: map<P, Data>, done: map<string, P>, k: string, p: P, x: string)
    requires p in data && p in keys && keys[p] == k && k !in done
    ensures Erase(keys, data, done, x)[p] == data[p]
    ensures Erase(keys, data, done[k := p], x) == Erase(keys, data, done, x)[p := data[p] - {x}]
  {
  }

  lemma EraseNone<P>(keys: map<P, string>, data: map<P, Data>, x: string)
    ensures Erase(keys, data, map[], x) == data
  {
  }

  /** The peers that answer the requests waiting for a put: those that did not count the value as there. */
  ghost function Noticing<P>(data: map<P, Data>, vc: map<string, P>, x: string, val: string): set<string> {
    set k | k in vc && vc[k] in data && !Unchanged(data[vc[k]], x, val)
  }

  /** The peers that answer the requests waiting for a delete: those that had the key. */
  ghost function Having<P>(data: map<P, Data>, vc: map<string, P>, x: string): set<string> {
    set k | k in vc && vc[k] in data && x in data[vc[k]]
  }

  lemma NoticingStep<P>(data: map<P, Data>, done: map<string, P>, k: string, p: P, x: string, val: string)
    requires p in data && k !in done
    ensures Noticing(data, done[k := p], x, val)
            == if Unchanged(data[p], x, val) then Noticing(data, done, x, val) else Noticing(data, done, x, val) + {k}
    ensures Having(data, done[k := p], x) == if x in data[p] then Having(data, done, x) + {k} else Having(data, done, x)
  {
  }

  lemma NoticingNone<P>(data: map<P, Data>, x: string, val: string)
    ensures Noticing(data, map[], x, val) == {} && Having(data, map[], x) == {}
  {
  }

  lemma AllAnswer<P>(data: map<P, Data>, vc: map<string, P>, x: string, val: string)
    requires (forall k :: k in vc ==> vc[k] in data) && forall k, j :: k in vc && j in vc ==> data[vc[k]] == data[vc[j]]
    ensures Noticing(data, vc, x, val) ==
              if AllHave(data, vc, x, val) || (val == "" && forall w :: !AllHave(data, vc, x, w)) then {} else vc.Keys
    ensures Having(data, vc, x) == if exists w :: AllHave(data, vc, x, w) then vc.Keys else {}
  {
    if k :| k in vc {
      var d := data[vc[k]];
      assert forall w :: AllHave(data, vc, x, w) <==> x in d && d[x] == w;
      hide AllHave;
      assert x in d ==> AllHave(data, vc, x, d[x]);
    }
  }

  /** Who answers, by what is stored under the key: replicas answer alike. */
  lemma WhoAnswers(v: Net<Cluster, Peer>, c: Cluster, key: Id, val: string)
    requires Inv(v) && c in v.nodes && Live(v, c) && v.nodes[c].lbl <= key
    ensures Noticing(v.data, v.nodes[c].vc, Str(key), val) ==
              if Stored(v, Str(key), val) || (val == "" && forall w :: !Stored(v, Str(key), w)) then {}
              else v.nodes[c].vc.Keys
    ensures Having(v.data, v.nodes[c].vc, Str(key)) ==
              if exists w :: Stored(v, Str(key), w) then v.nodes[c].vc.Keys else {}
  {
    hide RegInv, LinkInv, FlagInv, CompleteCode, Str, Live, Keyed, AllHold, Sizes, AllHave, Noticing, Having, Stored;
    assert NodeInv(v, v.nodes[c]);
    StrRoundTrip(key);
    forall w
      ensures Stored(v, Str(key), w) <==> AllHave(v.data, v.nodes[c].vc, Str(key), w)
    {
      StoredIsAt(v, c, Str(key), w);
    }
    AllAnswer(v.data, v.nodes[c].vc, Str(key), val);
  }

  method PutOne(reg: ClusterRegistry, p: Peer, key: Id, val: string) returns (same: bool)
    requires reg.OwnStores() && p in reg.peers
    modifies p.store
    ensures reg.Contents() == old(reg.Contents())[p := old(p.store.data)[Str(key) := val]]
    ensures same <==> Unchanged(old(p.store.data), Str(key), val)
  {
    hide Str;
    same := p.Put(key, val);
  }

  method DeleteOne(reg: ClusterRegistry, p: Peer, key: Id) returns (found: bool)
    requires reg.OwnStores() && p in reg.peers
    modifies p.store
    ensures reg.Contents() == old(reg.Contents())[p := old(p.store.data) - {Str(key)}]
    ensures found <==> Str(key) in old(p.store.data)
  {
    hide Str;
    var val;
    val, found := p.Delete(key);
  }

  /** A put reaches every core peer of a cluster, in any order. */
  method PutAll(reg: ClusterRegistry, vc: map<string, Peer>, key: Id, val: string) returns (answering: set<string>)
    requires reg.OwnStores() && forall k :: k in vc ==> vc[k] in reg.peers && Str(vc[k].id) == k
    modifies reg.Stores()
    ensures reg.Contents() == Rewrite(reg.Keys(), old(reg.Contents()), vc, Str(key), val)
    ensures answering == Noticing(old(reg.Contents()), vc, Str(key), val)
  {
    hide Str, Rewrite, Noticing, Unchanged, ClusterRegistry.OwnStores, ClusterRegistry.Contents, ClusterRegistry.Keys;
    ghost var keys, data, x := reg.Keys(), reg.Contents(), Str(key);
    ghost var done: map<string, Peer> := map[];
    RewriteNone(keys, data, x, val);
    NoticingNone(data, x, val);
    answering := {};
    var todo := vc.Keys;
    while todo != {}
      invariant todo <= vc.Keys
      invariant forall k :: k in done ==> k in vc && k !in todo && done[k] == vc[k]
      invariant forall k :: k in vc && k !in todo ==> k in done
      invariant reg.OwnStores() && reg.Contents() == Rewrite(keys, data, done, x, val)
      invariant answering == Noticing(data, done, x, val)
    {
      var k :| k in todo;
      var p := vc[k];
      reg.PeerSeen(p);
      RewriteKeys(keys, data, done, x, val, p);
      RewriteStep(keys, data, done, k, p, x, val);
      NoticingStep(data, done, k, p, x, val);
      var same := PutOne(reg, p, key, val);
      if !same {
        answering := answering + {k};
      }
      done := done[k := p];
      todo := todo - {k};
    }
    assert done == vc;
  }

  lemma RewriteKeys<P>(keys: map<P, string>, data: map<P, Data>, done: map<string, P>, x: string, val: string, p: P)
    ensures (p in Rewrite(keys, data, done, x, val) <==> p in data) && (p in Erase(keys, data, done, x) <==> p in data)
  {
  }

  method DeleteAll(reg: ClusterRegistry, vc: map<string, Peer>, key: Id) returns (answering: set<string>)
    requires reg.OwnStores() && forall k :: k in vc ==> vc[k] in reg.peers && Str(vc[k].id) == k
    modifies reg.Stores()
    ensures reg.Contents() == Erase(reg.Keys(), old(reg.Contents()), vc, Str(key))
    ensures answering == Having(old(reg.Contents()), vc, Str(key))
  {
    hide Str, Erase, Having, ClusterRegistry.OwnStores, ClusterRegistry.Contents, ClusterRegistry.Keys;
    ghost var keys, data, x := reg.Keys(), reg.Contents(), Str(key);
    ghost var done: map<string, Peer> := map[];
    EraseNone(keys, data, x);
    NoticingNone(data, x, "");
    answering := {};
    var todo := vc.Keys;
    while todo != {}
      invariant todo <= vc.Keys
      invariant forall k :: k in done ==> k in vc && k !in todo && done[k] == vc[k]
      invariant forall k :: k in vc && k !in todo ==> k in done
      invariant reg.OwnStores() && reg.Contents() == Erase(keys, data, done, x)
      invariant answering == Having(data, done, x)
    {
      var k :| k in todo;
      var p := vc[k];
      reg.PeerSeen(p);
      RewriteKeys(keys, data, done, x, "", p);
      EraseStep(keys, data, done, k, p, x);
      NoticingStep(data, done, k, p, x, "");
      var found := DeleteOne(reg, p, key);
      if found {
        answering := answering + {k};
      }
      done := done[k := p];
      todo := todo - {k};
    }
    assert done == vc;
  }

  lemma WriteIsStep(v: Net<Cluster, Peer>, c: Cluster, key: Id, val: string)
    requires c in v.nodes && Live(v, c) && v.nodes[c].lbl <= key
    ensures var put := Action.Put(c, Str(key), val);
            && Enabled(v, put)
            && Apply(v, put) == v.(data := Rewrite(v.keys, v.data, v.nodes[c].vc, Str(key), val))
    ensures var del := Action.Delete(c, Str(key));
            && Enabled(v, del)
            && Apply(v, del) == v.(data := Erase(v.keys, v.data, v.nodes[c].vc, Str(key)))
  {
    hide Live;
    StrRoundTrip(key);
    hide Str, Parse;
  }

  lemma HousedWrite(v: Net<Cluster, Peer>, homes: map<Peer, Cluster?>, act: Action<Cluster, Peer>)
    requires Housed(v, homes) && (act.Put? || act.Delete?) && Enabled(v, act)
    ensures Housed(Apply(v, act), homes)
  {
    hide Str, Parse;
  }

  lemma ReadyToTravel(reg: ClusterRegistry, c: Cluster)
    requires Inv(reg.View()) && LinksLive(reg.View()) && c in reg.known && reg.InService(c)
    ensures Routable(reg.View()) && Mirrors(reg.View()) && Live(reg.View(), c)
  {
    hide Inv, LinksLive, Routable, Str;
    reg.NodeSeen(c);
    InvRoutable(reg.View());
  }

  /** A put at the owner of its key, as a step that keeps the overlay valid. All core peers answer the waiting
      requests, or none does, by whether the value counts as there. */
  method PutHere(reg: ClusterRegistry, c: Cluster, key: Id, val: string) returns (answering: set<string>)
    requires reg.Valid() && LinksLive(reg.View()) && c in reg.known && reg.InService(c) && c.lbl <= key
    modifies reg.Stores()
    ensures var v, act := old(reg.View()), Action.Put(c, Str(key), val);
            && Enabled(v, act) && reg.View() == Apply(v, act)
            && answering == if Stored(v, Str(key), val) || (val == "" && forall w :: !Stored(v, Str(key), w)) then {}
                            else c.vc.Keys
    ensures reg.Valid() && LinksLive(reg.View())
  {
    hide Inv, LinksLive, Enabled, Apply, Str, Housed, Rewrite, Live, Noticing, Having, Stored,
         ClusterRegistry.OwnStores, ClusterRegistry.Homes, ClusterRegistry.Thresholds;
    ghost var v, homes, act := reg.View(), reg.Homes(), Action.Put(c, Str(key), val);
    reg.NodeSeen(c);
    WriteIsStep(v, c, key, val);
    OwnerFiled(reg, v, c);
    WhoAnswers(v, c, key, val);
    answering := PutAll(reg, c.vc, key, val);
    StepKeeps(v, act);
    HousedWrite(v, homes, act);
  }

  /** A put sent from any cluster in service: it travels to the owner of the key and is stored by its core. */
  method Put(reg: ClusterRegistry, c: Cluster, key: Id, val: string)
    returns (answering: set<string>, ghost act: Action<Cluster, Peer>, ghost path: seq<Cluster>)
    requires reg.Valid() && LinksLive(reg.View()) && c in reg.known && reg.InService(c) && |key| == reg.cfg.m
    modifies reg.Stores()
    ensures Routable(old(reg.View())) && path == Route(old(reg.View()), c, key) && path != []
    ensures act == Action.Put(path[|path| - 1], Str(key), val)
    ensures Enabled(old(reg.View()), act) && reg.View() == Apply(old(reg.View()), act)
    ensures reg.Valid() && LinksLive(reg.View())
    ensures var v := old(reg.View());
            answering == if Stored(v, Str(key), val) || (val == "" && forall w :: !Stored(v, Str(key), w)) then {}
                         else act.c.vc.Keys
  {
    hide Inv, LinksLive, Routable, Enabled, Apply, Str, Housed, Live, Route, Stored, ClusterRegistry.OwnStores,
         ClusterRegistry.Homes, ClusterRegistry.Thresholds;
    ghost var v := reg.View();
    ReadyToTravel(reg, c);
    var owner;
    owner, path := Travel(v, c, key);
    act := Action.Put(owner, Str(key), val);
    OwnerHere(reg, owner);
    answering := PutHere(reg, owner, key, val);
  }

  lemma OwnerHere(reg: ClusterRegistry, c: Cluster)
    requires c in reg.View().nodes && Live(reg.View(), c)
    ensures c in reg.known && reg.InService(c) && reg.View().nodes[c].lbl == c.lbl
  {
    hide Str;
    reg.NodeSeen(c);
  }

  lemma OwnerFiled(reg: ClusterRegistry, v: Net<Cluster, Peer>, c: Cluster)
    requires Inv(v) && v == reg.View() && c in v.nodes && Live(v, c)
    ensures reg.Filed(c) && c.vc == v.nodes[c].vc
  {
    hide Inv, Str;
    reg.NodeSeen(c);
    reg.MembersFiled(c);
  }

  method DeleteHere(reg: ClusterRegistry, c: Cluster, key: Id) returns (answering: set<string>)
    requires reg.Valid() && LinksLive(reg.View()) && c in reg.known && reg.InService(c) && c.lbl <= key
    modifies reg.Stores()
    ensures var v, act := old(reg.View()), Action.Delete(c, Str(key));
            && Enabled(v, act) && reg.View() == Apply(v, act)
            && answering == if exists w :: Stored(v, Str(key), w) then c.vc.Keys else {}
    ensures reg.Valid() && LinksLive(reg.View())
  {
    hide Inv, LinksLive, Enabled, Apply, Str, Housed, Erase, Live, Noticing, Having, Stored,
         ClusterRegistry.OwnStores, ClusterRegistry.Homes, ClusterRegistry.Thresholds;
    ghost var v, homes, act := reg.View(), reg.Homes(), Action.Delete(c, Str(key));
    reg.NodeSeen(c);
    WriteIsStep(v, c, key, "");
    OwnerFiled(reg, v, c);
    WhoAnswers(v, c, key, "");
    answering := DeleteAll(reg, c.vc, key);
    StepKeeps(v, act);
    HousedWrite(v, homes, act);
  }

  /** A delete likewise; core peers answer by whether the key was there. */
  method Delete(reg: ClusterRegistry, c: Cluster, key: Id)
    returns (answering: set<string>, ghost act: Action<Cluster, Peer>, ghost path: seq<Cluster>)
    requires reg.Valid() && LinksLive(reg.View()) && c in reg.known && reg.InService(c) && |key| == reg.cfg.m
    modifies reg.Stores()
    ensures Routable(old(reg.View())) && path == Route(old(reg.View()), c, key) && path != []
    ensures act == Action.Delete(path[|path| - 1], Str(key))
    ensures Enabled(old(reg.View()), act) && reg.View() == Apply(old(reg.View()), act)
    ensures reg.Valid() && LinksLive(reg.View())
    ensures answering == if exists w :: Stored(old(reg.View()), Str(key), w) then act.c.vc.Keys else {}
  {
    hide Inv, LinksLive, Routable, Enabled, Apply, Str, Housed, Live, Route, Stored, ClusterRegistry.OwnStores,
         ClusterRegistry.Homes, ClusterRegistry.Thresholds;
    ghost var v := reg.View();
    ReadyToTravel(reg, c);
    var owner;
    owner, path := Travel(v, c, key);
    act := Action.Delete(owner, Str(key));
    OwnerHere(reg, owner);
    answering := DeleteHere(reg, owner, key);
  }

  datatype Answer = NoAnswer | Missing | Found(val: string)

  /** A lookup sent from any cluster in service is answered at the owner of the key: with the value stored there,
      as missing if none is, and by nobody if the owner has no core peer left. */
  method Lookup(reg: ClusterRegistry, c: Cluster, key: Id) returns (answer: Answer, ghost path: seq<Cluster>)
    requires reg.Valid() && LinksLive(reg.View()) && c in reg.known && reg.InService(c) && |key| == reg.cfg.m
    ensures Routable(old(reg.View())) && path == Route(old(reg.View()), c, key) && path != []
    ensures var owner := path[|path| - 1];
            && owner in reg.known && reg.InService(owner) && owner.lbl <= key
            && (answer == NoAnswer <==> owner.vc == map[])
    ensures forall v :: answer == Found(v) <==> Stored(old(reg.View()), Str(key), v)
    ensures answer == Missing <==>
            path[|path| - 1].vc != map[] && forall v :: !Stored(old(reg.View()), Str(key), v)
  {
    hide Inv, LinksLive, Routable, Str, Housed, Live, Route, Stored, ClusterRegistry.OwnStores, ClusterRegistry.Homes;
    ghost var v := reg.View();
    ReadyToTravel(reg, c);
    var owner;
    owner, path := Travel(v, c, key);
    StoredHere(reg, v, owner, key);
    if owner.vc == map[] {
      return NoAnswer, path;
    }
    var k :| k in owner.vc;
    var val, found := owner.vc[k].Get(key);
    answer := if found then Found(val) else Missing;
  }

  /** Reading one's writes, at the lookup: after a put that reached the owner's core and any run that keeps the
      entry, a lookup from any cluster is answered with the value put. */
  lemma LookupFindsPut(net: Net<Cluster, Peer>, act: Action<Cluster, Peer>, acts: seq<Action<Cluster, Peer>>,
                       answer: Answer)
    requires Inv(net) && act.Put? && Enabled(net, act) && net.nodes[act.c].vc != map[] && |act.x| == net.cfg.m
    requires Legal(Apply(net, act), acts) && KeepsAll(Apply(net, act), acts, act.x, act.v)
    requires forall w :: answer == Found(w) <==> Stored(Exec(Apply(net, act), acts), act.x, w)
    ensures answer == Found(act.v)
  {
    hide Enabled, Inv, Apply, Stored, Exec, Legal, KeepsAll;
    StepKeeps(net, act);
    ApplyKeepsConfig(net, act);
    PutStores(net, act);
    RunsStoreIff(Apply(net, act), acts, act.x, act.v);
  }

  /** After any run from a first overlay, a lookup finds exactly a value that some step of the run put at a core
      and every later step kept: never another, and never one that was not put. */
  lemma LookupFindsWritten(net: Net<Cluster, Peer>, acts: seq<Action<Cluster, Peer>>, x: string, answer: Answer)
    requires Boot(net) && Legal(net, acts) && |x| == net.cfg.m
    requires forall w :: answer == Found(w) <==> Stored(Exec(net, acts), x, w)
    ensures forall w :: answer == Found(w) <==> Written(net, acts, x, w)
  {
    hide Boot, Inv, Legal, Exec, Stored, Written, KeepsAll;
    BootInv(net);
    forall w
      ensures answer == Found(w) <==> Written(net, acts, x, w)
    {
      RunsStoreIff(net, acts, x, w);
      NothingStored(net, x, w);
    }
  }

  lemma NothingStored(net: Net<Cluster, Peer>, x: string, v: string)
    requires Boot(net)
    ensures !Stored(net, x, v)
  {
    hide Parse, Live, First;
    if c :| c in net.nodes && StoredAt(net, c, x, v) {
      var k :| k in net.nodes[c].vc;
    }
  }

  /** What is stored under a key is what each core peer of its owner holds. */
  lemma StoredHere(reg: ClusterRegistry, v: Net<Cluster, Peer>, c: Cluster, key: Id)
    requires Inv(v) && v == reg.View() && c in v.nodes && Live(v, c) && v.nodes[c].lbl <= key
    ensures c in reg.known && reg.InService(c) && c.lbl == v.nodes[c].lbl
    ensures forall k, x :: k in c.vc ==>
              (Stored(v, Str(key), x) <==>
               Str(key) in c.vc[k].store.data && c.vc[k].store.data[Str(key)] == x)
    ensures c.vc == map[] ==> forall x :: !Stored(v, Str(key), x)
  {
    hide Inv, Str, Live, Stored, AllHave;
    SameAnswers(reg, v, c);
    OwnerFiled(reg, v, c);
    StrRoundTrip(key);
    forall x
      ensures Stored(v, Str(key), x) <==> AllHave(v.data, c.vc, Str(key), x)
    {
      StoredIsAt(v, c, Str(key), x);
    }
    HaveEach(reg, v.data, c, Str(key));
  }

  lemma HaveEach(reg: ClusterRegistry, data: map<Peer, Data>, c: Cluster, key: string)
    requires data == reg.Contents() && reg.Filed(c)
    requires forall k, j :: k in c.vc && j in c.vc ==> c.vc[k].store.data == c.vc[j].store.data
    ensures forall k, x :: k in c.vc ==>
              (AllHave(data, c.vc, key, x) <==> key in c.vc[k].store.data && c.vc[k].store.data[key] == x)
    ensures c.vc == map[] ==> forall x :: !AllHave(data, c.vc, key, x)
  {
    hide Str;
  }

  lemma SameAnswers(reg: ClusterRegistry, v: Net<Cluster, Peer>, c: Cluster)
    requires Inv(v) && v == reg.View() && c in v.nodes && Live(v, c)
    ensures c in reg.known && reg.InService(c) && c.lbl == v.nodes[c].lbl
    ensures forall k, j :: k in c.vc && j in c.vc ==> c.vc[k].store.data == c.vc[j].store.data
  {
    hide RegInv, LinkInv, FlagInv, CompleteCode, Str, Live;
    reg.NodeSeen(c);
    OwnerFiled(reg, v, c);
    assert NodeInv(v, v.nodes[c]);
    forall k, j | k in c.vc && j in c.vc
      ensures c.vc[k].store.data == c.vc[j].store.data
    {
      reg.PeerSeen(c.vc[k]);
      reg.PeerSeen(c.vc[j]);
    }
  }

  /** The cluster a relayed message goes on from is the one its receiver points at. */
  lemma BelongsIsHome(v: Net<Cluster, Peer>, homes: map<Peer, Cluster?>, k: string, p: Peer, e: Cluster)
    requires Housed(v, homes) && Belongs(v, k, p, e)
    ensures p in homes && homes[p] == e
  {
    hide Str;
  }
}
