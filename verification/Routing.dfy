/** Greedy forwarding: getClosestCluster's choice, iterated from any cluster to any target. */
module Routing {
  import opened Ids
  import opened PrefixCode
  import opened Network
  import opened Invariant

  /** Among the links of a label, the one at the first bit where the label leaves the target is strictly
      closer to the target than every other, so any scan for a nearest link settles on it. */
  lemma StrictlyClosest(own: Id, links: seq<Id>, t: Id)
    requires |links| == |own| && forall i :: 0 <= i < |own| ==> LinkAt(own, links[i], i)
    requires |own| <= |t| && !(own <= t)
    ensures var k := Common(own, t);
            k < |own| && forall i :: 0 <= i < |own| && i != k ==>
                Closer(t, links[k], links[i]) && !Closer(t, links[i], links[k])
  {
    FirstDifference(own, t);
    var k := Common(own, t);
    forall i | 0 <= i < |own| && i != k
      ensures Closer(t, links[k], links[i]) && !Closer(t, links[i], links[k])
    {
      var j := Min(i, k);
      assert links[k][..j] == own[..k][..j] && links[i][..j] == own[..i][..j];
      AgreeBelow(own, t, k);
      AgreeBelow(own, links[k], k);
      AgreeBelow(own, links[i], i);
      CloserAt(t, links[k], links[i], j);
    }
  }

  /** The cluster getClosestCluster answers: itself when its label prefixes the target, otherwise the link at
      the first differing bit. */
  ghost function NextHop<C, P>(net: Net<C, P>, c: C, t: Id): C
    requires c in net.nodes && NodeLinks(net, c) && |net.nodes[c].lbl| <= |t|
  {
    var n := net.nodes[c];
    if n.lbl <= t then c else FirstDifference(n.lbl, t); n.rt[Common(n.lbl, t)]
  }

  lemma FirstDifference(own: Id, t: Id)
    requires |own| <= |t| && !(own <= t)
    ensures Common(own, t) < |own|
  {
    assert own[..|own|] == own;
  }

  /** Following the link at the first differing bit sets that bit right and keeps the ones before it. */
  lemma LinkProgress(own: Id, other: Id, t: Id)
    requires |own| <= |t| && !(own <= t) && LinkAt(own, other, Common(own, t))
    ensures Common(own, t) < Common(other, t) && other != own
  {
    hide Common;
    var k := Common(own, t);
    FirstDifference(own, t);
    OneBitFurther(other, t, k);
    CommonAtLeast(other, t, k + 1);
  }

  lemma OneBitFurther(a: Id, b: Id, k: nat)
    requires k < |a| && k < |b| && a[..k] == b[..k] && a[k] == b[k]
    ensures a[..k + 1] == b[..k + 1]
  {
    assert a[..k + 1] == a[..k] + [a[k]] && b[..k + 1] == b[..k] + [b[k]];
  }

  lemma HopProgress<C, P>(net: Net<C, P>, c: C, t: Id)
    requires c in net.nodes && NodeLinks(net, c) && |net.nodes[c].lbl| <= |t|
    ensures var d := NextHop(net, c, t);
            && d in net.nodes
            && (!(net.nodes[c].lbl <= t) ==>
                  Common(net.nodes[c].lbl, t) < Common(net.nodes[d].lbl, t) && net.nodes[d].lbl != net.nodes[c].lbl)
  {
    var own := net.nodes[c].lbl;
    hide LinkAt, Common;
    if !(own <= t) {
      FirstDifference(own, t);
      LinkProgress(own, net.nodes[net.nodes[c].rt[Common(own, t)]].lbl, t);
    }
  }

  lemma CommonAtLeast(a: Id, b: Id, n: nat)
    requires n <= |a| && n <= |b| && a[..n] == b[..n]
    ensures n <= Common(a, b)
  {
    AgreeBelow(a, b, n);
  }

  /** In service, linked to clusters in service, labels short enough to be compared with any target. */
  ghost predicate Routable<C, P>(net: Net<C, P>) {
    && LinkInv(net) && LinksLive(net)
    && forall c :: c in net.nodes && Live(net, c) ==> |net.nodes[c].lbl| < net.cfg.m
  }

  lemma InvRoutable<C, P>(net: Net<C, P>)
    requires Inv(net) && LinksLive(net)
    ensures Routable(net)
  {
    hide LinkInv, LinksLive, RegInv, MemberInv, FlagInv;
    forall c | c in net.nodes && Live(net, c)
      ensures |net.nodes[c].lbl| < net.cfg.m
    {
      assert net.nodes[c].lbl in Labels(net);
    }
  }

  lemma HopLive<C, P>(net: Net<C, P>, c: C, t: Id)
    requires Routable(net) && c in net.nodes && Live(net, c) && |t| == net.cfg.m
    ensures NodeLinks(net, c) && |net.nodes[c].lbl| <= |t| && NextHop(net, c, t) in net.nodes
            && Live(net, NextHop(net, c, t))
  {
    assert NodeLinks(net, c);
    var own := net.nodes[c].lbl;
    if !(own <= t) {
      FirstDifference(own, t);
    }
  }

  /** The clusters a message for `t` visits when every cluster forwards to its next hop. */
  ghost function Route<C, P>(net: Net<C, P>, c: C, t: Id): (path: seq<C>)
    requires Routable(net) && c in net.nodes && Live(net, c) && |t| == net.cfg.m
    decreases net.cfg.m - Common(net.nodes[c].lbl, t)
  {
    if net.nodes[c].lbl <= t then [c]
    else
      HopLive(net, c, t);
      HopProgress(net, c, t);
      [c] + Route(net, NextHop(net, c, t), t)
  }

  ghost predicate Owner<C, P>(net: Net<C, P>, c: C, t: Id) {
    && c in net.nodes && Live(net, c) && net.nodes[c].lbl <= t
    && forall d :: d in net.nodes && Live(net, d) && net.nodes[d].lbl <= t ==> d == c
  }

  /** Along a route every cluster is in service and forwards to the next, each shares strictly more leading
      bits with the target than the one before, and the last one's label is a prefix of the target. */
  ghost predicate Progressing<C, P>(net: Net<C, P>, path: seq<C>, t: Id) {
    && path != []
    && (forall i :: 0 <= i < |path| ==> Visitable(net, path[i], t))
    && (forall i, j :: 0 <= i < j < |path| && j == i + 1 ==> GoodHop(net, path[i], path[j], t))
    && net.nodes[path[|path| - 1]].lbl <= t
  }

  ghost predicate Visitable<C, P>(net: Net<C, P>, c: C, t: Id) {
    c in net.nodes && Live(net, c) && NodeLinks(net, c) && |net.nodes[c].lbl| <= |t|
  }

  ghost predicate GoodHop<C, P>(net: Net<C, P>, c: C, d: C, t: Id)
    requires Visitable(net, c, t) && Visitable(net, d, t)
  {
    && d == NextHop(net, c, t) && !(net.nodes[c].lbl <= t)
    && Common(net.nodes[c].lbl, t) < Common(net.nodes[d].lbl, t)
  }

  lemma ConsProgresses<C, P>(net: Net<C, P>, c: C, rest: seq<C>, t: Id)
    requires Visitable(net, c, t) && Progressing(net, rest, t) && GoodHop(net, c, rest[0], t)
    ensures Progressing(net, [c] + rest, t)
  {
    hide Visitable, GoodHop;
    var path := [c] + rest;
    assert forall i :: 0 < i < |path| ==> path[i] == rest[i - 1];
  }

  lemma {:induction false} RouteProgresses<C, P>(net: Net<C, P>, c: C, t: Id)
    requires Routable(net) && c in net.nodes && Live(net, c) && |t| == net.cfg.m
    ensures var path := Route(net, c, t);
            && Progressing(net, path, t) && path[0] == c
            && |path| - 1 <= |net.nodes[path[|path| - 1]].lbl| - Common(net.nodes[c].lbl, t)
    decreases net.cfg.m - Common(net.nodes[c].lbl, t)
  {
    hide Routable, NodeLinks, Live, Common, NextHop, Visitable, Progressing, GoodHop;
    RouteStep(net, c, t);
    var own := net.nodes[c].lbl;
    if own <= t {
      AtOwner(net, c, t);
    } else {
      var d := NextHop(net, c, t);
      RouteProgresses(net, d, t);
      RouteStarts(net, d, t);
      ConsProgresses(net, c, Route(net, d, t), t);
    }
  }

  /** One hop, as the route takes it. */
  lemma RouteStep<C, P>(net: Net<C, P>, c: C, t: Id)
    requires Routable(net) && c in net.nodes && Live(net, c) && |t| == net.cfg.m
    ensures NodeLinks(net, c) && |net.nodes[c].lbl| <= |t| && Visitable(net, c, t)
    ensures net.nodes[c].lbl <= t ==> Route(net, c, t) == [c]
    ensures var d := NextHop(net, c, t);
            !(net.nodes[c].lbl <= t) ==>
              && d in net.nodes && Live(net, d) && Common(net.nodes[c].lbl, t) < Common(net.nodes[d].lbl, t) <= |t|
              && Visitable(net, d, t) && GoodHop(net, c, d, t) && Route(net, c, t) == [c] + Route(net, d, t)
  {
    hide Routable, Common, NodeLinks, Live, NextHop;
    HopLive(net, c, t);
    HopProgress(net, c, t);
    HopLive(net, NextHop(net, c, t), t);
  }

  lemma AtOwner<C, P>(net: Net<C, P>, c: C, t: Id)
    requires Visitable(net, c, t) && net.nodes[c].lbl <= t
    ensures Progressing(net, [c], t) && Common(net.nodes[c].lbl, t) == |net.nodes[c].lbl|
  {
    hide Live, NodeLinks, Common;
    CommonAtLeast(net.nodes[c].lbl, t, |net.nodes[c].lbl|);
  }

  lemma RouteStarts<C, P>(net: Net<C, P>, c: C, t: Id)
    requires Routable(net) && c in net.nodes && Live(net, c) && |t| == net.cfg.m
    ensures var path := Route(net, c, t); path != [] && path[0] == c
  {
  }

  lemma {:induction false} NoRevisit<C, P>(net: Net<C, P>, path: seq<C>, t: Id, i: nat, j: nat)
    requires Progressing(net, path, t) && i < j < |path|
    ensures path[i] in net.nodes && path[j] in net.nodes && !(net.nodes[path[i]].lbl <= t)
    ensures Common(net.nodes[path[i]].lbl, t) < Common(net.nodes[path[j]].lbl, t) && path[i] != path[j]
    decreases j
  {
    hide Common, NodeLinks, Live, NextHop;
    assert GoodHop(net, path[j - 1], path[j], t);
    if i < j - 1 {
      NoRevisit(net, path, t, i, j - 1);
    }
  }

  lemma OwnerIfPrefix<C, P>(net: Net<C, P>, c: C, t: Id)
    requires CompleteCode(Labels(net), net.cfg.m) && c in net.nodes && Live(net, c) && net.nodes[c].lbl <= t
    ensures Owner(net, c, t)
  {
    forall d | d in net.nodes && Live(net, d) && net.nodes[d].lbl <= t
      ensures d == c
    {
      assert net.nodes[c].lbl in Labels(net) && net.nodes[d].lbl in Labels(net);
      PrefixesOfOne(net.nodes[c].lbl, net.nodes[d].lbl, t);
    }
  }

  /** The path leads from `c` to the one cluster whose label prefixes `t`, visits no cluster twice, and makes at
      most as many hops as that label has bits beyond those `c` already shares with `t`. */
  ghost predicate Delivered<C, P>(net: Net<C, P>, c: C, t: Id, path: seq<C>) {
    && path != [] && path[0] == c && c in net.nodes && Owner(net, path[|path| - 1], t)
    && |path| - 1 <= |net.nodes[path[|path| - 1]].lbl| - Common(net.nodes[c].lbl, t) < net.cfg.m
    && (forall i, j :: 0 <= i < j < |path| ==> path[i] != path[j])
  }

  /** From any cluster in service, greedy routing reaches the one cluster whose label prefixes the target,
      never visits a cluster twice, and takes at most as many hops as the owner's label has bits beyond those
      the starting cluster already shares with the target. */
  lemma RoutingReachesOwner<C, P>(net: Net<C, P>, c: C, t: Id)
    requires Inv(net) && LinksLive(net) && c in net.nodes && Live(net, c) && |t| == net.cfg.m
    ensures Routable(net) && Delivered(net, c, t, Route(net, c, t))
  {
    hide Inv, Labels, LinksLive, Routable, Live, NextHop, Common, Route, Progressing, Owner;
    InvRoutable(net);
    RouteProgresses(net, c, t);
    var path := Route(net, c, t);
    RouteStarts(net, c, t);
    LastOwns(net, path, t);
    forall i, j | 0 <= i < j < |path|
      ensures path[i] != path[j]
    {
      NoRevisit(net, path, t, i, j);
    }
  }

  lemma LastOwns<C, P>(net: Net<C, P>, path: seq<C>, t: Id)
    requires Inv(net) && Progressing(net, path, t)
    ensures path != [] && Owner(net, path[|path| - 1], t)
    ensures path[|path| - 1] in net.nodes && |net.nodes[path[|path| - 1]].lbl| < net.cfg.m
  {
    var last := path[|path| - 1];
    assert net.nodes[last].lbl in Labels(net);
    hide NodeLinks, RegInv, LinkInv, MemberInv, FlagInv, Common, NextHop;
    OwnerIfPrefix(net, last, t);
  }

  // ---------------------------------------------------------------- joins

  datatype Reply<C> = JoinSpare(to: C) | JoinTemp(to: C) | Forward(to: C)

  /** JoinEvent.fire at a cluster: where the message goes next, decided on label equality. */
  ghost function JoinFire<C, P>(net: Net<C, P>, c: C, id: Id): Reply<C>
    requires c in net.nodes && NodeLinks(net, c) && |net.nodes[c].lbl| <= |id|
  {
    var d := NextHop(net, c, id);
    HopProgress(net, c, id);
    if net.nodes[c].lbl == net.nodes[d].lbl then
      if net.nodes[d].lbl <= id then JoinSpare(d) else JoinTemp(d)
    else Forward(d)
  }

  /** Whatever the state of its links, no cluster answers a join with JOINTEMP. */
  lemma NeverJoinTemp<C, P>(net: Net<C, P>, c: C, id: Id)
    requires c in net.nodes && NodeLinks(net, c) && |net.nodes[c].lbl| <= |id|
    ensures !JoinFire(net, c, id).JoinTemp?
    ensures JoinFire(net, c, id).JoinSpare? <==> net.nodes[c].lbl <= id
  {
    HopProgress(net, c, id);
  }

  /** A join is never answered with JOINTEMP: it is forwarded along the route and becomes a JOINSPARE exactly
      at the cluster whose label prefixes the joiner, the only one whose Add accepts it. */
  lemma JoinEndsAtOwner<C, P>(net: Net<C, P>, c: C, id: Id)
    requires Inv(net) && LinksLive(net) && c in net.nodes && Live(net, c) && |id| == net.cfg.m
    ensures Routable(net)
    ensures var path := Route(net, c, id);
            && path != []
            && Progressing(net, path, id)
            && (forall i, j :: 0 <= i < j < |path| && j == i + 1 ==> JoinFire(net, path[i], id) == Forward(path[j]))
            && JoinFire(net, path[|path| - 1], id) == JoinSpare(path[|path| - 1])
            && Owner(net, path[|path| - 1], id)
  {
    RoutingReachesOwner(net, c, id);
    RouteProgresses(net, c, id);
    var path := Route(net, c, id);
    hide Inv, LinksLive, Routable, Route, Live;
    forall i, j | 0 <= i < j < |path| && j == i + 1
      ensures JoinFire(net, path[i], id) == Forward(path[j])
    {
      assert GoodHop(net, path[i], path[j], id);
      HopProgress(net, path[i], id);
    }
  }

  // ---------------------------------------------------------------- equal labels

  ghost predicate Uniform<C, P>(net: Net<C, P>, d: nat) {
    forall c :: c in net.nodes && Live(net, c) ==> |net.nodes[c].lbl| == d
  }

  lemma FlipHop<C, P>(net: Net<C, P>, c: C, t: Id, d: nat)
    requires Repaired(net) && CompleteCode(Labels(net), net.cfg.m) && Uniform(net, d) && d <= |t|
    requires c in net.nodes && Live(net, c) && NodeLinks(net, c) && !(net.nodes[c].lbl <= t)
    ensures |net.nodes[c].lbl| == d && Common(net.nodes[c].lbl, t) < d
    ensures NextHop(net, c, t) in net.nodes
    ensures net.nodes[NextHop(net, c, t)].lbl == Flip(net.nodes[c].lbl, Common(net.nodes[c].lbl, t))
  {
    RepairedLinks(net);
    var own := net.nodes[c].lbl;
    FirstDifference(own, t);
    var k := Common(own, t);
    var other := net.nodes[c].rt[k];
    assert Live(net, other);
    assert Comparable(net.nodes[other].lbl, Flip(own, k));
  }

  /** When every label has d bits and the tables are repaired, routing takes exactly as many hops as there
      are bits to correct: the distance the timeouts are scaled by. */
  lemma {:induction false} HopsAreHamming<C, P>(net: Net<C, P>, c: C, t: Id, d: nat)
    requires Routable(net) && Repaired(net) && CompleteCode(Labels(net), net.cfg.m) && Uniform(net, d)
    requires c in net.nodes && Live(net, c) && |t| == net.cfg.m
    ensures d < |t| && |Route(net, c, t)| - 1 == DiffCount(net.nodes[c].lbl, t[..d])
    decreases net.cfg.m - Common(net.nodes[c].lbl, t)
  {
    var own := net.nodes[c].lbl;
    HopLive(net, c, t);
    if own <= t {
      assert own == t[..d];
      DiffCountZero(own, t[..d]);
    } else {
      HopProgress(net, c, t);
      FlipHop(net, c, t, d);
      var next := NextHop(net, c, t);
      hide Repaired, Labels, CompleteCode, LinksLive, NodeLinks;
      DiffCountFlip(own, t[..d], Common(own, t));
      HopsAreHamming(net, next, t, d);
    }
  }
}
