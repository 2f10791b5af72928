/** What a merge does to messages until the next repair: merge.go takes the partner's lock and never releases it,
    so whatever is sent to the partner is lost. */
module Blocking {
  import opened Ids
  import opened PrefixCode
  import opened Network
  import opened Invariant
  import opened Steps
  import opened MergeStep
  import opened Runs
  import opened Routing
  import opened Durability
  import opened Relaying

  /** A safe merge in a state in which every message still gets through. */
  ghost predicate Calm<C, P>(net: Net<C, P>, act: Action<C, P>) {
    && Inv(net) && LinksLive(net) && CoresFilled(net) && CoresKeyed(net)
    && act.Merge? && Enabled(net, act) && Safe(net, act)
  }

  /** A cluster in service that the merge leaves alone. */
  ghost predicate Third<C, P>(net: Net<C, P>, act: Action<C, P>, x: C)
    requires act.Merge?
  {
    x in net.nodes && Live(net, x) && x != act.c && x != act.b
  }

  lemma AfterCalm<C, P>(net: Net<C, P>, act: Action<C, P>)
    requires Calm(net, act)
    ensures Routable(net) && Partners(net, act) && MergedFrom(net, Apply(net, act), act)
    ensures Inv(Apply(net, act)) && CoresKeyed(Apply(net, act))
  {
    hide Inv, Enabled, Apply, Safe, LinksLive, CoresFilled, CoresKeyed, Partners, MergedFrom, Routable;
    InvRoutable(net);
    MergeParts(net, act);
    MergeResult(net, act);
    StepKeeps(net, act);
    StepKeepsCoresKeyed(net, act);
  }

  // ---------------------------------------------------------------- who hands on to whom

  lemma OneHome<C, P>(net: Net<C, P>, k: string, p: P, e: C, q: P, f: C)
    requires Inv(net) && Belongs(net, k, p, e) && Belongs(net, k, q, f)
    ensures e == f
  {
    hide Inv, Live, NodeInv, Labels, CompleteCode, PrefixFree;
    LiveLabel(net, e);
    LiveLabel(net, f);
    CodePrefixFree(Labels(net), net.cfg.m);
    if e != f {
      MembersApart(net, e, f);
    }
  }

  /** All the core of `d` that is left belongs to one cluster. */
  lemma HandsOnlyTo<C, P>(net: Net<C, P>, d: C, e: C)
    requires Inv(net) && d in net.nodes
    requires forall k :: k in net.nodes[d].vc ==> Belongs(net, k, net.nodes[d].vc[k], e)
    ensures forall f :: f in net.nodes && Hands(net, d, f) ==> f == e
  {
    hide Inv, Belongs;
    forall f | f in net.nodes && Hands(net, d, f)
      ensures f == e
    {
      var k :| k in net.nodes[d].vc && Belongs(net, k, net.nodes[d].vc[k], f);
      OneHome(net, k, net.nodes[d].vc[k], f, net.nodes[d].vc[k], e);
    }
  }

  lemma ThirdStays<C, P>(net: Net<C, P>, act: Action<C, P>, x: C)
    requires Calm(net, act) && Third(net, act, x)
    ensures var net' := Apply(net, act); x in net'.nodes && Live(net', x) && net'.nodes[x] == net.nodes[x]
  {
    hide Inv, Enabled, Apply, Safe, LinksLive, CoresFilled, CoresKeyed, Live;
    MergeLive(net, act);
  }

  lemma ThirdHands<C, P>(net: Net<C, P>, act: Action<C, P>, d: C)
    requires Calm(net, act) && Third(net, act, d)
    ensures var net' := Apply(net, act);
            Hands(net', d, d) && forall e :: e in net'.nodes && Hands(net', d, e) ==> e == d
  {
    hide Inv, Enabled, Apply, Safe, LinksLive, CoresKeyed, Live, MergedFrom, Partners, Routable;
    var net' := Apply(net, act);
    AfterCalm(net, act);
    ThirdStays(net, act, d);
    InvParts(net');
    LiveHands(net', d);
    HandsOnlyTo(net', d, d);
  }

  /** The core of the leaver's cluster hands everything on from the merged cluster. */
  lemma LeaverHands<C, P>(net: Net<C, P>, act: Action<C, P>)
    requires Calm(net, act)
    ensures var net' := Apply(net, act);
            Hands(net', act.c, act.m) && forall e :: e in net'.nodes && Hands(net', act.c, e) ==> e == act.m
  {
    hide Inv, Enabled, Apply, Safe, LinksLive, CoresFilled, CoresKeyed, Live, Labels, NodeInv, NodeLinks, Combined,
         Routable;
    var net' := Apply(net, act);
    AfterCalm(net, act);
    MergeLive(net, act);
    LiveUnlocked(net, act.c);
    MergeKeepsMembersIff(net, act);
    forall k | k in net'.nodes[act.c].vc
      ensures Belongs(net', k, net'.nodes[act.c].vc[k], act.m)
    {
    }
    assert act.pa in net'.nodes[act.c].vc;
    HandsOnlyTo(net', act.c, act.m);
  }

  /** No cluster in service is left locked. */
  lemma LiveUnlocked<C, P>(net: Net<C, P>, c: C)
    requires Inv(net) && c in net.nodes && Live(net, c)
    ensures !net.nodes[c].locked
  {
    hide RegInv, LinkInv, MemberInv, CompleteCode, Live;
  }

  lemma PartnerBlocks<C, P>(net: Net<C, P>, act: Action<C, P>)
    requires Calm(net, act)
    ensures var net' := Apply(net, act); act.b in net'.nodes && forall e :: !Hands(net', act.b, e)
  {
    hide Inv, Enabled, Apply, Safe, LinksLive, CoresFilled, CoresKeyed, Live, Labels, NodeInv, NodeLinks, Combined,
         Routable;
    AfterCalm(net, act);
  }

  // ---------------------------------------------------------------- the route decides

  /** The path comes to `b` from a cluster other than `c`. */
  ghost predicate Enters<C>(path: seq<C>, c: C, b: C) {
    exists i, j :: 0 <= i < j < |path| && j == i + 1 && path[i] != c && path[j] == b
  }

  lemma EntersCons<C>(x: C, rest: seq<C>, c: C, b: C)
    requires rest != []
    ensures Enters([x] + rest, c, b) <==> (x != c && rest[0] == b) || Enters(rest, c, b)
  {
    var path := [x] + rest;
    assert forall i :: 0 <= i < |rest| ==> path[i + 1] == rest[i];
    if Enters(path, c, b) {
      var i, j :| 0 <= i < j < |path| && j == i + 1 && path[i] != c && path[j] == b;
      assert i > 0 ==> rest[i - 1] != c && rest[j - 1] == b;
    }
    if x != c && rest[0] == b {
      assert path[0] == x && path[1] == rest[0];
    }
    if Enters(rest, c, b) {
      var i, j :| 0 <= i < j < |rest| && j == i + 1 && rest[i] != c && rest[j] == b;
      assert path[i + 1] != c && path[j + 1] == b;
    }
  }

  lemma NeverEnters<C>(path: seq<C>, c: C, b: C)
    requires b !in path
    ensures !Enters(path, c, b)
  {
  }

  /** A route only comes to clusters that share at least as many bits with the target as its start. */
  lemma RouteAvoids<C, P>(net: Net<C, P>, d: C, y: C, t: Id)
    requires Routable(net) && d in net.nodes && Live(net, d) && y in net.nodes && |t| == net.cfg.m
    requires Common(net.nodes[y].lbl, t) < Common(net.nodes[d].lbl, t)
    ensures y !in Route(net, d, t)
  {
    hide Routable, Live, Common, Route, Progressing;
    RouteProgresses(net, d, t);
    var path := Route(net, d, t);
    RouteStarts(net, d, t);
    forall j | 0 <= j < |path|
      ensures path[j] != y
    {
      if j > 0 {
        NoRevisit(net, path, t, 0, j);
      }
    }
  }

  lemma SharedWithExtension(p: Id, a: Id, t: Id)
    requires p <= a && |p| <= |t| && !(p <= t)
    ensures Common(a, t) == Common(p, t) < |p|
  {
    FirstDifference(p, t);
    var k := Common(p, t);
    assert a[..|p|] == p && a[k] == p[k];
    assert a[..k] == p[..k];
    CommonIs(a, t, k);
  }

  lemma CommonIs(a: Id, b: Id, k: nat)
    requires k < |a| && k < |b| && a[..k] == b[..k] && a[k] != b[k]
    ensures Common(a, b) == k
  {
    hide Common;
    CommonAtLeast(a, b, k);
    AgreeBelow(a, b, Common(a, b));
  }

  lemma LeaverLinks<C, P>(net: Net<C, P>, act: Action<C, P>, i: nat)
    requires Calm(net, act) && act.c in net.nodes && i + 1 < |net.nodes[act.c].rt|
    ensures Third(net, act, net.nodes[act.c].rt[i])
  {
    hide Inv, Enabled, Apply, Safe, CoresFilled, CoresKeyed, Live, Labels, NodeInv, Combined, Routable;
    AfterCalm(net, act);
    LinksDiffer(net, act.c, i);
    LiveIn(net, net.nodes[act.c].rt[i]);
  }

  /** Unless the merged cluster owns the target, its next hop is that of the leaver's cluster, a third cluster
      from which the route does not come back to the partner. */
  lemma MergedNext<C, P>(net: Net<C, P>, act: Action<C, P>, t: Id)
    requires Calm(net, act) && |t| == net.cfg.m
    ensures var net' := Apply(net, act);
            && act.m in net'.nodes && Live(net', act.m) && NodeLinks(net', act.m) && |net'.nodes[act.m].lbl| <= |t|
            && act.c in net.nodes && Live(net, act.c) && NodeLinks(net, act.c) && |net.nodes[act.c].lbl| <= |t|
            && act.b in net.nodes && Common(net'.nodes[act.m].lbl, t) <= Common(net.nodes[act.c].lbl, t)
    ensures var net', d := Apply(net, act), NextHop(net, act.c, t);
            !(net'.nodes[act.m].lbl <= t) ==>
              && d == NextHop(net', act.m, t) && Third(net, act, d) && !(net.nodes[act.c].lbl <= t)
              && Common(net.nodes[act.b].lbl, t) == Common(net.nodes[act.c].lbl, t) < Common(net.nodes[d].lbl, t)
              && act.b !in Route(net, d, t)
  {
    hide Inv, Enabled, Apply, Safe, LinksLive, CoresFilled, CoresKeyed, Live, Labels, NodeInv, Combined, Routable,
         Common, LinkAt, Third;
    var net' := Apply(net, act);
    AfterCalm(net, act);
    MergeLive(net, act);
    InvParts(net');
    assert NodeLinks(net', act.m);
    LiveLabel(net, act.c);
    LiveLabel(net', act.m);
    ApplyKeepsConfig(net, act);
    var p, a, o := net'.nodes[act.m].lbl, net.nodes[act.c].lbl, net.nodes[act.b].lbl;
    if p <= t {
      LongerShares(p, a, t);
    } else {
      SharedWithExtension(p, a, t);
      SharedWithExtension(p, o, t);
      LeaverLinks(net, act, Common(a, t));
      HopProgress(net, act.c, t);
      ThirdIn(net, act, NextHop(net, act.c, t));
      RouteAvoids(net, NextHop(net, act.c, t), act.b, t);
    }
  }

  lemma ThirdIn<C, P>(net: Net<C, P>, act: Action<C, P>, d: C)
    requires act.Merge? && Third(net, act, d)
    ensures d in net.nodes && Live(net, d) && d != act.c && d != act.b
  {
  }

  lemma LongerShares(p: Id, a: Id, t: Id)
    requires p <= a && p <= t
    ensures Common(p, t) <= Common(a, t)
  {
    CommonAtLeast(a, t, |p|);
  }

  // ---------------------------------------------------------------- exactly what is lost

  /** From a third cluster the first hop after the merge is the one before it, and the message is taken over by
      the merged cluster, lost, or handed on by that third cluster. */
  lemma ThirdHop<C, P>(net: Net<C, P>, act: Action<C, P>, x: C, t: Id)
    requires Calm(net, act) && Third(net, act, x) && |t| == net.cfg.m && !(net.nodes[x].lbl <= t)
    ensures NodeLinks(net, x) && |net.nodes[x].lbl| <= |t|
    ensures var net', d := Apply(net, act), NextHop(net, x, t);
            && d in net.nodes && Live(net, d)
            && (d == act.b ==> forall e :: e in net'.nodes ==> !Relays(net', x, e, t))
            && (d == act.c ==> Relays(net', x, act.m, t) && forall e :: e in net'.nodes && Relays(net', x, e, t) ==>
               e == act.m)
            && (Third(net, act, d) ==> Relays(net', x, d, t) && forall e :: e in net'.nodes && Relays(net', x, e, t) ==>
               e == d)
  {
    hide Inv, Enabled, Apply, Safe, LinksLive, CoresFilled, CoresKeyed, Live, Labels, NodeInv, Routable, Common, Hands,
         MergedFrom, Partners;
    var net' := Apply(net, act);
    AfterCalm(net, act);
    ThirdStays(net, act, x);
    InvParts(net');
    assert NodeLinks(net', x);
    HopLive(net, x, t);
    var d := NextHop(net, x, t);
    assert NextHop(net', x, t) == d;
    Distinct(net, act);
    if d == act.b {
      PartnerBlocks(net, act);
    } else if d == act.c {
      LeaverHands(net, act);
    } else {
      ThirdHands(net, act, d);
    }
  }

  lemma Distinct<C, P>(net: Net<C, P>, act: Action<C, P>)
    requires Partners(net, act)
    ensures act.b != act.c
  {
  }

  lemma MergedHop<C, P>(net: Net<C, P>, act: Action<C, P>, t: Id)
    requires Calm(net, act) && |t| == net.cfg.m && act.m in Apply(net, act).nodes
             && !(Apply(net, act).nodes[act.m].lbl <= t)
    ensures act.c in net.nodes && NodeLinks(net, act.c) && |net.nodes[act.c].lbl| <= |t|
    ensures var net', d := Apply(net, act), NextHop(net, act.c, t);
            && Third(net, act, d) && Relays(net', act.m, d, t)
            && forall e :: e in net'.nodes && Relays(net', act.m, e, t) ==> e == d
  {
    hide Inv, Enabled, Apply, Safe, LinksLive, CoresFilled, CoresKeyed, Live, Third, NextHop, NodeLinks, Hands;
    MergedNext(net, act, t);
    ThirdHands(net, act, NextHop(net, act.c, t));
  }

  /** Safe partners: when the merged label owns the target, so did the leaver's cluster or the partner. */
  lemma SiblingsOwn<C, P>(net: Net<C, P>, act: Action<C, P>, t: Id)
    requires Calm(net, act) && |t| == net.cfg.m
    requires act.m in Apply(net, act).nodes && Apply(net, act).nodes[act.m].lbl <= t
    ensures act.c in net.nodes && act.b in net.nodes
    ensures net.nodes[act.c].lbl <= t || net.nodes[act.b].lbl <= t
  {
    hide Inv, Enabled, Apply, LinksLive, CoresFilled, CoresKeyed, Safe, Live, Labels, NodeInv, NodeLinks, Combined,
         Routable;
    AfterCalm(net, act);
    LiveLabel(net, act.c);
    SafeIff(net, act);
    SiblingOr(net.nodes[act.c].lbl, t);
  }

  lemma SiblingOr(a: Id, t: Id)
    requires a != [] && Parent(a) <= t && |a| <= |t|
    ensures a <= t || Sibling(a) <= t
  {
    var i := |a| - 1;
    assert a == Parent(a) + [a[i]] && Sibling(a) == Parent(a) + [!a[i]];
    assert t[..|a|] == t[..i] + [t[i]] && Parent(a) == t[..i];
    assert if t[i] == a[i] then t[..|a|] == a else t[..|a|] == Sibling(a);
  }

  /** The route of a message before the merge, started at the leaver's cluster, does not come to the partner
      from anywhere else; and after the merge the message arrives from the merged cluster. */
  lemma LeaverRoute<C, P>(net: Net<C, P>, act: Action<C, P>, t: Id)
    requires Calm(net, act) && |t| == net.cfg.m
    ensures Routable(net) && act.c in net.nodes && Live(net, act.c)
    ensures !Enters(Route(net, act.c, t), act.c, act.b)
  {
    hide Inv, Enabled, Apply, Safe, LinksLive, CoresFilled, CoresKeyed, Live, Third, NextHop, NodeLinks, Common,
         Routable, Route, Enters, MergedFrom, Partners;
    AfterCalm(net, act);
    MergedNext(net, act, t);
    RouteStep(net, act.c, t);
    var own := net.nodes[act.c].lbl;
    if own <= t {
      Singleton(act.c, act.c, act.b);
    } else if Apply(net, act).nodes[act.m].lbl <= t {
      SiblingsOwn(net, act, t);
      LastSlot(net, act, t);
      RouteStep(net, act.b, t);
      Pair(act.c, act.b);
    } else {
      var d := NextHop(net, act.c, t);
      var rest := Route(net, d, t);
      RouteStarts(net, d, t);
      ThirdIn(net, act, d);
      NeverEnters(rest, act.c, act.b);
      EntersCons(act.c, rest, act.c, act.b);
    }
  }

  lemma Singleton<C>(x: C, c: C, b: C)
    ensures !Enters([x], c, b)
  {
  }

  lemma Pair<C>(c: C, b: C)
    ensures !Enters([c] + [b], c, b)
  {
  }

  /** If the partner owns the target, it is the next hop of the leaver's cluster. */
  lemma LastSlot<C, P>(net: Net<C, P>, act: Action<C, P>, t: Id)
    requires Calm(net, act) && |t| == net.cfg.m && act.c in net.nodes && act.b in net.nodes
    requires net.nodes[act.b].lbl <= t && !(net.nodes[act.c].lbl <= t)
    ensures NodeLinks(net, act.c) && |net.nodes[act.c].lbl| <= |t| && NextHop(net, act.c, t) == act.b
    ensures Live(net, act.b)
  {
    hide Inv, Enabled, Apply, Safe, LinksLive, CoresFilled, CoresKeyed, Live, Labels, NodeInv, Combined, Routable,
         Common;
    AfterCalm(net, act);
    LiveLabel(net, act.c);
    var n, o := net.nodes[act.c], net.nodes[act.b];
    SiblingCommon(n.lbl, o.lbl, t);
  }

  lemma SiblingCommon(a: Id, o: Id, t: Id)
    requires a != [] && Sibling(a) <= o && o <= t
    ensures Common(a, t) == |a| - 1
  {
    var i := |a| - 1;
    assert Sibling(a) == t[..|a|] && Sibling(a)[..i] == a[..i];
    assert Sibling(a)[i] == t[i];
    CommonIs(a, t, i);
  }

  /** Until the next repair, a message that starts at a third cluster arrives exactly if its route before the
      merge does not come to the partner from a cluster other than the leaver's. */
  lemma {:induction false} ArrivesIff<C, P>(net: Net<C, P>, act: Action<C, P>, x: C, t: Id)
    requires Calm(net, act) && Third(net, act, x) && |t| == net.cfg.m
    ensures Routable(net) && Inv(Apply(net, act)) && CoresKeyed(Apply(net, act)) && Apply(net, act).cfg == net.cfg
    ensures x in Apply(net, act).nodes && Live(Apply(net, act), x)
    ensures Arrives(Apply(net, act), x, t) <==> !Enters(Route(net, x, t), act.c, act.b)
    decreases net.cfg.m - Common(net.nodes[x].lbl, t), 1
  {
    hide Inv, Enabled, Apply, Safe, LinksLive, CoresFilled, CoresKeyed, Live, NextHop, NodeLinks, Common, Routable,
         Route, Enters, MergedFrom, Partners, Relays, Arrives;
    AfterCalm(net, act);
    CalmKeepsConfig(net, act);
    ThirdStays(net, act, x);
    RouteStep(net, x, t);
    if net.nodes[x].lbl <= t {
      Singleton(x, act.c, act.b);
      AtHome(Apply(net, act), x, t);
    } else {
      ThirdGoesOn(net, act, x, t);
    }
  }

  lemma CalmKeepsConfig<C, P>(net: Net<C, P>, act: Action<C, P>)
    requires Calm(net, act)
    ensures Apply(net, act).cfg == net.cfg
  {
    hide Inv, Enabled, Apply, Safe, LinksLive, CoresFilled, CoresKeyed;
    ApplyKeepsConfig(net, act);
  }

  lemma AtHome<C, P>(net: Net<C, P>, c: C, t: Id)
    requires Inv(net) && CoresKeyed(net) && c in net.nodes && Live(net, c) && |t| == net.cfg.m && net.nodes[c].lbl <= t
    ensures Arrives(net, c, t)
  {
    hide Inv, CoresKeyed, Live, Relays;
  }

  lemma Nowhere<C, P>(net: Net<C, P>, c: C, t: Id)
    requires Inv(net) && CoresKeyed(net) && c in net.nodes && Live(net, c) && |t| == net.cfg.m
             && !(net.nodes[c].lbl <= t)
    requires forall e :: e in net.nodes ==> !Relays(net, c, e, t)
    ensures !Arrives(net, c, t)
  {
    hide Inv, CoresKeyed, Live, Relays;
  }

  lemma {:induction false} ThirdGoesOn<C, P>(net: Net<C, P>, act: Action<C, P>, x: C, t: Id)
    requires Calm(net, act) && Third(net, act, x) && |t| == net.cfg.m && !(net.nodes[x].lbl <= t)
    ensures Routable(net) && Inv(Apply(net, act)) && CoresKeyed(Apply(net, act)) && Apply(net, act).cfg == net.cfg
    ensures x in Apply(net, act).nodes && Live(Apply(net, act), x)
    ensures Arrives(Apply(net, act), x, t) <==> !Enters(Route(net, x, t), act.c, act.b)
    decreases net.cfg.m - Common(net.nodes[x].lbl, t), 0
  {
    hide Inv, Enabled, Apply, Safe, LinksLive, CoresFilled, CoresKeyed, Live, NextHop, NodeLinks, Common, Routable,
         Route, Enters, MergedFrom, Partners, Relays, Arrives;
    AfterCalm(net, act);
    CalmKeepsConfig(net, act);
    ThirdStays(net, act, x);
    ThirdIn(net, act, x);
    RouteStep(net, x, t);
    ThirdHop(net, act, x, t);
    var net', d := Apply(net, act), NextHop(net, x, t);
    RouteStarts(net, d, t);
    EntersCons(x, Route(net, d, t), act.c, act.b);
    if d == act.b {
      Nowhere(net', x, t);
    } else if d == act.c {
      LeaverRoute(net, act, t);
      MergedArrives(net, act, t);
      OneHop(net', x, act.m, t);
    } else {
      ArrivesIff(net, act, d, t);
      OneHop(net', x, d, t);
    }
  }

  /** From the merged cluster everything arrives. */
  lemma {:induction false} MergedArrives<C, P>(net: Net<C, P>, act: Action<C, P>, t: Id)
    requires Calm(net, act) && |t| == net.cfg.m
    ensures Inv(Apply(net, act)) && CoresKeyed(Apply(net, act)) && Apply(net, act).cfg == net.cfg
    ensures act.m in Apply(net, act).nodes && Live(Apply(net, act), act.m) && Arrives(Apply(net, act), act.m, t)
    ensures act.c in net.nodes
    decreases net.cfg.m - (if act.c in net.nodes then Common(net.nodes[act.c].lbl, t) else 0), 0
  {
    hide Inv, Enabled, Apply, Safe, LinksLive, CoresFilled, CoresKeyed, Live, NextHop, NodeLinks, Common, Routable,
         Route, Enters, MergedFrom, Partners, Relays, Arrives;
    AfterCalm(net, act);
    CalmKeepsConfig(net, act);
    MergedNext(net, act, t);
    var net' := Apply(net, act);
    if net'.nodes[act.m].lbl <= t {
      AtHome(net', act.m, t);
    } else {
      var d := NextHop(net, act.c, t);
      MergedHop(net, act, t);
      ThirdIn(net, act, d);
      ArrivesIff(net, act, d, t);
      NeverEnters(Route(net, d, t), act.c, act.b);
      OneHop(net', act.m, d, t);
    }
  }

  // ---------------------------------------------------------------- consequences

  /** Every slot still leads to somebody exactly if no third cluster has the partner in its table. */
  lemma MergeAnsweringIff<C, P>(net: Net<C, P>, act: Action<C, P>)
    requires Calm(net, act)
    ensures Answering(Apply(net, act)) <==> forall x :: x in net.nodes && Third(net, act, x) ==>
            act.b !in net.nodes[x].rt
  {
    hide Inv, Enabled, Apply, Safe, CoresFilled, CoresKeyed, Live, Hands, NodeInv, Labels, Combined, Routable, Third;
    var net' := Apply(net, act);
    AfterCalm(net, act);
    MergeLive(net, act);
    if forall x :: x in net.nodes && Third(net, act, x) ==> act.b !in net.nodes[x].rt {
      forall x, i | x in net'.nodes && Live(net', x) && 0 <= i < |net'.nodes[x].rt|
        ensures Answers(net', net'.nodes[x].rt[i])
      {
        SlotAnswers(net, act, x, i);
      }
    } else {
      var x :| x in net.nodes && Third(net, act, x) && act.b in net.nodes[x].rt;
      var i :| 0 <= i < |net.nodes[x].rt| && net.nodes[x].rt[i] == act.b;
      ThirdStays(net, act, x);
      PartnerBlocks(net, act);
      assert !Answers(net', net'.nodes[x].rt[i]);
    }
  }

  lemma SlotAnswers<C, P>(net: Net<C, P>, act: Action<C, P>, x: C, i: nat)
    requires Calm(net, act) && x in Apply(net, act).nodes && Live(Apply(net, act), x)
             && i < |Apply(net, act).nodes[x].rt|
    requires forall y :: y in net.nodes && Third(net, act, y) ==> act.b !in net.nodes[y].rt
    ensures Answers(Apply(net, act), Apply(net, act).nodes[x].rt[i])
  {
    hide Inv, Enabled, Apply, Safe, CoresFilled, CoresKeyed, Live, Hands, NodeInv, Labels, Combined, Routable;
    var net' := Apply(net, act);
    AfterCalm(net, act);
    MergeLive(net, act);
    if x == act.m {
      LeaverLinks(net, act, i);
      ThirdHands(net, act, net.nodes[act.c].rt[i]);
      ThirdStays(net, act, net.nodes[act.c].rt[i]);
    } else {
      var d := net.nodes[x].rt[i];
      assert Live(net, d);
      LiveIn(net, d);
      if d == act.c {
        LeaverHands(net, act);
      } else {
        ThirdHands(net, act, d);
        ThirdStays(net, act, d);
      }
    }
  }

  lemma AnsweringArrives<C, P>(net: Net<C, P>, c: C, t: Id)
    requires Inv(net) && CoresKeyed(net) && Answering(net) && c in net.nodes && Live(net, c) && |t| == net.cfg.m
    ensures Arrives(net, c, t)
  {
    hide Inv, CoresKeyed, Answering, Live, Relayed, Arrives;
    var path := RelayReachesOwner(net, c, t);
    RelayedStarts(net, path, t);
    OwnerAt(net, path[|path| - 1], t);
    PathArrives(net, path, t);
  }

  /** After a repair everything arrives again, as long as every cluster in service has a core. */
  lemma RepairUnblocks<C, P>(net: Net<C, P>, fix: Action<C, P>, c: C, t: Id)
    requires Inv(net) && CoresKeyed(net) && CoresFilled(net) && fix.Fix? && Enabled(net, fix)
    requires c in net.nodes && Live(net, c) && |t| == net.cfg.m
    ensures Inv(Apply(net, fix)) && CoresKeyed(Apply(net, fix)) && Apply(net, fix).cfg == net.cfg
    ensures c in Apply(net, fix).nodes && Live(Apply(net, fix), c) && Arrives(Apply(net, fix), c, t)
  {
    hide Inv, CoresKeyed, Answering, Live, Enabled, Apply, LinksLive, Arrives;
    StepKeeps(net, fix);
    StepKeepsCoresKeyed(net, fix);
    ApplyKeepsConfig(net, fix);
    FixKeepsCores(net, fix);
    LiveIsAnswering(Apply(net, fix));
    AnsweringArrives(Apply(net, fix), c, t);
  }

  lemma FixKeepsCores<C, P>(net: Net<C, P>, fix: Action<C, P>)
    requires fix.Fix? && Enabled(net, fix)
    ensures var net' := Apply(net, fix);
            && net'.nodes.Keys == net.nodes.Keys
            && (forall c :: c in net.nodes ==> net'.nodes[c].vc == net.nodes[c].vc && (Live(net', c) <==> Live(net, c)))
  {
    hide Nearest, Labels, Str;
  }

  /** All this holds of every reachable state with live links and no empty core. */
  lemma ReachableIsCalm<C, P>(boot: Net<C, P>, acts: seq<Action<C, P>>, act: Action<C, P>)
    requires Boot(boot) && Legal(boot, acts) && LinksLive(Exec(boot, acts)) && CoresFilled(Exec(boot, acts))
    requires act.Merge? && Enabled(Exec(boot, acts), act) && Safe(Exec(boot, acts), act)
    ensures Calm(Exec(boot, acts), act)
  {
    hide Boot, Legal, Exec, Inv, Enabled, Safe, CoresKeyed, CoresFilled, LinksLive;
    BootInv(boot);
    BootCoresKeyed(boot);
    RunsKeepInvariant(boot, acts);
    RunsKeepCoresKeyed(boot, acts);
  }

  /** Before the merge everything arrives. */
  lemma CalmArrives<C, P>(net: Net<C, P>, act: Action<C, P>, x: C, t: Id)
    requires Calm(net, act) && x in net.nodes && Live(net, x) && |t| == net.cfg.m
    ensures Arrives(net, x, t)
  {
    hide Inv, Enabled, Apply, Safe, LinksLive, CoresFilled, CoresKeyed, Live, Arrives, Answering;
    LiveIsAnswering(net);
    AnsweringArrives(net, x, t);
  }

  /** Whatever a third cluster would send to the partner is lost. */
  lemma FirstHopLost<C, P>(net: Net<C, P>, act: Action<C, P>, x: C, t: Id)
    requires Calm(net, act) && Third(net, act, x) && |t| == net.cfg.m && !(net.nodes[x].lbl <= t)
    requires NodeLinks(net, x) && |net.nodes[x].lbl| <= |t| && NextHop(net, x, t) == act.b
    ensures Inv(Apply(net, act)) && CoresKeyed(Apply(net, act)) && Apply(net, act).cfg == net.cfg
    ensures x in Apply(net, act).nodes && Live(Apply(net, act), x) && !Arrives(Apply(net, act), x, t)
  {
    hide Inv, Enabled, Apply, Safe, LinksLive, CoresFilled, CoresKeyed, Live, NextHop, NodeLinks, Routable, Arrives,
         Relays, MergedFrom, Partners;
    AfterCalm(net, act);
    CalmKeepsConfig(net, act);
    ThirdStays(net, act, x);
    ThirdHop(net, act, x, t);
    Nowhere(Apply(net, act), x, t);
  }
}
