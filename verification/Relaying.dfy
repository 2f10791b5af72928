/** Routing while tables still name clusters that were merged away. The core of the cluster that started a merge
    still takes messages, and each peer hands them on from the cluster it belongs to now; a message sent to the
    partner waits for a lock that is never released. */
module Relaying {
  import opened Ids
  import opened PrefixCode
  import opened Network
  import opened Invariant
  import opened Steps
  import opened SplitStep
  import opened MergeStep
  import opened Runs
  import opened Routing

  /** Core members carry their cluster's label, in service or not. */
  ghost predicate CoresKeyed<C, P>(net: Net<C, P>) {
    forall c :: c in net.nodes ==> Keyed(net.cfg.m, net.nodes[c].lbl, net.nodes[c].vc)
  }

  /** Peer `p`, with key `k`, is a member of `e`, which is in service. */
  ghost predicate Belongs<C, P>(net: Net<C, P>, k: string, p: P, e: C) {
    && e in net.nodes && Live(net, e)
    && Has(net.nodes[e].vc, net.nodes[e].vs, k) && PeerAt(net.nodes[e].vc, net.nodes[e].vs, k) == p
  }

  /** A message sent to the core of `d` gets through and reaches a peer that now belongs to `e`. */
  ghost predicate Hands<C, P>(net: Net<C, P>, d: C, e: C) {
    d in net.nodes && !net.nodes[d].locked && exists k :: k in net.nodes[d].vc && Belongs(net, k, net.nodes[d].vc[k], e)
  }

  /** From `c` in service, which does not own `t`, the message arrives at `e`. */
  ghost predicate Relays<C, P>(net: Net<C, P>, c: C, e: C, t: Id) {
    && c in net.nodes && Live(net, c) && NodeLinks(net, c) && |net.nodes[c].lbl| <= |t| && !(net.nodes[c].lbl <= t)
    && Hands(net, NextHop(net, c, t), e)
  }

  /** Whoever took the place of a linked cluster still leaves the own label at the same bit. */
  lemma HeirIsLink(s: set<Id>, own: Id, d: Id, e: Id, i: nat)
    requires PrefixFree(s) && own in s && e in s && LinkAt(own, d, i) && Comparable(d, e)
    ensures LinkAt(own, e, i)
  {
    if d <= e {
      LinkExtends(own, own, d, e, i);
    } else {
      assert e == d[..|e|];
      ShortPrefix(e, d, own, i);
      assert |e| > i;
      assert e[..i] == d[..|e|][..i];
    }
  }

  lemma MemberUnder<C, P>(net: Net<C, P>, c: C, k: string)
    requires Inv(net) && c in net.nodes && Live(net, c) && Has(net.nodes[c].vc, net.nodes[c].vs, k)
    ensures net.nodes[c].lbl <= Parse(k)
  {
    hide RegInv, LinkInv, FlagInv, CompleteCode, Live, Parse, IsBits, Known, Replicas, AllHold, Sizes;
    assert NodeInv(net, net.nodes[c]);
  }

  lemma HandedUnder<C, P>(net: Net<C, P>, d: C, e: C)
    requires Inv(net) && CoresKeyed(net) && Hands(net, d, e)
    ensures e in net.nodes && Live(net, e) && Comparable(net.nodes[d].lbl, net.nodes[e].lbl)
  {
    hide Inv, Live, Parse, IsBits;
    var k :| k in net.nodes[d].vc && Belongs(net, k, net.nodes[d].vc[k], e);
    MemberUnder(net, e, k);
    assert GoodKey(net.cfg.m, net.nodes[d].lbl, k);
    PrefixesOfOne(net.nodes[d].lbl, net.nodes[e].lbl, Parse(k));
  }

  /** Even when the next hop is out of service, the message arrives somewhere that shares strictly more
      leading bits with its target. */
  lemma RelayProgress<C, P>(net: Net<C, P>, c: C, e: C, t: Id)
    requires Inv(net) && CoresKeyed(net) && Relays(net, c, e, t)
    ensures e in net.nodes && Live(net, e) && e != c
    ensures Common(net.nodes[c].lbl, t) < Common(net.nodes[e].lbl, t)
  {
    hide Inv, Live, LinkAt, Common, CoresKeyed, Hands, CompleteCode, Labels;
    var own := net.nodes[c].lbl;
    FirstDifference(own, t);
    var d, i := NextHop(net, c, t), Common(own, t);
    HandedUnder(net, d, e);
    LiveLabel(net, c);
    LiveLabel(net, e);
    CodePrefixFree(Labels(net), net.cfg.m);
    HeirIsLink(Labels(net), own, net.nodes[d].lbl, net.nodes[e].lbl, i);
    LinkProgress(own, net.nodes[e].lbl, t);
  }

  /** The clusters a message passes through, whichever peers take it on the way. */
  ghost predicate Relayed<C, P>(net: Net<C, P>, path: seq<C>, t: Id) {
    && path != [] && (forall i :: 0 <= i < |path| ==> path[i] in net.nodes && Live(net, path[i]))
    && forall i, j :: 0 <= i < j < |path| && j == i + 1 ==> Relays(net, path[i], path[j], t)
  }

  /** However the message is handed on, it never comes back to a cluster and makes at most as many hops as the
      label it has come to has bits beyond those shared at the start. */
  lemma {:induction false} RelayedProgresses<C, P>(net: Net<C, P>, path: seq<C>, t: Id, i: nat, j: nat)
    requires Inv(net) && CoresKeyed(net) && Relayed(net, path, t) && i <= j < |path|
    ensures path[i] in net.nodes && path[j] in net.nodes
    ensures Common(net.nodes[path[i]].lbl, t) + (j - i) <= Common(net.nodes[path[j]].lbl, t) <= |net.nodes[path[j]].lbl|
    ensures i < j ==> path[i] != path[j]
    decreases j - i
  {
    hide Inv, CoresKeyed, Live, Relays, Common;
    if i < j {
      RelayedProgresses(net, path, t, i, j - 1);
      assert Relays(net, path[j - 1], path[j], t);
      RelayProgress(net, path[j - 1], path[j], t);
    }
  }

  // ---------------------------------------------------------------- somebody always answers

  /** Some of the recorded core of `d` still belongs somewhere. */
  ghost predicate Answers<C, P>(net: Net<C, P>, d: C) {
    exists e :: e in net.nodes && Hands(net, d, e)
  }

  /** Every slot of every cluster in service names a cluster that answers. */
  ghost predicate Answering<C, P>(net: Net<C, P>) {
    forall c, i :: c in net.nodes && Live(net, c) && 0 <= i < |net.nodes[c].rt| ==>
                     Answers(net, net.nodes[c].rt[i])
  }

  lemma SomeoneRelays<C, P>(net: Net<C, P>, c: C, t: Id) returns (e: C)
    requires Inv(net) && Answering(net) && c in net.nodes && Live(net, c) && |t| == net.cfg.m
             && !(net.nodes[c].lbl <= t)
    ensures Relays(net, c, e, t)
  {
    hide Inv, Live, Hands, LinkAt, Common;
    InvParts(net);
    LiveLabel(net, c);
    FirstDifference(net.nodes[c].lbl, t);
    assert NodeLinks(net, c);
    var i := Common(net.nodes[c].lbl, t);
    assert NextHop(net, c, t) == net.nodes[c].rt[i];
    assert Answers(net, net.nodes[c].rt[i]);
    e :| e in net.nodes && Hands(net, net.nodes[c].rt[i], e);
  }

  /** Then from every cluster in service a message gets to the one that owns its target. */
  lemma {:induction false} RelayReachesOwner<C, P>(net: Net<C, P>, c: C, t: Id) returns (path: seq<C>)
    requires Inv(net) && CoresKeyed(net) && Answering(net) && c in net.nodes && Live(net, c) && |t| == net.cfg.m
    ensures Relayed(net, path, t) && path[0] == c && Owner(net, path[|path| - 1], t)
    decreases net.cfg.m - Common(net.nodes[c].lbl, t)
  {
    hide Inv, CoresKeyed, Answering, Live, Relays, Common, Owner, CompleteCode, Labels;
    if net.nodes[c].lbl <= t {
      path := [c];
      InvParts(net);
      OwnerIfPrefix(net, c, t);
    } else {
      var e := SomeoneRelays(net, c, t);
      RelayProgress(net, c, e, t);
      var rest := RelayReachesOwner(net, e, t);
      path := [c] + rest;
      assert forall i :: 0 < i < |path| ==> path[i] == rest[i - 1];
    }
  }

  // ---------------------------------------------------------------- which states are like that

  ghost predicate CoresFilled<C, P>(net: Net<C, P>) {
    forall c :: c in net.nodes && Live(net, c) ==> net.nodes[c].vc != map[]
  }

  lemma LiveHands<C, P>(net: Net<C, P>, d: C)
    requires FlagInv(net) && d in net.nodes && Live(net, d) && net.nodes[d].vc != map[]
    ensures Hands(net, d, d)
  {
    var k :| k in net.nodes[d].vc;
    assert Belongs(net, k, net.nodes[d].vc[k], d);
  }

  lemma LiveIsAnswering<C, P>(net: Net<C, P>)
    requires Inv(net) && LinksLive(net) && CoresFilled(net)
    ensures Answering(net)
  {
    hide Inv, Live, Hands;
    InvParts(net);
    forall c, i | c in net.nodes && Live(net, c) && 0 <= i < |net.nodes[c].rt|
      ensures Answers(net, net.nodes[c].rt[i])
    {
      var d := net.nodes[c].rt[i];
      LiveIn(net, d);
      LiveHands(net, d);
    }
  }

  lemma MergeKeepsCoresKeyed<C, P>(net: Net<C, P>, act: Action<C, P>)
    requires Inv(net) && CoresKeyed(net) && act.Merge? && Enabled(net, act) && Inv(Apply(net, act))
    ensures CoresKeyed(Apply(net, act))
  {
    hide Inv, Apply, Enabled, Live, GoodKey, Combined;
    MergeLive(net, act);
    MergeResult(net, act);
    ApplyKeepsConfig(net, act);
    LiveKeyed(Apply(net, act), act.m);
  }

  lemma LiveKeyed<C, P>(net: Net<C, P>, c: C)
    requires Inv(net) && c in net.nodes && Live(net, c)
    ensures Keyed(net.cfg.m, net.nodes[c].lbl, net.nodes[c].vc)
  {
    hide RegInv, LinkInv, FlagInv, CompleteCode, Live, Keyed;
    assert NodeInv(net, net.nodes[c]);
  }

  /** Steps other than merges do not touch the members of clusters out of service. */
  lemma DeadUntouched<C, P>(net: Net<C, P>, act: Action<C, P>, x: C)
    requires Inv(net) && Enabled(net, act) && !act.Merge? && x in net.nodes && !Live(net, x)
    ensures var net' := Apply(net, act);
            x in net'.nodes && net'.nodes[x].lbl == net.nodes[x].lbl && net'.nodes[x].vc == net.nodes[x].vc
  {
    hide Inv, CanSplit, HalfOf, SetData, Filter, Rewrite, Erase, Nearest, Labels, Parse, Str;
  }

  lemma OldOrLive<C, P>(net: Net<C, P>, act: Action<C, P>, x: C)
    requires Inv(net) && Enabled(net, act) && !act.Merge? && x in Apply(net, act).nodes
    ensures Live(Apply(net, act), x) || (x in net.nodes && !Live(net, x))
  {
    if act.Split? {
      SplitCode(net, act);
    } else if act.Fix? {
      FixRepairs(net, act);
      SameLabelsLive(net, Apply(net, act));
    } else {
      LocalKeeps(net, act);
      SameLabelsLive(net, Apply(net, act));
    }
  }

  lemma StepKeepsCoresKeyed<C, P>(net: Net<C, P>, act: Action<C, P>)
    requires Inv(net) && CoresKeyed(net) && Enabled(net, act) && Safe(net, act)
    ensures CoresKeyed(Apply(net, act))
  {
    hide Inv, Apply, Enabled, Live, Keyed, Safe;
    StepKeeps(net, act);
    ApplyKeepsConfig(net, act);
    if act.Merge? {
      MergeKeepsCoresKeyed(net, act);
    } else {
      var net' := Apply(net, act);
      forall x | x in net'.nodes
        ensures Keyed(net'.cfg.m, net'.nodes[x].lbl, net'.nodes[x].vc)
      {
        OldOrLive(net, act, x);
        if Live(net', x) {
          LiveKeyed(net', x);
        } else {
          DeadUntouched(net, act, x);
        }
      }
    }
  }

  lemma {:induction false} RunsKeepCoresKeyed<C, P>(net: Net<C, P>, acts: seq<Action<C, P>>)
    requires Inv(net) && CoresKeyed(net) && Legal(net, acts)
    ensures CoresKeyed(Exec(net, acts))
    decreases |acts|
  {
    hide Inv, Apply, Enabled, Safe, CoresKeyed;
    if acts != [] {
      StepKeeps(net, acts[0]);
      StepKeepsCoresKeyed(net, acts[0]);
      RunsKeepCoresKeyed(Apply(net, acts[0]), acts[1..]);
    }
  }

  lemma BootCoresKeyed<C, P>(net: Net<C, P>)
    requires Boot(net)
    ensures CoresKeyed(net)
  {
    hide GoodKey;
  }

  // ---------------------------------------------------------------- arriving

  /** Some copy of a message for `t` gets from `c` to the owner of `t`. */
  ghost predicate Arrives<C, P>(net: Net<C, P>, c: C, t: Id)
    requires Inv(net) && CoresKeyed(net) && c in net.nodes && Live(net, c) && |t| == net.cfg.m
    decreases net.cfg.m - Common(net.nodes[c].lbl, t)
  {
    || net.nodes[c].lbl <= t
    || exists e :: e in net.nodes && Relays(net, c, e, t) && (RelayProgress(net, c, e, t); Arrives(net, e, t))
  }

  /** That means a path of hops along which the message is handed on, to the one owner, without revisits and
      within the bound of undisturbed routing; and any such path will do. */
  lemma ArrivesByPath<C, P>(net: Net<C, P>, c: C, t: Id) returns (path: seq<C>)
    requires Inv(net) && CoresKeyed(net) && c in net.nodes && Live(net, c) && |t| == net.cfg.m && Arrives(net, c, t)
    ensures Relayed(net, path, t) && Delivered(net, c, t, path)
    decreases net.cfg.m - Common(net.nodes[c].lbl, t)
  {
    hide Inv, CoresKeyed, Live, Relays, Common, Owner, Arrives, Relayed, CompleteCode, Labels;
    path := PathFrom(net, c, t);
    RelayedStarts(net, path, t);
    InvParts(net);
    OwnerIfPrefix(net, path[|path| - 1], t);
    OwnerAt(net, path[|path| - 1], t);
    RelayedProgresses(net, path, t, 0, |path| - 1);
    LiveLabel(net, path[|path| - 1]);
    forall i, j | 0 <= i < j < |path|
      ensures path[i] != path[j]
    {
      RelayedProgresses(net, path, t, i, j);
    }
  }

  lemma OwnerAt<C, P>(net: Net<C, P>, c: C, t: Id)
    requires Owner(net, c, t)
    ensures c in net.nodes
  {
  }

  lemma {:induction false} PathFrom<C, P>(net: Net<C, P>, c: C, t: Id) returns (path: seq<C>)
    requires Inv(net) && CoresKeyed(net) && c in net.nodes && Live(net, c) && |t| == net.cfg.m && Arrives(net, c, t)
    ensures Relayed(net, path, t) && path[0] == c && net.nodes[path[|path| - 1]].lbl <= t
    decreases net.cfg.m - Common(net.nodes[c].lbl, t)
  {
    hide Inv, CoresKeyed, Live, Relays, Common;
    if net.nodes[c].lbl <= t {
      path := [c];
    } else {
      var e :| e in net.nodes && Relays(net, c, e, t) && (RelayProgress(net, c, e, t); Arrives(net, e, t));
      RelayProgress(net, c, e, t);
      var rest := PathFrom(net, e, t);
      path := [c] + rest;
      assert forall i :: 0 < i < |path| ==> path[i] == rest[i - 1];
    }
  }

  lemma {:induction false} PathArrives<C, P>(net: Net<C, P>, path: seq<C>, t: Id)
    requires Inv(net) && CoresKeyed(net) && Relayed(net, path, t) && |t| == net.cfg.m
    requires net.nodes[path[|path| - 1]].lbl <= t
    ensures Arrives(net, path[0], t)
    decreases |path|
  {
    hide Inv, CoresKeyed, Live, Relays, Common;
    if |path| > 1 {
      assert Relays(net, path[0], path[1], t);
      RelayProgress(net, path[0], path[1], t);
      PathArrives(net, path[1..], t);
    }
  }

  lemma OneHop<C, P>(net: Net<C, P>, c: C, e: C, t: Id)
    requires Inv(net) && CoresKeyed(net) && c in net.nodes && Live(net, c) && |t| == net.cfg.m
             && !(net.nodes[c].lbl <= t)
    requires Relays(net, c, e, t) && forall d :: d in net.nodes && Relays(net, c, d, t) ==> d == e
    ensures e in net.nodes && Live(net, e) && Common(net.nodes[c].lbl, t) < Common(net.nodes[e].lbl, t)
    ensures Arrives(net, c, t) <==> Arrives(net, e, t)
  {
    hide Inv, CoresKeyed, Live, Relays, Common;
    RelayProgress(net, c, e, t);
  }

  lemma RelayedStarts<C, P>(net: Net<C, P>, path: seq<C>, t: Id)
    requires Relayed(net, path, t)
    ensures path != [] && path[|path| - 1] in net.nodes && Live(net, path[|path| - 1])
  {
    hide Relays;
  }
}
