/** Safety over whole runs of the overlay. */
module Runs {
  import opened Ids
  import opened PrefixCode
  import opened Network
  import opened Invariant
  import opened Steps
  import opened SplitStep
  import opened MergeStep

  lemma StepKeeps<C, P>(net: Net<C, P>, act: Action<C, P>)
    requires Inv(net) && Enabled(net, act) && Safe(net, act)
    ensures Inv(Apply(net, act))
    ensures LinksLive(net) && !act.Merge? ==> LinksLive(Apply(net, act))
    ensures act.Fix? ==> LinksLive(Apply(net, act)) && Repaired(Apply(net, act))
  {
    hide Apply, Enabled, Inv, LinksLive, Repaired;
    match act
    case Split(_, _, _, _) => SplitKeeps(net, act);
    case Merge(_, _, _, _, _, _, _) => MergeKeepsIff(net, act);
    case Fix(_) => FixKeeps(net, act);
    case Join(_, _, _) => LocalLinks(net, act);
    case Leave(_, _, _) => LocalLinks(net, act);
    case Drop(_, _) => LocalLinks(net, act);
    case Put(_, _, _) => LocalLinks(net, act);
    case Delete(_, _) => LocalLinks(net, act);
  }

  lemma LocalLinks<C, P>(net: Net<C, P>, act: Action<C, P>)
    requires Inv(net) && (act.Join? || act.Leave? || act.Drop? || act.Put? || act.Delete?) && Enabled(net, act)
    ensures Inv(Apply(net, act)) && (LinksLive(net) ==> LinksLive(Apply(net, act)))
  {
    LocalKeeps(net, act);
    hide Apply, Enabled, LinksLive, CompleteCode, MemberInv, FlagInv, RegInv, LinkInv, SameTopology;
    SameTopologyKeeps(net, Apply(net, act));
  }

  lemma BootInv<C, P>(net: Net<C, P>)
    requires Boot(net)
    ensures Inv(net) && LinksLive(net)
  {
    var c :| c in net.nodes && net.nodes.Keys == {c} && net.reg == map["" := c] && First(net, net.nodes[c]);
    assert Str([]) == "";
    assert Live(net, c);
    assert Labels(net) == {[]};
    assert forall x: Id :: Owned({[]}, x) by {
      forall x: Id
        ensures Owned({[]}, x)
      {
        var none: Id := [];
        assert none in {none} && none <= x;
      }
    }
  }

  /** In every reachable state the registry is keyed by label, the labels form a complete prefix code, every
      routing table has one entry per label bit leaving the label at that bit, members carry their cluster's
      label, core peers are replicas and spares are empty. */
  lemma {:induction false} RunsKeepInvariant<C, P>(net: Net<C, P>, acts: seq<Action<C, P>>)
    requires Inv(net) && Legal(net, acts)
    ensures Inv(Exec(net, acts))
    decreases |acts|
  {
    hide Inv, Enabled, Safe;
    if acts != [] {
      StepKeeps(net, acts[0]);
      RunsKeepInvariant(Apply(net, acts[0]), acts[1..]);
    }
  }

  lemma ReachableInv<C, P>(net: Net<C, P>, acts: seq<Action<C, P>>)
    requires Boot(net) && Legal(net, acts)
    ensures Inv(Exec(net, acts))
    ensures Bounded(Labels(Exec(net, acts)), net.cfg.m)
    ensures Weight(Labels(Exec(net, acts)), net.cfg.m) == Pow2(net.cfg.m)
  {
    hide Boot, Legal, Exec, Inv, Labels;
    BootInv(net);
    RunsKeepInvariant(net, acts);
    RunsKeepConfig(net, acts);
    FullWeight(Exec(net, acts));
  }

  lemma FullWeight<C, P>(net: Net<C, P>)
    requires Inv(net)
    ensures Bounded(Labels(net), net.cfg.m) && Weight(Labels(net), net.cfg.m) == Pow2(net.cfg.m)
  {
    hide RegInv, LinkInv, MemberInv, FlagInv, Labels;
    CompleteIffFullWeight(Labels(net), net.cfg.m);
  }

  lemma {:induction false} RunsKeepConfig<C, P>(net: Net<C, P>, acts: seq<Action<C, P>>)
    requires Legal(net, acts)
    ensures Exec(net, acts).cfg == net.cfg
    decreases |acts|
  {
    if acts != [] {
      ApplyKeepsConfig(net, acts[0]);
      hide Apply, Enabled, Safe;
      RunsKeepConfig(Apply(net, acts[0]), acts[1..]);
    }
  }

  lemma ApplyKeepsConfig<C, P>(net: Net<C, P>, act: Action<C, P>)
    requires Enabled(net, act)
    ensures Apply(net, act).cfg == net.cfg
  {
  }

  /** Every merge of the run is followed, at once or later, by a repair. */
  ghost predicate MergesRepaired<C, P>(acts: seq<Action<C, P>>) {
    forall i :: 0 <= i < |acts| && acts[i].Merge? ==> exists j :: i < j < |acts| && acts[j].Fix?
  }

  /** Only a merge leaves routing tables naming clusters out of service: over any run in which every merge is
      followed by a repair, and which starts with live links or contains a repair, links are live in the end. */
  lemma {:induction false} RunsKeepLinksLive<C, P>(net: Net<C, P>, acts: seq<Action<C, P>>)
    requires Inv(net) && Legal(net, acts) && MergesRepaired(acts)
    requires LinksLive(net) || exists j :: 0 <= j < |acts| && acts[j].Fix?
    ensures LinksLive(Exec(net, acts))
    decreases |acts|
  {
    hide Inv, Enabled, Safe, LinksLive, Apply;
    if acts != [] {
      StepKeeps(net, acts[0]);
      var rest := acts[1..];
      RestRepaired(acts);
      if j :| 0 <= j < |acts| && acts[j].Fix? && j > 0 {
        assert rest[j - 1].Fix?;
      }
      RunsKeepLinksLive(Apply(net, acts[0]), rest);
    }
  }

  lemma RestRepaired<C, P>(acts: seq<Action<C, P>>)
    requires MergesRepaired(acts) && acts != []
    ensures MergesRepaired(acts[1..])
    ensures acts[0].Merge? ==> exists j :: 0 <= j < |acts[1..]| && acts[1..][j].Fix?
  {
    var rest := acts[1..];
    forall i | 0 <= i < |rest| && rest[i].Merge?
      ensures exists j :: i < j < |rest| && rest[j].Fix?
    {
      assert acts[i + 1].Merge?;
      var j :| i + 1 < j < |acts| && acts[j].Fix?;
      assert rest[j - 1].Fix?;
    }
    if acts[0].Merge? {
      var j :| 0 < j < |acts| && acts[j].Fix?;
      assert rest[j - 1].Fix?;
    }
  }

  /** Cluster `x` has a routing-table slot naming `c` or `b`. */
  ghost predicate PointsAt<C, P>(net: Net<C, P>, x: C, c: C, b: C)
    requires x in net.nodes
  {
    c in net.nodes[x].rt || b in net.nodes[x].rt
  }

  /** The last link of a label is none of the others, and none is the label's own. */
  lemma LinksDiffer<C, P>(net: Net<C, P>, c: C, i: nat)
    requires c in net.nodes && NodeLinks(net, c) && i + 1 < |net.nodes[c].rt|
    ensures net.nodes[c].rt[i] != c && net.nodes[c].rt[i] != net.nodes[c].rt[|net.nodes[c].lbl| - 1]
  {
    var n := net.nodes[c];
    var last := net.nodes[n.rt[|n.lbl| - 1]].lbl;
    assert LinkAt(n.lbl, net.nodes[n.rt[i]].lbl, i) && LinkAt(n.lbl, last, |n.lbl| - 1);
    AgreeBelow(n.lbl, last, |n.lbl| - 1);
  }

  lemma LiveIn<C, P>(net: Net<C, P>, d: C)
    requires Live(net, d)
    ensures d in net.nodes
  {
  }

  /** No repair follows a merge. Links that were live stay live exactly when no third cluster in service points
      at either of the merged ones. */
  lemma MergeKeepsLinksLiveIff<C, P>(net: Net<C, P>, act: Action<C, P>)
    requires Inv(net) && LinksLive(net) && act.Merge? && Enabled(net, act)
    ensures LinksLive(Apply(net, act)) <==>
            forall x :: x in net.nodes && Live(net, x) && x != act.c && x != act.b ==> !PointsAt(net, x, act.c, act.b)
  {
    hide Inv, Apply, Enabled, Live, NodeInv, Labels, Combined;
    MergeLive(net, act);
    MergeParts(net, act);
    MergeResult(net, act);
    var net' := Apply(net, act);
    forall i: nat | i + 1 < |net.nodes[act.c].rt|
      ensures net.nodes[act.c].rt[i] != act.c && net.nodes[act.c].rt[i] != act.b
    {
      LinksDiffer(net, act.c, i);
    }
    if forall x :: x in net.nodes && Live(net, x) && x != act.c && x != act.b ==> !PointsAt(net, x, act.c, act.b) {
      forall x, i | x in net'.nodes && Live(net', x) && 0 <= i < |net'.nodes[x].rt|
        ensures Live(net', net'.nodes[x].rt[i])
      {
        var y := if x == act.m then act.c else x;
        var d := net.nodes[y].rt[i];
        assert net'.nodes[x].rt[i] == d && Live(net, d);
        assert d != act.c && d != act.b by {
          if x != act.m {
            assert !PointsAt(net, x, act.c, act.b);
          }
        }
        LiveIn(net, d);
      }
    }
  }
}
