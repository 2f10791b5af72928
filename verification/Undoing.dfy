/** What a split leaves behind can be merged again: the two halves stay each other's merge partner over any
    run that splits and merges neither of them. */
module Undoing {
  import opened Cardinality
  import opened Ids
  import opened PrefixCode
  import opened Network
  import opened Invariant
  import opened Steps
  import opened SplitStep
  import opened MergeStep
  import opened Runs

  /** `x` and `y` hold the labels that extend `l` by `b` and by the other bit, and `x` would merge with `y`. */
  ghost predicate Twin<C, P>(net: Net<C, P>, x: C, y: C, l: Id, b: bool) {
    && x in net.nodes && y in net.nodes && Live(net, x) && Live(net, y)
    && net.nodes[x].lbl == l + [b] && net.nodes[y].lbl == l + [!b]
    && |net.nodes[x].rt| == |l| + 1 && net.nodes[x].rt[|l|] == y
  }

  /** The step neither splits nor merges `x` or `y`. */
  ghost predicate Spares<C, P>(act: Action<C, P>, x: C, y: C) {
    && (act.Split? ==> act.c != x && act.c != y)
    && (act.Merge? ==> act.c != x && act.c != y && act.b != x && act.b != y)
  }

  lemma TwinKeptLocally<C, P>(net: Net<C, P>, act: Action<C, P>, x: C, y: C, l: Id, b: bool)
    requires Inv(net) && (act.Join? || act.Leave? || act.Drop? || act.Put? || act.Delete?) && Enabled(net, act)
    requires Twin(net, x, y, l, b)
    ensures Twin(Apply(net, act), x, y, l, b) && Apply(net, act).nodes[x].rt == net.nodes[x].rt
  {
    hide Inv, Enabled, Apply, Live;
    LocalKeeps(net, act);
    SameLabelsLive(net, Apply(net, act));
  }

  lemma SplitSparesOthers<C, P>(net: Net<C, P>, act: Action<C, P>, x: C)
    requires Inv(net) && act.Split? && Enabled(net, act) && x in net.nodes && Live(net, x) && x != act.c
    ensures var net' := Apply(net, act); x in net'.nodes && Live(net', x) && net'.nodes[x] == net.nodes[x]
  {
    SplitCode(net, act);
    SplitIsShape(net, act);
  }

  lemma FixedSlot<C, P>(net: Net<C, P>, act: Action<C, P>, x: C)
    requires act.Fix? && Enabled(net, act) && x in net.nodes && Live(net, x)
    ensures Apply(net, act).nodes.Keys == net.nodes.Keys && Apply(net, act).reg == net.reg
    ensures var o, n := Apply(net, act).nodes[x], net.nodes[x];
            && o.lbl == n.lbl && |o.rt| == |n.rt| == |n.lbl|
            && forall i :: 0 <= i < |o.rt| ==>
                 Live(net, o.rt[i]) && Nearest(Labels(net), n.lbl, i, net.nodes[o.rt[i]].lbl)
  {
    hide Nearest, Labels, Str;
    assert x in act.tables;
  }

  /** While the sibling is in service it is the only label a repair can put into the last slot. */
  lemma OnlySibling(s: set<Id>, m: nat, l: Id, b: bool, k: Id)
    requires CompleteCode(s, m) && l + [b] in s && l + [!b] in s && Nearest(s, l + [b], |l|, k)
    ensures k == l + [!b]
  {
    NearestIffComparable(s, m, l + [b], |l|, k);
    assert Flip(l + [b], |l|) == l + [!b];
  }

  lemma TwinKeptByFix<C, P>(net: Net<C, P>, act: Action<C, P>, x: C, y: C, l: Id, b: bool)
    requires Inv(net) && act.Fix? && Enabled(net, act) && Twin(net, x, y, l, b)
    ensures Twin(Apply(net, act), x, y, l, b)
  {
    hide Inv, Enabled, Apply, Nearest, Labels, CompleteCode;
    FixedSlot(net, act, x);
    FixedSlot(net, act, y);
    LiveLabel(net, x);
    LiveLabel(net, y);
    var z := Apply(net, act).nodes[x].rt[|l|];
    OnlySibling(Labels(net), net.cfg.m, l, b, net.nodes[z].lbl);
  }

  lemma TwinKept<C, P>(net: Net<C, P>, act: Action<C, P>, x: C, y: C, l: Id, b: bool)
    requires Inv(net) && Enabled(net, act) && Twin(net, x, y, l, b) && Spares(act, x, y)
    ensures Twin(Apply(net, act), x, y, l, b)
    ensures !act.Fix? ==> Apply(net, act).nodes[x].rt == net.nodes[x].rt
  {
    hide Inv, Enabled, Apply, Live;
    match act
    case Split(_, _, _, _) =>
      SplitSparesOthers(net, act, x);
      SplitSparesOthers(net, act, y);
    case Merge(_, _, _, _, _, _, _) => MergeLive(net, act);
    case Fix(_) => TwinKeptByFix(net, act, x, y, l, b);
    case Join(_, _, _) => TwinKeptLocally(net, act, x, y, l, b);
    case Leave(_, _, _) => TwinKeptLocally(net, act, x, y, l, b);
    case Drop(_, _) => TwinKeptLocally(net, act, x, y, l, b);
    case Put(_, _, _) => TwinKeptLocally(net, act, x, y, l, b);
    case Delete(_, _) => TwinKeptLocally(net, act, x, y, l, b);
  }

  lemma {:induction false} RunsKeepTwin<C, P>(net: Net<C, P>, acts: seq<Action<C, P>>, x: C, y: C, l: Id, b: bool)
    requires Inv(net) && Legal(net, acts) && Twin(net, x, y, l, b)
    requires forall i :: 0 <= i < |acts| ==> Spares(acts[i], x, y)
    ensures Twin(Exec(net, acts), x, y, l, b)
    ensures (forall i :: 0 <= i < |acts| ==> !acts[i].Fix?) ==> Exec(net, acts).nodes[x].rt == net.nodes[x].rt
    decreases |acts|
  {
    hide Inv, Enabled, Apply, Safe, Twin, Spares;
    if acts != [] {
      TwinKept(net, acts[0], x, y, l, b);
      StepKeeps(net, acts[0]);
      RunsKeepTwin(Apply(net, acts[0]), acts[1..], x, y, l, b);
    }
    TwinNode(Exec(net, acts), x, y, l, b);
    TwinNode(net, x, y, l, b);
  }

  lemma TwinNode<C, P>(net: Net<C, P>, x: C, y: C, l: Id, b: bool)
    requires Twin(net, x, y, l, b)
    ensures x in net.nodes && net.nodes[x].lbl == l + [b] && |net.nodes[x].rt| == |l| + 1
  {
  }

  lemma HalvesAreTwins<C, P>(net: Net<C, P>, act: Action<C, P>)
    requires Inv(net) && act.Split? && Enabled(net, act)
    ensures act.c in net.nodes && Live(net, act.c)
    ensures var net', l := Apply(net, act), net.nodes[act.c].lbl;
            && Twin(net', act.c, act.oc, l, false) && Twin(net', act.oc, act.c, l, true)
            && net'.nodes[act.c].rt[..|l|] == net.nodes[act.c].rt && net'.nodes[act.oc].rt[..|l|] == net.nodes[act.c].rt
  {
    SplitCode(net, act);
    SplitIsShape(net, act);
    assert NodeLinks(net, act.c);
  }

  lemma MergeOfTwins<C, P>(net: Net<C, P>, act: Action<C, P>, y: C, l: Id, b: bool)
    requires act.Merge? && Enabled(net, act) && Twin(net, act.c, y, l, b)
    ensures act.b == y && Safe(net, act)
    ensures var last := Apply(net, act);
            act.m in last.nodes && last.nodes[act.m].lbl == l && last.nodes[act.m].rt == net.nodes[act.c].rt[..|l|]
  {
    hide Live, Apply, Enabled, Combined;
    MergeResult(net, act);
    assert Parent(l + [b]) == l;
  }

  /** The merged cluster has the label `l` and the first |l| entries of the table its starter had. */
  ghost predicate Restored<C, P>(before: Net<C, P>, last: Net<C, P>, merge: Action<C, P>, l: Id) {
    && merge.Merge? && merge.c in before.nodes && merge.m in last.nodes
    && last.nodes[merge.m].lbl == l
    && |l| <= |before.nodes[merge.c].rt| && last.nodes[merge.m].rt == before.nodes[merge.c].rt[..|l|]
  }

  /** The merged cluster has the label and the table that `c` had. */
  ghost predicate Returned<C, P>(net: Net<C, P>, last: Net<C, P>, c: C, m: C) {
    && c in net.nodes && m in last.nodes
    && last.nodes[m].lbl == net.nodes[c].lbl && last.nodes[m].rt == net.nodes[c].rt
  }

  /** The partner of one of two clusters is the other. */
  function Other<C(==)>(c: C, x: C, y: C): C {
    if c == x then y else x
  }

  /** Whatever happens after a split other than splitting or merging one of its halves, a merge started by
      either half picks the other half and is safe. It gives back the label from before the split and the
      first entries of the current table; without a repair in between that is the table from before. */
  lemma MergeUndoesSplit<C, P>(net: Net<C, P>, split: Action<C, P>, acts: seq<Action<C, P>>, merge: Action<C, P>)
    requires Inv(net) && split.Split? && Enabled(net, split) && Legal(Apply(net, split), acts)
    requires forall i :: 0 <= i < |acts| ==> Spares(acts[i], split.c, split.oc)
    requires merge.Merge? && (merge.c == split.c || merge.c == split.oc)
             && Enabled(Exec(Apply(net, split), acts), merge)
    ensures merge.b == Other(merge.c, split.c, split.oc) && Safe(Exec(Apply(net, split), acts), merge)
    ensures split.c in net.nodes
    ensures var before := Exec(Apply(net, split), acts);
            Restored(before, Apply(before, merge), merge, net.nodes[split.c].lbl)
    ensures (forall i :: 0 <= i < |acts| ==> !acts[i].Fix?) ==>
              Returned(net, Apply(Exec(Apply(net, split), acts), merge), split.c, merge.m)
  {
    hide Inv, Enabled, Apply, Live, Twin, Spares, Legal, Exec;
    HalvesAreTwins(net, split);
    var after, l := Apply(net, split), net.nodes[split.c].lbl;
    StepKeeps(net, split);
    var y, b := Other(merge.c, split.c, split.oc), merge.c != split.c;
    SparesEither(acts, split.c, split.oc);
    RunsKeepTwin(after, acts, merge.c, y, l, b);
    TwinNode(Exec(after, acts), merge.c, y, l, b);
    MergeOfTwins(Exec(after, acts), merge, y, l, b);
  }

  lemma SparesEither<C, P>(acts: seq<Action<C, P>>, x: C, y: C)
    requires forall i :: 0 <= i < |acts| ==> Spares(acts[i], x, y)
    ensures forall i :: 0 <= i < |acts| ==> Spares(acts[i], y, x)
  {
  }

  // ---------------------------------------------------------------- such a run and merge always exist

  /** Every spare of `c` is nominated once: its core keeps its size, and only `c` changes. */
  ghost predicate Drained<C, P>(net: Net<C, P>, net': Net<C, P>, c: C) {
    && net'.nodes.Keys == net.nodes.Keys && c in net.nodes && Live(net', c)
    && var o, n := net'.nodes[c], net.nodes[c];
    && o.vs == map[] && |o.vc| == |n.vc| && o.lbl == n.lbl && o.rt == n.rt && o.merging == n.merging
    && forall x :: x in net.nodes && x != c ==> net'.nodes[x] == net.nodes[x]
  }

  lemma LeaveOnce<C, P>(net: Net<C, P>, c: C) returns (act: Action<C, P>)
    requires Inv(net) && c in net.nodes && Live(net, c) && net.nodes[c].vc != map[] && net.nodes[c].vs != map[]
    ensures act.Leave? && act.c == c && Enabled(net, act)
    ensures var net', n := Apply(net, act), net.nodes[c];
            && net'.nodes.Keys == net.nodes.Keys && Live(net', c)
            && var o := net'.nodes[c];
            && |o.vs| == |n.vs| - 1 && |o.vc| == |n.vc| && o.lbl == n.lbl && o.rt == n.rt && o.merging == n.merging
            && forall x :: x in net.nodes && x != c ==> net'.nodes[x] == net.nodes[x]
  {
    hide Inv, Enabled, Apply, Live;
    var key :| key in net.nodes[c].vc;
    var nominee :| nominee in net.nodes[c].vs;
    act := Leave(c, key, nominee);
    LeaveAllowed(net, act);
    LeaveSizes(net, act);
    InvParts(net);
    LocalShape(net, act);
    SameLabelsLive(net, Apply(net, act));
  }

  lemma LeaveAllowed<C, P>(net: Net<C, P>, act: Action<C, P>)
    requires act.Leave? && act.c in net.nodes && Live(net, act.c)
    requires act.key in net.nodes[act.c].vc && act.nominee in net.nodes[act.c].vs
    ensures Enabled(net, act)
  {
  }

  lemma LeaveSizes<C, P>(net: Net<C, P>, act: Action<C, P>)
    requires Inv(net) && act.Leave? && Enabled(net, act)
    ensures var o, n := Apply(net, act).nodes[act.c], net.nodes[act.c];
            |o.vs| == |n.vs| - 1 && |o.vc| == |n.vc| && o.merging == n.merging
  {
    hide RegInv, LinkInv, FlagInv, CompleteCode, Str, Keyed, Replicas, AllHold, Known;
    var n := net.nodes[act.c];
    assert NodeInv(net, n);
    SwapSize(n.vc, act.key, act.nominee, n.vs[act.nominee]);
    RemoveSize(n.vs, act.nominee);
  }

  lemma {:induction false} Drain<C, P>(net: Net<C, P>, c: C) returns (acts: seq<Action<C, P>>)
    requires Inv(net) && c in net.nodes && Live(net, c) && |net.nodes[c].vc| > 0
    ensures Legal(net, acts) && Drained(net, Exec(net, acts), c)
    ensures forall i :: 0 <= i < |acts| ==> acts[i].Leave? && acts[i].c == c
    decreases |net.nodes[c].vs|
  {
    hide Inv, Enabled, Apply, Live;
    if net.nodes[c].vs == map[] {
      acts := [];
    } else {
      NonEmpty(net.nodes[c].vc);
      var act := LeaveOnce(net, c);
      StepKeeps(net, act);
      var rest := Drain(Apply(net, act), c);
      acts := [act] + rest;
      assert acts[1..] == rest;
    }
  }

  lemma TwoCores<P>(vc: map<string, P>) returns (j: string, k: string)
    requires |vc| > 1
    ensures j in vc && k in vc && j != k
  {
    NonEmpty(vc);
    j :| j in vc;
    RemoveSize(vc, j);
    NonEmpty(vc - {j});
    k :| k in vc - {j};
  }

  /** Every split of a cluster that is not marked as merging can be undone: some run of leaves at the shrunken
      cluster enables a merge with the other half. */
  lemma SplitCanBeUndone<C, P>(net: Net<C, P>, split: Action<C, P>, m: C)
    returns (acts: seq<Action<C, P>>, merge: Action<C, P>)
    requires Inv(net) && split.Split? && Enabled(net, split) && 1 < net.cfg.smin
    requires !net.nodes[split.c].merging && m !in net.nodes && m != split.oc
    ensures Legal(Apply(net, split), acts) && forall i :: 0 <= i < |acts| ==> Spares(acts[i], split.c, split.oc)
    ensures merge.Merge? && merge.c == split.c && merge.b == split.oc && Enabled(Exec(Apply(net, split), acts), merge)
  {
    hide Inv, Enabled, Apply, Live, Twin, Legal, Exec;
    SplitCores(net, split);
    StepKeeps(net, split);
    HalvesAreTwins(net, split);
    var after, c := Apply(net, split), split.c;
    SplitLive(net, split);
    acts := Drain(after, c);
    merge := DrainedMerges(net.nodes[c].lbl, after, Exec(after, acts), c, split.oc, m);
  }

  lemma SplitLive<C, P>(net: Net<C, P>, act: Action<C, P>)
    requires Inv(net) && act.Split? && Enabled(net, act)
    ensures Live(Apply(net, act), act.c) && act.c != act.oc
  {
    SplitCode(net, act);
  }

  lemma DrainedMerges<C, P>(l: Id, after: Net<C, P>, before: Net<C, P>, c: C, oc: C, m: C) returns (merge: Action<C, P>)
    requires Twin(after, c, oc, l, false) && c != oc && Drained(after, before, c) && m !in after.nodes
    requires |after.nodes[c].vc| > 1 && |after.nodes[oc].vc| > 1
    requires !after.nodes[c].merging && !after.nodes[oc].merging
    ensures merge.Merge? && merge.c == c && merge.b == oc && Enabled(before, merge)
  {
    hide Enabled, Live;
    var key, pa := TwoCores(before.nodes[c].vc);
    var kept, _ := TwoCores(before.nodes[oc].vc);
    merge := Merge(c, key, oc, m, pa, kept, kept);
    MergeAllowed(before, merge);
  }

  lemma MergeAllowed<C, P>(net: Net<C, P>, act: Action<C, P>)
    requires act.Merge? && act.c in net.nodes && Live(net, act.c) && act.key in net.nodes[act.c].vc
    requires net.nodes[act.c].vs == map[] && !net.nodes[act.c].merging
    requires var n := net.nodes[act.c];
             && n.lbl != [] && |n.rt| == |n.lbl| && act.b == n.rt[|n.lbl| - 1] && act.pa in n.vc && act.pa != act.key
    requires act.b in net.nodes && !net.nodes[act.b].merging && act.b != act.c && act.m !in net.nodes
    requires act.pb in net.nodes[act.b].vc && act.kept in net.nodes[act.b].vc
    ensures Enabled(net, act)
  {
  }

  lemma SplitCores<C, P>(net: Net<C, P>, act: Action<C, P>)
    requires Inv(net) && act.Split? && Enabled(net, act)
    ensures act.c in net.nodes && act.oc !in net.nodes
    ensures var net' := Apply(net, act);
            && net'.nodes.Keys == net.nodes.Keys + {act.oc}
            && |net'.nodes[act.c].vc| == net.cfg.smin && |net'.nodes[act.oc].vc| == net.cfg.smin
            && net'.nodes[act.c].merging == net.nodes[act.c].merging && !net'.nodes[act.oc].merging
  {
    hide RegInv, LinkInv, FlagInv, CompleteCode, Str, Keyed, Replicas, AllHold, Known, CanSplit, SetData, Filter,
         Lowest, Under;
    var n := net.nodes[act.c];
    assert NodeInv(net, n);
    HalfSizes(net.cfg, n, false, act.h0);
    HalfSizes(net.cfg, n, true, act.h1);
  }
}
