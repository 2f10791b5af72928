/** Every step of the overlay keeps the global invariant, and which of its halves a step needs. */
module Invariant {
  import opened Ids
  import opened PrefixCode
  import opened Network

  lemma LabelOwner<C, P>(net: Net<C, P>, l: Id)
    requires RegInv(net)
    ensures l in Labels(net) <==> Str(l) in net.reg
    ensures l in Labels(net) ==> Live(net, net.reg[Str(l)]) && net.nodes[net.reg[Str(l)]].lbl == l
  {
    if Str(l) in net.reg {
      StrInjective(net.nodes[net.reg[Str(l)]].lbl, l);
      assert Live(net, net.reg[Str(l)]);
    }
  }

  /** Clusters in service never share a member, because no label extends another. */
  lemma MembersApart<C, P>(net: Net<C, P>, c: C, d: C)
    requires PrefixFree(Labels(net))
    requires c in net.nodes && d in net.nodes && Live(net, c) && Live(net, d) && c != d
    requires NodeInv(net, net.nodes[c]) && NodeInv(net, net.nodes[d])
    ensures forall k :: k in net.nodes[c].vc || k in net.nodes[c].vs ==> k !in net.nodes[d].vc && k !in net.nodes[d].vs
  {
    var n, o := net.nodes[c], net.nodes[d];
    assert n.lbl in Labels(net) && o.lbl in Labels(net);
    forall k | k in n.vc || k in n.vs
      ensures k !in o.vc && k !in o.vs
    {
      if k in o.vc || k in o.vs {
        PrefixesOfOne(n.lbl, o.lbl, Parse(k));
      }
    }
  }

  /** The members' keys and stores are as before. */
  ghost predicate Untouched<P>(keys: map<P, string>, data: map<P, Data>, keys': map<P, string>, data': map<P, Data>,
                               mem: map<string, P>) {
    forall k :: k in mem ==>
                  && mem[k] in data && mem[k] in keys
                  && mem[k] in data' && mem[k] in keys'
                  && data'[mem[k]] == data[mem[k]] && keys'[mem[k]] == keys[mem[k]]
  }

  lemma CellFrame<P>(cfg: Config, keys: map<P, string>, data: map<P, Data>, keys': map<P, string>, data': map<P, Data>,
                     lbl: Id, vc: map<string, P>, vs: map<string, P>, merging: bool)
    requires Cell(cfg, keys, data, lbl, vc, vs, merging)
    requires Untouched(keys, data, keys', data', vc) && Untouched(keys, data, keys', data', vs)
    ensures Cell(cfg, keys', data', lbl, vc, vs, merging)
  {
    hide Keyed, Sizes, DataUnder;
  }

  lemma LinkExtends(own: Id, own': Id, o: Id, o': Id, i: nat)
    requires LinkAt(own, o, i) && own <= own' && o <= o'
    ensures LinkAt(own', o', i)
  {
    assert own'[..i] == own[..i] && o'[..i] == o[..i];
  }

  // ---------------------------------------------------------------- shapes: labels, tables and registry only

  ghost predicate SplitShape<C, P>(net: Net<C, P>, net': Net<C, P>, c: C, oc: C) {
    && c in net.nodes && Live(net, c) && oc !in net.nodes
    && net'.nodes.Keys == net.nodes.Keys + {oc}
    && var n := net.nodes[c];
    && (forall x :: x in net.nodes && x != c ==>
                      net'.nodes[x].lbl == net.nodes[x].lbl && net'.nodes[x].rt == net.nodes[x].rt)
    && net'.nodes[c].lbl == n.lbl + [false] && net'.nodes[c].rt == n.rt + [oc]
    && net'.nodes[oc].lbl == n.lbl + [true] && net'.nodes[oc].rt == n.rt + [c]
    && net'.reg == (net.reg[Str(n.lbl + [true]) := oc] - {Str(n.lbl)})[Str(n.lbl + [false]) := c]
  }

  ghost predicate MergeShape<C, P>(net: Net<C, P>, net': Net<C, P>, c: C, b: C, m: C) {
    && c in net.nodes && Live(net, c) && b in net.nodes && Live(net, b) && b != c && m !in net.nodes
    && net'.nodes.Keys == net.nodes.Keys + {m}
    && var n := net.nodes[c];
    && n.lbl != [] && |n.rt| == |n.lbl|
    && (forall x :: x in net.nodes ==>
                      net'.nodes[x].lbl == net.nodes[x].lbl && net'.nodes[x].rt == net.nodes[x].rt)
    && net'.nodes[m].lbl == Parent(n.lbl) && net'.nodes[m].rt == n.rt[..|n.lbl| - 1]
    && net'.reg == (net.reg - {Str(n.lbl), Str(net.nodes[b].lbl)})[Str(Parent(n.lbl)) := m]
  }

  ghost predicate SameLabels<C, P>(net: Net<C, P>, net': Net<C, P>) {
    && net'.reg == net.reg && net'.nodes.Keys == net.nodes.Keys
    && (forall x :: x in net.nodes ==> net'.nodes[x].lbl == net.nodes[x].lbl)
  }

  lemma SameLabelsLive<C, P>(net: Net<C, P>, net': Net<C, P>)
    requires SameLabels(net, net')
    ensures forall x :: x in net.nodes ==> (Live(net', x) <==> Live(net, x))
    ensures Labels(net') == Labels(net)
    ensures RegInv(net) ==> RegInv(net')
  {
    forall k | k in Labels(net)
      ensures k in Labels(net')
    {
      var x :| x in net.nodes && Live(net, x) && net.nodes[x].lbl == k;
      assert Live(net', x);
    }
  }

  lemma SplitTopology<C, P>(net: Net<C, P>, net': Net<C, P>, c: C, oc: C)
    requires RegInv(net) && PrefixFree(Labels(net)) && SplitShape(net, net', c, oc)
    ensures RegInv(net') && Live(net', c) && Live(net', oc)
    ensures forall x :: x in net.nodes && x != c ==> (Live(net', x) <==> Live(net, x))
    ensures Labels(net') == AfterSplit(Labels(net), net.nodes[c].lbl)
  {
    var l := net.nodes[c].lbl;
    var l0, l1 := l + [false], l + [true];
    assert l in Labels(net) && l <= l0 && l <= l1 && l0[|l|] != l1[|l|];
    assert l0 !in Labels(net) && l1 !in Labels(net);
    LabelOwner(net, l0);
    LabelOwner(net, l1);
    StrInjective(l0, l);
    StrInjective(l1, l);
    StrInjective(l1, l0);
    forall x | x in net.nodes && x != c
      ensures Live(net', x) <==> Live(net, x)
    {
      StrInjective(net.nodes[x].lbl, l);
      StrInjective(net.nodes[x].lbl, l0);
      StrInjective(net.nodes[x].lbl, l1);
    }
    SplitLabels(net, net', c, oc);
  }

  lemma SplitLabels<C, P>(net: Net<C, P>, net': Net<C, P>, c: C, oc: C)
    requires SplitShape(net, net', c, oc) && Live(net', c) && Live(net', oc)
    requires forall x :: x in net.nodes && x != c ==> (Live(net', x) <==> Live(net, x))
    ensures Labels(net') == AfterSplit(Labels(net), net.nodes[c].lbl)
  {
    var l := net.nodes[c].lbl;
    forall k | k in Labels(net')
      ensures k in AfterSplit(Labels(net), l)
    {
      var x :| x in net'.nodes && Live(net', x) && net'.nodes[x].lbl == k;
      if x != c && x != oc {
        StrInjective(k, l);
      }
    }
    forall k | k in AfterSplit(Labels(net), l)
      ensures k in Labels(net')
    {
      if k in Labels(net) && k != l {
        var x :| x in net.nodes && Live(net, x) && net.nodes[x].lbl == k;
        assert Live(net', x);
      } else {
        assert k == net'.nodes[if k == l + [false] then c else oc].lbl;
      }
    }
  }

  /** A split keeps every link right before any repair: at the shrunken cluster, at the new one, and at
      third clusters that still point at the shrunken one. */
  lemma SplitNodeLinks<C, P>(net: Net<C, P>, net': Net<C, P>, c: C, oc: C, x: C)
    requires LinkInv(net) && SplitShape(net, net', c, oc) && x in net'.nodes
    ensures NodeLinks(net', x)
  {
    hide LinkAt, Live, Str;
    var y := if x == oc then c else x;
    assert NodeLinks(net, y);
    forall i | 0 <= i < |net.nodes[y].rt|
      ensures LinkAt(net'.nodes[x].lbl, net'.nodes[net.nodes[y].rt[i]].lbl, i)
    {
      var z := net.nodes[y].rt[i];
      LinkExtends(net.nodes[y].lbl, net'.nodes[x].lbl, net.nodes[z].lbl, net'.nodes[z].lbl, i);
    }
    if x == c || x == oc {
      var l := net.nodes[c].lbl;
      SiblingsLink(l);
    }
  }

  lemma SiblingsLink(l: Id)
    ensures LinkAt(l + [false], l + [true], |l|) && LinkAt(l + [true], l + [false], |l|)
  {
  }

  lemma SplitKeepsLinks<C, P>(net: Net<C, P>, net': Net<C, P>, c: C, oc: C)
    requires RegInv(net) && PrefixFree(Labels(net)) && LinkInv(net) && SplitShape(net, net', c, oc)
    ensures LinkInv(net')
    ensures LinksLive(net) ==> LinksLive(net')
  {
    hide NodeLinks, Labels, PrefixFree, RegInv, Str;
    forall x | x in net'.nodes
      ensures NodeLinks(net', x)
    {
      SplitNodeLinks(net, net', c, oc, x);
    }
    SplitTopology(net, net', c, oc);
  }

  lemma MergeTopology<C, P>(net: Net<C, P>, net': Net<C, P>, c: C, b: C, m: C)
    requires RegInv(net) && PrefixFree(Labels(net)) && MergeShape(net, net', c, b, m)
    ensures RegInv(net') && Live(net', m) && !Live(net', c) && !Live(net', b)
    ensures forall x :: x in net.nodes && x != c && x != b ==> (Live(net', x) <==> Live(net, x))
    ensures Labels(net') == AfterMerge(Labels(net), net.nodes[c].lbl, net.nodes[b].lbl)
  {
    hide PrefixFree, Labels, Str;
    MergeNames(net, c, b);
    forall x | x in net.nodes && x != c && x != b
      ensures Live(net', x) <==> Live(net, x)
    {
      StrInjective(net.nodes[x].lbl, net.nodes[c].lbl);
      StrInjective(net.nodes[x].lbl, net.nodes[b].lbl);
      StrInjective(net.nodes[x].lbl, Parent(net.nodes[c].lbl));
    }
    MergeLabels(net, net', c, b, m);
  }

  /** The three labels of a merge have different strings, and the parent's is not taken. */
  lemma MergeNames<C, P>(net: Net<C, P>, c: C, b: C)
    requires RegInv(net) && PrefixFree(Labels(net)) && c in net.nodes && b in net.nodes && c != b
    requires Live(net, c) && Live(net, b) && net.nodes[c].lbl != []
    ensures var a, o := net.nodes[c].lbl, net.nodes[b].lbl;
            && Str(Parent(a)) !in net.reg && Str(a) != Str(o)
            && Str(Parent(a)) != Str(a) && Str(Parent(a)) != Str(o)
  {
    var a, o := net.nodes[c].lbl, net.nodes[b].lbl;
    var p := Parent(a);
    assert a in Labels(net) && o in Labels(net) && p <= a;
    LabelOwner(net, p);
    StrInjective(p, a);
    StrInjective(p, o);
    StrInjective(a, o);
  }

  lemma MergeLabels<C, P>(net: Net<C, P>, net': Net<C, P>, c: C, b: C, m: C)
    requires MergeShape(net, net', c, b, m) && Live(net', m) && !Live(net', c) && !Live(net', b)
    requires forall x :: x in net.nodes && x != c && x != b ==> (Live(net', x) <==> Live(net, x))
    ensures Labels(net') == AfterMerge(Labels(net), net.nodes[c].lbl, net.nodes[b].lbl)
  {
    var a, o := net.nodes[c].lbl, net.nodes[b].lbl;
    forall k | k in Labels(net')
      ensures k in AfterMerge(Labels(net), a, o)
    {
      var x :| x in net'.nodes && Live(net', x) && net'.nodes[x].lbl == k;
      if x != m {
        StrInjective(k, a);
        StrInjective(k, o);
      }
    }
    forall k | k in AfterMerge(Labels(net), a, o)
      ensures k in Labels(net')
    {
      if k == Parent(a) {
        assert k == net'.nodes[m].lbl;
      } else {
        var x :| x in net.nodes && Live(net, x) && net.nodes[x].lbl == k;
        assert Live(net', x);
      }
    }
  }

  /** Whatever partner a merge picks, links still leave each label at the right bit; only their targets may be
      out of service. */
  lemma MergeKeepsLinks<C, P>(net: Net<C, P>, net': Net<C, P>, c: C, b: C, m: C)
    requires LinkInv(net) && MergeShape(net, net', c, b, m)
    ensures LinkInv(net')
  {
    forall x | x in net'.nodes
      ensures NodeLinks(net', x)
    {
      var y := if x == m then c else x;
      assert NodeLinks(net, y);
      var own := net.nodes[y].lbl;
      forall i | 0 <= i < |net'.nodes[x].rt|
        ensures LinkAt(net'.nodes[x].lbl, net'.nodes[net'.nodes[x].rt[i]].lbl, i)
      {
        assert net'.nodes[x].lbl[..i] == own[..i];
      }
    }
  }

  /** The last routing-table entry lies under the sibling; it is the sibling exactly when its label is as long. */
  lemma PartnerIsSibling<C, P>(net: Net<C, P>, c: C)
    requires c in net.nodes && NodeLinks(net, c) && net.nodes[c].lbl != []
    ensures var a := net.nodes[c].lbl;
            var o := net.nodes[net.nodes[c].rt[|a| - 1]].lbl;
            Sibling(a) <= o && (|o| == |a| <==> o == Sibling(a))
  {
    var a := net.nodes[c].lbl;
    LinkAtLastBit(a, net.nodes[net.nodes[c].rt[|a| - 1]].lbl);
  }

  /** Every slot of every cluster in service was given a nearest label's cluster. */
  ghost predicate Repaired<C, P>(net: Net<C, P>) {
    forall c :: c in net.nodes && Live(net, c) ==> RepairedNode(net, c)
  }

  ghost predicate RepairedNode<C, P>(net: Net<C, P>, c: C)
    requires c in net.nodes
  {
    var n := net.nodes[c];
    && |n.rt| == |n.lbl|
    && forall i :: 0 <= i < |n.rt| ==>
                     n.rt[i] in net.nodes && Live(net, n.rt[i])
                     && Nearest(Labels(net), n.lbl, i, net.nodes[n.rt[i]].lbl)
  }

  /** What repair leaves behind, from any table contents of the right length, is live links: slot `i`
      extends or is extended by the label with bit `i` flipped. */
  lemma RepairedLinks<C, P>(net: Net<C, P>)
    requires CompleteCode(Labels(net), net.cfg.m) && Repaired(net)
    ensures LinksLive(net)
    ensures forall c :: c in net.nodes && Live(net, c) ==> NodeLinks(net, c)
    ensures forall c, i :: c in net.nodes && Live(net, c) && 0 <= i < |net.nodes[c].rt| ==>
                             Comparable(net.nodes[net.nodes[c].rt[i]].lbl, Flip(net.nodes[c].lbl, i))
  {
    forall c | c in net.nodes && Live(net, c)
      ensures NodeLinks(net, c)
      ensures forall i :: 0 <= i < |net.nodes[c].rt| ==>
              Comparable(net.nodes[net.nodes[c].rt[i]].lbl, Flip(net.nodes[c].lbl, i))
    {
      assert RepairedNode(net, c);
      var own := net.nodes[c].lbl;
      assert own in Labels(net);
      forall i | 0 <= i < |own|
        ensures LinkAt(own, net.nodes[net.nodes[c].rt[i]].lbl, i)
        ensures Comparable(net.nodes[net.nodes[c].rt[i]].lbl, Flip(own, i))
      {
        NearestIffComparable(Labels(net), net.cfg.m, own, i, net.nodes[net.nodes[c].rt[i]].lbl);
      }
    }
    forall c, i | c in net.nodes && Live(net, c) && 0 <= i < |net.nodes[c].rt|
      ensures Live(net, net.nodes[c].rt[i])
    {
      assert RepairedNode(net, c);
    }
  }

  lemma FixRepairs<C, P>(net: Net<C, P>, act: Action<C, P>)
    requires MemberInv(net) && FlagInv(net) && act.Fix? && Enabled(net, act)
    ensures var net' := Apply(net, act); SameLabels(net, net') && Repaired(net')
  {
    var net' := Apply(net, act);
    SameLabelsLive(net, net');
    forall c | c in net'.nodes && Live(net', c)
      ensures RepairedNode(net', c)
    {
      assert c in act.tables && net'.nodes[c].rt == act.tables[c];
    }
  }
}
