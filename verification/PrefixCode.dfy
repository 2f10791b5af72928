/** Label sets that give every m-bit identifier exactly one owner, and what splitting, merging and
    repairing a routing table do to them. */
module PrefixCode {
  import opened Ids

  ghost predicate PrefixFree(s: set<Id>) {
    forall a, b :: a in s && b in s && a <= b ==> a == b
  }

  ghost predicate Owned(s: set<Id>, x: Id) {
    exists l :: l in s && l <= x
  }

  ghost predicate CoversBelow(s: set<Id>, m: nat, p: Id) {
    forall x: Id {:trigger Owned(s, x)} :: |x| == m && p <= x ==> Owned(s, x)
  }

  ghost predicate Bounded(s: set<Id>, m: nat) {
    forall l :: l in s ==> |l| < m
  }

  /** Every m-bit identifier has a label as prefix, no label extends another, and labels stay below m bits. */
  ghost predicate CompleteCode(s: set<Id>, m: nat) {
    PrefixFree(s) && Bounded(s, m) && CoversBelow(s, m, [])
  }

  function Parent(a: Id): Id
    requires a != []
  {
    a[..|a| - 1]
  }

  function Sibling(a: Id): Id
    requires a != []
  {
    Flip(a, |a| - 1)
  }

  // ---------------------------------------------------------------- owners

  lemma UniqueOwner(s: set<Id>, m: nat, x: Id)
    requires CompleteCode(s, m) && |x| == m
    ensures exists l :: l in s && l <= x && forall k :: k in s && k <= x ==> k == l
  {
    assert [] <= x && Owned(s, x);
    var l :| l in s && l <= x;
    forall k | k in s && k <= x
      ensures k == l
    {
      PrefixesOfOne(k, l, x);
    }
  }

  lemma PrefixesOfOne(a: Id, b: Id, x: Id)
    requires a <= x && b <= x
    ensures Comparable(a, b)
  {
    assert a == x[..|a|] && b == x[..|b|];
  }

  lemma ShortPrefix(a: Id, x: Id, y: Id, n: nat)
    requires n <= |x| && n <= |y| && x[..n] == y[..n]
    ensures |a| <= n && a <= x ==> a <= y
  {
    if |a| <= n && a <= x {
      assert a == x[..n][..|a|] == y[..n][..|a|];
    }
  }

  /** Shorter identifiers still have a label that extends them or that they extend. */
  lemma SomeComparable(s: set<Id>, m: nat, x: Id) returns (l: Id)
    requires CompleteCode(s, m) && |x| <= m
    ensures l in s && Comparable(l, x)
  {
    var padded := x + seq(m - |x|, i => false);
    assert [] <= padded && Owned(s, padded);
    l :| l in s && l <= padded;
    PrefixesOfOne(l, x, padded);
  }

  /** What lies across from a label at bit `i` is inhabited by labels that leave it exactly there. */
  lemma AcrossAt(s: set<Id>, m: nat, own: Id, i: nat) returns (l: Id)
    requires CompleteCode(s, m) && own in s && i < |own|
    ensures l in s && l != own && Comparable(l, Flip(own, i))
  {
    assert own[i] != Flip(own, i)[i];
    l := SomeComparable(s, m, Flip(own, i));
  }

  // ---------------------------------------------------------------- routing-table entries

  /** `other` shares exactly the first `i` bits with `own`. */
  ghost predicate LinkAt(own: Id, other: Id, i: nat) {
    i < |own| && i < |other| && own[..i] == other[..i] && own[i] != other[i]
  }

  lemma ComparableIsLink(s: set<Id>, own: Id, other: Id, i: nat)
    requires PrefixFree(s) && own in s && other in s && i < |own|
    requires Comparable(other, Flip(own, i))
    ensures LinkAt(own, other, i)
  {
    var ideal := Flip(own, i);
    assert ideal[..i] == own[..i];
    ShortPrefix(other, ideal, own, i);
    if other <= ideal {
      AgreeBelow(other, ideal, |other|);
      assert other[..i] == ideal[..i];
    } else {
      assert other[..|ideal|] == ideal;
      AgreeBelow(other, ideal, |ideal|);
      assert other[..i] == ideal[..i];
    }
  }

  /** The label FixAllRT settles on for bit `i`: not beaten by any other label than `own`. */
  ghost predicate Nearest(s: set<Id>, own: Id, i: nat, x: Id)
    requires i < |own|
  {
    x in s && x != own && forall y :: y in s && y != own ==> !Closer(Flip(own, i), y, x)
  }

  /** An unbeaten label extends, or is extended by, the ideal one, so it is a link at `i`; and only such labels
      are unbeaten. */
  lemma NearestIffComparable(s: set<Id>, m: nat, own: Id, i: nat, x: Id)
    requires CompleteCode(s, m) && own in s && i < |own|
    ensures Nearest(s, own, i, x) <==> x in s && Comparable(x, Flip(own, i))
    ensures Nearest(s, own, i, x) ==> LinkAt(own, x, i)
  {
    var ideal := Flip(own, i);
    var l := AcrossAt(s, m, own, i);
    if x in s && Comparable(x, ideal) {
      if x == own {
        assert own[i] == ideal[i];
      }
      forall y | y in s && y != own
        ensures !Closer(ideal, y, x)
      {
        ComparableUnbeaten(ideal, x, y);
      }
      ComparableIsLink(s, own, x, i);
    } else if x in s && x != own {
      ComparableBeats(s, ideal, l, x);
    }
  }

  lemma ComparableUnbeaten(t: Id, x: Id, y: Id)
    requires Comparable(t, x)
    ensures !Closer(t, y, x)
  {
    AgreeBelow(t, x, Min(|t|, |x|));
    assert forall k :: 0 <= k < |Xor(t, x)| ==> !Xor(t, x)[k];
  }

  lemma ComparableBeats(s: set<Id>, t: Id, l: Id, x: Id)
    requires PrefixFree(s) && l in s && x in s && Comparable(l, t) && !Comparable(x, t)
    ensures Closer(t, l, x)
  {
    var k := Common(x, t);
    AgreeBelow(x, t, k);
    AgreeBelow(l, t, Min(|l|, |t|));
    ShortPrefix(l, t, x, k);
    if k < |l| {
      assert l[..k] == x[..k];
      CloserAt(t, l, x, k);
    }
  }

  // ---------------------------------------------------------------- split and merge

  ghost function AfterSplit(s: set<Id>, l: Id): set<Id> {
    s - {l} + {l + [false], l + [true]}
  }

  ghost function AfterMerge(s: set<Id>, a: Id, b: Id): set<Id>
    requires a != []
  {
    s - {a, b} + {Parent(a)}
  }

  lemma ExtendsOne(l: Id, x: Id, bit: bool)
    requires l <= x && l != x && x[|l|] == bit
    ensures l + [bit] <= x
  {
    assert l == x[..|l|];
    assert l + [bit] == x[..|l| + 1];
  }

  lemma SplitKeepsCode(s: set<Id>, m: nat, l: Id)
    requires CompleteCode(s, m) && l in s && |l| + 1 < m
    ensures CompleteCode(AfterSplit(s, l), m)
  {
    var s' := AfterSplit(s, l);
    forall a, b | a in s' && b in s' && a <= b
      ensures a == b
    {
      assert l <= l + [false] && l <= l + [true] && (l <= a ==> l <= b);
      if a in s && b !in s {
        assert l <= b && a <= b;
        PrefixesOfOne(a, l, b);
      } else if a !in s && b !in s {
        assert (l + [false])[|l|] != (l + [true])[|l|];
      }
    }
    forall x: Id | |x| == m && [] <= x
      ensures Owned(s', x)
    {
      assert Owned(s, x);
      var o :| o in s && o <= x;
      if o == l {
        ExtendsOne(l, x, x[|l|]);
      } else {
        assert o in s';
      }
    }
  }

  /** Merging is sound exactly for true siblings: any other partner leaves a label under the merged one. */
  lemma MergeKeepsCodeIff(s: set<Id>, m: nat, a: Id, b: Id)
    requires CompleteCode(s, m) && a in s && b in s && a != []
    ensures CompleteCode(AfterMerge(s, a, b), m) <==> b == Sibling(a)
  {
    if b == Sibling(a) {
      SiblingMergeKeepsCode(s, m, a);
    } else {
      var l := StrayUnderParent(s, m, a, b);
      assert l in AfterMerge(s, a, b) && Parent(a) in AfterMerge(s, a, b);
    }
  }

  lemma SiblingMergeKeepsCode(s: set<Id>, m: nat, a: Id)
    requires CompleteCode(s, m) && a in s && a != [] && Sibling(a) in s
    ensures CompleteCode(AfterMerge(s, a, Sibling(a)), m)
  {
    var p, b := Parent(a), Sibling(a);
    var s' := AfterMerge(s, a, b);
    assert p <= a && p <= b;
    forall x | x in s && p <= x
      ensures x == a || x == b
    {
      if x != p {
        ExtendsOne(p, x, x[|p|]);
        assert p + [a[|p|]] == a && p + [b[|p|]] == b;
      }
    }
    forall c, d | c in s' && d in s' && c <= d
      ensures c == d
    {
      assert c <= p ==> c <= a;
    }
    forall x: Id | |x| == m && [] <= x
      ensures Owned(s', x)
    {
      assert Owned(s, x);
      var o :| o in s && o <= x;
      assert (if o == a || o == b then p else o) in s';
    }
  }

  /** Unless `b` is the sibling of `a`, some other label lies strictly under the parent of `a`. */
  lemma StrayUnderParent(s: set<Id>, m: nat, a: Id, b: Id) returns (l: Id)
    requires CompleteCode(s, m) && a in s && b in s && a != [] && b != Sibling(a)
    ensures l in s && l != a && l != b && Parent(a) <= l && l != Parent(a)
  {
    l := Across(s, m, a);
    if l == b {
      assert Sibling(a) <= b;
      l := Across(s, m, b);
      assert Parent(a) <= Sibling(a) <= Parent(b) <= l;
      assert l[|a| - 1] == Sibling(a)[|a| - 1];
    }
  }

  /** Labels on the sibling's side of a label all extend the sibling. */
  lemma Across(s: set<Id>, m: nat, a: Id) returns (l: Id)
    requires CompleteCode(s, m) && a in s && a != []
    ensures l in s && l != a && Sibling(a) <= l && Parent(a) <= l && l != Parent(a)
  {
    l := AcrossAt(s, m, a, |a| - 1);
    ComparableIsLink(s, a, l, |a| - 1);
    LinkAtLastBit(a, l);
    assert Parent(a) <= Sibling(a);
  }

  /** The last routing-table entry of a label extends its sibling; it is the sibling exactly when it is as long. */
  lemma LinkAtLastBit(a: Id, l: Id)
    requires a != [] && LinkAt(a, l, |a| - 1)
    ensures Sibling(a) <= l
    ensures l == Sibling(a) <==> |l| == |a|
  {
    assert Sibling(a) == l[..|a|];
  }

  /** A longest label always has its sibling, so some merge is possible until one cluster is left. */
  lemma DeepestHasSibling(s: set<Id>, m: nat, a: Id)
    requires CompleteCode(s, m) && a in s && a != [] && forall l :: l in s ==> |l| <= |a|
    ensures Sibling(a) in s
  {
    var l := Across(s, m, a);
    assert l == Sibling(a);
  }

  // ---------------------------------------------------------------- weight

  /** The share of the identifier space the labels take: 2^(m-|l|) each. */
  ghost function Weight(s: set<Id>, m: nat): nat
    requires Bounded(s, m)
  {
    if s == {} then 0
    else
      var l :| l in s;
      Pow2(m - |l|) + Weight(s - {l}, m)
  }

  lemma {:induction false} WeightRemove(s: set<Id>, m: nat, l: Id)
    requires Bounded(s, m) && l in s
    ensures Weight(s, m) == Pow2(m - |l|) + Weight(s - {l}, m)
  {
    var k :| k in s && Weight(s, m) == Pow2(m - |k|) + Weight(s - {k}, m);
    if k != l {
      WeightRemove(s - {k}, m, l);
      WeightRemove(s - {l}, m, k);
      assert s - {k} - {l} == s - {l} - {k};
    }
  }

  lemma {:induction false} WeightUnion(s: set<Id>, t: set<Id>, m: nat)
    requires Bounded(s, m) && Bounded(t, m) && s !! t
    ensures Weight(s + t, m) == Weight(s, m) + Weight(t, m)
  {
    if s == {} {
      assert s + t == t;
    } else {
      var l :| l in s;
      WeightUnion(s - {l}, t, m);
      WeightRemove(s, m, l);
      WeightRemove(s + t, m, l);
      assert s + t - {l} == s - {l} + t;
    }
  }

  ghost function Below(s: set<Id>, p: Id): set<Id> {
    set l | l in s && p <= l
  }

  lemma BelowSplits(p: Id, m: nat)
    ensures forall x: Id :: |x| <= m && p <= x && x != p ==> p + [false] <= x || p + [true] <= x
  {
    forall x: Id | |x| <= m && p <= x && x != p
      ensures p + [false] <= x || p + [true] <= x
    {
      ExtendsOne(p, x, x[|p|]);
    }
  }

  lemma {:induction false} SubtreeWeight(s: set<Id>, m: nat, p: Id)
    requires PrefixFree(s) && Bounded(s, m) && |p| <= m
    requires forall l :: l in s && l <= p ==> l == p
    ensures Weight(Below(s, p), m) <= Pow2(m - |p|)
    ensures Weight(Below(s, p), m) == Pow2(m - |p|) <==> CoversBelow(s, m, p)
    decreases m - |p|
  {
    if p in s {
      assert Below(s, p) == {p};
      WeightRemove({p}, m, p);
      assert {p} - {p} == {};
    } else if |p| == m {
      assert Below(s, p) == {};
      assert !Owned(s, p);
    } else {
      var p0, p1 := p + [false], p + [true];
      assert p <= p0 && p <= p1;
      forall l, b | l in s && l <= p + [b]
        ensures l == p + [b]
      {
        PrefixesOfOne(l, p, p + [b]);
      }
      SubtreeWeight(s, m, p0);
      SubtreeWeight(s, m, p1);
      BelowSplits(p, m);
      assert Below(s, p) == Below(s, p0) + Below(s, p1);
      assert p0[|p|] != p1[|p|];
      WeightUnion(Below(s, p0), Below(s, p1), m);
    }
  }

  /** For labels none of which extends another, weighing 2^m is the same as leaving no identifier unowned. */
  lemma CompleteIffFullWeight(s: set<Id>, m: nat)
    requires PrefixFree(s) && Bounded(s, m)
    ensures CompleteCode(s, m) <==> Weight(s, m) == Pow2(m)
  {
    SubtreeWeight(s, m, []);
    assert Below(s, []) == s;
  }
}
