/** Sizes of finite sets and maps. */
module Cardinality {

  lemma Subset(s: set<string>, t: set<string>)
    requires s <= t
    ensures |s| <= |t| && (|s| == |t| ==> s == t)
  {
    assert t == s + (t - s);
  }

  lemma AddSize<P>(m: map<string, P>, key: string, p: P)
    requires key !in m
    ensures |m[key := p]| == |m| + 1
  {
    assert m[key := p].Keys == m.Keys + {key};
  }

  lemma RemoveSize<P>(m: map<string, P>, key: string)
    requires key in m
    ensures |m - {key}| == |m| - 1
  {
    assert (m - {key}).Keys == m.Keys - {key};
  }

  lemma NonEmpty<P>(m: map<string, P>)
    requires |m| > 0
    ensures m != map[] && exists k :: k in m
  {
  }

  lemma AtMost(q: nat, d: nat, a: nat)
    requires q * d <= a && d > 0
    ensures q <= a / d
  {
    Scale(a / d + 1, q, d);
  }

  lemma Scale(x: nat, y: nat, d: nat)
    ensures x <= y ==> x * d <= y * d
  {
  }
}
