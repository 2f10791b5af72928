/** Identifiers of simulation/route.go: bit strings compared on the length they share. */
module Ids {

  type Id = seq<bool>

  function Min(a: nat, b: nat): nat {
    if a < b then a else b
  }

  // ---------------------------------------------------------------- specifications

  /** The bitwise difference, as long as the shorter argument. */
  function Xor(a: Id, b: Id): Id {
    seq(Min(|a|, |b|), i requires 0 <= i < Min(|a|, |b|) => a[i] != b[i])
  }

  /** `a` and `b` agree below `k`, and at `k` `a` has a zero where `b` has a one. */
  predicate LessAt(a: Id, b: Id, k: nat) {
    k < |a| && k < |b| && a[..k] == b[..k] && !a[k] && b[k]
  }

  /** The order of `lt`: the first differing bit among the shared ones decides. */
  ghost predicate Less(a: Id, b: Id) {
    exists k: nat :: LessAt(a, b, k)
  }

  ghost predicate Comparable(a: Id, b: Id) {
    a <= b || b <= a
  }

  /** Label `a` is strictly closer than label `b` to the target `t`. */
  ghost predicate Closer(t: Id, a: Id, b: Id) {
    Less(Xor(t, a), Xor(t, b))
  }

  /** The number of leading bits two identifiers share. */
  function Common(a: Id, b: Id): (n: nat)
    ensures n <= |a| && n <= |b| && a[..n] == b[..n]
    ensures n < |a| && n < |b| ==> a[n] != b[n]
  {
    if a == [] || b == [] || a[0] != b[0] then 0
    else
      var n := 1 + Common(a[1..], b[1..]);
      assert a[..n] == [a[0]] + a[1..][..n - 1] && b[..n] == [b[0]] + b[1..][..n - 1];
      n
  }

  /** The number of shared positions at which two identifiers differ. */
  function DiffCount(a: Id, b: Id): nat {
    if a == [] || b == [] then 0
    else (if a[0] != b[0] then 1 else 0) + DiffCount(a[1..], b[1..])
  }

  function Flip(a: Id, i: nat): Id
    requires i < |a|
  {
    a[i := !a[i]]
  }

  function Str(id: Id): (s: string)
    ensures |s| == |id|
  {
    if id == [] then [] else [if id[0] then '1' else '0'] + Str(id[1..])
  }

  function Parse(s: string): (id: Id)
    ensures |id| == |s|
  {
    if s == [] then [] else [s[0] == '1'] + Parse(s[1..])
  }

  predicate IsBits(s: string) {
    s == [] || ((s[0] == '0' || s[0] == '1') && IsBits(s[1..]))
  }

  // ---------------------------------------------------------------- the code of route.go

  /** Only the first argument is ever shortened: the second test of the code cannot hold after the first. */
  function EqualizeLength(a: Id, b: Id): (r: (Id, Id))
    ensures |r.0| == Min(|a|, |b|) && r.0 <= a && r.1 == b
  {
    (if |a| > |b| then a[..|b|] else a, b)
  }

  method Distance(a: Id, b: Id) returns (sum: Id)
    ensures sum == Xor(a, b)
  {
    var (x, y) := EqualizeLength(a, b);
    sum := [];
    for i := 0 to |x|
      invariant sum == Xor(a, b)[..i]
    {
      sum := sum + [x[i] != y[i]];
    }
  }

  method HammingDistance(a: Id, b: Id) returns (dist: nat)
    ensures dist == DiffCount(a, b)
  {
    var (x, y) := EqualizeLength(a, b);
    DiffCountTruncates(a, b);
    dist := 0;
    for i := 0 to |x|
      invariant dist + DiffCount(x[i..], y[i..]) == DiffCount(a, b)
    {
      if x[i] != y[i] {
        dist := dist + 1;
      }
    }
  }

  method Prefix(id: Id, other: Id) returns (r: bool)
    ensures r <==> id <= other
  {
    if |id| > |other| {
      return false;
    }
    for i := 0 to |id|
      invariant id[..i] == other[..i]
    {
      if id[i] != other[i] {
        return false;
      }
    }
    return true;
  }

  method Lt(id: Id, other: Id) returns (r: bool)
    ensures r <==> Less(id, other)
  {
    var (x, y) := EqualizeLength(id, other);
    for i := 0 to |x|
      invariant id[..i] == other[..i]
    {
      if x[i] != y[i] {
        FirstDifferenceDecides(id, other, i);
        return y[i];
      }
    }
    SharedPrefixNotLess(id, other);
    return false;
  }

  method Gt(id: Id, other: Id) returns (r: bool)
    ensures r <==> Less(other, id)
  {
    var (x, y) := EqualizeLength(id, other);
    for i := 0 to |x|
      invariant id[..i] == other[..i]
    {
      if x[i] != y[i] {
        FirstDifferenceDecides(id, other, i);
        FirstDifferenceDecides(other, id, i);
        return x[i];
      }
    }
    SharedPrefixNotLess(id, other);
    return false;
  }

  method Gte(id: Id, other: Id) returns (r: bool)
    ensures r <==> !Less(id, other)
  {
    var (x, y) := EqualizeLength(id, other);
    for i := 0 to |x|
      invariant id[..i] == other[..i]
    {
      if x[i] != y[i] {
        FirstDifferenceDecides(id, other, i);
        FirstDifferenceDecides(other, id, i);
        return x[i];
      }
    }
    SharedPrefixNotLess(id, other);
    return true;
  }

  method Eq(id: Id, other: Id) returns (r: bool)
    ensures r <==> id == other
  {
    if |id| != |other| {
      return false;
    }
    var (x, y) := EqualizeLength(id, other);
    for i := 0 to |x|
      invariant id[..i] == other[..i]
    {
      if x[i] != y[i] {
        return false;
      }
    }
    return true;
  }

  method String(id: Id) returns (str: string)
    ensures str == Str(id)
  {
    str := [];
    for i := 0 to |id|
      invariant str + Str(id[i..]) == Str(id)
    {
      str := str + [if id[i] then '1' else '0'];
    }
  }

  method IdFromString(val: string) returns (id: Id)
    ensures id == Parse(val)
  {
    id := [];
    for i := 0 to |val|
      invariant id + Parse(val[i..]) == Parse(val)
    {
      id := id + [val[i] == '1'];
    }
  }

  // ---------------------------------------------------------------- round trips

  lemma {:induction false} StrRoundTrip(id: Id)
    ensures Parse(Str(id)) == id && IsBits(Str(id))
  {
    if id != [] {
      StrRoundTrip(id[1..]);
      assert Str(id)[1..] == Str(id[1..]);
    }
  }

  /** Exactly the strings of zeros and ones name an identifier and are named by it. */
  lemma {:induction false} ParseRoundTrip(s: string)
    ensures Str(Parse(s)) == s <==> IsBits(s)
  {
    if s != [] {
      ParseRoundTrip(s[1..]);
      assert Parse(s)[1..] == Parse(s[1..]);
      assert s == [s[0]] + s[1..];
    }
  }

  lemma StrInjective(a: Id, b: Id)
    ensures Str(a) == Str(b) <==> a == b
  {
    StrRoundTrip(a);
    StrRoundTrip(b);
  }

  // ---------------------------------------------------------------- order

  lemma AgreeBelow(a: Id, b: Id, n: nat)
    requires n <= |a| && n <= |b| && a[..n] == b[..n]
    ensures forall i :: 0 <= i < n ==> a[i] == b[i]
  {
    assert forall i :: 0 <= i < n ==> a[..n][i] == b[..n][i];
  }

  lemma FirstDifferenceDecides(a: Id, b: Id, k: nat)
    requires k < |a| && k < |b| && a[..k] == b[..k] && a[k] != b[k]
    ensures Less(a, b) <==> b[k]
  {
    if b[k] {
      assert LessAt(a, b, k);
    }
    if Less(a, b) {
      var j: nat :| LessAt(a, b, j);
      AgreeBelow(a, b, j);
      AgreeBelow(a, b, k);
    }
  }

  lemma SharedPrefixNotLess(a: Id, b: Id)
    requires a[..Min(|a|, |b|)] == b[..Min(|a|, |b|)]
    ensures !Less(a, b) && !Less(b, a)
  {
    AgreeBelow(a, b, Min(|a|, |b|));
  }

  lemma LessIrreflexive(a: Id)
    ensures !Less(a, a)
  {
    SharedPrefixNotLess(a, a);
  }

  lemma LessTransitive(a: Id, b: Id, c: Id)
    requires Less(a, b) && Less(b, c)
    ensures Less(a, c)
  {
    var i: nat :| LessAt(a, b, i);
    var j: nat :| LessAt(b, c, j);
    AgreeBelow(a, b, i);
    AgreeBelow(b, c, j);
    assert LessAt(a, c, Min(i, j));
  }

  /** Two identifiers are unordered exactly when one is a prefix of the other. */
  lemma UnorderedIffComparable(a: Id, b: Id)
    ensures (!Less(a, b) && !Less(b, a)) <==> Comparable(a, b)
  {
    var n := Common(a, b);
    if n < |a| && n < |b| {
      FirstDifferenceDecides(a, b, n);
      FirstDifferenceDecides(b, a, n);
    } else {
      assert Comparable(a, b);
      SharedPrefixNotLess(a, b);
    }
  }

  /** Being unordered is not transitive, so the order of `lt` is not a weak order. */
  lemma UnorderedNotTransitive()
    ensures exists a: Id, b: Id, c: Id ::
              !Less(a, b) && !Less(b, a) && !Less(b, c) && !Less(c, b) && Less(a, c)
  {
    var a, b, c := [false], [], [true];
    UnorderedIffComparable(a, b);
    UnorderedIffComparable(b, c);
    assert LessAt(a, c, 0);
  }

  // ---------------------------------------------------------------- closeness to a target

  lemma XorAgree(t: Id, a: Id, b: Id, k: nat)
    requires k <= |t| && k <= |a| && k <= |b|
    ensures Xor(t, a)[..k] == Xor(t, b)[..k] <==> a[..k] == b[..k]
  {
    if Xor(t, a)[..k] == Xor(t, b)[..k] {
      forall i | 0 <= i < k
        ensures a[i] == b[i]
      {
        assert Xor(t, a)[..k][i] == Xor(t, b)[..k][i];
      }
    }
    if a[..k] == b[..k] {
      forall i | 0 <= i < k
        ensures Xor(t, a)[i] == Xor(t, b)[i]
      {
        assert a[..k][i] == b[..k][i];
      }
    }
  }

  /** At the first bit where two labels part, the one that follows the target is the closer one. */
  lemma CloserAt(t: Id, a: Id, b: Id, k: nat)
    requires k < |t| && k < |a| && k < |b| && a[..k] == b[..k] && a[k] != b[k]
    ensures Closer(t, a, b) <==> a[k] == t[k]
    ensures Closer(t, b, a) <==> b[k] == t[k]
  {
    XorAgree(t, a, b, k);
    FirstDifferenceDecides(Xor(t, a), Xor(t, b), k);
    FirstDifferenceDecides(Xor(t, b), Xor(t, a), k);
  }

  lemma XorSymmetric(a: Id, b: Id)
    ensures Xor(a, b) == Xor(b, a)
  {
  }

  lemma CloserTransitive(t: Id, a: Id, b: Id, c: Id)
    requires Closer(t, a, b) && Closer(t, b, c)
    ensures Closer(t, a, c)
  {
    LessTransitive(Xor(t, a), Xor(t, b), Xor(t, c));
  }

  /** Truncated distances never tie for labels neither of which extends the other, if the target reaches as far. */
  lemma CloserTotal(t: Id, a: Id, b: Id)
    requires !Comparable(a, b) && (|a| <= |t| || |b| <= |t|)
    ensures Closer(t, a, b) != Closer(t, b, a)
  {
    CloserAt(t, a, b, Common(a, b));
  }

  // ---------------------------------------------------------------- the documented distance

  function Pow2(n: nat): (p: nat)
    ensures p > 0
  {
    if n == 0 then 1 else 2 * Pow2(n - 1)
  }

  /** D(a, b) of BasicDescription.md: the sum of 2^(m-i) over the positions i that differ. */
  function D(a: Id, b: Id): nat
    requires |a| == |b|
  {
    if a == [] then 0
    else (if a[0] != b[0] then Pow2(|a|) else 0) + D(a[1..], b[1..])
  }

  lemma {:induction false} DBelow(a: Id, b: Id)
    requires |a| == |b|
    ensures D(a, b) < Pow2(|a| + 1)
  {
    if a != [] {
      DBelow(a[1..], b[1..]);
    }
  }

  /** `lt` on distances to a fixed point is the numeric order of the documented distance. */
  lemma {:induction false} CloserIsNumeric(a: Id, b: Id, c: Id)
    requires |a| == |b| == |c|
    ensures Closer(a, b, c) <==> D(a, b) < D(a, c)
  {
    if a == [] {
      SharedPrefixNotLess(Xor(a, b), Xor(a, c));
    } else if b[0] != c[0] {
      CloserAt(a, b, c, 0);
      DBelow(a[1..], b[1..]);
      DBelow(a[1..], c[1..]);
    } else {
      CloserIsNumeric(a[1..], b[1..], c[1..]);
      var n := Common(b, c);
      if n == |a| {
        assert b == b[..n] == c[..n] == c;
        LessIrreflexive(Xor(a, b));
      } else {
        CloserAt(a, b, c, n);
        assert b[1..][..n - 1] == b[..n][1..] == c[..n][1..] == c[1..][..n - 1];
        CloserAt(a[1..], b[1..], c[1..], n - 1);
      }
    }
  }

  /** For a fixed point the distance is a bijection on identifiers of its length: it is its own inverse. */
  lemma DistanceInvolution(a: Id, b: Id)
    requires |a| == |b|
    ensures Xor(a, Xor(a, b)) == b
  {
    assert forall i :: 0 <= i < |b| ==> Xor(a, Xor(a, b))[i] == b[i];
  }

  /** At full length closeness is never tied. */
  lemma NoTies(a: Id, b: Id, c: Id)
    requires |a| == |b| == |c|
    ensures D(a, b) == D(a, c) <==> b == c
  {
    if b != c {
      CloserTotal(a, b, c);
      CloserIsNumeric(a, b, c);
      CloserIsNumeric(a, c, b);
    }
  }

  // ---------------------------------------------------------------- counting differing bits

  lemma {:induction false} DiffCountTruncates(a: Id, b: Id)
    ensures DiffCount(a[..Min(|a|, |b|)], b) == DiffCount(a, b)
  {
    if a != [] && b != [] {
      DiffCountTruncates(a[1..], b[1..]);
      assert a[..Min(|a|, |b|)][1..] == a[1..][..Min(|a[1..]|, |b[1..]|)];
    }
  }

  /** Setting a wrong bit right lowers the count by one. */
  lemma {:induction false} DiffCountFlip(a: Id, b: Id, k: nat)
    requires k < |a| && k < |b| && a[k] != b[k]
    ensures DiffCount(a, b) == 1 + DiffCount(Flip(a, k), b)
  {
    if k > 0 {
      DiffCountFlip(a[1..], b[1..], k - 1);
      assert Flip(a, k)[1..] == Flip(a[1..], k - 1);
    } else {
      assert Flip(a, 0)[1..] == a[1..];
    }
  }

  lemma {:induction false} DiffCountZero(a: Id, b: Id)
    requires |a| == |b|
    ensures DiffCount(a, b) == 0 <==> a == b
  {
    if a != [] {
      DiffCountZero(a[1..], b[1..]);
      assert a == [a[0]] + a[1..] && b == [b[0]] + b[1..];
    }
  }
}
