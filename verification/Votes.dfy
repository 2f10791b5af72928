/** The vote counter that gates admission to a cluster: simulation/addHandler.go. */
module Votes {
  import opened Cardinality

  class PeerHandler<P> {
    const threshold: nat
    var peers: map<string, P>
    var freq: map<string, nat>

    constructor (t: nat)
      ensures threshold == t && freq == map[] && peers == map[]
    {
      threshold := t;
      peers := map[];
      freq := map[];
    }

    method Add(idstr: string, p: P) returns (admitted: bool)
      modifies this
      ensures var (f, a) := Vote(threshold, old(freq), idstr); freq == f && admitted == a
      ensures peers == if admitted then old(peers) - {idstr} else old(peers)[idstr := p]
    {
      peers := peers[idstr := p];
      freq := freq[idstr := (if idstr in freq then freq[idstr] else 0) + 1];
      if freq[idstr] > threshold {
        peers := peers - {idstr};
        freq := freq - {idstr};
        assert peers == old(peers) - {idstr};
        assert freq == old(freq) - {idstr};
        return true;
      }
      return false;
    }
  }

  /** SafteyValue of globals.go: the admission threshold of a cluster whose core has `smin` peers. */
  function Safety(smin: nat): nat
    requires 0 < smin
  {
    ((smin - 1) / 3 + 1) * 2
  }

  /** One vote: the new counts, and whether this vote passed the threshold and reset its count. */
  function Vote(threshold: nat, freq: map<string, nat>, id: string): (map<string, nat>, bool) {
    var n := Count(freq, id) + 1;
    if n > threshold then (freq - {id}, true) else (freq[id := n], false)
  }

  function Count(freq: map<string, nat>, id: string): nat {
    if id in freq then freq[id] else 0
  }

  lemma VoteCounts(threshold: nat, freq: map<string, nat>, id: string)
    ensures var (f, admitted) := Vote(threshold, freq, id);
            && (admitted <==> Count(freq, id) + 1 > threshold)
            && forall j ::
                 Count(f, j) == if j != id then Count(freq, j) else if admitted then 0 else Count(freq, id) + 1
  {
  }

  /** The counts after a sequence of votes, and how often `id` was admitted. */
  function Poll(threshold: nat, votes: seq<string>, id: string): (map<string, nat>, nat) {
    if votes == [] then (map[], 0)
    else
      var (freq, n) := Poll(threshold, votes[..|votes| - 1], id);
      var v := votes[|votes| - 1];
      var (freq', admitted) := Vote(threshold, freq, v);
      (freq', if v == id && admitted then n + 1 else n)
  }

  function Cast(votes: seq<string>, id: string): nat {
    if votes == [] then 0
    else Cast(votes[..|votes| - 1], id) + if votes[|votes| - 1] == id then 1 else 0
  }

  /** However the votes for different peers interleave, a peer is admitted once for every threshold + 1 votes
      for it, and the residue stays at most the threshold. */
  lemma {:induction false} Admissions(threshold: nat, votes: seq<string>, id: string)
    ensures Count(Poll(threshold, votes, id).0, id) <= threshold
    ensures Cast(votes, id) == Poll(threshold, votes, id).1 * (threshold + 1) + Count(Poll(threshold, votes, id).0, id)
    ensures Poll(threshold, votes, id).1 == Cast(votes, id) / (threshold + 1)
  {
    if votes != [] {
      Admissions(threshold, votes[..|votes| - 1], id);
    }
    Quotient(Cast(votes, id), Poll(threshold, votes, id).1, threshold + 1, Count(Poll(threshold, votes, id).0, id));
  }

  // ---------------------------------------------------------------- why SafteyValue

  /** Any two sets of core peers large enough to admit somebody share more peers than the third of the core
      that may be faulty. */
  lemma QuorumsOverlap(smin: nat, core: set<string>, a: set<string>, b: set<string>)
    requires 0 < smin && |core| <= smin && a <= core && b <= core && |a| > Safety(smin) && |b| > Safety(smin)
    ensures |a * b| > (smin - 1) / 3
    ensures 2 * (Safety(smin) + 1) - smin > (smin - 1) / 3
  {
    Subset(a + b, core);
    assert |a + b| == |a| + |b| - |a * b|;
  }

  /** Which core sizes leave enough voters: all but 1, 2 and 4 if every core peer votes, and exactly the
      multiples of three if the third that may be faulty does not. */
  lemma EnoughVotersIff(smin: nat)
    requires 0 < smin
    ensures smin > Safety(smin) <==> smin !in {1, 2, 4}
    ensures smin - (smin - 1) / 3 > Safety(smin) <==> smin % 3 == 0
  {
  }

  lemma Quotient(a: nat, q: nat, d: nat, r: nat)
    requires a == q * d + r && r < d
    ensures q == a / d
  {
    var q' := a / d;
    assert a == q' * d + a % d;
    Scale(q + 1, q', d);
    Scale(q' + 1, q, d);
  }

}
