/** The response quorum of peercube/verify.go: a tally that accepts a response once enough equal ones arrived. */
module Quorum {
  import opened Cardinality
  import opened Ids

  datatype Resp = Resp(key: Id, lbl: Id, val: seq<bv8>)

  method Equals(r: Resp, o: Resp) returns (same: bool)
    ensures same <==> r == o
  {
    var k := Eq(r.key, o.key);
    var l := Eq(r.lbl, o.lbl);
    return k && l && r.val == o.val;
  }

  /** The lists tally the calls: distinct responses, each with the number of calls that brought it. */
  ghost predicate Tallied(calls: seq<Resp>, resps: seq<Resp>, freq: seq<nat>) {
    && |freq| == |resps|
    && (forall i, j :: 0 <= i < j < |resps| ==> resps[i] != resps[j])
    && (forall i :: 0 <= i < |resps| ==> freq[i] == multiset(calls)[resps[i]] > 0)
    && (forall r :: r in calls ==> r in resps)
  }

  /** The response has come often enough; a first call is never enough. */
  ghost predicate Reached(checks: nat, calls: seq<Resp>, r: Resp) {
    multiset(calls)[r] >= checks && multiset(calls)[r] >= 2
  }

  /** What call `i` answers. */
  ghost predicate Accepts(checks: nat, calls: seq<Resp>, i: nat)
    requires i < |calls|
  {
    Reached(checks, calls[..i + 1], calls[i])
  }

  class RespQuorum {
    const checks: nat
    var freq: seq<nat>
    var resps: seq<Resp>
    // the channel: receivers blocked on it, and what receivers have been handed
    var waiting: nat
    var handed: seq<Resp>
    ghost var calls: seq<Resp>

    ghost predicate Valid()
      reads this
    {
      Tallied(calls, resps, freq) && forall r :: r in handed ==> Reached(checks, calls, r)
    }

    constructor (n: nat)
      ensures Valid() && checks == n && calls == [] && waiting == 0 && handed == []
    {
      checks := n;
      freq, resps, calls, waiting, handed := [], [], [], 0, [];
    }

    /** Blocks until a response is handed over: receivers are served in the order they came, so it will be the
        one at place `ticket`. */
    method Wait() returns (ticket: nat)
      requires Valid()
      modifies this
      ensures Valid() && waiting == old(waiting) + 1 && handed == old(handed) && calls == old(calls)
      ensures ticket == |handed| + old(waiting)
    {
      ticket := |handed| + waiting;
      waiting := waiting + 1;
    }

    /** What Wait returns once its receiver has been served: a response whose quorum was reached. */
    method Result(ticket: nat) returns (resp: Resp)
      requires Valid() && ticket < |handed|
      ensures resp == handed[ticket] && Reached(checks, calls, resp)
    {
      resp := handed[ticket];
    }

    method HandOver(resp: Resp)
      modifies this`handed, this`waiting
      ensures waiting == 0 && |handed| == |old(handed)| + old(waiting) && old(handed) <= handed
      ensures forall i :: |old(handed)| <= i < |handed| ==> handed[i] == resp
    {
      while waiting > 0
        invariant waiting <= old(waiting) && |handed| + waiting == |old(handed)| + old(waiting)
        invariant old(handed) <= handed && forall i :: |old(handed)| <= i < |handed| ==> handed[i] == resp
      {
        handed := handed + [resp];
        waiting := waiting - 1;
      }
    }

    /** One response. Once its quorum is reached it is handed to everyone waiting, and to nobody else. */
    method Check(resp: Resp) returns (accepted: bool)
      requires Valid()
      modifies this
      ensures Valid() && calls == old(calls) + [resp]
      ensures accepted <==> Accepts(checks, calls, |old(calls)|)
      ensures waiting == if accepted then 0 else old(waiting)
      ensures old(handed) <= handed && |handed| == |old(handed)| + if accepted then old(waiting) else 0
      ensures forall i :: |old(handed)| <= i < |handed| ==> handed[i] == resp
    {
      hide Tallied, Reached;
      calls := calls + [resp];
      assert calls[..|old(calls)| + 1] == calls;
      OneMoreCall(checks, old(calls), resp);
      var i := 0;
      while i < |resps|
        invariant 0 <= i <= |resps| && resp !in resps[..i]
        invariant freq == old(freq) && resps == old(resps) && calls == old(calls) + [resp]
        invariant waiting == old(waiting) && handed == old(handed)
      {
        var same := Equals(resps[i], resp);
        if same {
          SameLength(old(calls), resps, freq);
          freq := freq[i := freq[i] + 1];
          Again(checks, old(calls), resps, old(freq), i);
          if freq[i] < checks {
            return false;
          }
          HandOver(resp);
          return true;
        }
        i := i + 1;
      }
      FirstTime(checks, old(calls), resps, freq, resp);
      resps := resps + [resp];
      freq := freq + [1];
      return false;
    }
  }

  lemma OneMoreCall(checks: nat, calls: seq<Resp>, resp: Resp)
    ensures forall r :: Reached(checks, calls, r) ==> Reached(checks, calls + [resp], r)
  {
  }

  lemma SameLength(calls: seq<Resp>, resps: seq<Resp>, freq: seq<nat>)
    requires Tallied(calls, resps, freq)
    ensures |freq| == |resps|
  {
  }

  lemma Again(checks: nat, calls: seq<Resp>, resps: seq<Resp>, freq: seq<nat>, i: nat)
    requires Tallied(calls, resps, freq) && i < |resps|
    ensures |freq| == |resps| && Tallied(calls + [resps[i]], resps, freq[i := freq[i] + 1])
    ensures Reached(checks, calls + [resps[i]], resps[i]) <==> freq[i] + 1 >= checks
  {
  }

  lemma FirstTime(checks: nat, calls: seq<Resp>, resps: seq<Resp>, freq: seq<nat>, resp: Resp)
    requires Tallied(calls, resps, freq) && resp !in resps
    ensures Tallied(calls + [resp], resps + [resp], freq + [1])
    ensures !Reached(checks, calls + [resp], resp)
  {
    assert resp !in multiset(calls);
  }

  function Sum(s: seq<nat>): nat {
    if s == [] then 0 else Sum(s[..|s| - 1]) + s[|s| - 1]
  }

  lemma {:induction false} SumOver(m: multiset<Resp>, resps: seq<Resp>, freq: seq<nat>)
    requires |freq| == |resps| && (forall i, j :: 0 <= i < j < |resps| ==> resps[i] != resps[j])
    requires (forall i :: 0 <= i < |resps| ==> freq[i] == m[resps[i]]) && forall r :: r in m ==> r in resps
    ensures Sum(freq) == |m|
    decreases |resps|
  {
    if resps == [] {
      assert m == multiset{};
    } else {
      var i := |resps| - 1;
      var last := resps[i];
      assert resps == resps[..i] + [last];
      Without(m, last);
      SumOver(m[last := 0], resps[..i], freq[..i]);
    }
  }

  lemma Without(m: multiset<Resp>, r: Resp)
    ensures |m| == |m[r := 0]| + m[r]
  {
    assert m == m[r := 0] + multiset{}[r := m[r]];
  }

  /** The frequencies account for every call. */
  lemma FrequenciesSum(calls: seq<Resp>, resps: seq<Resp>, freq: seq<nat>)
    requires Tallied(calls, resps, freq)
    ensures Sum(freq) == |calls|
  {
    SumOver(multiset(calls), resps, freq);
  }

  // ---------------------------------------------------------------- faulty repliers

  datatype Reply = Reply(sender: string, resp: Resp)

  function Resps(replies: seq<Reply>): (r: seq<Resp>)
    ensures |r| == |replies| && forall i :: 0 <= i < |r| ==> r[i] == replies[i].resp
  {
    seq(|replies|, i requires 0 <= i < |replies| => replies[i].resp)
  }

  /** Every sender replies once, and all but those in `bad` reply `right`. */
  predicate Honest(replies: seq<Reply>, bad: set<string>, right: Resp) {
    && (forall i, j :: 0 <= i < j < |replies| ==> replies[i].sender != replies[j].sender)
    && (forall i :: 0 <= i < |replies| && replies[i].sender !in bad ==> replies[i].resp == right)
  }

  /** The senders of a given response. */
  ghost function Senders(replies: seq<Reply>, r: Resp): set<string> {
    set i | 0 <= i < |replies| && replies[i].resp == r :: replies[i].sender
  }

  lemma OneMoreSender(replies: seq<Reply>, last: Reply, r: Resp)
    requires forall i :: 0 <= i < |replies| ==> replies[i].sender != last.sender
    ensures var more := replies + [last];
            Senders(more, r) == Senders(replies, r) + (if last.resp == r then {last.sender} else {})
    ensures last.sender !in Senders(replies, r)
  {
    var more := replies + [last];
    assert forall i :: 0 <= i < |replies| ==> more[i] == replies[i];
    assert more[|replies|] == last;
  }

  /** As every sender replies once, a response has as many senders as copies. */
  lemma {:induction false} SendersCount(replies: seq<Reply>, r: Resp)
    requires forall i, j :: 0 <= i < j < |replies| ==> replies[i].sender != replies[j].sender
    ensures |Senders(replies, r)| == multiset(Resps(replies))[r]
    decreases |replies|
  {
    hide Senders;
    if replies == [] {
      NoSenders(r);
    } else {
      var i := |replies| - 1;
      var was, last := replies[..i], replies[i];
      assert replies == was + [last];
      SendersCount(was, r);
      OneMoreSender(was, last, r);
      assert Resps(replies) == Resps(was) + [last.resp];
    }
  }

  lemma NoSenders(r: Resp)
    ensures Senders([], r) == {}
  {
  }

  /** With a threshold above the number of faulty senders, no reply but the right one is ever accepted. */
  lemma OnlyRightAccepted(replies: seq<Reply>, bad: set<string>, right: Resp, checks: nat, i: nat)
    requires Honest(replies, bad, right) && |bad| < checks && i < |replies|
    requires Accepts(checks, Resps(replies), i)
    ensures replies[i].resp == right
  {
    var seen := replies[..i + 1];
    assert Resps(replies)[..i + 1] == Resps(seen);
    if replies[i].resp != right {
      SendersCount(seen, replies[i].resp);
      Subset(Senders(seen, replies[i].resp), bad);
    }
  }

  lemma {:induction false} Crossing(calls: seq<Resp>, r: Resp, k: nat) returns (i: nat)
    requires 0 < k <= multiset(calls)[r]
    ensures i < |calls| && calls[i] == r && multiset(calls[..i + 1])[r] == k
    decreases |calls|
  {
    var last := |calls| - 1;
    assert calls == calls[..last] + [calls[last]];
    if k <= multiset(calls[..last])[r] {
      i := Crossing(calls[..last], r, k);
      assert calls[..last][..i + 1] == calls[..i + 1];
    } else {
      i := last;
      assert calls[..last + 1] == calls;
    }
  }

  lemma {:induction false} GrowsWith(calls: seq<Resp>, r: Resp, i: nat)
    requires i <= |calls|
    ensures multiset(calls[..i])[r] <= multiset(calls)[r]
  {
    assert calls == calls[..i] + calls[i..];
  }

  /** With a threshold above the number of faulty senders, some call is accepted exactly when enough right
      replies have come in, and every accepted reply is the right one. */
  lemma QuorumReachedIff(replies: seq<Reply>, bad: set<string>, right: Resp, checks: nat)
    requires Honest(replies, bad, right) && |bad| < checks
    ensures (exists i: nat :: i < |replies| && Accepts(checks, Resps(replies), i)) <==>
            multiset(Resps(replies))[right] >= checks && multiset(Resps(replies))[right] >= 2
    ensures forall i: nat :: i < |replies| && Accepts(checks, Resps(replies), i) ==> replies[i].resp == right
  {
    var calls := Resps(replies);
    forall i: nat | i < |replies| && Accepts(checks, calls, i)
      ensures replies[i].resp == right && multiset(calls)[right] >= checks && multiset(calls)[right] >= 2
    {
      OnlyRightAccepted(replies, bad, right, checks, i);
      GrowsWith(calls, right, i + 1);
    }
    if multiset(calls)[right] >= checks && multiset(calls)[right] >= 2 {
      var i := Crossing(calls, right, if checks < 2 then 2 else checks);
      assert Accepts(checks, calls, i);
    }
  }

  /** Then whoever waits is handed the right reply or nothing. */
  lemma OnlyRightHanded(replies: seq<Reply>, bad: set<string>, right: Resp, checks: nat, handed: seq<Resp>)
    requires Honest(replies, bad, right) && |bad| < checks
    requires forall r :: r in handed ==> Reached(checks, Resps(replies), r)
    ensures forall r :: r in handed ==> r == right
  {
    forall r | r in handed
      ensures r == right
    {
      var i := Crossing(Resps(replies), r, if checks < 2 then 2 else checks);
      OnlyRightAccepted(replies, bad, right, checks, i);
    }
  }
}
