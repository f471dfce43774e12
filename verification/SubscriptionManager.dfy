/**
 The ROS 2 backend: reference-counted subscriptions, and the history depth a
 new subscription asks for.
 */
module SubscriptionManagement {
  import opened Common

  datatype Info = Info(count: nat, transientLocal: bool)

  type Subscriptions = map<Topic, Info>

  /** `creation` is what creating a fresh subscription would yield: None when
      it throws, otherwise whether the adapted QoS is transient-local. */
  function Subscribe(subs: Subscriptions, t: Topic, creation: Option<bool>): Subscriptions {
    if t in subs then subs[t := subs[t].(count := subs[t].count + 1)]
    else if creation.Some? then subs[t := Info(1, creation.value)]
    else subs
  }

  predicate Subscribable(subs: Subscriptions, t: Topic, creation: Option<bool>) {
    t in subs || creation.Some?
  }

  function Unsubscribe(subs: Subscriptions, t: Topic): Subscriptions {
    if t !in subs || subs[t].count == 0 then subs
    else if subs[t].count == 1 then subs - {t}
    else subs[t := subs[t].(count := subs[t].count - 1)]
  }

  /** A successful subscribe is undone by one unsubscribe. */
  lemma UnsubscribeUndoesSubscribe(subs: Subscriptions, t: Topic, creation: Option<bool>)
    requires Subscribable(subs, t, creation)
    requires t in subs ==> subs[t].count > 0
    ensures Unsubscribe(Subscribe(subs, t, creation), t) == subs
  {
    if t !in subs {
      assert subs[t := Info(1, creation.value)] - {t} == subs;
    }
  }

  class SubscriptionManager {
    var subscriptions: Subscriptions

    constructor ()
      ensures subscriptions == map[]
    {
      subscriptions := map[];
    }

    method SubscribeTopic(topic: Topic, creation: Option<bool>) returns (ok: bool)
      modifies this
      ensures ok == Subscribable(old(subscriptions), topic, creation)
      ensures subscriptions == Subscribe(old(subscriptions), topic, creation)
    {
      if topic in subscriptions {
        var info := subscriptions[topic];
        subscriptions := subscriptions[topic := info.(count := info.count + 1)];
        return true;
      }
      match creation
      case None => return false;
      case Some(transientLocal) =>
        subscriptions := subscriptions[topic := Info(1, transientLocal)];
        return true;
    }

    method UnsubscribeTopic(topic: Topic) returns (ok: bool)
      modifies this
      ensures ok == (topic in old(subscriptions) && old(subscriptions)[topic].count > 0)
      ensures subscriptions == Unsubscribe(old(subscriptions), topic)
    {
      if topic !in subscriptions || subscriptions[topic].count == 0 {
        return false;
      }
      var info := subscriptions[topic];
      subscriptions := subscriptions[topic := info.(count := info.count - 1)];
      if subscriptions[topic].count == 0 {
        subscriptions := subscriptions - {topic};
        assert subscriptions == old(subscriptions) - {topic};
      }
      return true;
    }

    predicate IsSubscribed(topic: Topic)
      reads this
    {
      topic in subscriptions
    }

    predicate IsTransientLocal(topic: Topic)
      reads this
    {
      topic in subscriptions && subscriptions[topic].transientLocal
    }
  }

  // ------------------------------------------------------------------- depth

  const FALLBACK_DEPTH: U64 := 100

  /** A publisher that reports no depth counts as the historical default. */
  function Contribution(depth: U64): U64 {
    if depth > 0 then depth else FALLBACK_DEPTH
  }

  /** The mathematical sum of the contributions. */
  function SumOfContributions(publishers: seq<U64>): nat {
    if publishers == [] then 0
    else SumOfContributions(publishers[..|publishers| - 1]) + Contribution(publishers[|publishers| - 1])
  }

  function Min(x: nat, high: U64): U64 {
    if x < high then x else high
  }

  function Clamp(x: nat, low: U64, high: U64): U64
    requires low <= high
  {
    if x < low then low else if x > high then high else x
  }

  /** The accumulator is an unsigned 64-bit word throughout; it never exceeds
      the cap, so neither the subtraction nor the addition wraps. */
  method AdaptDepth(publishers: seq<U64>, minDepth: U64, maxDepth: U64) returns (depth: U64)
    requires minDepth <= maxDepth
    ensures publishers != [] ==> minDepth <= depth <= maxDepth
    ensures publishers != [] && SumOfContributions(publishers) < minDepth ==> depth == minDepth
    ensures publishers != [] && SumOfContributions(publishers) > maxDepth ==> depth == maxDepth
    ensures publishers != [] && minDepth <= SumOfContributions(publishers) <= maxDepth ==>
              depth == SumOfContributions(publishers)
    ensures publishers != [] ==> depth == Clamp(SumOfContributions(publishers), minDepth, maxDepth)
    ensures publishers == [] ==> depth == if FALLBACK_DEPTH < maxDepth then FALLBACK_DEPTH else maxDepth
  {
    if publishers == [] {
      return if FALLBACK_DEPTH < maxDepth then FALLBACK_DEPTH else maxDepth;
    }
    var total: U64 := 0;
    for i := 0 to |publishers|
      invariant total <= maxDepth
      invariant total == Min(SumOfContributions(publishers[..i]), maxDepth)
    {
      assert publishers[..i + 1][..i] == publishers[..i];
      var contribution := Contribution(publishers[i]);
      var headroom: U64 := Sub64(maxDepth, total);
      total := Add64(total, if contribution < headroom then contribution else headroom);
    }
    assert publishers[..|publishers|] == publishers;
    depth := Clamp(total, minDepth, maxDepth);
  }

  /** What one publisher's depth does to the sum: a positive one counts as it is,
      an unreported one as 100. */
  lemma OnePublisherCounts(publishers: seq<U64>, depth: U64)
    ensures SumOfContributions(publishers + [depth]) ==
            SumOfContributions(publishers) + if depth == 0 then 100 else depth
    ensures SumOfContributions([]) == 0
  {
    assert (publishers + [depth])[..|publishers|] == publishers;
  }

  lemma {:induction false} SumRemove(publishers: seq<U64>, i: int)
    requires 0 <= i < |publishers|
    ensures SumOfContributions(publishers) ==
            Contribution(publishers[i]) + SumOfContributions(publishers[..i] + publishers[i + 1..])
  {
    var rest := publishers[..i] + publishers[i + 1..];
    var last := |publishers| - 1;
    if i == last {
      assert rest == publishers[..last];
    } else {
      SumRemove(publishers[..last], i);
      assert rest[..|rest| - 1] == publishers[..last][..i] + publishers[..last][i + 1..];
    }
  }

  /** The depth does not depend on the order in which publishers are listed. */
  lemma {:induction false} SumIgnoresOrder(a: seq<U64>, b: seq<U64>)
    requires multiset(a) == multiset(b)
    ensures SumOfContributions(a) == SumOfContributions(b)
  {
    if a == [] {
      assert |b| == |multiset(b)| == 0;
    } else {
      var last := a[|a| - 1];
      assert a == a[..|a| - 1] + [last];
      assert last in multiset(b);
      var i :| 0 <= i < |b| && b[i] == last;
      var rest := b[..i] + b[i + 1..];
      assert b == b[..i] + [last] + b[i + 1..];
      assert multiset(rest) == multiset(b) - multiset{last} == multiset(a[..|a| - 1]);
      SumRemove(b, i);
      SumIgnoresOrder(a[..|a| - 1], rest);
    }
  }
}
