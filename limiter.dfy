/** The server's per-client rate limiter: a sliding window of recent request times
    per key, in which a request is admitted while fewer than `maxRequests` earlier
    admitted requests fall inside the last `windowSeconds`. */
module Limiter {

  /** Request times, in seconds, oldest first. */
  type Queue = seq<real>

  /** The queue kept for `key`; a key never seen has an empty queue. */
  function QueueOf(hits: map<string, Queue>, key: string): Queue
  {
    if key in hits then hits[key] else []
  }

  /** Most queue entries a limiter with this setting can ever hold. */
  function Cap(maxRequests: int): nat
  {
    if maxRequests < 0 then 0 else maxRequests
  }

  ghost predicate Bounded(hits: map<string, Queue>, maxRequests: int)
  {
    forall k :: k in hits ==> |hits[k]| <= Cap(maxRequests)
  }

  ghost predicate Sorted(q: Queue)
  {
    forall i, j :: 0 <= i < j < |q| ==> q[i] <= q[j]
  }

  /** Drops entries from the front of the queue while the oldest is before `cutoff`. */
  function Prune(q: Queue, cutoff: real): (r: Queue)
    ensures |r| <= |q|
  {
    if q != [] && q[0] < cutoff then Prune(q[1..], cutoff) else q
  }

  /** Pruning removes a prefix of entries that are all before `cutoff`, and stops at the
      first entry that is not. */
  lemma {:induction false} PruneDropsOldPrefix(q: Queue, cutoff: real)
    ensures var r := Prune(q, cutoff);
      && r == q[|q| - |r|..]
      && (r == [] || r[0] >= cutoff)
      && forall i :: 0 <= i < |q| - |r| ==> q[i] < cutoff
  {
    if q != [] && q[0] < cutoff {
      PruneDropsOldPrefix(q[1..], cutoff);
    }
  }

  /** The entries of `q` at or after `cutoff`, in order. */
  function Recent(q: Queue, cutoff: real): Queue
  {
    if q == [] then []
    else if q[0] < cutoff then Recent(q[1..], cutoff)
    else [q[0]] + Recent(q[1..], cutoff)
  }

  /** On a queue in time order, pruning keeps exactly the requests inside the window. */
  lemma {:induction false} PruneSorted(q: Queue, cutoff: real)
    requires Sorted(q)
    ensures Prune(q, cutoff) == Recent(q, cutoff)
  {
    if q == [] {
    } else if q[0] < cutoff {
      PruneSorted(q[1..], cutoff);
    } else {
      AllRecent(q, cutoff);
    }
  }

  lemma {:induction false} AllRecent(q: Queue, cutoff: real)
    requires forall i :: 0 <= i < |q| ==> q[i] >= cutoff
    ensures Recent(q, cutoff) == q
  {
    if q != [] {
      AllRecent(q[1..], cutoff);
    }
  }

  /** One call of `allow` on one key's queue at time `now`: whether it is admitted, and
      the queue afterwards, which is stored pruned whether or not the call is admitted. */
  function Admit(q: Queue, now: real, maxRequests: int, windowSeconds: int): (bool, Queue)
  {
    var pruned := Prune(q, now - windowSeconds as real);
    if |pruned| >= maxRequests then (false, pruned) else (true, pruned + [now])
  }

  /** One call of `allow` for `key` on the limiter state `hits`: whether it is admitted,
      and the new state. A key seen for the first time gets a queue. */
  function AllowStep(hits: map<string, Queue>, key: string, now: real, maxRequests: int, windowSeconds: int)
    : (bool, map<string, Queue>)
  {
    var step := Admit(QueueOf(hits, key), now, maxRequests, windowSeconds);
    (step.0, hits[key := step.1])
  }

  /** A call is admitted exactly when fewer than `maxRequests` of the key's requests lie
      in the window; an admitted call is appended to the key's pruned queue, a refused
      one leaves it pruned; no other key changes; and no queue ever exceeds the cap. */
  lemma AllowStepCases(hits: map<string, Queue>, key: string, now: real, maxRequests: int, windowSeconds: int)
    requires Bounded(hits, maxRequests)
    ensures var (allowed, hits') := AllowStep(hits, key, now, maxRequests, windowSeconds);
      var q := Prune(QueueOf(hits, key), now - windowSeconds as real);
      && (allowed <==> |q| < maxRequests)
      && key in hits'
      && hits'[key] == (if allowed then q + [now] else q)
      && (forall k :: k != key ==> (k in hits' <==> k in hits) && (k in hits ==> hits'[k] == hits[k]))
      && Bounded(hits', maxRequests)
  {
  }

  /** If the key's queue is in time order and `now` is no earlier than its newest entry,
      the queue stays in time order. */
  lemma AllowKeepsSorted(hits: map<string, Queue>, key: string, now: real, maxRequests: int, windowSeconds: int)
    requires Sorted(QueueOf(hits, key))
    requires forall i :: 0 <= i < |QueueOf(hits, key)| ==> QueueOf(hits, key)[i] <= now
    ensures Sorted(AllowStep(hits, key, now, maxRequests, windowSeconds).1[key])
  {
    var q0 := QueueOf(hits, key);
    var q := Prune(q0, now - windowSeconds as real);
    PruneDropsOldPrefix(q0, now - windowSeconds as real);
    SortedSuffix(q0, |q0| - |q|);
    if |q| < maxRequests {
      SortedSnoc(q, now);
    }
  }

  lemma SortedSuffix(q: Queue, k: nat)
    requires Sorted(q) && k <= |q|
    ensures Sorted(q[k..])
    ensures forall i :: 0 <= i < |q| - k ==> q[k..][i] == q[k + i]
  {
  }

  lemma SortedSnoc(q: Queue, x: real)
    requires Sorted(q)
    requires forall i :: 0 <= i < |q| ==> q[i] <= x
    ensures Sorted(q + [x])
  {
  }

  /** `n` calls on one key's queue, all at the same time `now`: how many are admitted. */
  function Burst(q: Queue, now: real, n: nat, maxRequests: int, windowSeconds: int): nat
    decreases n
  {
    if n == 0 then 0
    else
      var step := Admit(q, now, maxRequests, windowSeconds);
      Burst(step.1, now, n - 1, maxRequests, windowSeconds) + (if step.0 then 1 else 0)
  }

  function Min(a: int, b: int): int
  {
    if a <= b then a else b
  }

  /** A burst of `n` simultaneous calls, on a queue whose requests are all still inside
      the window and within the cap, admits as many as the remaining capacity allows
      and no more. */
  lemma {:induction false} BurstAdmitsUpToCapacity(q: Queue, now: real, n: nat, maxRequests: int, windowSeconds: int)
    requires windowSeconds >= 0
    requires |q| <= Cap(maxRequests)
    requires forall i :: 0 <= i < |q| ==> q[i] >= now - windowSeconds as real
    ensures Burst(q, now, n, maxRequests, windowSeconds) == Min(n, Cap(maxRequests) - |q|)
    decreases n
  {
    if n > 0 {
      var cutoff := now - windowSeconds as real;
      PruneInside(q, cutoff);
      var step := Admit(q, now, maxRequests, windowSeconds);
      InsideSnoc(q, now, cutoff);
      BurstAdmitsUpToCapacity(step.1, now, n - 1, maxRequests, windowSeconds);
    }
  }

  /** Nothing is pruned from a queue whose entries are all inside the window. */
  lemma {:induction false} PruneInside(q: Queue, cutoff: real)
    requires forall i :: 0 <= i < |q| ==> q[i] >= cutoff
    ensures Prune(q, cutoff) == q
  {
    if q != [] {
      assert q[0] >= cutoff;
    }
  }

  lemma InsideSnoc(q: Queue, x: real, cutoff: real)
    requires forall i :: 0 <= i < |q| ==> q[i] >= cutoff
    requires x >= cutoff
    ensures forall i :: 0 <= i < |q + [x]| ==> (q + [x])[i] >= cutoff
  {
  }

  /** The pruning loop of `allow`: pops the oldest entry while it is before `cutoff`. */
  method PruneQueue(q0: Queue, cutoff: real) returns (q: Queue)
    ensures q == Prune(q0, cutoff)
  {
    q := q0;
    while q != [] && q[0] < cutoff
      invariant Prune(q, cutoff) == Prune(q0, cutoff)
      decreases |q|
    {
      q := q[1..];
    }
  }

  /** The limiter: the request times seen per key, pruned lazily on each call. */
  class SlidingWindowLimiter {
    const maxRequests: int
    const windowSeconds: int
    var hits: map<string, Queue>

    ghost predicate Valid()
      reads this
    {
      Bounded(hits, maxRequests)
    }

    constructor (maxRequests: int, windowSeconds: int)
      ensures this.maxRequests == maxRequests && this.windowSeconds == windowSeconds
      ensures hits == map[]
      ensures Valid()
    {
      this.maxRequests := maxRequests;
      this.windowSeconds := windowSeconds;
      hits := map[];
    }

    /** `allow`: the current time is passed in as `now`. */
    method Allow(key: string, now: real) returns (allowed: bool)
      requires Valid()
      modifies this
      ensures (allowed, hits) == AllowStep(old(hits), key, now, maxRequests, windowSeconds)
      ensures Valid()
    {
      var q := if key in hits then hits[key] else [];
      q := PruneQueue(q, now - windowSeconds as real);
      if |q| >= maxRequests {
        hits := hits[key := q];
        return false;
      }
      q := q + [now];
      hits := hits[key := q];
      return true;
    }
  }
}
