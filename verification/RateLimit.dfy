/** The sliding-window rate limiter, in its two forms: a Redis sorted set with a key expiry,
    and a pruned list of timestamps. Both answer as if they had kept every call ever made.
    Times are in milliseconds. */
module RateLimit {
  import opened Prelude

  /** The verdict for one call, from the number of calls counted in its window. */
  datatype Verdict = Verdict(isLimited: bool, remaining: nat)

  function Judge(count: nat, maxRequests: nat): Verdict {
    Verdict(count > maxRequests, if maxRequests < count then 0 else maxRequests - count)
  }

  predicate Monotone(calls: seq<int>) {
    (forall i :: 0 <= i < |calls| ==> 0 <= calls[i]) &&
    forall i, j :: 0 <= i < j < |calls| ==> calls[i] <= calls[j]
  }

  /** The reference: of the first n of all calls ever made, those in the window (now - w, now]. */
  function WindowCalls(calls: seq<int>, n: nat, now: int, w: nat): set<nat>
    requires n <= |calls|
  {
    set i: nat | i < n && now - w < calls[i] <= now
  }

  /* ---- The list form ---- */

  function PruneTo(log: seq<int>, n: nat, clearBefore: int): seq<int>
    requires n <= |log|
  {
    if n == 0 then []
    else PruneTo(log, n - 1, clearBefore) + (if log[n - 1] > clearBefore then [log[n - 1]] else [])
  }

  /** `filter((t) => t > clearBefore)` */
  function Prune(log: seq<int>, clearBefore: int): seq<int> {
    PruneTo(log, |log|, clearBefore)
  }

  function ListStep(log: seq<int>, now: int, w: nat): seq<int> {
    Prune(log, now - w) + [now]
  }

  /** The list after the first n calls. */
  function ListRun(calls: seq<int>, n: nat, w: nat): seq<int>
    requires n <= |calls|
  {
    if n == 0 then [] else ListStep(ListRun(calls, n - 1, w), calls[n - 1], w)
  }

  lemma {:induction false} PruneToPrefix(log: seq<int>, more: seq<int>, n: nat, lo: int)
    requires n <= |log|
    ensures PruneTo(log + more, n, lo) == PruneTo(log, n, lo)
  {
    if n == 0 {
    } else {
      PruneToPrefix(log, more, n - 1, lo);
    }
  }

  lemma PruneLast(log: seq<int>, last: int, lo: int)
    ensures Prune(log + [last], lo) == Prune(log, lo) + (if last > lo then [last] else [])
  {
    PruneToPrefix(log, [last], |log|, lo);
  }

  lemma {:induction false} PruneTwice(log: seq<int>, n: nat, lo: int, hi: int)
    requires n <= |log| && lo <= hi
    ensures Prune(PruneTo(log, n, lo), hi) == PruneTo(log, n, hi)
  {
    if n == 0 {
    } else {
      PruneTwice(log, n - 1, lo, hi);
      if log[n - 1] > lo {
        PruneLast(PruneTo(log, n - 1, lo), log[n - 1], hi);
      } else {
        assert PruneTo(log, n, lo) == PruneTo(log, n - 1, lo);
      }
    }
  }

  lemma {:induction false} PruneCounts(calls: seq<int>, n: nat, now: int, w: nat)
    requires n <= |calls| && forall i :: 0 <= i < n ==> calls[i] <= now
    ensures |PruneTo(calls, n, now - w)| == |WindowCalls(calls, n, now, w)|
  {
    if n == 0 {
    } else {
      PruneCounts(calls, n - 1, now, w);
      var all, init := WindowCalls(calls, n, now, w), WindowCalls(calls, n - 1, now, w);
      if calls[n - 1] > now - w {
        assert all == init + {n - 1};
      } else {
        assert all == init;
      }
    }
  }

  /** The pruned list is what pruning the full history would leave. */
  lemma {:induction false} ListIsWindow(calls: seq<int>, n: nat, w: nat)
    requires Monotone(calls) && 0 < n <= |calls| && 0 < w
    ensures ListRun(calls, n, w) == PruneTo(calls, n, calls[n - 1] - w)
  {
    if n > 1 {
      ListIsWindow(calls, n - 1, w);
      PruneTwice(calls, n - 1, calls[n - 2] - w, calls[n - 1] - w);
    }
  }

  /* ---- The sorted-set form ---- */

  /** A sorted set under a key with an expiry. Members are made distinct by a random suffix;
      here the member added by a call is the number of calls before it. */
  datatype ZKey = ZKey(members: map<nat, int>, expiresAt: int)

  const EXPIRY_SLACK: nat := 5000

  function ZMembers(key: Option<ZKey>, now: int): map<nat, int> {
    if key.Some? && now < key.value.expiresAt then key.value.members else map[]
  }

  /** The pipeline: ZREMRANGEBYSCORE 0 clearBefore, ZADD, ZCARD, EXPIRE. */
  function ZStep(key: Option<ZKey>, now: int, w: nat, member: nat): ZKey {
    var members := ZMembers(key, now);
    var kept := map m | m in members && !(0 <= members[m] <= now - w) :: members[m];
    ZKey(kept[member := now], now + w + EXPIRY_SLACK)
  }

  function ZRun(calls: seq<int>, n: nat, w: nat): Option<ZKey>
    requires n <= |calls|
  {
    if n == 0 then None else Some(ZStep(ZRun(calls, n - 1, w), calls[n - 1], w, n - 1))
  }

  /** The calls of the window of the n-th call, with their times. */
  function WindowMap(calls: seq<int>, n: nat, w: nat): map<nat, int>
    requires 0 < n <= |calls|
  {
    map m | m in WindowCalls(calls, n, calls[n - 1], w) :: calls[m]
  }

  lemma ZStepKeepsWindow(calls: seq<int>, n: nat, w: nat, key: ZKey)
    requires Monotone(calls) && 1 < n <= |calls| && 0 < w
    requires key == ZKey(WindowMap(calls, n - 1, w), calls[n - 2] + w + EXPIRY_SLACK)
    ensures ZStep(Some(key), calls[n - 1], w, n - 1).members == WindowMap(calls, n, w)
  {
    var now := calls[n - 1];
    var next := ZStep(Some(key), now, w, n - 1).members;
    forall m: nat ensures m in next <==> m in WindowCalls(calls, n, now, w) {
      if m < n - 1 {
        assert calls[m] <= calls[n - 2] <= now;
        assert m in key.members <==> calls[n - 2] - w < calls[m];
      }
    }
  }

  /** The sorted set holds exactly the calls of the window, although the key may have
      expired, and been deleted whole, at any time in between. */
  lemma {:induction false} ZSetIsWindow(calls: seq<int>, n: nat, w: nat)
    requires Monotone(calls) && 0 < n <= |calls| && 0 < w
    ensures ZRun(calls, n, w) == Some(ZKey(WindowMap(calls, n, w), calls[n - 1] + w + EXPIRY_SLACK))
  {
    if n > 1 {
      ZSetIsWindow(calls, n - 1, w);
      ZStepKeepsWindow(calls, n, w, ZRun(calls, n - 1, w).value);
    } else {
      assert ZRun(calls, 0, w) == None;
      assert ZStep(None, calls[0], w, 0).members == map[0 := calls[0]] == WindowMap(calls, 1, w);
    }
  }

  /* ---- Both forms equal the full history ---- */

  /** The number of calls each form counts for the n-th call is the number of all calls
      ever made in its window. */
  lemma BothFormsCountHistory(calls: seq<int>, n: nat, w: nat)
    requires Monotone(calls) && 0 < n <= |calls| && 0 < w
    ensures var count := |WindowCalls(calls, n, calls[n - 1], w)|;
            |ListRun(calls, n, w)| == count && |ZRun(calls, n, w).value.members| == count
  {
    ListIsWindow(calls, n, w);
    PruneCounts(calls, n, calls[n - 1], w);
    ZSetIsWindow(calls, n, w);
    var members := ZRun(calls, n, w).value.members;
    assert members.Keys == WindowCalls(calls, n, calls[n - 1], w);
    assert |members.Keys| == |members|;
  }

  /** In both forms a call is refused if and only if it is more than the maximum in its
      window, itself included; otherwise it is told how many are left. */
  lemma RefusedIff(calls: seq<int>, n: nat, w: nat, maxRequests: nat)
    requires Monotone(calls) && 0 < n <= |calls| && 0 < w
    ensures var count := |WindowCalls(calls, n, calls[n - 1], w)|;
            var list := Judge(|ListRun(calls, n, w)|, maxRequests);
            list == Judge(|ZRun(calls, n, w).value.members|, maxRequests) &&
            (list.isLimited <==> maxRequests + 1 <= count) &&
            (!list.isLimited ==> list.remaining + count == maxRequests) && (list.isLimited ==> list.remaining == 0)
  {
    BothFormsCountHistory(calls, n, w);
  }

  /** Call i was let through: the count it was given is at most maxRequests. */
  predicate Admitted(calls: seq<int>, i: nat, maxRequests: nat, w: nat)
    requires i < |calls|
  {
    !Judge(|ListRun(calls, i + 1, w)|, maxRequests).isLimited
  }

  /** The calls let through in the interval (start, start + w]. */
  function AdmittedIn(calls: seq<int>, start: int, maxRequests: nat, w: nat): set<nat> {
    set i: nat | i < |calls| && start < calls[i] <= start + w && Admitted(calls, i, maxRequests, w)
  }

  lemma SubsetSize(a: set<nat>, b: set<nat>)
    requires a <= b
    ensures |a| <= |b|
  {
    assert b == a + (b - a);
  }

  /** No interval of the length of the window ever admits more than maxRequests calls. */
  lemma AdmissionBound(calls: seq<int>, start: int, maxRequests: nat, w: nat)
    requires Monotone(calls) && 0 < w
    ensures |AdmittedIn(calls, start, maxRequests, w)| <= maxRequests
  {
    var let := AdmittedIn(calls, start, maxRequests, w);
    if let != {} {
      var m := LastOf(let);
      BothFormsCountHistory(calls, m + 1, w);
      SubsetSize(let, WindowCalls(calls, m + 1, calls[m], w));
    }
  }

  lemma {:induction false} LastOf(s: set<nat>) returns (m: nat)
    requires s != {}
    ensures m in s && forall i :: i in s ==> i <= m
  {
    var x :| x in s;
    m := x;
    if s != {x} {
      assert s - {x} != {};
      var k := LastOf(s - {x});
      m := if k < x then x else k;
      assert forall i :: i in s ==> i == x || i in s - {x};
    }
  }

  /* ---- The middleware ---- */

  class RateLimiter {
    var sortedSets: map<string, ZKey>     // Redis
    var timestamps: map<string, seq<int>> // process memory

    constructor ()
      ensures sortedSets == map[] && timestamps == map[]
    {
      sortedSets, timestamps := map[], map[];
    }

    /** One call. When the Redis pipeline fails, the list in memory is used instead. */
    method IsRateLimited(key: string, maxRequests: nat, window: nat, now: int, member: nat, redisUp: bool)
      returns (v: Verdict)
      modifies this
      ensures if redisUp then
                timestamps == old(timestamps) &&
                var z := ZStep(if key in old(sortedSets) then Some(old(sortedSets)[key]) else None, now, window, member);
                sortedSets == old(sortedSets)[key := z] && v == Judge(|z.members|, maxRequests)
              else
                sortedSets == old(sortedSets) &&
                var log := ListStep(if key in old(timestamps) then old(timestamps)[key] else [], now, window);
                timestamps == old(timestamps)[key := log] && v == Judge(|log|, maxRequests)
    {
      var clearBefore := now - window;
      if redisUp {
        var members: map<nat, int> := map[];
        if key in sortedSets && now < sortedSets[key].expiresAt {
          members := sortedSets[key].members;
        }
        ghost var z := ZStep(if key in sortedSets then Some(sortedSets[key]) else None, now, window, member);
        members := map m | m in members && (members[m] < 0 || clearBefore < members[m]) :: members[m];
        members := members[member := now];
        assert members == z.members;
        var currentCount := |members|;
        sortedSets := sortedSets[key := ZKey(members, now + window + EXPIRY_SLACK)];
        return Verdict(currentCount > maxRequests, if maxRequests >= currentCount then maxRequests - currentCount else 0);
      }
      var log := [];
      if key in timestamps {
        log := timestamps[key];
      }
      log := Prune(log, clearBefore);
      log := log + [now];
      timestamps := timestamps[key := log];
      var currentCount := |log|;
      v := Verdict(currentCount > maxRequests, if maxRequests >= currentCount then maxRequests - currentCount else 0);
    }
  }
}
