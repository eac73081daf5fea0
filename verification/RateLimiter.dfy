/**
 The limiter as it runs: a mutable table, erased in loops. Every method takes the step of `RateLimits`
 it is named after.
 */
module RateLimiters {
  import opened Wrappers
  import opened RateLimits

  class RateLimiter {
    var buckets: map<string, Bucket>

    constructor ()
      ensures buckets == map[]
    {
      buckets := map[];
    }

    /** Walks the table, erasing the buckets not seen for thirty minutes. */
    method EraseIdle(now: Time)
      modifies this
      ensures buckets == DropIdle(old(buckets), now)
    {
      var ahead := buckets.Keys;
      while ahead != {}
        invariant ahead <= buckets.Keys <= old(buckets).Keys
        invariant forall k :: k in buckets ==> buckets[k] == old(buckets)[k]
        invariant forall k :: k in old(buckets) && k !in buckets ==> Idle(old(buckets)[k], now)
        invariant forall k :: k in buckets && k !in ahead ==> !Idle(buckets[k], now)
        decreases |ahead|
      {
        var k :| k in ahead;
        ahead := ahead - {k};
        if now - buckets[k].lastSeen >= IDLE_TTL {
          buckets := buckets - {k};
        }
      }
    }

    /** A bucket seen no later than any other; which one, among several, is up to the hash map. */
    method Oldest() returns (oldest: string)
      requires |buckets| > 0
      ensures IsOldest(buckets, oldest)
    {
      var ahead := buckets.Keys;
      assert |ahead| == |buckets|;
      oldest :| oldest in ahead;
      ahead := ahead - {oldest};
      while ahead != {}
        invariant oldest in buckets && ahead <= buckets.Keys
        invariant forall k :: k in buckets && k !in ahead ==> buckets[oldest].lastSeen <= buckets[k].lastSeen
        decreases |ahead|
      {
        var k :| k in ahead;
        ahead := ahead - {k};
        if buckets[k].lastSeen < buckets[oldest].lastSeen {
          oldest := k;
        }
      }
    }

    /** `victim` names the evicted bucket where one was evicted for want of room. */
    method Check(key: string, policy: Policy, now: Time) returns (r: Result<Decision, LimitError>, ghost victim: string)
      modifies this
      ensures Refusal(key, policy).None? && Crowded(old(buckets), now) ==>
                IsOldest(DropIdle(old(buckets), now), victim)
      ensures buckets == Step(true, old(buckets), Event.Check(key, policy, now, victim))
      ensures r == Answer(true, old(buckets), Event.Check(key, policy, now, victim))
    {
      victim := "";
      if key == "" {
        return Err(KeyRequired), victim;
      }
      if policy.maxAttempts == 0 {
        return Err(MaxAttemptsRequired), victim;
      }
      if policy.window <= 0 {
        return Err(WindowRequired), victim;
      }
      if |buckets| >= MAX_BUCKETS {
        EraseIdle(now);
        if |buckets| >= MAX_BUCKETS {
          var oldest := Oldest();
          victim := oldest;
          buckets := buckets - {oldest};
        }
      }
      var bucket := if key in buckets then buckets[key] else Bucket(0, 0, 0);
      if bucket.count == 0 || now - bucket.windowStart >= policy.window * SECOND {
        bucket := bucket.(windowStart := now, count := 0);
      }
      bucket := bucket.(lastSeen := now);
      if bucket.count >= policy.maxAttempts {
        buckets := buckets[key := bucket];
        var elapsed := WholeSeconds(now - bucket.windowStart);
        var retry := if elapsed >= policy.window then 0 else policy.window - elapsed;
        return Ok(Decision(false, 0, retry)), victim;
      }
      bucket := bucket.(count := bucket.count + 1);
      buckets := buckets[key := bucket];
      r := Ok(Decision(true, policy.maxAttempts - bucket.count, 0));
    }

    method Prune(now: Time)
      modifies this
      ensures buckets == Step(true, old(buckets), Event.Prune(now))
    {
      EraseIdle(now);
    }
  }
}
