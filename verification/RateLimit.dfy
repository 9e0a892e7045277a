/** The webhook rate counter: INCR, then EXPIRE, on every call. Because the expiry is
    renewed each time, the counter forgets only after a silence of a whole window. */
module RateLimit {
  datatype Bucket = Empty | Counting(count: nat, expiry: int)

  function LiveCount(b: Bucket, now: int): nat {
    if b.Counting? && now < b.expiry then b.count else 0
  }

  // EXPIRE with a non-positive time deletes the key.
  function AfterHit(b: Bucket, now: int, window: int): Bucket {
    if window > 0 then Counting(LiveCount(b, now) + 1, now + window) else Empty
  }

  class RateCounter {
    var bucket: Bucket

    constructor ()
      ensures bucket == Empty
    {
      bucket := Empty;
    }

    // A limit that is not positive switches the check off without touching the counter.
    method Check(now: int, limit: int, window: int) returns (allowed: bool)
      modifies this
      ensures limit <= 0 ==> allowed && bucket == old(bucket)
      ensures limit > 0 ==> bucket == AfterHit(old(bucket), now, window)
      ensures limit > 0 ==> (allowed <==> LiveCount(old(bucket), now) < limit)
    {
      if limit <= 0 {
        return true;
      }
      var count := LiveCount(bucket, now) + 1;
      bucket := Counting(count, now + window);
      if window <= 0 {
        bucket := Empty;
      }
      return count <= limit;
    }
  }

  // ----- whole traces of calls -----

  ghost predicate Ordered(times: seq<int>) {
    forall i, j :: 0 <= i <= j < |times| ==> times[i] <= times[j]
  }

  // The counter before call `k`.
  function BucketBefore(times: seq<int>, window: int, k: nat): Bucket
    requires k <= |times|
  {
    if k == 0 then Empty else AfterHit(BucketBefore(times, window, k - 1), times[k - 1], window)
  }

  predicate Allowed(times: seq<int>, limit: int, window: int, k: nat)
    requires k < |times|
  {
    limit <= 0 || LiveCount(BucketBefore(times, window, k), times[k]) < limit
  }

  function AllowedIn(times: seq<int>, limit: int, window: int, i: nat, j: nat): nat
    requires i <= j <= |times|
  {
    if i == j then 0
    else AllowedIn(times, limit, window, i, j - 1) + if Allowed(times, limit, window, j - 1) then 1 else 0
  }

  // Call `k` comes after a silence of at least a window, or is the first.
  predicate StartsBurst(times: seq<int>, window: int, k: nat)
    requires k < |times|
  {
    k == 0 || times[k] - times[k - 1] >= window
  }

  // The calls from the last silence up to and including call `k`.
  function BurstSize(times: seq<int>, window: int, k: nat): nat
    requires k < |times|
  {
    if StartsBurst(times, window, k) then 1 else BurstSize(times, window, k - 1) + 1
  }

  // The counter counts the burst, for every window and every trace.
  lemma {:induction false} CounterIsBurst(times: seq<int>, window: int, k: nat)
    requires Ordered(times) && k < |times|
    ensures LiveCount(BucketBefore(times, window, k), times[k]) + 1 == BurstSize(times, window, k)
  {
    if k == 0 {
    } else {
      CounterIsBurst(times, window, k - 1);
    }
  }

  // A call is let through exactly when it is among the first `limit` of its burst.
  lemma AllowedIffEarlyInBurst(times: seq<int>, limit: int, window: int, k: nat)
    requires Ordered(times) && k < |times| && limit > 0
    ensures Allowed(times, limit, window, k) <==> BurstSize(times, window, k) <= limit
  {
    CounterIsBurst(times, window, k);
  }

  // In a stretch without a silence the allowed calls are the first ones, up to the limit.
  lemma {:induction false} StretchAllows(times: seq<int>, limit: int, window: int, i: nat, j: nat)
    requires Ordered(times) && i < j <= |times| && limit > 0
    requires forall m :: i < m < j ==> !StartsBurst(times, window, m)
    ensures BurstSize(times, window, j - 1) == BurstSize(times, window, i) + (j - 1 - i)
    ensures AllowedIn(times, limit, window, i, j) ==
            var before := BurstSize(times, window, i) - 1;
            if before + (j - i) <= limit then j - i else if before < limit then limit - before else 0
  {
    AllowedIffEarlyInBurst(times, limit, window, j - 1);
    if i < j - 1 {
      StretchAllows(times, limit, window, i, j - 1);
    } else {
      assert AllowedIn(times, limit, window, i, i) == 0;
    }
  }

  // Any span shorter than the window lets at most `limit` calls through.
  lemma SpanIsLimited(times: seq<int>, limit: int, window: int, i: nat, j: nat)
    requires Ordered(times) && i < j <= |times| && limit > 0
    requires times[j - 1] - times[i] < window
    ensures AllowedIn(times, limit, window, i, j) <= limit
  {
    forall m | i < m < j
      ensures !StartsBurst(times, window, m)
    {
      assert times[i] <= times[m - 1] && times[m] <= times[j - 1];
    }
    StretchAllows(times, limit, window, i, j);
  }

  // Once a call is refused, the next allowed one comes after a silence of a whole window.
  lemma {:induction false} RefusedUntilSilence(times: seq<int>, limit: int, window: int, i: nat, j: nat)
    requires Ordered(times) && i < j < |times|
    requires !Allowed(times, limit, window, i) && Allowed(times, limit, window, j)
    ensures exists m :: i < m <= j && times[m] - times[m - 1] >= window
  {
    AllowedIffEarlyInBurst(times, limit, window, i);
    AllowedIffEarlyInBurst(times, limit, window, j);
    if forall m :: i < m < j + 1 ==> !StartsBurst(times, window, m) {
      StretchAllows(times, limit, window, i, j + 1);
    } else {
      var m :| i < m < j + 1 && StartsBurst(times, window, m);
      assert times[m] - times[m - 1] >= window;
    }
  }

  lemma SilenceForgives(times: seq<int>, limit: int, window: int, k: nat)
    requires Ordered(times) && k < |times| && limit > 0 && StartsBurst(times, window, k)
    ensures Allowed(times, limit, window, k)
  {
    AllowedIffEarlyInBurst(times, limit, window, k);
  }

  // Between a refused call and a later one, some call passes exactly if the caller was silent
  // for a whole window in between.
  lemma PassesAgainIffSilent(times: seq<int>, limit: int, window: int, i: nat, j: nat)
    requires Ordered(times) && i < j < |times| && limit > 0 && !Allowed(times, limit, window, i)
    ensures (exists m :: i < m <= j && Allowed(times, limit, window, m))
       <==> (exists m :: i < m <= j && times[m] - times[m - 1] >= window)
  {
    if m :| i < m <= j && Allowed(times, limit, window, m) {
      RefusedUntilSilence(times, limit, window, i, m);
    }
    if m :| i < m <= j && times[m] - times[m - 1] >= window {
      SilenceForgives(times, limit, window, m);
    }
  }

  // Not a limit per window: calls that keep coming less than a window apart are refused for
  // good after the first `limit`, however few of them fall into any one window.
  lemma SteadyCallsAreCutOff(times: seq<int>, limit: int, window: int, k: nat)
    requires Ordered(times) && k < |times| && limit > 0
    requires forall m :: 0 < m < |times| ==> times[m] - times[m - 1] < window
    ensures Allowed(times, limit, window, k) <==> k < limit
  {
    forall m | 0 < m < k + 1
      ensures !StartsBurst(times, window, m)
    {
    }
    StretchAllows(times, limit, window, 0, k + 1);
    AllowedIffEarlyInBurst(times, limit, window, k);
  }
}
