/** The per-IP token bucket that guards the webhook (app/auth.py). */
module RateLimiter {
  import opened Nums

  datatype Bucket = Bucket(tokens: real, last: real)

  datatype Limits = Limits(capacity: real, rate: real) {
    ghost predicate Valid() { capacity >= 0.0 && rate >= 0.0 }
  }

  /** Tokens added between two clock readings. */
  function Earned(l: Limits, from: real, to: real): real {
    (to - from) * l.rate
  }

  lemma EarnedAdds(l: Limits, a: real, b: real, c: real)
    ensures Earned(l, a, c) == Earned(l, a, b) + Earned(l, b, c)
  {
  }

  lemma EarnedNothing(l: Limits, a: real)
    ensures Earned(l, a, a) == 0.0
  {
  }

  lemma EarnedGrows(l: Limits, a: real, b: real)
    requires l.Valid() && a <= b
    ensures Earned(l, a, b) >= 0.0
  {
  }

  /** What a bucket holds at `now`; an unseen IP starts full. */
  function Refilled(l: Limits, b: Option<Bucket>, now: real): real {
    match b
    case None => l.capacity
    case Some(k) => Min(l.capacity, k.tokens + Earned(l, k.last, now))
  }

  function Serve(l: Limits, b: Option<Bucket>, now: real): (Bucket, bool) {
    var tokens := Refilled(l, b, now);
    if tokens >= 1.0 then (Bucket(tokens - 1.0, now), true) else (Bucket(tokens, now), false)
  }

  class IPRateLimiter {
    const limits: Limits
    var buckets: map<string, Bucket>

    constructor (capacity: int, refillRate: real)
      ensures limits == Limits(capacity as real, refillRate) && buckets == map[]
    {
      limits, buckets := Limits(capacity as real, refillRate), map[];
    }

    /** Take one token from the bucket of `ip` if it holds one; other buckets are not looked at. */
    method IsAllowed(ip: string, now: real) returns (allowed: bool)
      modifies this`buckets
      ensures buckets == old(buckets)[ip := Serve(limits, Lookup(old(buckets), ip), now).0]
      ensures allowed == Serve(limits, Lookup(old(buckets), ip), now).1
    {
      var tokens, last := limits.capacity, now;
      if ip in buckets {
        tokens, last := buckets[ip].tokens, buckets[ip].last;
      }
      EarnedNothing(limits, now);
      tokens := Min(limits.capacity, tokens + Earned(limits, last, now));
      if tokens >= 1.0 {
        buckets := buckets[ip := Bucket(tokens - 1.0, now)];
        return true;
      }
      buckets := buckets[ip := Bucket(tokens, now)];
      return false;
    }
  }

  function Lookup(buckets: map<string, Bucket>, ip: string): Option<Bucket> {
    if ip in buckets then Some(buckets[ip]) else None
  }

  // ---- Whole histories ----

  datatype Call = Call(ip: string, at: real)

  /** Calls are served one at a time under the lock, so the monotonic clock never goes back. */
  ghost predicate InTime(h: seq<Call>) {
    forall i, j :: 0 <= i < j < |h| ==> h[i].at <= h[j].at
  }

  function BucketsAfter(l: Limits, h: seq<Call>): map<string, Bucket> {
    if h == [] then map[]
    else
      var before := BucketsAfter(l, h[..|h| - 1]);
      var c := h[|h| - 1];
      before[c.ip := Serve(l, Lookup(before, c.ip), c.at).0]
  }

  /** The answer to the `i`-th call of a history. */
  predicate Allowed(l: Limits, h: seq<Call>, i: nat)
    requires i < |h|
  {
    Serve(l, Lookup(BucketsAfter(l, h[..i]), h[i].ip), h[i].at).1
  }

  /** Calls from `ip` among positions `lo..hi` that were allowed. */
  function AllowedCount(l: Limits, h: seq<Call>, ip: string, lo: nat, hi: nat): nat
    requires lo <= hi <= |h|
  {
    if lo == hi then 0
    else AllowedCount(l, h, ip, lo, hi - 1) + (if h[hi - 1].ip == ip && Allowed(l, h, hi - 1) then 1 else 0)
  }

  /** The tokens of `ip` as of time `now`, counting the refill it has not yet been credited. */
  function Credit(l: Limits, h: seq<Call>, ip: string, now: real): real {
    Refilled(l, Lookup(BucketsAfter(l, h), ip), now)
  }

  lemma {:induction false} BucketsSane(l: Limits, h: seq<Call>, ip: string)
    requires l.Valid() && InTime(h) && ip in BucketsAfter(l, h)
    ensures 0.0 <= BucketsAfter(l, h)[ip].tokens <= l.capacity
    ensures h != [] && BucketsAfter(l, h)[ip].last <= h[|h| - 1].at
  {
    var init, c := h[..|h| - 1], h[|h| - 1];
    assert forall i :: 0 <= i < |init| ==> init[i] == h[i];
    if ip in BucketsAfter(l, init) {
      BucketsSane(l, init, ip);
      assert init[|init| - 1].at <= c.at;
      EarnedGrows(l, BucketsAfter(l, init)[ip].last, c.at);
    }
  }

  lemma RefillGrows(l: Limits, b: Option<Bucket>, t: real, t': real)
    requires l.Valid() && t <= t'
    ensures Refilled(l, b, t') <= Refilled(l, b, t) + Earned(l, t, t')
  {
  }

  /** Serving one call leaves an IP with at most what it had, less one if its call was allowed. */
  lemma PaidByOne(l: Limits, before: map<string, Bucket>, c: Call, ip: string)
    requires l.Valid()
    ensures var (served, ok) := Serve(l, Lookup(before, c.ip), c.at);
            Refilled(l, Lookup(before[c.ip := served], ip), c.at)
            <= Refilled(l, Lookup(before, ip), c.at) - (if ok && c.ip == ip then 1.0 else 0.0)
  {
  }

  lemma CreditAfterCall(l: Limits, h: seq<Call>, ip: string, i: nat)
    requires l.Valid() && i < |h|
    ensures Credit(l, h[..i + 1], ip, h[i].at)
            <= Credit(l, h[..i], ip, h[i].at) - (if h[i].ip == ip && Allowed(l, h, i) then 1.0 else 0.0)
  {
    assert h[..i + 1][..i] == h[..i];
    PaidByOne(l, BucketsAfter(l, h[..i]), h[i], ip);
  }

  /** Allowed calls are paid for: by the tokens held when the window opens and the refill since. */
  lemma {:induction false} AllowedArePaid(l: Limits, h: seq<Call>, ip: string, lo: nat, hi: nat)
    requires l.Valid() && InTime(h) && lo < hi <= |h|
    ensures AllowedCount(l, h, ip, lo, hi) as real + Credit(l, h[..hi], ip, h[hi - 1].at)
            <= Credit(l, h[..lo], ip, h[lo].at) + Earned(l, h[lo].at, h[hi - 1].at)
  {
    CreditAfterCall(l, h, ip, hi - 1);
    if lo == hi - 1 {
      EarnedNothing(l, h[lo].at);
      assert AllowedCount(l, h, ip, lo, lo) == 0;
    } else {
      AllowedArePaid(l, h, ip, lo, hi - 1);
      RefillGrows(l, Lookup(BucketsAfter(l, h[..hi - 1]), ip), h[hi - 2].at, h[hi - 1].at);
      EarnedAdds(l, h[lo].at, h[hi - 2].at, h[hi - 1].at);
    }
  }

  lemma CreditBounds(l: Limits, h: seq<Call>, ip: string, now: real)
    requires l.Valid() && InTime(h) && forall i :: 0 <= i < |h| ==> h[i].at <= now
    ensures 0.0 <= Credit(l, h, ip, now) <= l.capacity
  {
    if ip in BucketsAfter(l, h) {
      BucketsSane(l, h, ip);
      EarnedGrows(l, BucketsAfter(l, h)[ip].last, now);
    }
  }

  /** In any window of any history, an IP gets at most its capacity plus the refill of the window. */
  lemma WindowBound(l: Limits, h: seq<Call>, ip: string, lo: nat, hi: nat)
    requires l.Valid() && InTime(h) && lo < hi <= |h|
    ensures AllowedCount(l, h, ip, lo, hi) as real <= l.capacity + Earned(l, h[lo].at, h[hi - 1].at)
  {
    AllowedArePaid(l, h, ip, lo, hi);
    CreditBounds(l, h[..hi], ip, h[hi - 1].at);
    CreditBounds(l, h[..lo], ip, h[lo].at);
  }

  // ---- Bursts ----

  /** Calls from `ip` among positions `lo..hi`. */
  function CallCount(h: seq<Call>, ip: string, lo: nat, hi: nat): nat
    requires lo <= hi <= |h|
  {
    if lo == hi then 0 else CallCount(h, ip, lo, hi - 1) + (if h[hi - 1].ip == ip then 1 else 0)
  }

  /** A call costs at most one token, and time takes none away. */
  lemma CostsOne(l: Limits, before: map<string, Bucket>, c: Call, ip: string, next: real)
    requires l.Valid() && c.at <= next && (ip in before ==> before[ip].last <= c.at)
    requires Refilled(l, Lookup(before, ip), c.at) <= l.capacity
    ensures var after := before[c.ip := Serve(l, Lookup(before, c.ip), c.at).0];
            Refilled(l, Lookup(after, ip), next) >= Refilled(l, Lookup(before, ip), c.at) - (if c.ip == ip then 1.0 else 0.0)
  {
    EarnedGrows(l, c.at, next);
    if ip in before { EarnedAdds(l, before[ip].last, c.at, next); }
  }

  lemma {:induction false} CreditLasts(l: Limits, h: seq<Call>, ip: string, lo: nat, i: nat)
    requires l.Valid() && InTime(h) && lo <= i < |h|
    ensures Credit(l, h[..i], ip, h[i].at) >= Credit(l, h[..lo], ip, h[lo].at) - CallCount(h, ip, lo, i) as real
  {
    if lo < i {
      CreditLasts(l, h, ip, lo, i - 1);
      assert h[..i][..i - 1] == h[..i - 1];
      CreditBounds(l, h[..i - 1], ip, h[i - 1].at);
      if ip in BucketsAfter(l, h[..i - 1]) { BucketsSane(l, h[..i - 1], ip); }
      CostsOne(l, BucketsAfter(l, h[..i - 1]), h[i - 1], ip, h[i].at);
    }
  }

  /** With `c` tokens in hand the next `c` calls are served, however close they come. */
  lemma BurstServed(l: Limits, h: seq<Call>, lo: nat, i: nat)
    requires l.Valid() && InTime(h) && lo <= i < |h|
    requires CallCount(h, h[i].ip, lo, i) as real + 1.0 <= Credit(l, h[..lo], h[i].ip, h[lo].at)
    ensures Allowed(l, h, i)
  {
    CreditLasts(l, h, h[i].ip, lo, i);
  }

  /** From `lo` on, the first calls ever of an IP, all at one instant. */
  ghost predicate Burst(h: seq<Call>, lo: nat, hi: nat) {
    && lo < hi <= |h| && (forall m :: lo <= m < hi ==> h[m] == h[lo]) && forall m :: 0 <= m < lo ==> h[m].ip != h[lo].ip
  }

  lemma {:induction false} BurstCounts(l: Limits, h: seq<Call>, lo: nat, hi: nat, i: nat)
    requires Burst(h, lo, hi) && lo <= i <= hi
    ensures CallCount(h, h[lo].ip, lo, i) == i - lo
    ensures (forall m :: lo <= m < i ==> Allowed(l, h, m)) ==> AllowedCount(l, h, h[lo].ip, lo, i) == i - lo
  {
    if lo < i { BurstCounts(l, h, lo, hi, i - 1); }
  }

  /** A new IP's burst gets exactly as many calls through as whole tokens fit the bucket. */
  lemma BurstWhen(l: Limits, h: seq<Call>, lo: nat, hi: nat, i: nat)
    requires l.Valid() && InTime(h) && Burst(h, lo, hi) && lo <= i < hi
    ensures Allowed(l, h, i) <==> (i - lo + 1) as real <= l.capacity
  {
    UntouchedSince(l, h, h[lo].ip, 0, lo);
    forall m | lo <= m < hi && (m - lo + 1) as real <= l.capacity
      ensures Allowed(l, h, m)
    {
      BurstCounts(l, h, lo, hi, m);
      BurstServed(l, h, lo, m);
    }
    if (i - lo + 1) as real > l.capacity {
      BurstRunsDry(l, h, lo, hi, Floor(l.capacity) + lo, i);
    }
  }

  /** Once the whole tokens are gone, at the `dry`-th position, the rest of the burst is refused. */
  lemma {:induction false} BurstRunsDry(l: Limits, h: seq<Call>, lo: nat, hi: nat, dry: int, i: nat)
    requires l.Valid() && InTime(h) && Burst(h, lo, hi) && dry == lo + Floor(l.capacity) && dry <= i < hi
    requires forall m :: lo <= m < dry ==> Allowed(l, h, m)
    ensures !Allowed(l, h, i)
  {
    if dry == i {
      BurstCounts(l, h, lo, hi, i);
      AllowedArePaid(l, h, h[lo].ip, lo, i + 1);
      EarnedNothing(l, h[lo].at);
      CreditBounds(l, h[..i + 1], h[lo].ip, h[lo].at);
      CreditBounds(l, h[..lo], h[lo].ip, h[lo].at);
    } else {
      BurstRunsDry(l, h, lo, hi, dry, i - 1);
      assert h[..i][..i - 1] == h[..i - 1];
      EarnedNothing(l, h[lo].at);
    }
  }

  // ---- Isolation ----

  /** The calls of one IP, as a history of its own. */
  function Only(h: seq<Call>, ip: string): seq<Call> {
    if h == [] then []
    else Only(h[..|h| - 1], ip) + (if h[|h| - 1].ip == ip then [h[|h| - 1]] else [])
  }

  /** Nobody else's calls change an IP's bucket, hence none of its answers. */
  lemma {:induction false} OthersAreInvisible(l: Limits, h: seq<Call>, ip: string)
    ensures Lookup(BucketsAfter(l, h), ip) == Lookup(BucketsAfter(l, Only(h, ip)), ip)
  {
    if h != [] {
      var init, c := h[..|h| - 1], h[|h| - 1];
      OthersAreInvisible(l, init, ip);
      if c.ip == ip {
        assert Only(h, ip)[..|Only(h, ip)| - 1] == Only(init, ip);
      } else {
        assert Only(h, ip) == Only(init, ip);
      }
    }
  }

  /** The answer to a call depends on the earlier calls of its own IP alone. */
  lemma AnswerDependsOnOwnCalls(l: Limits, h: seq<Call>, i: nat)
    requires i < |h|
    ensures var own := Only(h[..i], h[i].ip);
            Allowed(l, h, i) == Allowed(l, own + [h[i]], |own|)
  {
    var own := Only(h[..i], h[i].ip);
    OthersAreInvisible(l, h[..i], h[i].ip);
    assert (own + [h[i]])[..|own|] == own;
  }

  // ---- Liveness ----

  /** `j` is the latest call of the same IP before call `i`. */
  ghost predicate Previous(h: seq<Call>, j: nat, i: nat) {
    && j < i < |h| && h[j].ip == h[i].ip
    && forall m :: j < m < i ==> h[m].ip != h[i].ip
  }

  lemma {:induction false} UntouchedSince(l: Limits, h: seq<Call>, ip: string, from: nat, to: nat)
    requires from <= to <= |h|
    requires forall m :: from <= m < to ==> h[m].ip != ip
    ensures Lookup(BucketsAfter(l, h[..to]), ip) == Lookup(BucketsAfter(l, h[..from]), ip)
  {
    if from < to {
      assert h[..to][..to - 1] == h[..to - 1];
      UntouchedSince(l, h, ip, from, to - 1);
    }
  }

  /** With room for one token, an IP's first call is served. */
  lemma FirstCallServed(l: Limits, h: seq<Call>, i: nat)
    requires l.capacity >= 1.0 && i < |h|
    requires forall m :: 0 <= m < i ==> h[m].ip != h[i].ip
    ensures Allowed(l, h, i)
  {
    UntouchedSince(l, h, h[i].ip, 0, i);
  }

  /** With room for one token, a call that comes a full refill interval after the previous
      one of its IP is served, whatever happened before. */
  lemma SpacedCallServed(l: Limits, h: seq<Call>, j: nat, i: nat)
    requires l.capacity >= 1.0 && l.rate > 0.0 && InTime(h)
    requires Previous(h, j, i) && h[i].at - h[j].at >= 1.0 / l.rate
    ensures Allowed(l, h, i)
  {
    var ip, upto := h[i].ip, h[..j + 1];
    UntouchedSince(l, h, ip, j + 1, i);
    assert upto[..j] == h[..j] && upto[j] == h[j];
    assert ip in BucketsAfter(l, upto);
    BucketsSane(l, upto, ip);
    FullInterval(l, BucketsAfter(l, upto)[ip].last, h[i].at);
  }

  lemma FullInterval(l: Limits, from: real, to: real)
    requires l.rate > 0.0 && to - from >= 1.0 / l.rate
    ensures Earned(l, from, to) >= 1.0
  {
  }
}
