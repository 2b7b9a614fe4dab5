/** The sliding-window rate limiter: one counter per tenant and minute, the previous minute weighted by the part
    of it that the window still covers. Times are milliseconds; the weight is exact. */
module RateLimit {
  import opened Common

  datatype Request = Request(tenant: Id, at: nat)

  function Second(at: nat): nat { at / 1000 }

  function Bucket(at: nat): nat { Second(at) / 60 }

  function Elapsed(at: nat): nat { Second(at) % 60 }

  ghost predicate Sorted(log: seq<Request>) {
    forall i, j :: 0 <= i < j < |log| ==> log[i].at <= log[j].at
  }

  /** All requests of a tenant in a minute, admitted or not. */
  function Count(log: seq<Request>, tenant: Id, bucket: int): nat {
    if log == [] then 0
    else
      var last := log[|log| - 1];
      Count(log[..|log| - 1], tenant, bucket) + if last.tenant == tenant && Bucket(last.at) == bucket then 1 else 0
  }

  /** Sixty times the estimate that the last request of the log is judged by, the request itself included. */
  function Estimate(log: seq<Request>): int
    requires log != []
  {
    var r := log[|log| - 1];
    Sixtieths(Count(log, r.tenant, Bucket(r.at)), Count(log, r.tenant, Bucket(r.at) - 1), Elapsed(r.at))
  }

  function Sixtieths(current: nat, previous: nat, elapsed: nat): int {
    60 * current + previous * (60 - elapsed)
  }

  predicate Admits(log: seq<Request>, limit: int)
    requires log != []
  {
    Estimate(log) <= 60 * limit
  }

  /** Admitted requests of a tenant in the seconds after `low` up to and including `high`. */
  function Admitted(log: seq<Request>, tenant: Id, low: int, high: int, limit: int): nat {
    if log == [] then 0
    else
      var last := log[|log| - 1];
      Admitted(log[..|log| - 1], tenant, low, high, limit)
      + if last.tenant == tenant && low < Second(last.at) <= high && Admits(log, limit) then 1 else 0
  }

  /** Admitted requests in the sixty seconds that end with second `t`. */
  function InWindow(log: seq<Request>, tenant: Id, t: nat, limit: int): nat {
    Admitted(log, tenant, t - 60, t, limit)
  }

  // ---------- The middleware ----------

  datatype Counter = Counter(count: nat, expires: nat)

  datatype Reply = Pass(remaining: int, reset: nat) | TooMany(retryAfter: nat)

  const TTL := 120 * 1000

  /** The counters are the counts of the log, and live until their minute is no longer read as the previous one. */
  ghost predicate Tracks(counters: map<(Id, int), Counter>, log: seq<Request>) {
    && (forall key <- counters ::
          counters[key].count == Count(log, key.0, key.1) && counters[key].expires >= 60000 * (key.1 + 2))
    && forall tenant: Id, bucket: int :: (tenant, bucket) !in counters ==> Count(log, tenant, bucket) == 0
  }

  lemma CountStep(log: seq<Request>, r: Request, tenant: Id, bucket: int)
    ensures Count(log + [r], tenant, bucket)
            == Count(log, tenant, bucket) + if r.tenant == tenant && Bucket(r.at) == bucket then 1 else 0
  {
    assert (log + [r])[..|log|] == log;
  }

  lemma TracksStep(counters: map<(Id, int), Counter>, log: seq<Request>, r: Request, c: Counter)
    requires Tracks(counters, log) && c.count == Count(log, r.tenant, Bucket(r.at)) + 1
    requires c.expires >= 60000 * (Bucket(r.at) + 2)
    ensures Tracks(counters[(r.tenant, Bucket(r.at)) := c], log + [r])
  {
    forall tenant: Id, bucket: int {
      CountStep(log, r, tenant, bucket);
    }
  }

  lemma EstimateOfLast(before: seq<Request>, r: Request, current: nat, previous: nat)
    requires current == Count(before + [r], r.tenant, Bucket(r.at))
             && previous == Count(before + [r], r.tenant, Bucket(r.at) - 1)
    ensures Estimate(before + [r]) == Sixtieths(current, previous, Elapsed(r.at))
  {
  }

  lemma SortedSnoc(log: seq<Request>, r: Request)
    requires Sorted(log) && forall x <- log :: x.at <= r.at
    ensures Sorted(log + [r])
  {
  }

  /** The reply to an estimate, in sixtieths of a request. */
  method Answer(limit: int, estimated: int, now: nat) returns (reply: Reply)
    ensures reply.Pass? <==> estimated <= 60 * limit
    ensures reply.Pass? ==> 60 * reply.remaining <= 60 * limit - estimated < 60 * (reply.remaining + 1)
    ensures reply.Pass? ==> reply.remaining >= 0 && reply.reset == 60 * (Bucket(now) + 1)
    ensures reply.TooMany? ==> Second(now) + reply.retryAfter == 60 * (Bucket(now) + 1)
  {
    MinuteEnds(now);
    if estimated > 60 * limit {
      return TooMany(60 - Elapsed(now));
    }
    var room := 60 * limit - estimated;
    Quotient(room);
    return Pass(room / 60, (Bucket(now) + 1) * 60);
  }

  lemma Quotient(room: nat)
    ensures 0 <= 60 * (room / 60) <= room < 60 * (room / 60 + 1)
  {
  }

  lemma MinuteEnds(now: nat)
    ensures Second(now) + (60 - Elapsed(now)) == 60 * (Bucket(now) + 1) && Elapsed(now) < 60
  {
  }

  class RateLimiter {
    const limit: int
    var counters: map<(Id, int), Counter>
    ghost var log: seq<Request>

    ghost predicate Valid()
      reads this
    {
      Sorted(log) && Tracks(counters, log)
    }

    constructor (limit: int)
      ensures Valid() && log == [] && this.limit == limit
    {
      this.limit := limit;
      counters := map[];
      log := [];
    }

    /** GET: a key past its time to live is absent. */
    method Get(key: (Id, int), now: nat) returns (count: nat)
      requires Tracks(counters, log) && Bucket(now) <= key.1 + 1
      ensures count == Count(log, key.0, key.1)
    {
      count := if key in counters && now < counters[key].expires then counters[key].count else 0;
    }

    /** INCR, then EXPIRE when the key is new. */
    method Increment(tenant: Id, now: nat) returns (count: nat)
      requires Tracks(counters, log) && forall r <- log :: r.at <= now
      modifies `counters, `log
      ensures log == old(log) + [Request(tenant, now)] && Tracks(counters, log)
      ensures count == Count(log, tenant, Bucket(now))
    {
      var key := (tenant, Bucket(now));
      var known := Get(key, now);
      CountStep(log, Request(tenant, now), tenant, Bucket(now));
      count := known + 1;
      var expires := if count == 1 then now + TTL else counters[key].expires;
      TracksStep(counters, log, Request(tenant, now), Counter(count, expires));
      counters := counters[key := Counter(count, expires)];
      log := log + [Request(tenant, now)];
    }

    /** `__call__`, from the clock to the reply. */
    method Handle(tenant: Id, now: nat) returns (reply: Reply)
      requires Valid() && forall r <- log :: r.at <= now
      modifies `counters, `log
      ensures Valid() && log == old(log) + [Request(tenant, now)]
      ensures reply.Pass? <==> Admits(log, limit)
      ensures reply.Pass? ==> 60 * reply.remaining <= 60 * limit - Estimate(log) < 60 * (reply.remaining + 1)
      ensures reply.Pass? ==> reply.remaining >= 0 && reply.reset == 60 * (Bucket(now) + 1)
      ensures reply.TooMany? ==> Second(now) + reply.retryAfter == 60 * (Bucket(now) + 1)
    {
      var elapsed := Elapsed(now);
      var current := Increment(tenant, now);
      var previous := Get((tenant, Bucket(now) - 1), now);
      var estimated := Sixtieths(current, previous, elapsed);
      EstimateOfLast(old(log), Request(tenant, now), current, previous);
      SortedSnoc(old(log), Request(tenant, now));
      reply := Answer(limit, estimated, now);
    }
  }

  // ---------- Bounds ----------

  function AtLeastZero(limit: int): nat {
    if limit < 0 then 0 else limit
  }

  lemma CountLimitsAdmitted(log: seq<Request>, limit: int)
    requires log != [] && Admits(log, limit)
    ensures var r := log[|log| - 1]; 1 <= Count(log, r.tenant, Bucket(r.at)) <= limit
  {
    var r := log[|log| - 1];
    ProductNotNegative(Count(log, r.tenant, Bucket(r.at) - 1), 60 - Elapsed(r.at));
    assert log == log[..|log| - 1] + [r];
    CountStep(log[..|log| - 1], r, r.tenant, Bucket(r.at));
  }

  lemma ProductNotNegative(a: nat, b: nat)
    ensures a * b >= 0
  {
  }

  /** Every minute admits at most `limit`, and no more than asked. */
  lemma {:induction false} BucketBound(log: seq<Request>, tenant: Id, bucket: nat, low: int, high: int, limit: int)
    requires 60 * bucket - 1 <= low && high < 60 * bucket + 60
    ensures Admitted(log, tenant, low, high, limit) <= AtLeastZero(limit)
    ensures Admitted(log, tenant, low, high, limit) <= Count(log, tenant, bucket)
  {
    if log != [] {
      var r := log[|log| - 1];
      BucketBound(log[..|log| - 1], tenant, bucket, low, high, limit);
      if r.tenant == tenant && low < Second(r.at) <= high && Admits(log, limit) {
        CountLimitsAdmitted(log, limit);
      }
    }
  }

  lemma {:induction false} AdmittedSplits(log: seq<Request>, tenant: Id, low: int, mid: int, high: int, limit: int)
    requires low <= mid <= high
    ensures Admitted(log, tenant, low, high, limit)
            == Admitted(log, tenant, low, mid, limit) + Admitted(log, tenant, mid, high, limit)
  {
    if log != [] {
      AdmittedSplits(log[..|log| - 1], tenant, low, mid, high, limit);
    }
  }

  lemma ProductOrder(a: int, b: int, m: nat)
    requires a <= b
    ensures a * m <= b * m && m * a <= m * b
  {
  }

  lemma WindowArithmetic(c: nat, p: nat, q: nat, e: nat, f: nat, limit: int)
    requires 60 * c + p * (60 - e) <= 60 * limit && q <= p && q <= limit && e <= f < 60
    ensures 60 * (c + q) <= limit * (60 + f)
  {
    ProductOrder(q, p, 60 - e);
    ProductOrder(q, limit, e);
    ProductOrder(e, f, limit);
    assert q * (60 - e) == q * 60 - q * e;
    assert limit * (60 + f) == limit * 60 + limit * f;
  }

  /** With a clock that never goes back: every window of sixty seconds that ends at second `t` admits at most
      limit * (60 + t % 60) / 60 requests. */
  lemma {:induction false} WindowBound(log: seq<Request>, tenant: Id, t: nat, limit: int)
    requires Sorted(log)
    ensures 60 * InWindow(log, tenant, t, limit) <= AtLeastZero(limit) * (60 + t % 60)
  {
    var b := t / 60;
    AdmittedSplits(log, tenant, t - 60, 60 * b - 1, t, limit);
    var early := Admitted(log, tenant, t - 60, 60 * b - 1, limit);
    var late := Admitted(log, tenant, 60 * b - 1, t, limit);
    EarlyPart(log, tenant, t, limit);
    if late == 0 {
      assert AtLeastZero(limit) * 60 <= AtLeastZero(limit) * (60 + t % 60);
    } else {
      var r, rest := log[|log| - 1], log[..|log| - 1];
      if r.tenant == tenant && 60 * b - 1 < Second(r.at) <= t && Admits(log, limit) {
        BucketBound(log, tenant, b, 60 * b - 1, t, limit);
        assert Bucket(r.at) == b && Elapsed(r.at) <= t % 60;
        WindowArithmetic(Count(log, tenant, b), Count(log, tenant, b - 1), early, Elapsed(r.at), t % 60, limit);
      } else {
        LateFollows(log, tenant, t, limit);
        WindowBound(rest, tenant, t, limit);
      }
    }
  }

  lemma EarlyPart(log: seq<Request>, tenant: Id, t: nat, limit: int)
    ensures var early := Admitted(log, tenant, t - 60, 60 * (t / 60) - 1, limit);
            early <= AtLeastZero(limit) && early <= Count(log, tenant, t / 60 - 1)
  {
    if t >= 60 {
      BucketBound(log, tenant, t / 60 - 1, t - 60, 60 * (t / 60) - 1, limit);
    } else {
      NothingBefore(log, tenant, t - 60, -1, limit);
    }
  }

  lemma {:induction false} NothingBefore(log: seq<Request>, tenant: Id, low: int, high: int, limit: int)
    requires high < 0
    ensures Admitted(log, tenant, low, high, limit) == 0
  {
    if log != [] {
      NothingBefore(log[..|log| - 1], tenant, low, high, limit);
    }
  }

  lemma {:induction false} SomeAdmitted(log: seq<Request>, tenant: Id, low: int, high: int, limit: int)
    requires Admitted(log, tenant, low, high, limit) > 0
    ensures exists i :: 0 <= i < |log| && low < Second(log[i].at)
  {
    var last := log[|log| - 1];
    if !(last.tenant == tenant && low < Second(last.at) <= high && Admits(log, limit)) {
      SomeAdmitted(log[..|log| - 1], tenant, low, high, limit);
      var i :| 0 <= i < |log| - 1 && low < Second(log[..|log| - 1][i].at);
      assert low < Second(log[i].at);
    } else {
      assert low < Second(log[|log| - 1].at);
    }
  }

  /** Once the current minute has admitted a request, a request that does not count there does not count in the
      window at all. */
  lemma LateFollows(log: seq<Request>, tenant: Id, t: nat, limit: int)
    requires Sorted(log) && Admitted(log, tenant, 60 * (t / 60) - 1, t, limit) > 0
    requires var r := log[|log| - 1];
             !(r.tenant == tenant && 60 * (t / 60) - 1 < Second(r.at) <= t && Admits(log, limit))
    ensures Admitted(log, tenant, t - 60, t, limit) == Admitted(log[..|log| - 1], tenant, t - 60, t, limit)
  {
    SomeAdmitted(log, tenant, 60 * (t / 60) - 1, t, limit);
    var i :| 0 <= i < |log| && 60 * (t / 60) - 1 < Second(log[i].at);
    assert log[i].at <= log[|log| - 1].at;
  }

  // ---------- The exact maximum ----------

  /** The most requests of one tenant that the sixty seconds ending with second `t` can admit: the limit where
      they begin with a minute, and otherwise up to nearly twice as many. */
  function Most(limit: int, t: nat): nat {
    var l := AtLeastZero(limit);
    if t < 60 || t % 60 == 59 then l else l + l * (t % 60) / 60
  }

  lemma NeverMore(log: seq<Request>, tenant: Id, t: nat, limit: int)
    requires Sorted(log)
    ensures InWindow(log, tenant, t, limit) <= Most(limit, t)
  {
    if t < 60 {
      AdmittedSplits(log, tenant, t - 60, -1, t, limit);
      NothingBefore(log, tenant, t - 60, -1, limit);
      BucketBound(log, tenant, 0, -1, t, limit);
    } else if t % 60 == 59 {
      BucketBound(log, tenant, t / 60, t - 60, t, limit);
    } else {
      WindowBound(log, tenant, t, limit);
      RoundDown(InWindow(log, tenant, t, limit), AtLeastZero(limit), AtLeastZero(limit) * (t % 60));
      assert AtLeastZero(limit) * (60 + t % 60) == 60 * AtLeastZero(limit) + AtLeastZero(limit) * (t % 60);
    }
  }

  lemma RoundDown(w: nat, l: nat, x: nat)
    requires 60 * w <= 60 * l + x
    ensures w <= l + x / 60
  {
  }

  function Burst(tenant: Id, at: nat, n: nat): seq<Request> {
    seq(n, _ => Request(tenant, at))
  }

  /** Requests at one moment are all admitted while the last of them is. */
  lemma {:induction false} BurstIsAdmitted(log: seq<Request>, tenant: Id, at: nat, n: nat, low: int, high: int,
                                           limit: int)
    requires Count(log, tenant, Bucket(at)) == 0 && low < Second(at) <= high
    requires 60 * n + Count(log, tenant, Bucket(at) - 1) * (60 - Elapsed(at)) <= 60 * limit
    ensures forall b: int ::
              Count(log + Burst(tenant, at, n), tenant, b) == Count(log, tenant, b) + if b == Bucket(at) then n else 0
    ensures Admitted(log + Burst(tenant, at, n), tenant, low, high, limit)
            == Admitted(log, tenant, low, high, limit) + n
  {
    var all := log + Burst(tenant, at, n);
    if n == 0 {
      assert all == log;
    } else {
      BurstIsAdmitted(log, tenant, at, n - 1, low, high, limit);
      var before, r := log + Burst(tenant, at, n - 1), Request(tenant, at);
      assert all == before + [r] && all[..|all| - 1] == before;
      forall b {
        CountStep(before, r, tenant, b);
      }
    }
  }

  lemma WholeSeconds(t: nat)
    requires t >= 60
    ensures Bucket(1000 * t) == t / 60 && Elapsed(1000 * t) == t % 60 && Second(1000 * t) == t
    ensures var at := 1000 * (60 * (t / 60) - 1);
            Second(at) == 60 * (t / 60) - 1 && Bucket(at) == t / 60 - 1 && Elapsed(at) == 59
  {
  }

  lemma Weighted(l: nat, e: nat)
    requires e < 60
    ensures l * (60 - e) == 60 * l - l * e && l * e >= 0 && 60 * (l * e / 60) <= l * e
  {
    ProductNotNegative(l, e);
  }

  /** `limit` requests in the last second before the minute of second `t`, and as many at `t` as the weight leaves. */
  lemma MostIsAdmitted(tenant: Id, t: nat, limit: nat) returns (log: seq<Request>)
    requires t >= 60 && t % 60 != 59
    ensures Sorted(log) && InWindow(log, tenant, t, limit) == Most(limit, t)
  {
    var at, more := 1000 * (60 * (t / 60) - 1), limit * (t % 60) / 60;
    var first := [] + Burst(tenant, at, limit);
    BurstIsAdmitted([], tenant, at, limit, t - 60, t, limit);
    WholeSeconds(t);
    Weighted(limit, t % 60);
    BurstIsAdmitted(first, tenant, 1000 * t, more, t - 60, t, limit);
    log := first + Burst(tenant, 1000 * t, more);
  }

  /** `Most` is the exact maximum: no log with a clock that never goes back admits more, and some log admits
      as many. */
  lemma WindowMaximum(tenant: Id, t: nat, limit: int)
    ensures forall log: seq<Request> :: Sorted(log) ==> InWindow(log, tenant, t, limit) <= Most(limit, t)
    ensures exists log: seq<Request> :: Sorted(log) && InWindow(log, tenant, t, limit) == Most(limit, t)
  {
    forall log | Sorted(log) {
      NeverMore(log, tenant, t, limit);
    }
    if limit <= 0 {
      assert Sorted([]) && InWindow([], tenant, t, limit) == Most(limit, t);
    } else if t < 60 || t % 60 == 59 {
      BurstIsAdmitted([], tenant, 1000 * t, limit, t - 60, t, limit);
      var log := [] + Burst(tenant, 1000 * t, limit);
      assert Sorted(log) && InWindow(log, tenant, t, limit) == Most(limit, t);
    } else {
      var log := MostIsAdmitted(tenant, t, limit);
    }
  }

  /** Some sixty seconds admit more than `limit` requests exactly when the limit is at least two. */
  lemma LimitCanBeExceededIff(limit: int)
    ensures (exists log: seq<Request>, tenant: Id, t: nat ::
               Sorted(log) && InWindow(log, tenant, t, limit) > AtLeastZero(limit)) <==> limit >= 2
  {
    if limit >= 2 {
      WindowMaximum(0, 118, limit);
      assert Most(limit, 118) == limit + limit * 58 / 60 > limit;
    } else {
      forall log: seq<Request>, tenant: Id, t: nat | Sorted(log)
        ensures InWindow(log, tenant, t, limit) <= AtLeastZero(limit)
      {
        NeverMore(log, tenant, t, limit);
      }
    }
  }
}
