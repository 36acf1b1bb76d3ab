/** The token buckets of src/server/rate-limit.ts: one per bare JID, at most `maxTracked` of them. */
module RateLimit {
  import opened Bytes

  /** Tokens available, and when they were last recomputed, in milliseconds. */
  datatype Bucket = Bucket(tokens: real, updated: real)

  datatype Config = Config(rate: real, burst: real, maxTracked: nat)

  /** The map keeps its keys in insertion order. */
  datatype Entry = Entry(key: string, bucket: Bucket)

  datatype Request = Request(key: string, at: real)

  function Ceil(x: real): int { if x.Floor as real == x then x.Floor else x.Floor + 1 }

  function Max(a: real, b: real): real { if a < b then b else a }

  function Min(a: real, b: real): real { if a < b then a else b }

  /** None is the RangeError for a rate that is not positive. */
  function Configure(rate: real, burst: Option<real>, maxTracked: Option<nat>): (c: Option<Config>)
    ensures c.Some? <==> rate > 0.0
    ensures c.Some? ==> Usable(c.value)
  {
    if rate <= 0.0 then None
    else Some(Config(rate, Max(1.0, if burst.Some? then burst.value else Ceil(rate) as real),
                     if maxTracked.None? then 10_000 else if maxTracked.value < 1 then 1 else maxTracked.value))
  }

  predicate Usable(c: Config) { c.rate > 0.0 && c.burst >= 1.0 && c.maxTracked >= 1 }

  function BareJid(jid: string): string {
    if jid == "" || jid[0] == '/' then "" else [jid[0]] + BareJid(jid[1..])
  }

  /** The options: a burst of at least one request, by default a second's worth rounded up, and at least one bucket. */
  lemma ConfigurationIs(rate: real, burst: Option<real>, maxTracked: Option<nat>)
    requires rate > 0.0
    ensures var c := Configure(rate, burst, maxTracked).value;
            && c.rate == rate
            && (burst.Some? ==> c.burst == if burst.value >= 1.0 then burst.value else 1.0)
            && (burst.None? ==> c.burst == c.burst.Floor as real && c.burst - 1.0 < rate <= c.burst)
            && (maxTracked.None? ==> c.maxTracked == 10_000)
            && (maxTracked.Some? ==> c.maxTracked == if maxTracked.value >= 1 then maxTracked.value else 1)
  {
  }

  /** A bare JID is what stands before the first slash. */
  lemma {:induction false} BareJidIs(jid: string)
    ensures BareJid(jid) <= jid && '/' !in BareJid(jid)
    ensures |BareJid(jid)| < |jid| ==> jid[|BareJid(jid)|] == '/'
  {
    if jid != "" && jid[0] != '/' { BareJidIs(jid[1..]); }
  }

  // ------------------------------------------------------------ one request

  function Index(b: seq<Entry>, key: string): (i: nat)
    ensures i <= |b|
    ensures i < |b| ==> b[i].key == key
    ensures forall j :: 0 <= j < i ==> b[j].key != key
  {
    if b == [] || b[0].key == key then 0 else 1 + Index(b[1..], key)
  }

  predicate Tracked(b: seq<Entry>, key: string) { Index(b, key) < |b| }

  function BucketOf(b: seq<Entry>, key: string): Bucket
    requires Tracked(b, key)
  {
    b[Index(b, key)].bucket
  }

  /** Tokens that accrue in a time. */
  function Accrued(c: Config, ms: real): real { ms / 1000.0 * c.rate }

  function Refill(c: Config, bucket: Bucket, at: real): Bucket {
    Bucket(Min(c.burst, bucket.tokens + Accrued(c, Max(0.0, at - bucket.updated))), at)
  }

  /** Takes a token, or says how many seconds to wait. */
  function Spend(c: Config, bucket: Bucket): (Bucket, int)
    requires c.rate > 0.0
  {
    if bucket.tokens >= 1.0 then (bucket.(tokens := bucket.tokens - 1.0), 0)
    else
      var wait := Ceil((1.0 - bucket.tokens) / c.rate);
      (bucket, if wait < 1 then 1 else wait)
  }

  /** The first of the least recently updated. */
  function Oldest(b: seq<Entry>): (i: nat)
    requires b != []
    ensures i < |b|
    ensures forall j :: 0 <= j < |b| ==> b[i].bucket.updated <= b[j].bucket.updated
    ensures forall j :: 0 <= j < i ==> b[i].bucket.updated < b[j].bucket.updated
  {
    if |b| == 1 then 0
    else
      var o := Oldest(b[..|b| - 1]);
      if b[|b| - 1].bucket.updated < b[o].bucket.updated then |b| - 1 else o
  }

  function Evicted(b: seq<Entry>): seq<Entry>
    requires b != []
  {
    var o := Oldest(b);
    b[..o] + b[o + 1..]
  }

  /** What is tracked once there is room for one more. */
  function Room(c: Config, b: seq<Entry>): seq<Entry>
    requires c.maxTracked >= 1
  {
    if |b| >= c.maxTracked then Evicted(b) else b
  }

  function Consume(c: Config, b: seq<Entry>, key: string, at: real): (seq<Entry>, int)
    requires Usable(c)
  {
    var i := Index(b, key);
    if i < |b| then
      var (bucket, wait) := Spend(c, Refill(c, b[i].bucket, at));
      (b[i := Entry(key, bucket)], wait)
    else
      var (bucket, wait) := Spend(c, Bucket(c.burst, at));
      (Room(c, b) + [Entry(key, bucket)], wait)
  }

  // ------------------------------------------------------------ as the source writes it

  class RateLimiter {
    const c: Config
    var buckets: seq<Entry>

    constructor (c: Config)
      requires Usable(c)
      ensures this.c == c && buckets == []
    {
      this.c := c;
      buckets := [];
    }

    method EvictOldest()
      requires buckets != []
      modifies this
      ensures buckets == Evicted(old(buckets))
    {
      var oldest := 0;
      for i := 1 to |buckets|
        invariant oldest < |buckets| && oldest == Oldest(buckets[..i])
        invariant buckets == old(buckets)
      {
        assert buckets[..i + 1][..i] == buckets[..i];
        if buckets[i].bucket.updated < buckets[oldest].bucket.updated { oldest := i; }
      }
      assert buckets[..|buckets|] == buckets && oldest == Oldest(buckets);
      buckets := buckets[..oldest] + buckets[oldest + 1..];
    }

    method Take(key: string, at: real) returns (wait: int)
      requires Usable(c)
      modifies this
      ensures (buckets, wait) == Consume(c, old(buckets), key, at)
    {
      var i := Index(buckets, key);
      var bucket: Bucket;
      if i == |buckets| {
        if |buckets| >= c.maxTracked { EvictOldest(); }
        bucket := Bucket(c.burst, at);
        buckets := buckets + [Entry(key, bucket)];
        i := |buckets| - 1;
      } else {
        bucket := Refill(c, buckets[i].bucket, at);
      }
      ghost var (left, answer) := Spend(c, bucket);
      assert buckets[i := Entry(key, left)] == Consume(c, old(buckets), key, at).0;
      if bucket.tokens >= 1.0 {
        buckets := buckets[i := Entry(key, bucket.(tokens := bucket.tokens - 1.0))];
        return 0;
      }
      buckets := buckets[i := Entry(key, bucket)];
      wait := Ceil((1.0 - bucket.tokens) / c.rate);
      if wait < 1 { wait := 1; }
    }
  }

  // ------------------------------------------------------------ runs

  predicate ClockAdvances(events: seq<Request>) {
    forall i, j :: 0 <= i < j < |events| ==> events[i].at <= events[j].at
  }

  function After(c: Config, events: seq<Request>, n: nat): seq<Entry>
    requires Usable(c) && n <= |events|
  {
    if n == 0 then [] else Consume(c, After(c, events, n - 1), events[n - 1].key, events[n - 1].at).0
  }

  /** The answer to request `i`: 0, or the Retry-After. */
  function Answer(c: Config, events: seq<Request>, i: nat): int
    requires Usable(c) && i < |events|
  {
    Consume(c, After(c, events, i), events[i].key, events[i].at).1
  }

  ghost predicate UniqueKeys(b: seq<Entry>) {
    forall i, j :: 0 <= i < j < |b| ==> b[i].key != b[j].key
  }

  /** Request `j` is the last of `key` among the first `n`. */
  predicate IsLast(events: seq<Request>, n: nat, key: string, j: nat)
    requires n <= |events|
  {
    j < n && events[j].key == key && forall k :: j < k < n ==> events[k].key != key
  }

  /** Every bucket dates from the last request of its own key among the first `n`. */
  ghost predicate BucketsInv(c: Config, events: seq<Request>, n: nat, b: seq<Entry>)
    requires n <= |events|
  {
    && UniqueKeys(b) && |b| <= c.maxTracked
    && (forall i :: 0 <= i < |b| ==> 0.0 <= b[i].bucket.tokens <= c.burst)
    && (forall i :: 0 <= i < |b| ==> exists j: nat :: IsLast(events, n, b[i].key, j) && events[j].at == b[i].bucket.updated)
  }

  lemma SpendKeeps(c: Config, bucket: Bucket)
    requires Usable(c) && 0.0 <= bucket.tokens <= c.burst
    ensures var (s, wait) := Spend(c, bucket); 0.0 <= s.tokens <= c.burst && s.updated == bucket.updated
  {
  }

  lemma RefillKeeps(c: Config, bucket: Bucket, at: real)
    requires Usable(c) && 0.0 <= bucket.tokens <= c.burst
    ensures 0.0 <= Refill(c, bucket, at).tokens <= c.burst && Refill(c, bucket, at).updated == at
  {
    AccruedGrows(c, 0.0, Max(0.0, at - bucket.updated));
  }

  lemma AccruedGrows(c: Config, a: real, b: real)
    requires Usable(c) && a <= b
    ensures Accrued(c, 0.0) == 0.0 && Accrued(c, a) <= Accrued(c, b)
  {
    Scale(a / 1000.0, b / 1000.0, c.rate);
  }

  lemma AccruedAdds(c: Config, a: real, b: real)
    ensures Accrued(c, a) + Accrued(c, b) == Accrued(c, a + b)
  {
  }

  lemma Scale(a: real, b: real, rate: real)
    requires a <= b && rate >= 0.0
    ensures a * rate <= b * rate
  {
  }

  /** Making room keeps the rest, in order. */
  lemma RoomIs(c: Config, b: seq<Entry>)
    requires Usable(c) && UniqueKeys(b) && |b| <= c.maxTracked
    ensures var r := Room(c, b);
            && |r| < c.maxTracked && UniqueKeys(r)
            && (forall e :: e in r ==> e in b)
            && (|b| >= c.maxTracked ==> forall e :: e in b && e !in r ==> e == b[Oldest(b)])
  {
  }

  /** A request of another key leaves an entry's last request its last. */
  lemma OthersStayLast(events: seq<Request>, n: nat, e: Entry)
    requires n < |events| && events[n].key != e.key
    requires exists j: nat :: IsLast(events, n, e.key, j) && events[j].at == e.bucket.updated
    ensures exists j: nat :: IsLast(events, n + 1, e.key, j) && events[j].at == e.bucket.updated
  {
    var j: nat :| IsLast(events, n, e.key, j) && events[j].at == e.bucket.updated;
    assert IsLast(events, n + 1, e.key, j);
  }

  lemma TouchedKeeps(c: Config, events: seq<Request>, n: nat, b: seq<Entry>, i: nat, bucket: Bucket)
    requires n < |events| && BucketsInv(c, events, n, b) && i < |b| && b[i].key == events[n].key
    requires 0.0 <= bucket.tokens <= c.burst && bucket.updated == events[n].at
    ensures BucketsInv(c, events, n + 1, b[i := Entry(b[i].key, bucket)])
  {
    var b' := b[i := Entry(b[i].key, bucket)];
    forall k | 0 <= k < |b'| ensures exists j: nat :: IsLast(events, n + 1, b'[k].key, j) && events[j].at == b'[k].bucket.updated {
      if k == i {
        assert IsLast(events, n + 1, b'[k].key, n);
      } else {
        OthersStayLast(events, n, b[k]);
      }
    }
  }

  lemma AddedKeeps(c: Config, events: seq<Request>, n: nat, b: seq<Entry>, bucket: Bucket)
    requires Usable(c) && n < |events| && BucketsInv(c, events, n, b) && !Tracked(b, events[n].key)
    requires 0.0 <= bucket.tokens <= c.burst && bucket.updated == events[n].at
    ensures BucketsInv(c, events, n + 1, Room(c, b) + [Entry(events[n].key, bucket)])
  {
    RoomIs(c, b);
    var r := Room(c, b);
    var b' := r + [Entry(events[n].key, bucket)];
    assert IsLast(events, n + 1, events[n].key, n);
    assert forall k :: 0 <= k < |r| ==> r[k] in b;
    hide Oldest, Room, IsLast;
    forall k | 0 <= k < |b'| ensures exists j: nat :: IsLast(events, n + 1, b'[k].key, j) && events[j].at == b'[k].bucket.updated {
      if k < |r| {
        assert b'[k] in b;
        OthersStayLast(events, n, b'[k]);
      }
    }
  }

  lemma ConsumeKeeps(c: Config, events: seq<Request>, n: nat, b: seq<Entry>)
    requires Usable(c) && n < |events| && BucketsInv(c, events, n, b)
    ensures BucketsInv(c, events, n + 1, Consume(c, b, events[n].key, events[n].at).0)
  {
    var key, at := events[n].key, events[n].at;
    var i := Index(b, key);
    if i < |b| {
      RefillKeeps(c, b[i].bucket, at);
      SpendKeeps(c, Refill(c, b[i].bucket, at));
      TouchedKeeps(c, events, n, b, i, Spend(c, Refill(c, b[i].bucket, at)).0);
    } else {
      SpendKeeps(c, Bucket(c.burst, at));
      AddedKeeps(c, events, n, b, Spend(c, Bucket(c.burst, at)).0);
    }
    hide BucketsInv, Refill, Spend, Room;
  }

  lemma NothingTracked(c: Config, events: seq<Request>)
    ensures BucketsInv(c, events, 0, [])
  {
  }

  /** Tracked buckets never exceed the cap, hold between none and `burst` tokens, and date from their key's last request. */
  lemma {:induction false} TrackedIsBounded(c: Config, events: seq<Request>, n: nat)
    requires Usable(c) && n <= |events|
    ensures BucketsInv(c, events, n, After(c, events, n))
  {
    hide Consume, BucketsInv;
    if n == 0 {
      NothingTracked(c, events);
    } else {
      TrackedIsBounded(c, events, n - 1);
      ConsumeKeeps(c, events, n - 1, After(c, events, n - 1));
    }
  }

  // ------------------------------------------------------------ what a JID is admitted

  /** Admitted requests of `key` among events `a` .. `b` - 1. */
  function Admitted(c: Config, events: seq<Request>, key: string, a: nat, b: nat): nat
    requires Usable(c) && a <= b <= |events|
    decreases b
  {
    if a == b then 0
    else Admitted(c, events, key, a, b - 1) + (if events[b - 1].key == key && Answer(c, events, b - 1) == 0 then 1 else 0)
  }

  /** A request of another key leaves a bucket alone, or evicts it. */
  lemma OthersLeaveItAlone(c: Config, b: seq<Entry>, other: string, at: real, key: string)
    requires Usable(c) && UniqueKeys(b) && |b| <= c.maxTracked && other != key
    ensures var b' := Consume(c, b, other, at).0;
            Tracked(b', key) ==> Tracked(b, key) && BucketOf(b', key) == BucketOf(b, key)
  {
    RoomIs(c, b);
    hide Room, Spend, Refill;
    var b' := Consume(c, b, other, at).0;
    if Tracked(b', key) {
      var e := b'[Index(b', key)];
      assert e in b;
    }
  }

  lemma OwnRequest(c: Config, b: seq<Entry>, key: string, at: real)
    requires Usable(c) && UniqueKeys(b) && |b| <= c.maxTracked
    ensures var (b', wait) := Consume(c, b, key, at);
            var before := if Tracked(b, key) then Refill(c, BucketOf(b, key), at) else Bucket(c.burst, at);
            Tracked(b', key) && (BucketOf(b', key), wait) == Spend(c, before)
  {
    RoomIs(c, b);
    hide Room, Spend, Refill;
    var b' := Consume(c, b, key, at).0;
    if Tracked(b, key) {
      assert b'[Index(b, key)].key == key;
      assert Index(b', key) == Index(b, key);
    } else {
      assert b'[|b'| - 1].key == key;
      forall j | 0 <= j < |b'| - 1 ensures b'[j].key != key {
        assert b'[j] in b;
      }
    }
  }

  /** Admissions plus what is left never exceed the burst plus what accrued. */
  ghost predicate InBudget(c: Config, bucket: Bucket, start: real, end: real, admitted: nat) {
    && start <= bucket.updated <= end && 0.0 <= bucket.tokens <= c.burst
    && admitted as real + bucket.tokens <= c.burst + Accrued(c, bucket.updated - start)
  }

  /** One request of the key itself: what it may spend has accrued since the last. */
  lemma OwnBudget(c: Config, bucket: Bucket, start: real, at: real, admitted: nat)
    requires Usable(c) && bucket.updated <= at && InBudget(c, bucket, start, bucket.updated, admitted)
    ensures var (left, wait) := Spend(c, Refill(c, bucket, at));
            InBudget(c, left, start, at, admitted + if wait == 0 then 1 else 0)
  {
    AccruedAdds(c, bucket.updated - start, at - bucket.updated);
    AccruedGrows(c, 0.0, at - bucket.updated);
    hide Accrued;
  }

  lemma {:induction false} Budget(c: Config, events: seq<Request>, key: string, a: nat, b: nat)
    requires Usable(c) && ClockAdvances(events) && a < b <= |events| && events[a].key == key
    requires forall i :: a < i <= b ==> Tracked(After(c, events, i), key)
    ensures InBudget(c, BucketOf(After(c, events, b), key), events[a].at, events[b - 1].at, Admitted(c, events, key, a, b))
    decreases b
  {
    hide Consume, Spend, Refill, BucketsInv, Index;
    var e := events[b - 1];
    var was := After(c, events, b - 1);
    WellKept(c, events, b - 1);
    if b == a + 1 {
      FirstBudget(c, events, key, a);
    } else {
      Budget(c, events, key, a, b - 1);
      if e.key == key {
        OwnRequest(c, was, key, e.at);
        OwnBudget(c, BucketOf(was, key), events[a].at, e.at, Admitted(c, events, key, a, b - 1));
      } else {
        OthersLeaveItAlone(c, was, e.key, e.at, key);
      }
    }
  }

  lemma WellKept(c: Config, events: seq<Request>, n: nat)
    requires Usable(c) && n <= |events|
    ensures UniqueKeys(After(c, events, n)) && |After(c, events, n)| <= c.maxTracked
  {
    TrackedIsBounded(c, events, n);
  }

  lemma FirstBudget(c: Config, events: seq<Request>, key: string, a: nat)
    requires Usable(c) && a < |events| && events[a].key == key
    ensures Tracked(After(c, events, a + 1), key)
    ensures InBudget(c, BucketOf(After(c, events, a + 1), key), events[a].at, events[a].at, Admitted(c, events, key, a, a + 1))
  {
    var was := After(c, events, a);
    TrackedIsBounded(c, events, a);
    OwnRequest(c, was, key, events[a].at);
    var before := if Tracked(was, key) then Refill(c, BucketOf(was, key), events[a].at) else Bucket(c.burst, events[a].at);
    if Tracked(was, key) { RefillKeeps(c, BucketOf(was, key), events[a].at); }
    SpendStarts(c, before);
    assert Admitted(c, events, key, a, a) == 0;
    hide Consume, BucketsInv, Refill, Spend, InBudget, Index;
  }

  lemma SpendStarts(c: Config, bucket: Bucket)
    requires Usable(c) && 0.0 <= bucket.tokens <= c.burst
    ensures var (left, wait) := Spend(c, bucket);
            InBudget(c, left, bucket.updated, bucket.updated, if wait == 0 then 1 else 0)
  {
    AccruedGrows(c, 0.0, 0.0);
    hide Accrued;
  }

  /**
   * However requests interleave: from any request of a JID on, as long as its bucket is not evicted, at most `burst`
   * plus `rate` per second elapsed are admitted.
   */
  lemma AdmissionsAreBounded(c: Config, events: seq<Request>, key: string, a: nat, b: nat)
    requires Usable(c) && ClockAdvances(events) && a < b <= |events| && events[a].key == key
    requires forall i :: a < i <= b ==> Tracked(After(c, events, i), key)
    ensures Admitted(c, events, key, a, b) as real <= c.burst + Accrued(c, events[b - 1].at - events[a].at)
  {
    hide Admitted, After, InBudget, Index;
    Budget(c, events, key, a, b);
    BudgetBound(c, BucketOf(After(c, events, b), key), events[a].at, events[b - 1].at, Admitted(c, events, key, a, b));
  }

  lemma BudgetBound(c: Config, bucket: Bucket, start: real, end: real, admitted: nat)
    requires Usable(c) && InBudget(c, bucket, start, end, admitted)
    ensures admitted as real <= c.burst + Accrued(c, end - start)
  {
    AccruedGrows(c, bucket.updated - start, end - start);
  }

  // ------------------------------------------------------------ Retry-After

  lemma CeilCovers(x: real)
    ensures x <= Ceil(x) as real
  {
  }

  /** While others make requests, a bucket stays as it is, until it is evicted. */
  lemma {:induction false} Undisturbed(c: Config, events: seq<Request>, key: string, a: nat, b: nat)
    requires Usable(c) && a <= b <= |events| && forall i :: a <= i < b ==> events[i].key != key
    ensures Tracked(After(c, events, b), key) ==>
              Tracked(After(c, events, a), key) && BucketOf(After(c, events, b), key) == BucketOf(After(c, events, a), key)
    decreases b
  {
    hide Consume, Index, BucketOf, Tracked;
    if a < b {
      Undisturbed(c, events, key, a, b - 1);
      WellKept(c, events, b - 1);
      OthersLeaveItAlone(c, After(c, events, b - 1), events[b - 1].key, events[b - 1].at, key);
    }
  }

  lemma Waited(tokens: real, rate: real, wait: int, elapsed: real)
    requires rate > 0.0 && tokens < 1.0 && wait as real >= (1.0 - tokens) / rate && elapsed >= wait as real
    ensures tokens + elapsed * rate >= 1.0
  {
    assert (1.0 - tokens) / rate * rate == 1.0 - tokens;
    Scale((1.0 - tokens) / rate, elapsed, rate);
  }

  /** A refusal leaves a bucket that has a token once the wait is over. */
  lemma RefusedThenWaited(c: Config, bucket: Bucket, at: real)
    requires Usable(c) && bucket.tokens <= c.burst && Spend(c, bucket).1 > 0
    requires at >= bucket.updated + Spend(c, bucket).1 as real * 1000.0
    ensures Spend(c, Refill(c, Spend(c, bucket).0, at)).1 == 0
  {
    CeilCovers((1.0 - bucket.tokens) / c.rate);
    Waited(bucket.tokens, c.rate, Spend(c, bucket).1, (at - bucket.updated) / 1000.0);
  }

  /** Whoever is refused and comes back after the Retry-After, whatever others do meanwhile, is admitted. */
  lemma RetryAfterSuffices(c: Config, events: seq<Request>, a: nat, b: nat)
    requires Usable(c) && ClockAdvances(events) && a < b < |events| && events[b].key == events[a].key
    requires forall i :: a < i < b ==> events[i].key != events[a].key
    requires Answer(c, events, a) > 0 && events[b].at >= events[a].at + Answer(c, events, a) as real * 1000.0
    ensures Answer(c, events, b) == 0
  {
    hide Refill, Spend, Index, Room;
    var key, was, now := events[a].key, After(c, events, a), After(c, events, b);
    WellKept(c, events, a);
    WellKept(c, events, b);
    OwnRequest(c, was, key, events[a].at);
    OwnRequest(c, now, key, events[b].at);
    Undisturbed(c, events, key, a + 1, b);
    var before := if Tracked(was, key) then Refill(c, BucketOf(was, key), events[a].at) else Bucket(c.burst, events[a].at);
    RefillCaps(c, was, key, events[a].at);
    RefusedThenWaited(c, before, events[b].at);
    FullIsAdmitted(c, Bucket(c.burst, events[b].at));
  }

  lemma RefillCaps(c: Config, b: seq<Entry>, key: string, at: real)
    ensures Tracked(b, key) ==> Refill(c, BucketOf(b, key), at).tokens <= c.burst && Refill(c, BucketOf(b, key), at).updated == at
  {
  }

  lemma FullIsAdmitted(c: Config, bucket: Bucket)
    requires Usable(c) && bucket.tokens == c.burst
    ensures Spend(c, bucket).1 == 0
  {
  }

  /** A refusal leaves a bucket that is still short of a token one second before the wait is over. */
  lemma RefusedTooEarly(c: Config, bucket: Bucket, at: real)
    requires Usable(c) && bucket.tokens <= c.burst && Spend(c, bucket).1 > 1 && bucket.updated <= at
    requires at <= bucket.updated + (Spend(c, bucket).1 - 1) as real * 1000.0
    ensures Spend(c, Refill(c, Spend(c, bucket).0, at)).1 > 0
  {
    var need, elapsed := (1.0 - bucket.tokens) / c.rate, (at - bucket.updated) / 1000.0;
    assert elapsed < need;
    assert need * c.rate == 1.0 - bucket.tokens;
    StrictlyLess(elapsed, need, c.rate);
    var gained := Accrued(c, at - bucket.updated);
    assert gained == elapsed * c.rate;
    assert bucket.tokens + gained < 1.0;
    assert Spend(c, bucket).0 == bucket;
    hide Accrued, Spend;
    assert Refill(c, bucket, at).tokens <= bucket.tokens + gained;
    hide Refill;
    ShortIsRefused(c, Refill(c, bucket, at));
  }

  lemma ShortIsRefused(c: Config, bucket: Bucket)
    requires c.rate > 0.0 && bucket.tokens < 1.0
    ensures Spend(c, bucket).1 > 0
  {
  }

  lemma StrictlyLess(a: real, b: real, rate: real)
    requires a < b && rate > 0.0
    ensures a * rate < b * rate
  {
  }

  /** Nor is the Retry-After padded: a second before it is over, the same JID is refused again. */
  lemma RetryAfterIsTight(c: Config, events: seq<Request>, a: nat, b: nat)
    requires Usable(c) && ClockAdvances(events) && a < b < |events| && events[b].key == events[a].key
    requires forall i :: a < i < b ==> events[i].key != events[a].key
    requires Answer(c, events, a) > 1 && Tracked(After(c, events, b), events[a].key)
    requires events[b].at <= events[a].at + (Answer(c, events, a) - 1) as real * 1000.0
    ensures Answer(c, events, b) > 0
  {
    hide Refill, Spend, Index, Room;
    var key, was, now := events[a].key, After(c, events, a), After(c, events, b);
    WellKept(c, events, a);
    WellKept(c, events, b);
    OwnRequest(c, was, key, events[a].at);
    OwnRequest(c, now, key, events[b].at);
    Undisturbed(c, events, key, a + 1, b);
    var before := if Tracked(was, key) then Refill(c, BucketOf(was, key), events[a].at) else Bucket(c.burst, events[a].at);
    RefillCaps(c, was, key, events[a].at);
    RefusedTooEarly(c, before, events[b].at);
  }

  // ------------------------------------------------------------ the burst

  /** How many of the first `n` requests are of `key`. */
  function Asked(events: seq<Request>, key: string, n: nat): nat
    requires n <= |events|
  {
    if n == 0 then 0 else Asked(events, key, n - 1) + (if events[n - 1].key == key then 1 else 0)
  }

  lemma SpendTakesOne(c: Config, bucket: Bucket, least: real)
    requires Usable(c) && bucket.tokens >= least
    ensures Spend(c, bucket).0.tokens >= least - 1.0
    ensures least >= 1.0 ==> Spend(c, bucket).1 == 0
  {
  }

  lemma RefillOnlyAdds(c: Config, bucket: Bucket, at: real, least: real)
    requires Usable(c) && bucket.tokens >= least && least <= c.burst
    ensures Refill(c, bucket, at).tokens >= least
  {
    AccruedGrows(c, 0.0, Max(0.0, at - bucket.updated));
  }

  /** A bucket has lost at most one token for every request of its JID. */
  lemma {:induction false} TokensLeft(c: Config, events: seq<Request>, key: string, n: nat)
    requires Usable(c) && n <= |events|
    ensures Tracked(After(c, events, n), key) ==> BucketOf(After(c, events, n), key).tokens >= c.burst - Asked(events, key, n) as real
  {
    hide Consume, Spend, Refill, Index;
    if n == 0 {
      NobodyTracked(key);
    } else {
      var was, e, least := After(c, events, n - 1), events[n - 1], c.burst - Asked(events, key, n - 1) as real;
      TokensLeft(c, events, key, n - 1);
      WellKept(c, events, n - 1);
      if e.key == key {
        OwnRequest(c, was, key, e.at);
        if Tracked(was, key) {
          RefillOnlyAdds(c, BucketOf(was, key), e.at, least);
          SpendTakesOne(c, Refill(c, BucketOf(was, key), e.at), least);
        } else {
          SpendTakesOne(c, Bucket(c.burst, e.at), least);
        }
      } else {
        OthersLeaveItAlone(c, was, e.key, e.at, key);
      }
    }
  }

  lemma NobodyTracked(key: string)
    ensures !Tracked([], key)
  {
  }

  /** Whatever the clock says and whoever else asks, the first `burst` requests of a JID are admitted. */
  lemma {:induction false} BurstIsAdmitted(c: Config, events: seq<Request>, n: nat)
    requires Usable(c) && n < |events| && (Asked(events, events[n].key, n) + 1) as real <= c.burst
    ensures Answer(c, events, n) == 0
  {
    hide Spend, Refill, Index;
    var key, at, was := events[n].key, events[n].at, After(c, events, n);
    var least := c.burst - Asked(events, key, n) as real;
    TokensLeft(c, events, key, n);
    WellKept(c, events, n);
    OwnRequest(c, was, key, at);
    if Tracked(was, key) {
      RefillOnlyAdds(c, BucketOf(was, key), at, least);
      SpendTakesOne(c, Refill(c, BucketOf(was, key), at), least);
    } else {
      SpendTakesOne(c, Bucket(c.burst, at), least);
    }
  }

  // ------------------------------------------------------------ when eviction cannot be noticed

  /** A limiter with no cap: it never forgets a bucket. */
  function IdealConsume(c: Config, m: map<string, Bucket>, key: string, at: real): (map<string, Bucket>, int)
    requires Usable(c)
  {
    var (bucket, wait) := Spend(c, if key in m then Refill(c, m[key], at) else Bucket(c.burst, at));
    (m[key := bucket], wait)
  }

  function IdealAfter(c: Config, events: seq<Request>, n: nat): map<string, Bucket>
    requires Usable(c) && n <= |events|
  {
    if n == 0 then map[] else IdealConsume(c, IdealAfter(c, events, n - 1), events[n - 1].key, events[n - 1].at).0
  }

  function IdealAnswer(c: Config, events: seq<Request>, i: nat): int
    requires Usable(c) && i < |events|
  {
    IdealConsume(c, IdealAfter(c, events, i), events[i].key, events[i].at).1
  }

  /** How long an idle bucket takes to fill up, in milliseconds. */
  function FillTime(c: Config): real
    requires Usable(c)
  {
    c.burst / c.rate * 1000.0
  }

  /** The JIDs heard from, up to request `i`, within one fill time of it. */
  function Recent(c: Config, events: seq<Request>, i: nat): set<string>
    requires Usable(c) && i < |events|
  {
    set j | 0 <= j <= i && events[j].at > events[i].at - FillTime(c) :: events[j].key
  }

  /** The capped limiter knows the same buckets, except for some that have filled up again. */
  ghost predicate SameButIdle(c: Config, b: seq<Entry>, m: map<string, Bucket>, t: real)
    requires Usable(c)
  {
    && (forall k: string :: Tracked(b, k) ==> k in m && m[k] == BucketOf(b, k))
    && (forall k :: k in m ==> 0.0 <= m[k].tokens)
    && (forall k :: k in m && !Tracked(b, k) ==> m[k].updated + FillTime(c) <= t)
  }

  lemma IdleIsFull(c: Config, bucket: Bucket, at: real)
    requires Usable(c) && bucket.tokens >= 0.0 && bucket.updated + FillTime(c) <= at
    ensures Refill(c, bucket, at) == Bucket(c.burst, at)
  {
    assert c.burst / c.rate * c.rate == c.burst;
    Scale(0.0, 1.0 / c.rate, c.burst);
    Scale(c.burst / c.rate, (at - bucket.updated) / 1000.0, c.rate);
  }

  lemma {:induction false} KeysCount(b: seq<Entry>)
    requires UniqueKeys(b)
    ensures |set i | 0 <= i < |b| :: b[i].key| == |b|
  {
    if b != [] {
      var front := b[..|b| - 1];
      KeysCount(front);
      var fs, last := set i | 0 <= i < |front| :: front[i].key, b[|b| - 1].key;
      assert forall i :: 0 <= i < |front| ==> front[i] == b[i];
      assert last !in fs;
      assert (set i | 0 <= i < |b| :: b[i].key) == fs + {last} by {
        forall k | k in fs + {last} ensures exists i :: 0 <= i < |b| && b[i].key == k {
          if k == last { assert b[|b| - 1].key == k; } else {
            var i :| 0 <= i < |front| && front[i].key == k;
            assert b[i].key == k;
          }
        }
      }
    }
  }

  lemma {:induction false} Fits(a: set<string>, b: set<string>)
    requires a <= b
    ensures |a| <= |b|
  {
    if a != {} {
      var x :| x in a;
      Fits(a - {x}, b - {x});
    }
  }

  /** An entry touched since the cutoff is of a JID heard from since. */
  lemma EntryIsRecent(c: Config, events: seq<Request>, n: nat, b: seq<Entry>, i: nat)
    requires Usable(c) && n < |events| && BucketsInv(c, events, n, b) && i < |b|
    requires b[i].bucket.updated > events[n].at - FillTime(c)
    ensures b[i].key in Recent(c, events, n)
  {
    var j: nat :| IsLast(events, n, b[i].key, j) && events[j].at == b[i].bucket.updated;
    assert events[j].key == b[i].key;
    hide BucketsInv, FillTime;
  }

  /** A full map of recent JIDs, and a recent JID not in it, are more recent JIDs than can be tracked. */
  lemma TooManyRecent(c: Config, events: seq<Request>, n: nat, b: seq<Entry>)
    requires Usable(c) && n < |events| && UniqueKeys(b) && |b| >= c.maxTracked && !Tracked(b, events[n].key)
    requires forall i :: 0 <= i < |b| ==> b[i].key in Recent(c, events, n)
    ensures |Recent(c, events, n)| > c.maxTracked
  {
    var keys, key := set i | 0 <= i < |b| :: b[i].key, events[n].key;
    KeysCount(b);
    assert key !in keys;
    assert key in Recent(c, events, n) by { FillTimePositive(c); }
    hide Recent, Tracked, UniqueKeys;
    assert |keys + {key}| == |keys| + 1;
    Fits(keys + {key}, Recent(c, events, n));
  }

  /** With no more JIDs about than can be tracked, the bucket that has to go is full again. */
  lemma EvictedIsIdle(c: Config, events: seq<Request>, n: nat, b: seq<Entry>)
    requires Usable(c) && n < |events| && BucketsInv(c, events, n, b) && |b| >= c.maxTracked
    requires !Tracked(b, events[n].key) && |Recent(c, events, n)| <= c.maxTracked
    ensures b[Oldest(b)].bucket.updated + FillTime(c) <= events[n].at
  {
    assert UniqueKeys(b);
    hide BucketsInv, UniqueKeys, FillTime, Recent, Tracked;
    if b[Oldest(b)].bucket.updated > events[n].at - FillTime(c) {
      forall i | 0 <= i < |b| ensures b[i].key in Recent(c, events, n) {
        EntryIsRecent(c, events, n, b, i);
      }
      TooManyRecent(c, events, n, b);
      assert false;
    }
  }

  lemma FillTimePositive(c: Config)
    requires Usable(c)
    ensures FillTime(c) > 0.0
  {
    if c.burst / c.rate <= 0.0 { Scale(c.burst / c.rate, 0.0, c.rate); }
  }

  lemma HoldsKey(b: seq<Entry>, k: string, j: nat)
    requires j < |b| && b[j].key == k
    ensures Tracked(b, k)
  {
  }

  /** A request drops at most one other bucket: the oldest, when a new JID finds the map full. */
  lemma OnlyOldestGoes(c: Config, b: seq<Entry>, key: string, at: real, k: string)
    requires Usable(c) && UniqueKeys(b) && |b| <= c.maxTracked && k != key && Tracked(b, k)
    ensures Tracked(Consume(c, b, key, at).0, k)
         || (!Tracked(b, key) && |b| >= c.maxTracked && Index(b, k) == Oldest(b))
  {
    hide Consume, Index, Oldest, UniqueKeys;
    var b', i := Consume(c, b, key, at).0, Index(b, k);
    KeptAt(c, b, key, at, i);
    if Tracked(b, key) || |b| < c.maxTracked || i < Oldest(b) {
      HoldsKey(b', k, i);
    } else if i > Oldest(b) {
      HoldsKey(b', k, i - 1);
    }
  }

  /** Where a request of another key leaves an entry. */
  lemma KeptAt(c: Config, b: seq<Entry>, key: string, at: real, i: nat)
    requires Usable(c) && i < |b| && b[i].key != key
    ensures var b' := Consume(c, b, key, at).0;
            if Tracked(b, key) || |b| < c.maxTracked || i < Oldest(b) then i < |b'| && b'[i] == b[i]
            else i > Oldest(b) ==> i <= |b'| && b'[i - 1] == b[i]
  {
    RoomKeeps(c, b, i);
    if !Tracked(b, key) { AddedLast(c, b, key, at); }
    hide Spend, Refill, Room, Oldest;
    if Tracked(b, key) {
      assert b[Index(b, key)].key == key;
    } else {
      var e :| Consume(c, b, key, at).0 == Room(c, b) + [e];
    }
  }

  lemma AddedLast(c: Config, b: seq<Entry>, key: string, at: real)
    requires Usable(c) && !Tracked(b, key)
    ensures exists e: Entry :: Consume(c, b, key, at).0 == Room(c, b) + [e]
  {
    hide Spend, Refill, Room, Oldest;
    var e := Entry(key, Spend(c, Bucket(c.burst, at)).0);
    assert Consume(c, b, key, at).0 == Room(c, b) + [e];
  }

  /** Where an entry is once there is room. */
  lemma RoomKeeps(c: Config, b: seq<Entry>, i: nat)
    requires Usable(c) && i < |b|
    ensures var r := Room(c, b);
            if |b| < c.maxTracked then r == b
            else (i < Oldest(b) ==> i < |r| && r[i] == b[i]) && (i > Oldest(b) ==> i <= |r| && r[i - 1] == b[i])
  {
    hide Oldest;
  }

  /** What either limiter spends from: the same bucket. */
  lemma SameBucket(c: Config, b: seq<Entry>, m: map<string, Bucket>, t: real, key: string, at: real)
    requires Usable(c) && SameButIdle(c, b, m, t) && t <= at
    ensures var before := if key in m then Refill(c, m[key], at) else Bucket(c.burst, at);
            && before == (if Tracked(b, key) then Refill(c, BucketOf(b, key), at) else Bucket(c.burst, at))
            && Spend(c, before).0.tokens >= 0.0
  {
    if !Tracked(b, key) && key in m { IdleIsFull(c, m[key], at); }
    if key in m { AccruedGrows(c, 0.0, Max(0.0, at - m[key].updated)); }
    hide Accrued, FillTime;
  }

  lemma ConsumeStaysSame(c: Config, events: seq<Request>, n: nat, b: seq<Entry>, m: map<string, Bucket>, t: real)
    requires Usable(c) && n < |events| && BucketsInv(c, events, n, b) && SameButIdle(c, b, m, t) && t <= events[n].at
    requires |Recent(c, events, n)| <= c.maxTracked
    ensures var (b', wait) := Consume(c, b, events[n].key, events[n].at);
            var (m', wait') := IdealConsume(c, m, events[n].key, events[n].at);
            wait == wait' && SameButIdle(c, b', m', events[n].at)
  {
    var key, at := events[n].key, events[n].at;
    assert UniqueKeys(b) && |b| <= c.maxTracked;
    hide Consume, Refill, Spend, Index, Oldest, BucketsInv, Recent, FillTime, UniqueKeys;
    OwnRequest(c, b, key, at);
    SameBucket(c, b, m, t, key, at);
    var b', m' := Consume(c, b, key, at).0, IdealConsume(c, m, key, at).0;
    forall k: string ensures Tracked(b', k) ==> k in m' && m'[k] == BucketOf(b', k) {
      if k != key { OthersLeaveItAlone(c, b, key, at, k); }
    }
    forall k | k in m' && !Tracked(b', k) ensures m'[k].updated + FillTime(c) <= at {
      if Tracked(b, k) {
        OnlyOldestGoes(c, b, key, at, k);
        EvictedIsIdle(c, events, n, b);
      }
    }
  }

  /** Both limiters, after the same requests. */
  lemma {:induction false} StaysSame(c: Config, events: seq<Request>, n: nat)
    requires Usable(c) && ClockAdvances(events) && n <= |events|
    requires forall i :: 0 <= i < n ==> |Recent(c, events, i)| <= c.maxTracked
    ensures n > 0 ==> SameButIdle(c, After(c, events, n), IdealAfter(c, events, n), events[n - 1].at)
    ensures forall t: real :: n == 0 ==> SameButIdle(c, After(c, events, n), IdealAfter(c, events, n), t)
  {
    if n > 0 {
      hide Consume, IdealConsume, SameButIdle, Recent, BucketsInv;
      StaysSame(c, events, n - 1);
      TrackedIsBounded(c, events, n - 1);
      var t := if n > 1 then events[n - 2].at else events[n - 1].at;
      ConsumeStaysSame(c, events, n - 1, After(c, events, n - 1), IdealAfter(c, events, n - 1), t);
    }
  }

  /**
   * As long as no more than `maxTracked` JIDs are heard from within the time a bucket takes to fill up, every answer is
   * the one a limiter without a cap would give: what eviction forgets cannot be noticed.
   */
  lemma EvictionIsUnobservable(c: Config, events: seq<Request>, i: nat)
    requires Usable(c) && ClockAdvances(events) && i < |events|
    requires forall k :: 0 <= k <= i ==> |Recent(c, events, k)| <= c.maxTracked
    ensures Answer(c, events, i) == IdealAnswer(c, events, i)
  {
    hide Consume, IdealConsume, SameButIdle, Recent, BucketsInv;
    StaysSame(c, events, i);
    TrackedIsBounded(c, events, i);
    var t := if i > 0 then events[i - 1].at else events[i].at;
    ConsumeStaysSame(c, events, i, After(c, events, i), IdealAfter(c, events, i), t);
  }
}
