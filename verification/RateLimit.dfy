/** The fixed-window limiter: one counter per bucket and window. */
module RateLimit {
  import opened Arith
  import opened Lists
  import opened Decimal

  datatype Decision = Decision(allowed: bool, limit: int, remaining: int, resetSeconds: int)

  function Max(a: int, b: int): int {
    if a >= b then a else b
  }

  /** Times are in milliseconds; a window is so many whole seconds. */
  function WindowIndex(now: int, windowSeconds: int): int
    requires windowSeconds > 0
  {
    now / (1000 * windowSeconds)
  }

  function ResetSeconds(now: int, windowSeconds: int): int
    requires windowSeconds > 0
  {
    var left := (WindowIndex(now, windowSeconds) + 1) * (1000 * windowSeconds) - now;
    Max(1, (left + 999) / 1000)
  }

  function Decide(count: int, limit: int, resetSeconds: int): Decision {
    Decision(count <= limit, limit, Max(0, limit - count), resetSeconds)
  }

  function CounterKey(bucket: string, index: int): string {
    bucket + ":" + FormatInteger(index)
  }

  datatype Hit = Hit(bucket: string, limit: int, windowSeconds: int, now: int)

  predicate Timed(hits: seq<Hit>) {
    forall i | 0 <= i < |hits| :: hits[i].windowSeconds > 0
  }

  function CountOf(counts: map<string, nat>, key: string): nat {
    if key in counts then counts[key] else 0
  }

  /** The counters after one more request. */
  function Counted(counts: map<string, nat>, hit: Hit): map<string, nat>
    requires hit.windowSeconds > 0
  {
    var key := CounterKey(hit.bucket, WindowIndex(hit.now, hit.windowSeconds));
    counts[key := CountOf(counts, key) + 1]
  }

  function Decided(counts: map<string, nat>, hit: Hit): Decision
    requires hit.windowSeconds > 0
  {
    var key := CounterKey(hit.bucket, WindowIndex(hit.now, hit.windowSeconds));
    Decide(CountOf(counts, key) + 1, hit.limit, ResetSeconds(hit.now, hit.windowSeconds))
  }

  class MemoryLimiter {
    var counts: map<string, nat>

    constructor ()
      ensures counts == map[]
    {
      counts := map[];
    }

    method Take(hit: Hit) returns (decision: Decision)
      requires hit.windowSeconds > 0
      modifies this
      ensures counts == Counted(old(counts), hit)
      ensures decision == Decided(old(counts), hit)
    {
      var index := WindowIndex(hit.now, hit.windowSeconds);
      var key := CounterKey(hit.bucket, index);
      var count := CountOf(counts, key) + 1;
      counts := counts[key := count];
      decision := Decide(count, hit.limit, ResetSeconds(hit.now, hit.windowSeconds));
    }
  }

  /** The counters of a new limiter after a list of requests, whatever their times. */
  function Counts(hits: seq<Hit>): map<string, nat>
    requires Timed(hits)
  {
    if hits == [] then map[] else Counted(Counts(hits[..|hits| - 1]), hits[|hits| - 1])
  }

  /** Whether request k was let through. */
  predicate Allowed(hits: seq<Hit>, k: nat)
    requires Timed(hits) && k < |hits|
  {
    Decided(Counts(hits[..k]), hits[k]).allowed
  }

  // ----- What the counters mean -----

  predicate FallsIn(hit: Hit, bucket: string, index: int) {
    hit.windowSeconds > 0 && hit.bucket == bucket && WindowIndex(hit.now, hit.windowSeconds) == index
  }

  function OneIn(bucket: string, index: int): (f: Hit -> int)
    ensures forall h: Hit :: f(h) == if FallsIn(h, bucket, index) then 1 else 0
  {
    (h: Hit) => if FallsIn(h, bucket, index) then 1 else 0
  }

  /** How many of the requests are of this bucket and fall in this window. */
  function Seen(hits: seq<Hit>, bucket: string, index: int): nat {
    SumNonNegative(OneIn(bucket, index), hits);
    Sum(OneIn(bucket, index), hits)
  }

  lemma {:induction false} SeenStep(hits: seq<Hit>, k: nat, bucket: string, index: int)
    requires k < |hits|
    ensures Seen(hits[..k + 1], bucket, index)
         == Seen(hits[..k], bucket, index) + if FallsIn(hits[k], bucket, index) then 1 else 0
  {
    assert hits[..k + 1] == hits[..k] + [hits[k]];
    SumAppend(OneIn(bucket, index), hits[..k], [hits[k]]);
    SumOne(OneIn(bucket, index), hits[k]);
  }

  lemma {:induction false} NoColon(n: int)
    ensures ':' !in FormatInteger(n)
  {
    DigitsOnly(ToDigits(if n < 0 then -n else n));
  }

  lemma {:induction false} ShorterHasColon(a: string, x: string, b: string, y: string)
    requires a + ":" + x == b + ":" + y && |a| < |b|
    ensures ':' in x
  {
    var s := a + ":" + x;
    assert s[|b|] == (b + ":" + y)[|b|] == ':' && s[|b|] == x[|b| - |a| - 1];
  }

  /** The last separator tells where a text was joined. */
  lemma {:induction false} LastSeparator(a: string, x: string, b: string, y: string)
    requires a + ":" + x == b + ":" + y && ':' !in x && ':' !in y
    ensures a == b && x == y
  {
    if |a| < |b| { ShorterHasColon(a, x, b, y); }
    if |b| < |a| { ShorterHasColon(b, y, a, x); }
    var s := a + ":" + x;
    assert a == s[..|a|] && b == (b + ":" + y)[..|b|];
    assert x == s[|a| + 1..] && y == (b + ":" + y)[|b| + 1..];
  }

  /** Different windows and different buckets never share a counter. */
  lemma {:induction false} KeysDistinct(bucket: string, index: int, other: string, otherIndex: int)
    ensures CounterKey(bucket, index) == CounterKey(other, otherIndex) <==> bucket == other && index == otherIndex
  {
    NoColon(index);
    NoColon(otherIndex);
    ParseFormatInteger(index);
    ParseFormatInteger(otherIndex);
    if CounterKey(bucket, index) == CounterKey(other, otherIndex) {
      LastSeparator(bucket, FormatInteger(index), other, FormatInteger(otherIndex));
    }
  }

  /** Every counter holds the number of requests of its bucket in its window. */
  lemma {:induction false} CountsAre(hits: seq<Hit>, bucket: string, index: int)
    requires Timed(hits)
    ensures CountOf(Counts(hits), CounterKey(bucket, index)) == Seen(hits, bucket, index)
  {
    if hits != [] {
      var k := |hits| - 1;
      CountsAre(hits[..k], bucket, index);
      SeenStep(hits, k, bucket, index);
      KeysDistinct(bucket, index, hits[k].bucket, WindowIndex(hits[k].now, hits[k].windowSeconds));
      assert hits[..k + 1] == hits;
    }
  }

  /** A request is let through when it is among the first of its window, as many as its limit. */
  lemma {:induction false} AllowedIff(hits: seq<Hit>, k: nat)
    requires Timed(hits) && k < |hits|
    ensures Allowed(hits, k)
            <==> Seen(hits[..k], hits[k].bucket, WindowIndex(hits[k].now, hits[k].windowSeconds)) < hits[k].limit
  {
    CountsAre(hits[..k], hits[k].bucket, WindowIndex(hits[k].now, hits[k].windowSeconds));
  }

  /** `remaining` is how many more requests the window lets through. */
  lemma {:induction false} RemainingIs(hits: seq<Hit>, k: nat)
    requires Timed(hits) && k < |hits|
    ensures var index := WindowIndex(hits[k].now, hits[k].windowSeconds);
      Decided(Counts(hits[..k]), hits[k]).remaining
          == Max(0, hits[k].limit - Seen(hits[..k + 1], hits[k].bucket, index))
  {
    CountsAre(hits[..k], hits[k].bucket, WindowIndex(hits[k].now, hits[k].windowSeconds));
    SeenStep(hits, k, hits[k].bucket, WindowIndex(hits[k].now, hits[k].windowSeconds));
  }

  // ----- How many get through -----

  /** The requests of a bucket that were let through in one window. */
  function Through(hits: seq<Hit>, bucket: string, index: int): nat
    requires Timed(hits)
  {
    if hits == [] then 0
    else
      var k := |hits| - 1;
      Through(hits[..k], bucket, index) + if FallsIn(hits[k], bucket, index) && Allowed(hits, k) then 1 else 0
  }

  /** All requests of the bucket come with this limit and window. */
  predicate Fixed(hits: seq<Hit>, bucket: string, limit: int, windowSeconds: int) {
    forall i | 0 <= i < |hits| && hits[i].bucket == bucket ::
        hits[i].limit == limit && hits[i].windowSeconds == windowSeconds
  }

  /** Exactly the smaller of requests and limit get through, in every window. */
  lemma {:induction false} ThroughIs(hits: seq<Hit>, bucket: string, index: int, limit: int, windowSeconds: int)
    requires Timed(hits) && Fixed(hits, bucket, limit, windowSeconds)
    ensures Through(hits, bucket, index)
         == if Seen(hits, bucket, index) <= limit then Seen(hits, bucket, index) else Max(0, limit)
  {
    if hits != [] {
      var k := |hits| - 1;
      ThroughIs(hits[..k], bucket, index, limit, windowSeconds);
      AllowedIff(hits, k);
      SeenStep(hits, k, bucket, index);
      assert hits[..k + 1] == hits;
    }
  }

  predicate InSpan(hit: Hit, bucket: string, start: int, length: int) {
    hit.bucket == bucket && start <= hit.now < start + length
  }

  function ThroughSpan(hits: seq<Hit>, bucket: string, start: int, length: int): nat
    requires Timed(hits)
  {
    if hits == [] then 0
    else
      var k := |hits| - 1;
      ThroughSpan(hits[..k], bucket, start, length)
      + if InSpan(hits[k], bucket, start, length) && Allowed(hits, k) then 1 else 0
  }

  /** A span of one window's length touches two windows at most. */
  lemma {:induction false} SpanTouchesTwo(start: int, now: int, windowSeconds: int)
    requires windowSeconds > 0 && start <= now < start + 1000 * windowSeconds
    ensures var first := WindowIndex(start, windowSeconds);
      WindowIndex(now, windowSeconds) == first || WindowIndex(now, windowSeconds) == first + 1
  {
    var length := 1000 * windowSeconds;
    FloorMono(start, now, length);
    FloorMono(now, start + length, length);
    var d := start / length;
    assert start == d * length + start % length;
    assert (d + 1) * length == d * length + length;
    DivUnique(start + length, length, d + 1);
  }

  lemma {:induction false} SpanSplits(hits: seq<Hit>, bucket: string, start: int, limit: int, windowSeconds: int)
    requires Timed(hits) && Fixed(hits, bucket, limit, windowSeconds) && windowSeconds > 0
    ensures var first := WindowIndex(start, windowSeconds);
      ThroughSpan(hits, bucket, start, 1000 * windowSeconds)
        <= Through(hits, bucket, first) + Through(hits, bucket, first + 1)
  {
    if hits != [] {
      var k := |hits| - 1;
      SpanSplits(hits[..k], bucket, start, limit, windowSeconds);
      if InSpan(hits[k], bucket, start, 1000 * windowSeconds) { SpanTouchesTwo(start, hits[k].now, windowSeconds); }
    }
  }

  /** In any half-open span of one window's length at most twice the limit gets through. */
  lemma {:induction false} SpanAtMostTwice(hits: seq<Hit>, bucket: string, start: int, limit: int, windowSeconds: int)
    requires Timed(hits) && Fixed(hits, bucket, limit, windowSeconds) && windowSeconds > 0
    ensures ThroughSpan(hits, bucket, start, 1000 * windowSeconds) <= 2 * Max(0, limit)
  {
    SpanSplits(hits, bucket, start, limit, windowSeconds);
    ThroughIs(hits, bucket, WindowIndex(start, windowSeconds), limit, windowSeconds);
    ThroughIs(hits, bucket, WindowIndex(start, windowSeconds) + 1, limit, windowSeconds);
  }

  /** So many requests at one time. */
  function Burst(bucket: string, limit: int, windowSeconds: int, now: int, n: nat): (hits: seq<Hit>)
    ensures |hits| == n && forall i | 0 <= i < n :: hits[i] == Hit(bucket, limit, windowSeconds, now)
  {
    if n == 0 then [] else Burst(bucket, limit, windowSeconds, now, n - 1) + [Hit(bucket, limit, windowSeconds, now)]
  }

  lemma {:induction false} SeenBurst(hits: seq<Hit>, hit: Hit, n: nat, index: int)
    requires hit.windowSeconds > 0
    ensures Seen(hits + Burst(hit.bucket, hit.limit, hit.windowSeconds, hit.now, n), hit.bucket, index)
         == Seen(hits, hit.bucket, index) + if WindowIndex(hit.now, hit.windowSeconds) == index then n else 0
  {
    if n == 0 {
      assert hits + [] == hits;
    } else {
      var less := Burst(hit.bucket, hit.limit, hit.windowSeconds, hit.now, n - 1);
      SeenBurst(hits, hit, n - 1, index);
      var all := hits + Burst(hit.bucket, hit.limit, hit.windowSeconds, hit.now, n);
      var k := |all| - 1;
      assert all[..k] == hits + less && all[..k + 1] == all;
      SeenStep(all, k, hit.bucket, index);
    }
  }

  lemma {:induction false} AllowedInPrefix(hits: seq<Hit>, k: nat, j: nat)
    requires Timed(hits) && j < k <= |hits|
    ensures Allowed(hits[..k], j) <==> Allowed(hits, j)
  {
    assert hits[..k][..j] == hits[..j];
  }

  lemma {:induction false} AllOfThemThrough(hits: seq<Hit>, bucket: string, start: int, length: int)
    requires Timed(hits) && forall k | 0 <= k < |hits| :: InSpan(hits[k], bucket, start, length) && Allowed(hits, k)
    ensures ThroughSpan(hits, bucket, start, length) == |hits|
  {
    if hits != [] {
      var k := |hits| - 1;
      forall j | 0 <= j < k ensures Allowed(hits[..k], j) {
        assert Allowed(hits, j);
        AllowedInPrefix(hits, k, j);
      }
      AllOfThemThrough(hits[..k], bucket, start, length);
    }
  }

  /** The requests at the end of one window and the start of the next. */
  function Straddle(bucket: string, limit: nat, windowSeconds: nat): seq<Hit> {
    Burst(bucket, limit, windowSeconds, 1000 * windowSeconds - 1, limit)
    + Burst(bucket, limit, windowSeconds, 1000 * windowSeconds, limit)
  }

  lemma {:induction false} StraddleWithin(bucket: string, limit: nat, windowSeconds: nat)
    requires windowSeconds > 0
    ensures var hits := Straddle(bucket, limit, windowSeconds);
      && |hits| == 2 * limit && Timed(hits) && Fixed(hits, bucket, limit, windowSeconds)
      && forall k | 0 <= k < |hits| :: InSpan(hits[k], bucket, 1000 * windowSeconds - 1, 2)
  {
  }

  lemma {:induction false} StraddleAllowed(bucket: string, limit: nat, windowSeconds: nat, k: nat)
    requires windowSeconds > 0 && k < 2 * limit
    ensures Timed(Straddle(bucket, limit, windowSeconds)) && |Straddle(bucket, limit, windowSeconds)| == 2 * limit
    ensures Allowed(Straddle(bucket, limit, windowSeconds), k)
  {
    StraddleWithin(bucket, limit, windowSeconds);
    StraddleWindow(bucket, limit, windowSeconds, k);
    StraddleSeen(bucket, limit, windowSeconds, k);
    AllowedIff(Straddle(bucket, limit, windowSeconds), k);
  }

  /** The first half falls in window 0, the second in window 1. */
  lemma {:induction false} StraddleWindow(bucket: string, limit: nat, windowSeconds: nat, k: nat)
    requires windowSeconds > 0 && k < 2 * limit
    ensures var hit := Straddle(bucket, limit, windowSeconds)[k];
      && hit.bucket == bucket && hit.limit == limit && hit.windowSeconds == windowSeconds
      && WindowIndex(hit.now, windowSeconds) == if k < limit then 0 else 1
  {
    var length := 1000 * windowSeconds;
    DivUnique(length - 1, length, 0);
    DivUnique(length, length, 1);
  }

  /** Fewer than the limit came before each of them in its own window. */
  lemma {:induction false} StraddleSeen(bucket: string, limit: nat, windowSeconds: nat, k: nat)
    requires windowSeconds > 0 && k < 2 * limit
    ensures var hits := Straddle(bucket, limit, windowSeconds);
      Seen(hits[..k], bucket, if k < limit then 0 else 1) == if k < limit then k else k - limit
  {
    var hits, length := Straddle(bucket, limit, windowSeconds), 1000 * windowSeconds;
    var early, late := Hit(bucket, limit, windowSeconds, length - 1), Hit(bucket, limit, windowSeconds, length);
    DivUnique(length - 1, length, 0);
    DivUnique(length, length, 1);
    if k < limit {
      assert hits[..k] == [] + Burst(bucket, limit, windowSeconds, length - 1, k);
      SeenBurst([], early, k, 0);
    } else {
      var first := Burst(bucket, limit, windowSeconds, length - 1, limit);
      assert hits[..k] == first + Burst(bucket, limit, windowSeconds, length, k - limit);
      assert first == [] + first;
      SeenBurst([], early, limit, 1);
      SeenBurst(first, late, k - limit, 1);
    }
  }

  lemma {:induction false} StraddlePasses(bucket: string, limit: nat, windowSeconds: nat, hits: seq<Hit>, start: int)
    requires windowSeconds > 0 && hits == Straddle(bucket, limit, windowSeconds) && start == 1000 * windowSeconds - 1
    ensures Timed(hits) && |hits| == 2 * limit
    ensures forall k | 0 <= k < |hits| :: InSpan(hits[k], bucket, start, 2) && Allowed(hits, k)
  {
    StraddleWithin(bucket, limit, windowSeconds);
    forall k | 0 <= k < |hits| ensures Allowed(hits, k) { StraddleAllowed(bucket, limit, windowSeconds, k); }
  }

  lemma {:induction false} StraddleThrough(bucket: string, limit: nat, windowSeconds: nat, hits: seq<Hit>, start: int)
    requires windowSeconds > 0 && hits == Straddle(bucket, limit, windowSeconds) && start == 1000 * windowSeconds - 1
    ensures Timed(hits) && ThroughSpan(hits, bucket, start, 2) == 2 * limit
  {
    StraddlePasses(bucket, limit, windowSeconds, hits, start);
    AllOfThemThrough(hits, bucket, start, 2);
  }

  /** Twice the limit does get through, in two milliseconds around a boundary. */
  lemma {:induction false} TwiceIsReached(bucket: string, limit: nat, windowSeconds: nat)
    requires windowSeconds > 0
    ensures var hits := Straddle(bucket, limit, windowSeconds);
      && Timed(hits) && Fixed(hits, bucket, limit, windowSeconds)
      && ThroughSpan(hits, bucket, 1000 * windowSeconds - 1, 2) == 2 * limit
  {
    StraddleWithin(bucket, limit, windowSeconds);
    StraddleThrough(bucket, limit, windowSeconds, Straddle(bucket, limit, windowSeconds), 1000 * windowSeconds - 1);
  }

  /**
   * Waiting as long as told ends in the very next window, and the wait is between one second and the window's
   * length.
   */
  lemma {:induction false} WaitEndsNext(now: int, windowSeconds: int)
    requires windowSeconds > 0
    ensures var reset := ResetSeconds(now, windowSeconds);
      && 1 <= reset <= windowSeconds
      && WindowIndex(now + 1000 * reset, windowSeconds) == WindowIndex(now, windowSeconds) + 1
  {
    var length, index := 1000 * windowSeconds, WindowIndex(now, windowSeconds);
    assert now == index * length + now % length;
    assert (index + 1) * length == index * length + length;
    var left := (index + 1) * length - now;
    var reset := ResetSeconds(now, windowSeconds);
    assert left == length - now % length && 1 <= left <= length;
    assert left <= 1000 * reset < left + 1000;
    assert (index + 2) * length == (index + 1) * length + length;
    DivUnique(now + 1000 * reset, length, index + 1);
  }

  lemma {:induction false} WindowsInOrder(now: int, later: int, windowSeconds: int)
    requires windowSeconds > 0 && now <= later
    ensures var next := (WindowIndex(now, windowSeconds) + 1) * (1000 * windowSeconds);
      WindowIndex(later, windowSeconds) > WindowIndex(now, windowSeconds) <==> later >= next
  {
    FloorIff(later, 1000 * windowSeconds, WindowIndex(now, windowSeconds) + 1);
  }

  /** No shorter wait in whole seconds reaches another window: the wait told is the least that does. */
  lemma {:induction false} WaitIsLeast(now: int, windowSeconds: int, seconds: nat)
    requires windowSeconds > 0
    ensures WindowIndex(now + 1000 * seconds, windowSeconds) > WindowIndex(now, windowSeconds)
       <==> seconds >= ResetSeconds(now, windowSeconds)
  {
    var length, index := 1000 * windowSeconds, WindowIndex(now, windowSeconds);
    WindowsInOrder(now, now + 1000 * seconds, windowSeconds);
    assert now == index * length + now % length;
    assert (index + 1) * length == index * length + length;
    CeilIff((index + 1) * length - now, 1000, seconds);
  }
}
