/** One price out of several sources, or none when they disagree. */
module Quorum {
  import opened Wrappers
  import opened Arith
  import opened Decimal
  import opened Risk
  import opened Lists

  datatype ValuationStatus = Verified | Disputed | Stale | Unsupported

  datatype AssetValuation = AssetValuation(
    price: Option<int>, scale: int, sources: set<string>, status: ValuationStatus,
    disagreement: bool, spreadBps: Option<int>)

  datatype Reading = Reading(source: string, price: Option<int>, scale: int, stale: bool)

  predicate Usable(r: Reading) {
    !r.stale && r.price.Some? && r.price.value > 0
  }

  /** The price at eight decimals; more decimals than that are cut off. */
  function Normalize(price: int, scale: int): int {
    if scale <= 8 then price * Pow10(8 - scale) else Truncate(price, Pow10(scale - 8))
  }

  function PriceOf(r: Reading): seq<int> {
    if Usable(r) then [Normalize(r.price.value, r.scale)] else []
  }

  /** The usable readings' prices, in the order they were read. */
  function Normalized(readings: seq<Reading>): seq<int> {
    FlatMapped(PriceOf, readings)
  }

  // ----- Sorting prices -----

  function InsertPrice(p: int, prices: seq<int>): seq<int> {
    if prices == [] then [p] else if p < prices[0] then [p] + prices else [prices[0]] + InsertPrice(p, prices[1..])
  }

  function SortPrices(prices: seq<int>): (sorted: seq<int>)
    ensures |sorted| == |prices|
  {
    if prices == [] then [] else
      InsertPriceGrows(prices[0], SortPrices(prices[1..]));
      InsertPrice(prices[0], SortPrices(prices[1..]))
  }

  lemma {:induction false} InsertPriceGrows(p: int, prices: seq<int>)
    ensures |InsertPrice(p, prices)| == |prices| + 1
  {
    if prices != [] && p >= prices[0] { InsertPriceGrows(p, prices[1..]); }
  }

  predicate Ascends(prices: seq<int>) {
    forall i, j | 0 <= i < j < |prices| :: prices[i] <= prices[j]
  }

  lemma {:induction false} InsertPriceKeeps(p: int, prices: seq<int>)
    ensures multiset(InsertPrice(p, prices)) == multiset(prices) + multiset{p}
  {
    if prices != [] && p >= prices[0] {
      InsertPriceKeeps(p, prices[1..]);
      assert prices == [prices[0]] + prices[1..];
    }
  }

  lemma {:induction false} ConsAscends(p: int, prices: seq<int>)
    requires Ascends(prices) && forall i | 0 <= i < |prices| :: p <= prices[i]
    ensures Ascends([p] + prices)
  {
  }

  lemma {:induction false} TailAscends(prices: seq<int>)
    requires Ascends(prices) && prices != []
    ensures Ascends(prices[1..]) && forall i | 0 <= i < |prices[1..]| :: prices[0] <= prices[1..][i]
  {
  }

  lemma {:induction false} InsertPriceSorts(p: int, prices: seq<int>)
    requires Ascends(prices)
    ensures Ascends(InsertPrice(p, prices))
  {
    if prices != [] {
      TailAscends(prices);
      if p < prices[0] {
        ConsAscends(p, prices);
      } else {
        var rest := InsertPrice(p, prices[1..]);
        InsertPriceSorts(p, prices[1..]);
        InsertPriceKeeps(p, prices[1..]);
        LeastFirst(prices[0], rest, [p] + prices[1..]);
        ConsAscends(prices[0], rest);
      }
    }
  }

  lemma {:induction false} LeastFirst(least: int, a: seq<int>, b: seq<int>)
    requires multiset(a) == multiset(b) && forall i | 0 <= i < |b| :: least <= b[i]
    ensures forall i | 0 <= i < |a| :: least <= a[i]
  {
    forall i | 0 <= i < |a| ensures least <= a[i] { SameMembers(a, b, a[i]); }
  }

  lemma {:induction false} SortPricesSorts(prices: seq<int>)
    ensures Ascends(SortPrices(prices)) && multiset(SortPrices(prices)) == multiset(prices)
  {
    if prices != [] {
      assert prices == [prices[0]] + prices[1..];
      SortPricesSorts(prices[1..]);
      InsertPriceSorts(prices[0], SortPrices(prices[1..]));
      InsertPriceKeeps(prices[0], SortPrices(prices[1..]));
    }
  }

  lemma {:induction false} SameHead(a: seq<int>, b: seq<int>)
    requires Ascends(a) && Ascends(b) && multiset(a) == multiset(b) && a != []
    ensures b != [] && a[0] == b[0]
  {
    SameMembers(a, b, a[0]);
    SameMembers(a, b, b[0]);
  }

  lemma {:induction false} SameTail(a: seq<int>, b: seq<int>)
    requires multiset(a) == multiset(b) && a != [] && b != [] && a[0] == b[0]
    ensures multiset(a[1..]) == multiset(b[1..])
  {
    TailMultiset(a);
    TailMultiset(b);
  }

  lemma {:induction false} SortedUnique(a: seq<int>, b: seq<int>)
    requires Ascends(a) && Ascends(b) && multiset(a) == multiset(b)
    ensures a == b
  {
    if a == [] {
      assert |multiset(b)| == 0;
    } else {
      SameHead(a, b);
      SameTail(a, b);
      SortedUnique(a[1..], b[1..]);
      assert a == [a[0]] + a[1..] && b == [b[0]] + b[1..];
    }
  }

  // ----- The verdict -----

  /**
   * How far the sources are apart, in basis points of the lowest, rounded up; nothing when the lowest rounds to
   * zero.
   */
  function Spread(low: int, high: int): int {
    if low > 0 then MulDiv(high - low, BPS, low, Up).value else 0
  }

  function Sources(readings: seq<Reading>): set<string> {
    set r | r in readings :: r.source
  }

  function Verdict(low: int, high: int, median: int, sources: set<string>, maxSpreadBps: int): AssetValuation {
    var spread := Spread(low, high);
    if |sources| > 1 && spread > maxSpreadBps then AssetValuation(None, 8, sources, Disputed, true, Some(spread))
    else AssetValuation(Some(median), 8, sources, Verified, false, if |sources| > 1 then Some(spread) else None)
  }

  /** The outcome for sorted usable prices; without any, the first reading's scale is reported. */
  function FromPrices(prices: seq<int>, firstScale: int, sources: set<string>, maxSpreadBps: int): AssetValuation {
    if prices == [] then AssetValuation(None, firstScale, sources, Stale, false, None)
    else Verdict(prices[0], prices[|prices| - 1], prices[|prices| / 2], sources, maxSpreadBps)
  }

  function Reconciled(readings: seq<Reading>, maxSpreadBps: int): AssetValuation {
    if readings == [] then AssetValuation(None, 8, {}, Unsupported, false, None)
    else FromPrices(SortPrices(Normalized(readings)), readings[0].scale, Sources(readings), maxSpreadBps)
  }

  /** The lowest and the highest price, in one pass over prices in the order they were read. */
  method LowestAndHighest(prices: seq<int>) returns (low: int, high: int)
    requires prices != []
    ensures low in prices && high in prices && forall p | p in prices :: low <= p <= high
  {
    low, high := prices[0], prices[0];
    for k := 0 to |prices|
      invariant low in prices && high in prices
      invariant forall i | 0 <= i < k :: low <= prices[i] <= high
    {
      if prices[k] < low { low := prices[k]; }
      if prices[k] > high { high := prices[k]; }
    }
  }

  method ReconcilePriceQuorum(readings: seq<Reading>, maxSpreadBps: int) returns (valuation: AssetValuation)
    ensures valuation == Reconciled(readings, maxSpreadBps)
  {
    if readings == [] {
      return AssetValuation(None, 8, {}, Unsupported, false, None);
    }
    var normalized := Normalized(readings);
    var sorted := SortPrices(normalized);
    if normalized == [] {
      return AssetValuation(None, readings[0].scale, Sources(readings), Stale, false, None);
    }
    var low, high := LowestAndHighest(normalized);
    SortedEnds(normalized, low, high);
    valuation := Verdict(low, high, sorted[|sorted| / 2], Sources(readings), maxSpreadBps);
  }

  lemma {:induction false} SortedEnds(prices: seq<int>, low: int, high: int)
    requires low in prices && high in prices && forall p | p in prices :: low <= p <= high
    ensures var sorted := SortPrices(prices);
      |sorted| == |prices| > 0 && sorted[0] == low && sorted[|sorted| - 1] == high
  {
    var sorted := SortPrices(prices);
    SortPricesSorts(prices);
    SameMembers(prices, sorted, low);
    SameMembers(prices, sorted, high);
    SameMembers(prices, sorted, sorted[0]);
    SameMembers(prices, sorted, sorted[|sorted| - 1]);
  }

  // ----- Order -----

  lemma {:induction false} SourcesPermuted(a: seq<Reading>, b: seq<Reading>)
    requires multiset(a) == multiset(b)
    ensures Sources(a) <= Sources(b)
  {
    forall s | s in Sources(a) ensures s in Sources(b) {
      var r :| r in a && r.source == s;
      SameMembers(a, b, r);
    }
  }

  lemma {:induction false} SortedSame(a: seq<Reading>, b: seq<Reading>)
    requires multiset(a) == multiset(b)
    ensures SortPrices(Normalized(a)) == SortPrices(Normalized(b))
  {
    FlatMappedPermuted(PriceOf, a, b);
    SortPricesSorts(Normalized(a));
    SortPricesSorts(Normalized(b));
    SortedUnique(SortPrices(Normalized(a)), SortPrices(Normalized(b)));
  }

  lemma {:induction false} ScaleOnly(prices: seq<int>, s: int, t: int, sources: set<string>, maxSpreadBps: int)
    ensures var v := FromPrices(prices, s, sources, maxSpreadBps);
      v == FromPrices(prices, t, sources, maxSpreadBps).(scale := v.scale)
  {
  }

  /** Price, status, spread and sources do not depend on the order of the readings. */
  lemma {:induction false} ReadingsInAnyOrder(a: seq<Reading>, b: seq<Reading>, maxSpreadBps: int)
    requires multiset(a) == multiset(b)
    ensures Reconciled(a, maxSpreadBps) == Reconciled(b, maxSpreadBps).(scale := Reconciled(a, maxSpreadBps).scale)
  {
    SortedSame(a, b);
    SourcesPermuted(a, b);
    SourcesPermuted(b, a);
    assert Sources(a) == Sources(b);
    SameSize(a, b);
    if a != [] { ScaleOnly(SortPrices(Normalized(a)), a[0].scale, b[0].scale, Sources(a), maxSpreadBps); }
  }

  // ----- Agreement -----

  /** Any two usable prices are no further apart than so many basis points of the lowest. */
  predicate Agree(prices: seq<int>, low: int, maxSpreadBps: int) {
    forall p, q | p in prices && q in prices :: (p - q) * BPS <= maxSpreadBps * low
  }

  lemma {:induction false} SpreadAtMostIff(low: int, high: int, maxSpreadBps: int)
    requires 0 < low <= high
    ensures Spread(low, high) <= maxSpreadBps <==> (high - low) * BPS <= maxSpreadBps * low
  {
    TruncatesDown((high - low) * BPS + low - 1, low);
    CeilIff((high - low) * BPS, low, maxSpreadBps);
  }

  lemma {:induction false} AgreeIff(prices: seq<int>, low: int, high: int, maxSpreadBps: int)
    requires low in prices && high in prices && forall p | p in prices :: low <= p <= high
    ensures Agree(prices, low, maxSpreadBps) <==> (high - low) * BPS <= maxSpreadBps * low
  {
  }

  /**
   * When a price is given: from a single source always, from several exactly when they agree, or when the lowest
   * rounds to zero.
   */
  lemma {:induction false} VerifiedIff(readings: seq<Reading>, maxSpreadBps: int)
    requires Normalized(readings) != []
    ensures var low := SortPrices(Normalized(readings))[0];
      Reconciled(readings, maxSpreadBps).status == Verified <==>
        || |Sources(readings)| <= 1
        || (if low > 0 then Agree(Normalized(readings), low, maxSpreadBps) else 0 <= maxSpreadBps)
  {
    var prices := Normalized(readings);
    var low, high := SortedLow(prices);
    AgreeIff(prices, low, high, maxSpreadBps);
    if low > 0 { SpreadAtMostIff(low, high, maxSpreadBps); }
  }

  lemma {:induction false} SortedLow(prices: seq<int>) returns (low: int, high: int)
    requires prices != []
    ensures var sorted := SortPrices(prices);
      sorted != [] && low == sorted[0] && high == sorted[|sorted| - 1]
    ensures low in prices && high in prices && forall p | p in prices :: low <= p <= high
  {
    var sorted := SortPrices(prices);
    SortPricesSorts(prices);
    low, high := sorted[0], sorted[|sorted| - 1];
    SameMembers(prices, sorted, low);
    SameMembers(prices, sorted, high);
    forall p | p in prices ensures low <= p <= high {
      SameMembers(prices, sorted, p);
      var i :| 0 <= i < |sorted| && sorted[i] == p;
    }
  }

  function IsBelow(p: int): (f: int -> int)
    ensures forall q :: f(q) == if q < p then 1 else 0
  {
    q => if q < p then 1 else 0
  }

  function IsAbove(p: int): (f: int -> int)
    ensures forall q :: f(q) == if q > p then 1 else 0
  {
    q => if q > p then 1 else 0
  }

  /** How many of the prices are below, and how many above. */
  function Below(prices: seq<int>, p: int): int {
    Sum(IsBelow(p), prices)
  }

  function Above(prices: seq<int>, p: int): int {
    Sum(IsAbove(p), prices)
  }

  lemma {:induction false} BelowAt(sorted: seq<int>, k: nat)
    requires Ascends(sorted) && k < |sorted|
    ensures Below(sorted, sorted[k]) <= k && Above(sorted, sorted[k]) <= |sorted| - 1 - k
  {
    if k == 0 {
      NoneBelow(sorted, sorted[0]);
    } else {
      BelowAt(sorted[1..], k - 1);
    }
  }

  lemma {:induction false} NoneBelow(prices: seq<int>, p: int)
    requires forall i | 0 <= i < |prices| :: p <= prices[i]
    ensures Below(prices, p) == 0 && Above(prices, p) <= |prices| - if p in prices then 1 else 0
  {
    if prices != [] {
      assert prices == [prices[0]] + prices[1..];
      NoneBelow(prices[1..], p);
    }
  }

  /** A verified price is a usable reading's own, with at most half of the usable readings on either side. */
  lemma {:induction false} VerifiedIsMedian(readings: seq<Reading>, maxSpreadBps: int)
    requires Reconciled(readings, maxSpreadBps).status == Verified
    ensures var price, prices := Reconciled(readings, maxSpreadBps).price, Normalized(readings);
      && price.Some? && price.value in prices
      && 2 * Below(prices, price.value) <= |prices| && 2 * Above(prices, price.value) <= |prices|
  {
    var prices := Normalized(readings);
    var sorted := SortPrices(prices);
    var middle := sorted[|sorted| / 2];
    SortPricesSorts(prices);
    SameMembers(prices, sorted, middle);
    BelowAt(sorted, |sorted| / 2);
    SumPermuted(IsBelow(middle), prices, sorted);
    SumPermuted(IsAbove(middle), prices, sorted);
  }

  lemma {:induction false} NormalizePositive(price: int, scale: int)
    requires price > 0 && scale <= 8
    ensures Normalize(price, scale) > 0
  {
    MulMono(1, price, Pow10(8 - scale));
  }

  lemma {:induction false} NormalizedPositive(readings: seq<Reading>)
    requires forall i | 0 <= i < |readings| :: readings[i].scale <= 8
    ensures forall p | p in Normalized(readings) :: p > 0
  {
    if readings != [] {
      NormalizedPositive(readings[1..]);
      assert Normalized(readings) == PriceOf(readings[0]) + Normalized(readings[1..]);
      if Usable(readings[0]) { NormalizePositive(readings[0].price.value, readings[0].scale); }
    }
  }

  /** With at most eight decimals and two sources, a price is given exactly when all usable prices agree. */
  lemma {:induction false} TwoSourcesAgreeIff(readings: seq<Reading>, maxSpreadBps: int)
    requires Normalized(readings) != [] && |Sources(readings)| > 1
    requires forall i | 0 <= i < |readings| :: readings[i].scale <= 8
    ensures Reconciled(readings, maxSpreadBps).price.Some?
       <==> Agree(Normalized(readings), SortPrices(Normalized(readings))[0], maxSpreadBps)
  {
    VerifiedIff(readings, maxSpreadBps);
    NormalizedPositive(readings);
    var low, high := SortedLow(Normalized(readings));
  }

  /** With more decimals than eight a price can round to zero, and then no disagreement is seen. */
  lemma {:induction false} RoundedToZeroAgrees()
    ensures var readings := [Reading("a", Some(1), 9, false), Reading("b", Some(1000), 0, false)];
      Reconciled(readings, 300).status == Verified && !Agree(Normalized(readings), 0, 300)
  {
    var a, b := Reading("a", Some(1), 9, false), Reading("b", Some(1000), 0, false);
    var readings := [a, b];
    assert readings[1..] == [b] && [b][1..] == [];
    assert Pow10(1) == 10;
    var high := 1000 * Pow10(8);
    MulMono(1, Pow10(8), 1000);
    assert Normalize(1, 9) == 0 && Normalize(1000, 0) == high;
    assert PriceOf(a) == [0] && PriceOf(b) == [high];
    assert Normalized([b]) == [high] + Normalized([]);
    assert Normalized(readings) == [0] + Normalized([b]);
    assert [0, high][1..] == [high];
    assert SortPrices([high]) == [high];
    assert SortPrices([0, high]) == [0, high];
    assert high in Normalized(readings) && 0 in Normalized(readings);
    assert (high - 0) * BPS > 300 * 0;
    assert Spread(0, high) == 0;
  }

  // ----- What is reported -----

  /** A reading counts at its place exactly when it is fresh and has a positive price. */
  lemma {:induction false} ReadingCounts(before: seq<Reading>, r: Reading, after: seq<Reading>)
    ensures Normalized(before + [r] + after)
         == Normalized(before)
            + (if !r.stale && r.price.Some? && r.price.value > 0 then [Normalize(r.price.value, r.scale)] else [])
            + Normalized(after)
  {
    FlatMappedAppend(PriceOf, before + [r], after);
    FlatMappedAppend(PriceOf, before, [r]);
    FlatMappedOne(PriceOf, r);
  }

  /** A price keeps its worth at eight decimals, but for the decimals cut off. */
  lemma {:induction false} AtEightDecimals(price: nat, scale: nat)
    ensures var n := Normalize(price, scale);
      && n * Pow10(scale) <= price * Pow10(8) < (n + 1) * Pow10(scale)
      && (scale <= 8 ==> n * Pow10(scale) == price * Pow10(8))
  {
    var n := Normalize(price, scale);
    if scale <= 8 {
      Pow10Add(8 - scale, scale);
      Regrouped(price, Pow10(8 - scale), Pow10(scale));
      assert (n + 1) * Pow10(scale) == n * Pow10(scale) + Pow10(scale);
    } else {
      TruncatesDown(price, Pow10(scale - 8));
      FloorIff(price, Pow10(scale - 8), n);
      FloorIff(price, Pow10(scale - 8), n + 1);
      Pow10Add(scale - 8, 8);
      Regrouped(n, Pow10(scale - 8), Pow10(8));
      Regrouped(n + 1, Pow10(scale - 8), Pow10(8));
      MulMono(n * Pow10(scale - 8), price, Pow10(8));
      MulMono(price + 1, (n + 1) * Pow10(scale - 8), Pow10(8));
    }
  }

  lemma Regrouped(a: int, b: int, c: int)
    ensures a * (b * c) == a * b * c && (a + 1) * c == a * c + c
  {
  }

  /** Without a usable reading the price is stale, and only then. */
  predicate NoneUsable(readings: seq<Reading>) {
    forall r | r in readings :: r.stale || r.price.None? || r.price.value <= 0
  }

  lemma {:induction false} NoPricesIff(readings: seq<Reading>)
    ensures Normalized(readings) == [] <==> NoneUsable(readings)
  {
    if readings != [] {
      NoPricesIff(readings[1..]);
      assert readings == [readings[0]] + readings[1..];
    }
  }

  /** Which status is reported when, and what comes with it. */
  lemma {:induction false} StatusReads(readings: seq<Reading>, maxSpreadBps: int)
    ensures var v := Reconciled(readings, maxSpreadBps);
      && v.sources == (set r | r in readings :: r.source)
      && (v.status == Unsupported <==> readings == [])
      && (v.status == Stale <==> readings != [] && NoneUsable(readings))
      && (v.price.Some? <==> v.status == Verified) && (v.disagreement <==> v.status == Disputed)
      && v.scale == (if v.status == Stale then readings[0].scale else 8)
      && (v.spreadBps.Some? <==> v.status in {Verified, Disputed} && |v.sources| > 1)
      && (v.spreadBps.Some? ==> (v.status == Disputed <==> v.spreadBps.value > maxSpreadBps))
  {
    NoPricesIff(readings);
    SortPricesSorts(Normalized(readings));
    SameSize(SortPrices(Normalized(readings)), Normalized(readings));
  }

  /** The spread reported is the least number of basis points of the lowest price that covers the highest. */
  lemma {:induction false} SpreadIsLeast(readings: seq<Reading>, maxSpreadBps: int, low: int, high: int, bps: int)
    requires Reconciled(readings, maxSpreadBps).spreadBps.Some?
    requires low in Normalized(readings) && high in Normalized(readings)
    requires forall p | p in Normalized(readings) :: low <= p <= high
    ensures var spread := Reconciled(readings, maxSpreadBps).spreadBps.value;
      if low > 0 then spread <= bps <==> (high - low) * 10_000 <= bps * low else spread == 0
  {
    SortedEnds(Normalized(readings), low, high);
    if low > 0 { SpreadAtMostIff(low, high, bps); }
  }

  /** A reading without a usable price changes nothing but the sources, exactly unless it names the second of them. */
  lemma {:induction false} UnusableIgnoredIff(readings: seq<Reading>, k: nat, maxSpreadBps: int)
    requires k < |readings| && !NoneUsable(readings)
    requires readings[k].stale || readings[k].price.None? || readings[k].price.value <= 0
    ensures var all, rest := Reconciled(readings, maxSpreadBps), Reconciled(Without(readings, k), maxSpreadBps);
      rest == all.(sources := rest.sources) <==> (|Sources(readings)| > 1 <==> |Sources(Without(readings, k))| > 1)
  {
    var rest, prices := Without(readings, k), SortPrices(Normalized(readings));
    FlatMappedSkip(PriceOf, readings, k);
    NoPricesIff(readings);
    assert rest != [] by { assert Normalized(rest) != []; }
    SourcesMatterIff(prices, readings[0].scale, rest[0].scale, Sources(readings), Sources(rest), maxSpreadBps);
  }

  lemma {:induction false} SourcesMatterIff(prices: seq<int>, s: int, t: int, a: set<string>, b: set<string>,
                                            maxSpreadBps: int)
    requires prices != []
    ensures FromPrices(prices, t, b, maxSpreadBps) == FromPrices(prices, s, a, maxSpreadBps).(sources := b)
       <==> (|a| > 1 <==> |b| > 1)
  {
  }

  /** A stale reading of a second source turns a price of one source into a dispute. */
  lemma {:induction false} StaleSourceDisputes(low: Reading, high: Reading, stale: Reading)
    requires low == Reading("a", Some(100), 8, false) && high == Reading("a", Some(200), 8, false)
    requires stale.stale && stale.source != "a"
    ensures Reconciled([low, high], 300).price == Some(200)
    ensures Reconciled([low, high, stale], 300).status == Disputed
  {
    TwoPrices(low, high, stale);
    Ascending(100, 200);
    assert Spread(100, 200) == 10_000;
    assert low in [low, high, stale] && stale in [low, high, stale];
    TwoSources(Sources([low, high, stale]), "a", stale.source);
    OneSource(Sources([low, high]), "a");
  }

  lemma {:induction false} TwoPrices(low: Reading, high: Reading, stale: Reading)
    requires low == Reading("a", Some(100), 8, false) && high == Reading("a", Some(200), 8, false) && stale.stale
    ensures Normalized([low, high]) == [100, 200] && Normalized([low, high, stale]) == [100, 200]
  {
    OneUsable(low);
    OneUsable(high);
    FlatMappedAppend(PriceOf, [low], [high]);
    FlatMappedAppend(PriceOf, [low, high], [stale]);
    FlatMappedOne(PriceOf, stale);
    assert [low] + [high] == [low, high] && [low, high] + [stale] == [low, high, stale];
    assert [100] + [200] == [100, 200] && [100, 200] + [] == [100, 200];
  }

  lemma OneUsable(r: Reading)
    requires !r.stale && r.price.Some? && r.price.value > 0 && r.scale == 8
    ensures Normalized([r]) == [r.price.value]
  {
    FlatMappedOne(PriceOf, r);
    assert Pow10(0) == 1;
  }

  lemma Ascending(p: int, q: int)
    requires p <= q
    ensures SortPrices([p, q]) == [p, q]
  {
    assert [p, q][1..] == [q] && [q][1..] == [];
    assert SortPrices([q]) == [q];
    assert InsertPrice(p, [q]) == if p < q then [p] + [q] else [q] + [p];
  }

  lemma TwoSources(sources: set<string>, a: string, b: string)
    requires a in sources && b in sources && a != b
    ensures |sources| > 1
  {
    assert |sources - {a}| == |sources| - 1 && b in sources - {a};
  }

  lemma OneSource(sources: set<string>, a: string)
    requires forall s | s in sources :: s == a
    ensures |sources| <= 1
  {
    assert sources == {} || sources == {a};
  }
}
