/** How a quantity of one asset is spread over markets, in basis points of the whole. */
module Concentration {
  import opened Wrappers
  import opened Arith
  import opened Lists
  import opened Rounding
  import opened Risk
  import opened Holdings

  datatype Slice = Slice(key: string, quantity: Option<int>, assetId: string)
  datatype Share = Share(key: string, quantity: int, shareBps: int)

  datatype Spread = NoPositions | UnknownQuantities | MixedAssets | NothingHeld | Shares(total: int, shares: seq<Share>)

  function HoldingOf(slice: Slice): Holding {
    Holding(slice.key, slice.quantity)
  }

  function Quantity(h: Holding): int {
    if h.quantity.Some? then h.quantity.value else 0
  }

  function ShareOf(total: int): (f: Holding -> Share)
    requires total != 0
    ensures forall h: Holding :: f(h) == Share(h.assetId, Quantity(h), Truncate(Quantity(h) * BPS, total))
  {
    (h: Holding) requires total != 0 => Share(h.assetId, Quantity(h), Truncate(Quantity(h) * BPS, total))
  }

  // ----- Largest share first -----

  /** Before the first share that is no larger: equal shares keep their order. */
  function InsertShare(s: Share, shares: seq<Share>): seq<Share> {
    if shares == [] || shares[0].shareBps <= s.shareBps then [s] + shares else [shares[0]] + InsertShare(s, shares[1..])
  }

  function SortShares(shares: seq<Share>): seq<Share> {
    if shares == [] then [] else InsertShare(shares[0], SortShares(shares[1..]))
  }

  predicate Descends(shares: seq<Share>) {
    forall i, j | 0 <= i < j < |shares| :: shares[i].shareBps >= shares[j].shareBps
  }

  lemma {:induction false} InsertKeeps(s: Share, shares: seq<Share>)
    ensures multiset(InsertShare(s, shares)) == multiset(shares) + multiset{s}
  {
    if shares != [] && shares[0].shareBps > s.shareBps {
      InsertKeeps(s, shares[1..]);
      assert shares == [shares[0]] + shares[1..];
    }
  }

  lemma {:induction false} SortKeeps(shares: seq<Share>)
    ensures multiset(SortShares(shares)) == multiset(shares)
  {
    if shares != [] {
      SortKeeps(shares[1..]);
      InsertKeeps(shares[0], SortShares(shares[1..]));
      assert shares == [shares[0]] + shares[1..];
    }
  }

  lemma {:induction false} InsertBelow(s: Share, shares: seq<Share>, top: int)
    requires s.shareBps <= top && forall i | 0 <= i < |shares| :: shares[i].shareBps <= top
    ensures forall i | 0 <= i < |InsertShare(s, shares)| :: InsertShare(s, shares)[i].shareBps <= top
  {
    if shares != [] && shares[0].shareBps > s.shareBps { InsertBelow(s, shares[1..], top); }
  }

  lemma {:induction false} InsertDescends(s: Share, shares: seq<Share>)
    requires Descends(shares)
    ensures Descends(InsertShare(s, shares))
  {
    if shares != [] && shares[0].shareBps > s.shareBps {
      InsertDescends(s, shares[1..]);
      InsertBelow(s, shares[1..], shares[0].shareBps);
    }
  }

  lemma {:induction false} SortDescends(shares: seq<Share>)
    ensures Descends(SortShares(shares))
  {
    if shares != [] {
      SortDescends(shares[1..]);
      InsertDescends(shares[0], SortShares(shares[1..]));
    }
  }

  // ----- The report -----

  function HoldingsOf(slices: seq<Slice>): seq<Holding> {
    Mapped(HoldingOf, slices)
  }

  function SharesOf(held: seq<Holding>, total: int): seq<Share>
    requires total != 0
  {
    SortShares(Mapped(ShareOf(total), Aggregated(held)))
  }

  function Concentrated(slices: seq<Slice>): Spread {
    var held := HoldingsOf(slices);
    var total := Sum(Quantity, held);
    if slices == [] then NoPositions
    else if exists s | s in slices :: s.quantity.None? then UnknownQuantities
    else if |set s | s in slices :: s.assetId| > 1 then MixedAssets
    else if total == 0 then NothingHeld
    else Shares(total, SharesOf(held, total))
  }

  /** The loop's total and its map, for the slices so far. */
  ghost predicate Tallied(total: int, totals: map<string, Option<int>>, keys: seq<string>, held: seq<Holding>) {
    && total == Sum(Quantity, held) && KeysKept(totals, keys, held) && QuantitiesKept(totals, held)
    && forall key | key in totals :: totals[key].Some?
  }

  lemma {:induction false} TallyStep(total: int, totals: map<string, Option<int>>, keys: seq<string>,
                                     held: seq<Holding>, h: Holding, longer: seq<Holding>,
                                     totals': map<string, Option<int>>, keys': seq<string>)
    requires Tallied(total, totals, keys, held) && h.quantity.Some? && longer == held + [h]
    requires var before := if h.assetId in totals then totals[h.assetId].value else 0;
      totals' == totals[h.assetId := Some(before + h.quantity.value)]
    requires keys' == if h.assetId in totals then keys else keys + [h.assetId]
    ensures Tallied(total + h.quantity.value, totals', keys', longer)
  {
    SumAppend(Quantity, held, [h]);
    SumOne(Quantity, h);
    KeptStep(totals, keys, held, h, totals', keys', longer);
  }

  method TallySlices(slices: seq<Slice>) returns (total: int, entries: seq<Holding>)
    requires forall s | s in slices :: s.quantity.Some?
    ensures total == Sum(Quantity, HoldingsOf(slices)) && entries == Aggregated(HoldingsOf(slices))
  {
    ghost var held := HoldingsOf(slices);
    var totals: map<string, Option<int>> := map[];
    var keys: seq<string> := [];
    total := 0;
    for k := 0 to |slices|
      invariant Tallied(total, totals, keys, held[..k])
    {
      var slice := slices[k];
      assert held[..k + 1] == held[..k] + [HoldingOf(slice)];
      ghost var totals0, keys0, total0 := totals, keys, total;
      var quantity := slice.quantity.value;
      var before := if slice.key in totals then totals[slice.key].value else 0;
      total := total + quantity;
      if slice.key !in totals {
        keys := keys + [slice.key];
      }
      totals := totals[slice.key := Some(before + quantity)];
      TallyStep(total0, totals0, keys0, held[..k], HoldingOf(slice), held[..k + 1], totals, keys);
    }
    assert held[..|slices|] == held;
    entries := seq(|keys|, i requires 0 <= i < |keys| && keys[i] in totals => Holding(keys[i], totals[keys[i]]));
    EntriesAre(totals, keys, held, entries);
  }

  method ConcentrationByQuantity(slices: seq<Slice>) returns (spread: Spread)
    ensures spread == Concentrated(slices)
  {
    if slices == [] {
      return NoPositions;
    }
    if exists s | s in slices :: s.quantity.None? {
      return UnknownQuantities;
    }
    var assets := set s | s in slices :: s.assetId;
    if |assets| > 1 {
      return MixedAssets;
    }
    var total, entries := TallySlices(slices);
    if total == 0 {
      return NothingHeld;
    }
    spread := Shares(total, SortShares(Mapped(ShareOf(total), entries)));
  }

  // ----- The shares add up -----

  function QuantityOfShare(s: Share): int {
    s.quantity
  }

  function BpsOfShare(s: Share): int {
    s.shareBps
  }

  function KeyOfShare(s: Share): string {
    s.key
  }

  function Is(h: Holding): (f: string -> int)
    ensures forall id :: f(id) == AmountOf(id)(h)
  {
    id => AmountOf(id)(h)
  }

  function TotalOf(held: seq<Holding>): (f: string -> int)
    ensures forall id :: f(id) == Sum(AmountOf(id), held)
  {
    id => Sum(AmountOf(id), held)
  }

  lemma {:induction false} OnlyItsOwn(h: Holding, ids: seq<string>)
    requires Distinct(ids) && h.assetId in ids
    ensures Sum(Is(h), ids) == Quantity(h)
  {
    var k :| 0 <= k < |ids| && ids[k] == h.assetId;
    SumWithout(Is(h), ids, k);
    DistinctWithout(ids, k);
    SumNonNegative(Is(h), Without(ids, k));
  }

  /** Added up by key or slice by slice, the quantities are the same. */
  lemma {:induction false} KeysAddUp(held: seq<Holding>)
    ensures Sum(TotalOf(held), Order(held)) == Sum(Quantity, held)
  {
    var ids := Order(held);
    OrderHolds(held);
    var cell := (h: Holding) => Is(h);
    var col := (id: string) => AmountOf(id);
    forall h | h in held ensures Quantity(h) == Sum(cell(h), ids) { OnlyItsOwn(h, ids); }
    SumSwap(cell, col, TotalOf(held), Quantity, held, ids);
  }

  lemma {:induction false} SharesSum(held: seq<Holding>, total: int)
    requires total != 0
    ensures Sum(QuantityOfShare, Mapped(ShareOf(total), Aggregated(held))) == Sum(Quantity, Aggregated(held))
  {
    SumMapped(QuantityOfShare, ShareOf(total), Quantity, Aggregated(held));
  }

  lemma {:induction false} AggregatedSums(held: seq<Holding>)
    requires forall h | h in held :: h.quantity.Some?
    ensures Sum(Quantity, Aggregated(held)) == Sum(Quantity, held)
  {
    forall id ensures Quantity(HoldingIn(held)(id)) == TotalOf(held)(id) { }
    SumMapped(Quantity, HoldingIn(held), TotalOf(held), Order(held));
    KeysAddUp(held);
  }

  /** Each key once, largest share first, and together exactly the total. */
  lemma {:induction false} SharesAddUp(slices: seq<Slice>)
    requires Concentrated(slices).Shares?
    ensures var shares := Concentrated(slices).shares;
      && Descends(shares) && multiset(Mapped(KeyOfShare, shares)) == multiset(Order(HoldingsOf(slices)))
      && Sum(QuantityOfShare, shares) == Concentrated(slices).total
  {
    var held, total := HoldingsOf(slices), Concentrated(slices).total;
    var unsorted := Mapped(ShareOf(total), Aggregated(held));
    forall h | h in held ensures h.quantity.Some? {
      var i :| 0 <= i < |held| && held[i] == h;
      assert slices[i] in slices;
    }
    SortDescends(unsorted);
    SortKeeps(unsorted);
    MappedPermuted(KeyOfShare, SortShares(unsorted), unsorted);
    assert Mapped(KeyOfShare, unsorted) == Order(held);
    SumPermuted(QuantityOfShare, SortShares(unsorted), unsorted);
    SharesSum(held, total);
    AggregatedSums(held);
  }

  function Scaled(h: Holding): int {
    Quantity(h) * BPS
  }

  function BpsOf(total: int): (f: Holding -> int)
    requires total != 0
    ensures forall h: Holding :: f(h) == Truncate(Quantity(h) * BPS, total)
  {
    (h: Holding) requires total != 0 => Truncate(Quantity(h) * BPS, total)
  }

  function SomeOf(h: Holding): int {
    if Scaled(h) > 0 then 1 else 0
  }

  lemma {:induction false} NearlyWhole(n: int, parts: int, some: int, total: int)
    requires total > 0 && 0 <= BPS * total - parts * total <= some * (total - 1) && 0 <= some <= n && n > 0
    ensures BPS - n < parts <= BPS
  {
    assert (BPS - parts) * total == BPS * total - parts * total;
    MulMono(parts - BPS, -1, total);
    MulMono(BPS + 1, parts, total);
    MulMono(some, n, total - 1);
    assert n * total == n * (total - 1) + n;
    MulMono(n, BPS - parts, total);
  }

  lemma {:induction false} SomeAtMostAll(held: seq<Holding>)
    ensures 0 <= Sum(SomeOf, held) <= |held|
  {
    if held != [] { SomeAtMostAll(held[1..]); }
  }

  /** With nothing negative the shares make up the whole, but for less than one basis point each. */
  lemma {:induction false} SharesNearlyWhole(slices: seq<Slice>)
    requires Concentrated(slices).Shares? && forall s | s in slices :: s.quantity.Some? && s.quantity.value >= 0
    ensures var shares := Concentrated(slices).shares;
      BPS - |shares| < Sum(BpsOfShare, shares) <= BPS
  {
    var held, total := HoldingsOf(slices), Concentrated(slices).total;
    var aggregated := Aggregated(held);
    var unsorted := Mapped(ShareOf(total), aggregated);
    HeldNonNegative(slices);
    SortKeeps(unsorted);
    SameSize(SortShares(unsorted), unsorted);
    SumPermuted(BpsOfShare, SortShares(unsorted), unsorted);
    SumMapped(BpsOfShare, ShareOf(total), BpsOf(total), aggregated);
    forall h | h in aggregated ensures Scaled(h) >= 0 && BpsOf(total)(h) == Scaled(h) / total {
      NonNegative(Quantity(h), BPS);
      TruncatesDown(Scaled(h), total);
    }
    Remainders(Scaled, BpsOf(total), SomeOf, total, aggregated);
    AggregatedSums(held);
    SumTimes(Quantity, Scaled, BPS, aggregated);
    SomeAtMostAll(aggregated);
    assert aggregated != [];
    NearlyWhole(|aggregated|, Sum(BpsOf(total), aggregated), Sum(SomeOf, aggregated), total);
  }

  lemma {:induction false} HeldNonNegative(slices: seq<Slice>)
    requires Concentrated(slices).Shares? && forall s | s in slices :: s.quantity.Some? && s.quantity.value >= 0
    ensures var held := HoldingsOf(slices);
      && Concentrated(slices).total > 0
      && (forall h | h in held :: h.quantity.Some?)
      && forall h | h in Aggregated(held) :: Quantity(h) >= 0
  {
    var held := HoldingsOf(slices);
    forall h | h in held ensures h.quantity.Some? && Quantity(h) >= 0 {
      var i :| 0 <= i < |held| && held[i] == h;
      assert slices[i] in slices;
    }
    SumNonNegative(Quantity, held);
    forall id ensures Sum(AmountOf(id), held) >= 0 {
      forall h | h in held ensures AmountOf(id)(h) >= 0 { assert Quantity(h) >= 0; }
      SumNonNegative(AmountOf(id), held);
    }
    forall h | h in Aggregated(held) ensures Quantity(h) >= 0 {
      var i :| 0 <= i < |Aggregated(held)| && Aggregated(held)[i] == h;
      assert h == HoldingIn(held)(Order(held)[i]);
    }
  }

  // ----- Each share -----

  /** What the slices of a key hold together. */
  ghost function KeyTotal(slices: seq<Slice>, key: string): int {
    if slices == [] then 0
    else (if slices[0].key == key then Quantity(HoldingOf(slices[0])) else 0) + KeyTotal(slices[1..], key)
  }

  ghost function AllTotal(slices: seq<Slice>): int {
    if slices == [] then 0 else Quantity(HoldingOf(slices[0])) + AllTotal(slices[1..])
  }

  lemma {:induction false} TotalsAre(slices: seq<Slice>, key: string)
    requires forall s | s in slices :: s.quantity.Some?
    ensures Sum(AmountOf(key), HoldingsOf(slices)) == KeyTotal(slices, key)
    ensures Sum(Quantity, HoldingsOf(slices)) == AllTotal(slices)
  {
    if slices != [] {
      TotalsAre(slices[1..], key);
      assert HoldingsOf(slices)[1..] == HoldingsOf(slices[1..]);
    }
  }

  lemma AtMostOne<T>(all: set<T>)
    ensures |all| > 1 <==> exists a, b :: a in all && b in all && a != b
  {
    if |all| > 1 {
      var a :| a in all;
      assert |all - {a}| == |all| - 1;
      var b :| b in all - {a};
    }
    if a, b :| a in all && b in all && a != b {
      assert |all - {a}| == |all| - 1 && b in all - {a};
    }
  }

  /** When shares are given, and otherwise why not: the first of these that applies. */
  lemma {:induction false} SpreadReads(slices: seq<Slice>)
    ensures var spread := Concentrated(slices);
      var known := forall s | s in slices :: s.quantity.Some?;
      var mixed := exists s, t :: s in slices && t in slices && s.assetId != t.assetId;
      && (spread == NoPositions <==> slices == [])
      && (spread == UnknownQuantities <==> slices != [] && !known)
      && (spread == MixedAssets <==> slices != [] && known && mixed)
      && (spread == NothingHeld <==> slices != [] && known && !mixed && AllTotal(slices) == 0)
      && (spread.Shares? ==> spread.total == AllTotal(slices))
  {
    var assets := set s | s in slices :: s.assetId;
    AtMostOne(assets);
    if s, t :| s in slices && t in slices && s.assetId != t.assetId {
      assert s.assetId in assets && t.assetId in assets;
    }
    if forall s | s in slices :: s.quantity.Some? { TotalsAre(slices, ""); }
  }

  lemma {:induction false} ShareFrom(held: seq<Holding>, total: int, share: Share)
    requires total != 0 && share in SharesOf(held, total)
    ensures share == ShareOf(total)(HoldingIn(held)(share.key))
  {
    var unsorted := Mapped(ShareOf(total), Aggregated(held));
    SortKeeps(unsorted);
    SameMembers(SortShares(unsorted), unsorted, share);
    var i :| 0 <= i < |unsorted| && unsorted[i] == share;
    assert Aggregated(held)[i] == HoldingIn(held)(Order(held)[i]);
  }

  lemma {:induction false} BpsAreDown(quantity: nat, total: int)
    requires total > 0
    ensures var bps := Truncate(quantity * BPS, total); bps * total <= quantity * 10_000 < (bps + 1) * total
  {
    TruncatesDown(quantity * BPS, total);
    FloorIff(quantity * BPS, total, quantity * BPS / total);
    FloorIff(quantity * BPS, total, quantity * BPS / total + 1);
  }

  /** Each share is its key's own: the key's quantity, in whole basis points of the total, rounded down. */
  lemma {:induction false} ShareIsItsKeys(slices: seq<Slice>, share: Share)
    requires Concentrated(slices).Shares? && share in Concentrated(slices).shares
    ensures share.quantity == KeyTotal(slices, share.key)
    ensures var total := Concentrated(slices).total;
      total > 0 && share.quantity >= 0 ==>
        share.shareBps * total <= share.quantity * 10_000 < (share.shareBps + 1) * total
  {
    WhenShares(slices);
    ShareOfKey(slices, Concentrated(slices).total, share);
  }

  lemma {:induction false} WhenShares(slices: seq<Slice>)
    requires Concentrated(slices).Shares?
    ensures forall s | s in slices :: s.quantity.Some?
    ensures var spread := Concentrated(slices);
      spread.total != 0 && spread.shares == SharesOf(HoldingsOf(slices), spread.total)
  {
  }

  lemma {:induction false} ShareOfKey(slices: seq<Slice>, total: int, share: Share)
    requires (forall s | s in slices :: s.quantity.Some?) && total != 0 && share in SharesOf(HoldingsOf(slices), total)
    ensures share.quantity == KeyTotal(slices, share.key)
    ensures total > 0 && share.quantity >= 0 ==>
      share.shareBps * total <= share.quantity * 10_000 < (share.shareBps + 1) * total
  {
    ShareFrom(HoldingsOf(slices), total, share);
    TotalsAre(slices, share.key);
    KnownHoldings(slices, share.key);
    if total > 0 && share.quantity >= 0 { BpsAreDown(share.quantity, total); }
  }

  lemma {:induction false} KnownHoldings(slices: seq<Slice>, key: string)
    requires forall s | s in slices :: s.quantity.Some?
    ensures !HasUnknown(HoldingsOf(slices), key)
  {
    var held := HoldingsOf(slices);
    forall i | 0 <= i < |held| ensures held[i] != Holding(key, None) { assert slices[i] in slices; }
  }

  /** The shares of so many basis points, in order. */
  ghost function Equals(shares: seq<Share>, bps: int): seq<Share> {
    if shares == [] then [] else (if shares[0].shareBps == bps then [shares[0]] else []) + Equals(shares[1..], bps)
  }

  lemma {:induction false} EqualsFirst(s: Share, shares: seq<Share>, bps: int)
    ensures Equals([s] + shares, bps) == (if s.shareBps == bps then [s] else []) + Equals(shares, bps)
  {
    assert ([s] + shares)[1..] == shares;
  }

  lemma {:induction false} InsertIsStable(s: Share, shares: seq<Share>, bps: int)
    ensures Equals(InsertShare(s, shares), bps) == (if s.shareBps == bps then [s] else []) + Equals(shares, bps)
  {
    if shares != [] && shares[0].shareBps > s.shareBps {
      InsertIsStable(s, shares[1..], bps);
      EqualsFirst(shares[0], InsertShare(s, shares[1..]), bps);
      if s.shareBps == bps {
        assert [] + Equals(shares[1..], bps) == Equals(shares[1..], bps);
      } else {
        assert [] + Equals(shares[1..], bps) == Equals(shares[1..], bps);
        assert [] + Equals(shares, bps) == Equals(shares, bps);
      }
    } else {
      EqualsFirst(s, shares, bps);
    }
  }

  /** Keys with equal shares stay in the order in which they first appear. */
  lemma {:induction false} TiesKeepOrder(shares: seq<Share>, bps: int)
    ensures Equals(SortShares(shares), bps) == Equals(shares, bps)
  {
    if shares != [] {
      TiesKeepOrder(shares[1..], bps);
      InsertIsStable(shares[0], SortShares(shares[1..]), bps);
    }
  }
}
