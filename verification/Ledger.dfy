/** What the accounting figures promise: categories against the total, coverage, and what counts. */
module Ledger {
  import opened Wrappers
  import opened Arith
  import opened Lists
  import opened Rounding
  import opened Decimal
  import opened Risk
  import opened Quorum
  import opened Holdings
  import opened Accounting

  /** A withheld total reads as zero. */
  function Read(total: Option<int>): int {
    match total case Some(usd) => usd case None => 0
  }

  /** What an asset adds to the total of some categories. */
  function WorthOf(entries: seq<Entry>, cats: set<Category>, prices: map<string, AssetValuation>): (f: string -> int)
    ensures forall id :: f(id) == Worth(prices)(Holding(id, QuantityOf(Held(entries, cats), id)))
  {
    id => Worth(prices)(Holding(id, QuantityOf(Held(entries, cats), id)))
  }

  lemma {:induction false} NoneValued(holdings: seq<Holding>, prices: map<string, AssetValuation>)
    requires FlatMapped(IdIfValued(prices, true), holdings) == []
    ensures Sum(Worth(prices), holdings) == 0
  {
    if holdings != [] { NoneValued(holdings[1..], prices); }
  }

  /** A reported total is the sum over assets, in order of first appearance. */
  lemma {:induction false} TotalIs(entries: seq<Entry>, cats: set<Category>, prices: map<string, AssetValuation>)
    ensures var held := Held(entries, cats);
      && Read(ReportOf(entries, cats, prices).totalUsd) == Sum(WorthOf(entries, cats, prices), Order(held))
      && Read(Gross(AggregateOf(entries, cats), ReportOf(entries, cats, prices)))
         == Sum(WorthOf(entries, cats, prices), Order(held))
  {
    var held := Held(entries, cats);
    SumMapped(Worth(prices), HoldingIn(held), WorthOf(entries, cats, prices), Order(held));
    if ReportOf(entries, cats, prices).valued == [] { NoneValued(Aggregated(held), prices); }
  }

  // ----- Parts of a whole -----

  lemma {:induction false} InHeld(entries: seq<Entry>, cats: set<Category>, h: Holding)
    ensures h in Held(entries, cats) <==>
      exists e | e in entries :: e.countsTowardTotal && e.category in cats && h == Holding(e.assetId, e.quantity)
  {
    InFlatMapped(HoldingOf(cats), entries, h);
  }

  lemma {:induction false} HeldWithin(entries: seq<Entry>, part: set<Category>, whole: set<Category>)
    requires part <= whole
    ensures forall h | h in Held(entries, part) :: h in Held(entries, whole)
  {
    forall h | h in Held(entries, part) ensures h in Held(entries, whole) {
      InHeld(entries, part, h);
      InHeld(entries, whole, h);
    }
  }

  /** Every counted quantity is known. */
  predicate Known(entries: seq<Entry>) {
    forall e | e in entries :: e.countsTowardTotal ==> e.quantity.Some?
  }

  /** No counted quantity is negative. */
  predicate NoneNegative(entries: seq<Entry>) {
    forall e | e in entries :: e.countsTowardTotal && e.quantity.Some? ==> e.quantity.value >= 0
  }

  predicate PricesNonNegative(prices: map<string, AssetValuation>) {
    forall id | id in prices :: prices[id].price.Some? ==> prices[id].price.value >= 0
  }

  /** Every quantity of the asset that some categories count is known. */
  predicate KnownIn(entries: seq<Entry>, cats: set<Category>, id: string) {
    !HasUnknown(Held(entries, cats), id)
  }

  lemma {:induction false} KnownEverywhere(entries: seq<Entry>, cats: set<Category>, id: string)
    requires Known(entries)
    ensures KnownIn(entries, cats, id)
  {
    InHeld(entries, cats, Holding(id, None));
  }

  lemma {:induction false} KnownInPart(entries: seq<Entry>, part: set<Category>, whole: set<Category>, id: string)
    requires part <= whole && KnownIn(entries, whole, id)
    ensures KnownIn(entries, part, id)
  {
    HeldWithin(entries, part, whole);
  }

  lemma {:induction false} AmountNonNegative(entries: seq<Entry>, cats: set<Category>, id: string)
    requires NoneNegative(entries)
    ensures Sum(AmountOf(id), Held(entries, cats)) >= 0
  {
    var held := Held(entries, cats);
    forall h | h in held ensures AmountOf(id)(h) >= 0 { InHeld(entries, cats, h); }
    SumNonNegative(AmountOf(id), held);
  }

  /** The quantity of an asset in each category. */
  function Across(entries: seq<Entry>, id: string): (f: Category -> int)
    ensures forall c :: f(c) == Sum(AmountOf(id), Held(entries, {c}))
  {
    c => Sum(AmountOf(id), Held(entries, {c}))
  }

  lemma {:induction false} FiveCategories(f: Category -> int)
    ensures Sum(f, ASSET_CATEGORIES) == f(Wallet) + f(Supplied) + f(Lp) + f(Collateral) + f(Locked)
  {
    var l := ASSET_CATEGORIES;
    assert l[1..] == [Supplied, Lp, Collateral, Locked] && l[1..][1..] == [Lp, Collateral, Locked];
    assert l[1..][1..][1..] == [Collateral, Locked] && l[1..][1..][1..][1..] == [Locked];
  }

  lemma {:induction false} HeldFirst(entries: seq<Entry>, cats: set<Category>, id: string)
    requires entries != []
    ensures Sum(AmountOf(id), Held(entries, cats))
         == Sum(AmountOf(id), HoldingOf(cats)(entries[0])) + Sum(AmountOf(id), Held(entries[1..], cats))
  {
    SumAppend(AmountOf(id), HoldingOf(cats)(entries[0]), Held(entries[1..], cats));
  }

  function FirstAcross(e: Entry, id: string): (f: Category -> int)
    ensures forall c :: f(c) == Sum(AmountOf(id), HoldingOf({c})(e))
  {
    c => Sum(AmountOf(id), HoldingOf({c})(e))
  }

  lemma {:induction false} OneEntrySplits(e: Entry, id: string)
    ensures Sum(AmountOf(id), HoldingOf(ASSETS)(e)) == Sum(FirstAcross(e, id), ASSET_CATEGORIES)
  {
    FiveCategories(FirstAcross(e, id));
    if e.countsTowardTotal {
      SumOne(AmountOf(id), Holding(e.assetId, e.quantity));
    }
  }

  /** What is held of an asset in all is what its categories hold together. */
  lemma {:induction false} QuantitySplits(entries: seq<Entry>, id: string)
    ensures Sum(AmountOf(id), Held(entries, ASSETS)) == Sum(Across(entries, id), ASSET_CATEGORIES)
  {
    if entries == [] {
      FiveCategories(Across(entries, id));
    } else {
      QuantitySplits(entries[1..], id);
      HeldFirst(entries, ASSETS, id);
      OneEntrySplits(entries[0], id);
      forall c ensures Across(entries, id)(c) == FirstAcross(entries[0], id)(c) + Across(entries[1..], id)(c) {
        HeldFirst(entries, {c}, id);
      }
      SumAdd(FirstAcross(entries[0], id), Across(entries[1..], id), Across(entries, id), ASSET_CATEGORIES);
    }
  }

  // ----- Categories against the total -----

  predicate HasPrice(prices: map<string, AssetValuation>, id: string) {
    && id in prices && prices[id].status == Verified && !prices[id].disagreement && prices[id].price.Some?
  }

  function Unit(id: string): int {
    Pow10(DefaultDecimals(id))
  }

  /** The amount in each category times the price. */
  function PricedAcross(entries: seq<Entry>, id: string, price: int): (f: Category -> int)
    ensures forall c :: f(c) == Across(entries, id)(c) * price
  {
    c => Across(entries, id)(c) * price
  }

  /** What an asset adds to each category's total. */
  function WorthAcross(entries: seq<Entry>, id: string, prices: map<string, AssetValuation>): (f: Category -> int)
    ensures forall c :: f(c) == WorthOf(entries, {c}, prices)(id)
  {
    c => WorthOf(entries, {c}, prices)(id)
  }

  function SomeAcross(entries: seq<Entry>, id: string, price: int): (f: Category -> int)
    ensures forall c :: f(c) == if PricedAcross(entries, id, price)(c) > 0 then 1 else 0
  {
    c => if PricedAcross(entries, id, price)(c) > 0 then 1 else 0
  }

  function HeldAcross(entries: seq<Entry>, id: string): (f: Category -> int)
    ensures forall c :: f(c) == if HasAsset(Held(entries, {c}), id) then 1 else 0
  {
    c => if HasAsset(Held(entries, {c}), id) then 1 else 0
  }

  /** How many asset categories hold the asset. */
  function Holders(entries: seq<Entry>, id: string): int {
    Sum(HeldAcross(entries, id), ASSET_CATEGORIES)
  }

  lemma {:induction false} UsableIff(prices: map<string, AssetValuation>, h: Holding)
    requires h.quantity.Some?
    ensures Value(prices, h).Valued? <==> HasPrice(prices, h.assetId)
  {
  }

  lemma {:induction false} WorthIs(entries: seq<Entry>, cats: set<Category>, prices: map<string, AssetValuation>,
                                   id: string)
    requires NoneNegative(entries) && PricesNonNegative(prices)
    ensures WorthOf(entries, cats, prices)(id)
         == if HasPrice(prices, id) && KnownIn(entries, cats, id)
            then Sum(AmountOf(id), Held(entries, cats)) * prices[id].price.value / Unit(id) else 0
    ensures WorthOf(entries, cats, prices)(id) >= 0
  {
    var held := Holding(id, QuantityOf(Held(entries, cats), id));
    if KnownIn(entries, cats, id) {
      AmountNonNegative(entries, cats, id);
      UsableIff(prices, held);
      if HasPrice(prices, id) {
        var amount, price := Sum(AmountOf(id), Held(entries, cats)), prices[id].price.value;
        NonNegative(amount, price);
        TruncatesDown(amount * price, Unit(id));
      }
    }
  }

  lemma {:induction false} NotHeldIsNothing(entries: seq<Entry>, cats: set<Category>, id: string)
    requires !HasAsset(Held(entries, cats), id)
    ensures Sum(AmountOf(id), Held(entries, cats)) == 0
  {
    NoneOfIt(Held(entries, cats), id);
  }

  lemma {:induction false} SomeAtMostHolders(entries: seq<Entry>, id: string, price: int)
    requires price >= 0
    ensures Sum(SomeAcross(entries, id, price), ASSET_CATEGORIES) <= Holders(entries, id)
  {
    forall c | c in ASSET_CATEGORIES ensures SomeAcross(entries, id, price)(c) <= HeldAcross(entries, id)(c) {
      if !HasAsset(Held(entries, {c}), id) {
        NotHeldIsNothing(entries, {c}, id);
        assert 0 * price == 0;
      }
    }
    SumAtMost(SomeAcross(entries, id, price), HeldAcross(entries, id), ASSET_CATEGORIES);
  }

  lemma {:induction false} AssetCategory(c: Category)
    requires c in ASSETS
    ensures c in ASSET_CATEGORIES
  {
    match c {
      case Wallet => assert ASSET_CATEGORIES[0] == c;
      case Supplied => assert ASSET_CATEGORIES[1] == c;
      case Lp => assert ASSET_CATEGORIES[2] == c;
      case Collateral => assert ASSET_CATEGORIES[3] == c;
      case Locked => assert ASSET_CATEGORIES[4] == c;
    }
  }

  lemma {:induction false} HeldInCategory(entries: seq<Entry>, id: string) returns (c: Category)
    requires HasAsset(Held(entries, ASSETS), id)
    ensures c in ASSETS && HasAsset(Held(entries, {c}), id)
  {
    var h :| h in Held(entries, ASSETS) && h.assetId == id;
    InHeld(entries, ASSETS, h);
    var e :| e in entries && e.countsTowardTotal && e.category in ASSETS && h == Holding(e.assetId, e.quantity);
    c := e.category;
    InHeld(entries, {c}, h);
  }

  lemma {:induction false} HeldSomewhere(entries: seq<Entry>, id: string)
    requires HasAsset(Held(entries, ASSETS), id)
    ensures Holders(entries, id) >= 1
  {
    var c := HeldInCategory(entries, id);
    AssetCategory(c);
    SumAtLeast(HeldAcross(entries, id), ASSET_CATEGORIES, c);
  }

  /**
   * One asset with known quantities: its categories' values sum to at most its whole value, short by less than
   * one for each holder but the first.
   */
  lemma {:induction false} AssetSplits(entries: seq<Entry>, id: string, prices: map<string, AssetValuation>)
    requires NoneNegative(entries) && PricesNonNegative(prices)
    requires HasAsset(Held(entries, ASSETS), id) && KnownIn(entries, ASSETS, id)
    ensures var parts := Sum(WorthAcross(entries, id, prices), ASSET_CATEGORIES);
      parts <= WorthOf(entries, ASSETS, prices)(id)
            <= parts + if HasPrice(prices, id) then Holders(entries, id) - 1 else 0
  {
    WorthIs(entries, ASSETS, prices, id);
    forall c | c in ASSET_CATEGORIES ensures WorthAcross(entries, id, prices)(c)
      == if HasPrice(prices, id) then Across(entries, id)(c) * prices[id].price.value / Unit(id) else 0
    {
      KnownInPart(entries, {c}, ASSETS, id);
      WorthIs(entries, {c}, prices, id);
    }
    if HasPrice(prices, id) {
      PricedSplits(entries, id, prices);
    } else {
      SumNonNegative(WorthAcross(entries, id, prices), ASSET_CATEGORIES);
    }
  }

  lemma {:induction false} PricedSplits(entries: seq<Entry>, id: string, prices: map<string, AssetValuation>)
    requires NoneNegative(entries) && PricesNonNegative(prices) && HasPrice(prices, id)
    requires HasAsset(Held(entries, ASSETS), id)
    requires forall c | c in ASSET_CATEGORIES ::
               WorthAcross(entries, id, prices)(c) == Across(entries, id)(c) * prices[id].price.value / Unit(id)
    ensures var parts := Sum(WorthAcross(entries, id, prices), ASSET_CATEGORIES);
      parts <= Sum(AmountOf(id), Held(entries, ASSETS)) * prices[id].price.value / Unit(id)
            <= parts + Holders(entries, id) - 1
  {
    var price := prices[id].price.value;
    var x, some := PricedAcross(entries, id, price), SomeAcross(entries, id, price);
    forall c | c in ASSET_CATEGORIES ensures x(c) >= 0 {
      AmountNonNegative(entries, {c}, id);
      NonNegative(Across(entries, id)(c), price);
    }
    PartsRoundDown(x, WorthAcross(entries, id, prices), some, Unit(id), ASSET_CATEGORIES);
    QuantitySplits(entries, id);
    SumTimes(Across(entries, id), x, price, ASSET_CATEGORIES);
    SomeAtMostHolders(entries, id, price);
    HeldSomewhere(entries, id);
  }

  /**
   * The categories of an asset stay within its part of the gross total exactly when its quantities are all
   * known, or its categories show nothing of it.
   */
  lemma {:induction false} AssetWithinIff(entries: seq<Entry>, id: string, prices: map<string, AssetValuation>)
    requires NoneNegative(entries) && PricesNonNegative(prices) && HasAsset(Held(entries, ASSETS), id)
    ensures var parts := Sum(WorthAcross(entries, id, prices), ASSET_CATEGORIES);
      parts <= WorthOf(entries, ASSETS, prices)(id) <==> KnownIn(entries, ASSETS, id) || parts == 0
  {
    forall c | c in ASSET_CATEGORIES ensures WorthAcross(entries, id, prices)(c) >= 0 {
      WorthIs(entries, {c}, prices, id);
    }
    SumNonNegative(WorthAcross(entries, id, prices), ASSET_CATEGORIES);
    WorthIs(entries, ASSETS, prices, id);
    if KnownIn(entries, ASSETS, id) { AssetSplits(entries, id, prices); }
  }

  // ----- All assets -----

  /** Each category's total, for the assets listed. */
  function PartOver(entries: seq<Entry>, prices: map<string, AssetValuation>, ids: seq<string>): (f: Category -> int)
    ensures forall c :: f(c) == Sum(WorthOf(entries, {c}, prices), ids)
  {
    c => Sum(WorthOf(entries, {c}, prices), ids)
  }

  function PartsOf(entries: seq<Entry>, prices: map<string, AssetValuation>): (f: string -> int)
    ensures forall id :: f(id) == Sum(WorthAcross(entries, id, prices), ASSET_CATEGORIES)
  {
    id => Sum(WorthAcross(entries, id, prices), ASSET_CATEGORIES)
  }

  /** Summing by category and by asset is the same. */
  lemma {:induction false} Exchange(entries: seq<Entry>, prices: map<string, AssetValuation>, ids: seq<string>)
    ensures Sum(PartOver(entries, prices, ids), ASSET_CATEGORIES) == Sum(PartsOf(entries, prices), ids)
  {
    var cell := (id: string) => WorthAcross(entries, id, prices);
    var col := (c: Category) => WorthOf(entries, {c}, prices);
    SumSwap(cell, col, PartOver(entries, prices, ids), PartsOf(entries, prices), ids, ASSET_CATEGORIES);
  }

  function CategoryTotal(entries: seq<Entry>, prices: map<string, AssetValuation>): (f: Category -> int)
    ensures forall c :: f(c) == Read(CategoryOf(entries, c, prices).totalUsd)
  {
    c => Read(CategoryOf(entries, c, prices).totalUsd)
  }

  /** A category's total may as well be summed over all assets: those it does not hold add nothing. */
  lemma {:induction false} TotalOverAll(entries: seq<Entry>, c: Category, prices: map<string, AssetValuation>)
    requires NoneNegative(entries) && PricesNonNegative(prices) && c in ASSETS
    ensures Read(CategoryOf(entries, c, prices).totalUsd)
            == Sum(WorthOf(entries, {c}, prices), Order(Held(entries, ASSETS)))
  {
    var part, whole := Order(Held(entries, {c})), Order(Held(entries, ASSETS));
    TotalIs(entries, {c}, prices);
    OrderHolds(Held(entries, {c}));
    OrderHolds(Held(entries, ASSETS));
    HeldWithin(entries, {c}, ASSETS);
    forall id | id in whole && id !in part ensures WorthOf(entries, {c}, prices)(id) == 0 {
      WorthIs(entries, {c}, prices, id);
      NotHeldIsNothing(entries, {c}, id);
      if HasPrice(prices, id) && KnownIn(entries, {c}, id) { NothingPriced(prices[id].price.value, Unit(id)); }
    }
    SumOverMore(WorthOf(entries, {c}, prices), part, whole);
  }

  lemma {:induction false} NothingPriced(price: int, unit: int)
    requires unit > 0
    ensures 0 * price / unit == 0
  {
  }

  /** What rounding each category down can lose on an asset. */
  function Excess(entries: seq<Entry>, prices: map<string, AssetValuation>): (f: string -> int)
    ensures forall id ::
      f(id) == if HasPrice(prices, id) && KnownIn(entries, ASSETS, id) then Holders(entries, id) - 1 else 0
  {
    id => if HasPrice(prices, id) && KnownIn(entries, ASSETS, id) then Holders(entries, id) - 1 else 0
  }

  /** What the categories show of an asset that the gross total leaves out, because one of its quantities is unknown. */
  function Hidden(entries: seq<Entry>, prices: map<string, AssetValuation>): (f: string -> int)
    ensures forall id :: f(id) == if KnownIn(entries, ASSETS, id) then 0 else PartsOf(entries, prices)(id)
  {
    id => if KnownIn(entries, ASSETS, id) then 0 else PartsOf(entries, prices)(id)
  }

  /**
   * For every ledger the asset categories sum to at most the gross total and what it hides, and fall short of
   * that by at most one unit for every category beyond the first that holds a valued asset.
   */
  lemma {:induction false} CategoriesAgainstGross(entries: seq<Entry>, prices: map<string, AssetValuation>)
    requires NoneNegative(entries) && PricesNonNegative(prices)
    ensures var categories := Sum(CategoryTotal(entries, prices), ASSET_CATEGORIES);
      var ids := Order(Held(entries, ASSETS));
      var gross := Read(Summarized(entries, prices).grossAssetsUsd);
      categories <= gross + Sum(Hidden(entries, prices), ids) <= categories + Sum(Excess(entries, prices), ids)
  {
    var ids := Order(Held(entries, ASSETS));
    var whole, hidden := WorthOf(entries, ASSETS, prices), Hidden(entries, prices);
    var parts, excess := PartsOf(entries, prices), Excess(entries, prices);
    TotalIs(entries, ASSETS, prices);
    forall c | c in ASSET_CATEGORIES ensures CategoryTotal(entries, prices)(c) == PartOver(entries, prices, ids)(c) {
      TotalOverAll(entries, c, prices);
    }
    SumSame(CategoryTotal(entries, prices), PartOver(entries, prices, ids), ASSET_CATEGORIES);
    Exchange(entries, prices, ids);
    AssetsAgainstGross(entries, prices, ids);
    var shown := (id: string) => whole(id) + hidden(id);
    var most := (id: string) => parts(id) + excess(id);
    forall id | id in ids ensures parts(id) <= shown(id) <= most(id) { assert whole(id) + hidden(id) == shown(id); }
    SumAtMost(parts, shown, ids);
    SumAtMost(shown, most, ids);
    SumAdd(whole, hidden, shown, ids);
    SumAdd(parts, excess, most, ids);
  }

  lemma {:induction false} AssetsAgainstGross(entries: seq<Entry>, prices: map<string, AssetValuation>,
                                              ids: seq<string>)
    requires NoneNegative(entries) && PricesNonNegative(prices) && ids == Order(Held(entries, ASSETS))
    ensures forall id | id in ids ::
      && PartsOf(entries, prices)(id) <= WorthOf(entries, ASSETS, prices)(id) + Hidden(entries, prices)(id)
      && WorthOf(entries, ASSETS, prices)(id) + Hidden(entries, prices)(id)
         <= PartsOf(entries, prices)(id) + Excess(entries, prices)(id)
  {
    OrderHolds(Held(entries, ASSETS));
    forall id | id in ids
      ensures PartsOf(entries, prices)(id) <= WorthOf(entries, ASSETS, prices)(id) + Hidden(entries, prices)(id)
           <= PartsOf(entries, prices)(id) + Excess(entries, prices)(id)
    {
      WorthIs(entries, ASSETS, prices, id);
      if KnownIn(entries, ASSETS, id) { AssetSplits(entries, id, prices); }
    }
  }

  /** With all counted quantities known nothing is hidden, and the categories stay within the gross total. */
  lemma {:induction false} CategoriesWithinGross(entries: seq<Entry>, prices: map<string, AssetValuation>)
    requires Known(entries) && NoneNegative(entries) && PricesNonNegative(prices)
    ensures var categories := Sum(CategoryTotal(entries, prices), ASSET_CATEGORIES);
      var gross := Read(Summarized(entries, prices).grossAssetsUsd);
      categories <= gross <= categories + Sum(Excess(entries, prices), Order(Held(entries, ASSETS)))
  {
    CategoriesAgainstGross(entries, prices);
    var ids := Order(Held(entries, ASSETS));
    forall id | id in ids ensures Hidden(entries, prices)(id) == 0 { KnownEverywhere(entries, ASSETS, id); }
    SumNonNegative(Hidden(entries, prices), ids);
  }

  // ----- Coverage -----

  lemma {:induction false} InAggregated(list: seq<Holding>, h: Holding)
    ensures h in Aggregated(list) <==> HasAsset(list, h.assetId) && h.quantity == QuantityOf(list, h.assetId)
  {
    OrderHolds(list);
    var order := Order(list);
    if h in Aggregated(list) {
      var i :| 0 <= i < |Aggregated(list)| && Aggregated(list)[i] == h;
      assert order[i] in order;
    }
    if h.assetId in order {
      var i :| 0 <= i < |order| && order[i] == h.assetId;
      assert Aggregated(list)[i] in Aggregated(list);
    }
  }

  lemma {:induction false} AggregatedAssets(list: seq<Holding>, id: string)
    ensures id in IdsOf(Aggregated(list)) <==> HasAsset(list, id)
  {
    InAggregated(list, Holding(id, QuantityOf(list, id)));
    if id in IdsOf(Aggregated(list)) {
      var h :| h in Aggregated(list) && h.assetId == id;
      InAggregated(list, h);
    }
  }

  lemma {:induction false} ValuedAssets(list: seq<Holding>, prices: map<string, AssetValuation>, id: string)
    ensures id in Members(Reported(Aggregated(list), prices).valued)
       <==> HasAsset(list, id) && QuantityOf(list, id).Some? && HasPrice(prices, id)
  {
    var one := Holding(id, QuantityOf(list, id));
    InAggregated(list, one);
    InFlatMapped(IdIfValued(prices, true), Aggregated(list), id);
    if one.quantity.Some? { UsableIff(prices, one); }
    forall h | h in Aggregated(list) && id in IdIfValued(prices, true)(h) ensures h == one { InAggregated(list, h); }
  }

  predicate Counts(entries: seq<Entry>, id: string) {
    exists e | e in entries :: e.countsTowardTotal && e.assetId == id
  }

  lemma {:induction false} HeldEither(entries: seq<Entry>, id: string)
    ensures Counts(entries, id) <==> HasAsset(Held(entries, ASSETS), id) || HasAsset(Held(entries, {Debt}), id)
  {
    if Counts(entries, id) {
      var e :| e in entries && e.countsTowardTotal && e.assetId == id;
      var h := Holding(e.assetId, e.quantity);
      InHeld(entries, if e.category.Debt? then {Debt} else ASSETS, h);
    }
    if HasAsset(Held(entries, ASSETS), id) {
      var h :| h in Held(entries, ASSETS) && h.assetId == id;
      InHeld(entries, ASSETS, h);
    }
    if HasAsset(Held(entries, {Debt}), id) {
      var h :| h in Held(entries, {Debt}) && h.assetId == id;
      InHeld(entries, {Debt}, h);
    }
  }

  lemma {:induction false} QuantityKnown(entries: seq<Entry>, cats: set<Category>, id: string)
    requires !AnyUnknown(entries)
    ensures QuantityOf(Held(entries, cats), id).Some?
  {
    InHeld(entries, cats, Holding(id, None));
  }

  /** Something is counted, and all that is counted has a known quantity and a usable, undisputed price. */
  predicate Covered(entries: seq<Entry>, prices: map<string, AssetValuation>) {
    && (exists e | e in entries :: e.countsTowardTotal)
    && forall e | e in entries && e.countsTowardTotal :: e.quantity.Some? && HasPrice(prices, e.assetId)
  }

  function AllIds(entries: seq<Entry>): set<string> {
    IdsOf(AggregateOf(entries, ASSETS)) + IdsOf(AggregateOf(entries, {Debt}))
  }

  function ValuedIds(entries: seq<Entry>, prices: map<string, AssetValuation>): set<string> {
    Members(ReportOf(entries, ASSETS, prices).valued) + Members(ReportOf(entries, {Debt}, prices).valued)
  }

  lemma {:induction false} IdsAre(entries: seq<Entry>, prices: map<string, AssetValuation>)
    ensures forall id :: id in AllIds(entries) <==> Counts(entries, id)
    ensures ValuedIds(entries, prices) <= AllIds(entries)
    ensures forall id | id in ValuedIds(entries, prices) :: HasPrice(prices, id)
    ensures !AnyUnknown(entries) ==>
            forall id | id in AllIds(entries) && HasPrice(prices, id) :: id in ValuedIds(entries, prices)
  {
    forall id ensures id in AllIds(entries) <==> Counts(entries, id) {
      AggregatedAssets(Held(entries, ASSETS), id);
      AggregatedAssets(Held(entries, {Debt}), id);
      HeldEither(entries, id);
    }
    forall id | id in ValuedIds(entries, prices) ensures HasPrice(prices, id) && id in AllIds(entries) {
      ValuedAssets(Held(entries, ASSETS), prices, id);
      ValuedAssets(Held(entries, {Debt}), prices, id);
      HeldEither(entries, id);
    }
    if !AnyUnknown(entries) {
      forall id | id in AllIds(entries) && HasPrice(prices, id) ensures id in ValuedIds(entries, prices) {
        HeldEither(entries, id);
        QuantityKnown(entries, ASSETS, id);
        QuantityKnown(entries, {Debt}, id);
        ValuedAssets(Held(entries, ASSETS), prices, id);
        ValuedAssets(Held(entries, {Debt}), prices, id);
      }
    }
  }

  /** With everything priced, each gross figure is known. */
  lemma {:induction false} GrossKnown(entries: seq<Entry>, cats: set<Category>, prices: map<string, AssetValuation>)
    requires Covered(entries, prices)
    ensures Gross(AggregateOf(entries, cats), ReportOf(entries, cats, prices)).Some?
  {
    var held := Held(entries, cats);
    if held != [] {
      var id := held[0].assetId;
      InHeld(entries, cats, held[0]);
      assert HasAsset(held, id);
      QuantityKnown(entries, cats, id);
      ValuedAssets(held, prices, id);
    }
  }

  lemma {:induction false} CompleteIs(entries: seq<Entry>, prices: map<string, AssetValuation>)
    ensures Summarized(entries, prices).isComplete <==>
      && AllIds(entries) != {} && ValuedIds(entries, prices) == AllIds(entries) && !AnyUnknown(entries)
      && Gross(AggregateOf(entries, ASSETS), ReportOf(entries, ASSETS, prices)).Some?
      && Gross(AggregateOf(entries, {Debt}), ReportOf(entries, {Debt}, prices)).Some?
  {
    IdsAre(entries, prices);
    if |ValuedIds(entries, prices)| == |AllIds(entries)| {
      SubsetOfSameSize(ValuedIds(entries, prices), AllIds(entries));
    }
  }

  lemma {:induction false} ValuedCovers(entries: seq<Entry>, prices: map<string, AssetValuation>)
    requires AllIds(entries) != {} && ValuedIds(entries, prices) == AllIds(entries) && !AnyUnknown(entries)
    ensures Covered(entries, prices)
  {
    IdsAre(entries, prices);
    var id :| id in AllIds(entries);
    assert Counts(entries, id);
    forall e | e in entries && e.countsTowardTotal ensures e.quantity.Some? && HasPrice(prices, e.assetId) {
      assert Counts(entries, e.assetId);
    }
  }

  lemma {:induction false} CoveredValues(entries: seq<Entry>, prices: map<string, AssetValuation>)
    requires Covered(entries, prices)
    ensures AllIds(entries) != {} && ValuedIds(entries, prices) == AllIds(entries)
  {
    IdsAre(entries, prices);
    CoveredSets(entries, prices, AllIds(entries), ValuedIds(entries, prices));
  }

  lemma {:induction false} CoveredSets(entries: seq<Entry>, prices: map<string, AssetValuation>, all: set<string>,
                                       valued: set<string>)
    requires Covered(entries, prices) && valued <= all
    requires forall id :: id in all <==> Counts(entries, id)
    requires !AnyUnknown(entries) ==> forall id | id in all && HasPrice(prices, id) :: id in valued
    ensures all != {} && valued == all
  {
    var e :| e in entries && e.countsTowardTotal;
    assert e.assetId in all by { assert Counts(entries, e.assetId); }
    forall id | id in all ensures HasPrice(prices, id) {
      assert Counts(entries, id);
    }
    assert all <= valued;
  }

  /** Coverage is complete exactly when the ledger is covered. */
  lemma {:induction false} CompleteIff(entries: seq<Entry>, prices: map<string, AssetValuation>)
    ensures Summarized(entries, prices).isComplete <==> Covered(entries, prices)
  {
    CompleteIs(entries, prices);
    if Summarized(entries, prices).isComplete { ValuedCovers(entries, prices); }
    if Covered(entries, prices) {
      CoveredValues(entries, prices);
      GrossKnown(entries, ASSETS, prices);
      GrossKnown(entries, {Debt}, prices);
    }
  }

  // ----- What counts -----

  lemma {:induction false} UnknownSkipped(entries: seq<Entry>, k: nat)
    requires k < |entries| && !entries[k].countsTowardTotal
    ensures AnyUnknown(Without(entries, k)) <==> AnyUnknown(entries)
  {
    var rest := Without(entries, k);
    WithoutMultiset(entries, k);
    forall e: Entry | e.countsTowardTotal ensures e in rest <==> e in entries {
      assert e in entries <==> e in multiset(entries);
      assert e in rest <==> e in multiset(rest);
    }
  }

  lemma {:induction false} SameReport(a: seq<Entry>, b: seq<Entry>, cats: set<Category>,
                                      prices: map<string, AssetValuation>)
    requires Held(a, cats) == Held(b, cats)
    ensures AggregateOf(a, cats) == AggregateOf(b, cats) && ReportOf(a, cats, prices) == ReportOf(b, cats, prices)
  {
  }

  lemma {:induction false} SameCategories(a: seq<Entry>, b: seq<Entry>, prices: map<string, AssetValuation>)
    requires forall c: Category :: Held(a, {c}) == Held(b, {c})
    ensures Categorized(a, prices) == Categorized(b, prices)
  {
    forall c: Category ensures CategoryOf(a, c, prices) == CategoryOf(b, c, prices) { SameReport(a, b, {c}, prices); }
  }

  /** An entry that does not count changes no figure, wherever it stands. */
  lemma {:induction false} UncountedSkipped(entries: seq<Entry>, k: nat, prices: map<string, AssetValuation>)
    requires k < |entries| && !entries[k].countsTowardTotal
    ensures Summarized(Without(entries, k), prices) == Summarized(entries, prices)
  {
    forall cats ensures Held(Without(entries, k), cats) == Held(entries, cats) {
      FlatMappedSkip(HoldingOf(cats), entries, k);
    }
    UnknownSkipped(entries, k);
    SameReport(Without(entries, k), entries, ASSETS, prices);
    SameReport(Without(entries, k), entries, {Debt}, prices);
    SameCategories(Without(entries, k), entries, prices);
  }

  lemma {:induction false} HeldWithout(entries: seq<Entry>, k: nat, cats: set<Category>)
    requires k < |entries|
    ensures multiset(Held(entries, cats))
         == multiset(Held(Without(entries, k), cats)) + multiset(HoldingOf(cats)(entries[k]))
    ensures |Held(entries, cats)| == |Held(Without(entries, k), cats)| + |HoldingOf(cats)(entries[k])|
  {
    FlatMappedWithout(HoldingOf(cats), entries, k);
    var rest, one := Held(Without(entries, k), cats), HoldingOf(cats)(entries[k]);
    assert multiset(rest + one) == multiset(Held(entries, cats));
    SameSize(rest + one, Held(entries, cats));
  }

  /** Taking an entry out leaves every figure as it was exactly when it is not marked as counting, receipt or not. */
  lemma {:induction false} SkippedIff(entries: seq<Entry>, k: nat, prices: map<string, AssetValuation>)
    requires k < |entries|
    ensures Summarized(Without(entries, k), prices) == Summarized(entries, prices) <==> !entries[k].countsTowardTotal
  {
    if entries[k].countsTowardTotal {
      var c := entries[k].category;
      HeldWithout(entries, k, {c});
      assert Summarized(entries, prices).byCategory[c].count == |Held(entries, {c})|;
      assert Summarized(Without(entries, k), prices).byCategory[c].count == |Held(Without(entries, k), {c})|;
    } else {
      UncountedSkipped(entries, k, prices);
    }
  }

  /** What an entry is worth on its own. */
  function OwnWorth(e: Entry, prices: map<string, AssetValuation>): int {
    Worth(prices)(Holding(e.assetId, e.quantity))
  }

  lemma {:induction false} AmountWithout(entries: seq<Entry>, k: nat, cats: set<Category>, id: string)
    requires k < |entries|
    ensures Sum(AmountOf(id), Held(entries, cats))
         == Sum(AmountOf(id), Held(Without(entries, k), cats)) + Sum(AmountOf(id), HoldingOf(cats)(entries[k]))
  {
    HeldWithout(entries, k, cats);
    var rest, one := Held(Without(entries, k), cats), HoldingOf(cats)(entries[k]);
    assert multiset(rest + one) == multiset(Held(entries, cats));
    SumPermuted(AmountOf(id), Held(entries, cats), rest + one);
    SumAppend(AmountOf(id), rest, one);
  }

  lemma {:induction false} StillKnown(entries: seq<Entry>, k: nat)
    requires k < |entries| && Known(entries) && NoneNegative(entries)
    ensures Known(Without(entries, k)) && NoneNegative(Without(entries, k))
  {
    var rest := Without(entries, k);
    forall e | e in rest ensures e in entries {
      var i :| 0 <= i < |rest| && rest[i] == e;
      assert e == entries[if i < k then i else i + 1];
    }
  }

  lemma {:induction false} WorthRises(amount: int, more: int, price: int, unit: int)
    requires amount >= 0 && more >= 0 && price >= 0 && unit > 0
    ensures more * price / unit <= (amount + more) * price / unit - amount * price / unit <= more * price / unit + 1
  {
    assert (amount + more) * price == amount * price + more * price;
    QuotientsAdd(amount * price, more * price, unit);
  }

  lemma {:induction false} QuotientsAdd(x: int, y: int, unit: int)
    requires unit > 0
    ensures x / unit + y / unit <= (x + y) / unit <= x / unit + y / unit + 1
  {
    var q, r := x / unit, x % unit;
    var p, t := y / unit, y % unit;
    assert x + y == (q + p) * unit + (r + t);
    if r + t < unit {
      DivUnique(x + y, unit, q + p);
    } else {
      assert x + y == (q + p + 1) * unit + (r + t - unit);
      DivUnique(x + y, unit, q + p + 1);
    }
  }

  /** A gross figure without entry k, summed over all assets of the ledger. */
  lemma {:induction false} TotalWithout(entries: seq<Entry>, k: nat, cats: set<Category>,
                                        prices: map<string, AssetValuation>)
    requires k < |entries| && Known(entries) && NoneNegative(entries) && PricesNonNegative(prices)
    ensures Read(Gross(AggregateOf(Without(entries, k), cats), ReportOf(Without(entries, k), cats, prices)))
         == Sum(WorthOf(Without(entries, k), cats, prices), Order(Held(entries, cats)))
  {
    var rest := Without(entries, k);
    StillKnown(entries, k);
    TotalIs(rest, cats, prices);
    OrderHolds(Held(rest, cats));
    OrderHolds(Held(entries, cats));
    HeldWithout(entries, k, cats);
    forall id | id in Order(Held(rest, cats)) ensures id in Order(Held(entries, cats)) {
      var h :| h in Held(rest, cats) && h.assetId == id;
      assert h in multiset(Held(rest, cats)) && h in multiset(Held(entries, cats));
    }
    forall id | id !in Order(Held(rest, cats)) ensures WorthOf(rest, cats, prices)(id) == 0 {
      WorthIs(rest, cats, prices, id);
      NotHeldIsNothing(rest, cats, id);
      if HasPrice(prices, id) { NothingPriced(prices[id].price.value, Unit(id)); }
    }
    SumOverMore(WorthOf(rest, cats, prices), Order(Held(rest, cats)), Order(Held(entries, cats)));
  }

  /** What each asset loses when entry k is taken out: nothing but the asset of the entry, which loses its worth. */
  lemma {:induction false} WorthLost(entries: seq<Entry>, k: nat, cats: set<Category>,
                                     prices: map<string, AssetValuation>, id: string)
    requires k < |entries| && Known(entries) && NoneNegative(entries) && PricesNonNegative(prices)
    requires entries[k].countsTowardTotal && entries[k].category in cats
    ensures var lost := WorthOf(entries, cats, prices)(id) - WorthOf(Without(entries, k), cats, prices)(id);
      if id == entries[k].assetId then OwnWorth(entries[k], prices) <= lost <= OwnWorth(entries[k], prices) + 1
      else lost == 0
  {
    var e, rest := entries[k], Without(entries, k);
    StillKnown(entries, k);
    KnownEverywhere(entries, cats, id);
    KnownEverywhere(rest, cats, id);
    WorthIs(entries, cats, prices, id);
    WorthIs(rest, cats, prices, id);
    AmountWithout(entries, k, cats, id);
    SumOne(AmountOf(id), Holding(e.assetId, e.quantity));
    if id == e.assetId {
      assert e in entries;
      UsableIff(prices, Holding(id, e.quantity));
      AmountNonNegative(rest, cats, id);
      if HasPrice(prices, id) {
        var price := prices[id].price.value;
        NonNegative(e.quantity.value, price);
        TruncatesDown(e.quantity.value * price, Unit(id));
        WorthRises(Sum(AmountOf(id), Held(rest, cats)), e.quantity.value, price, Unit(id));
      }
    }
  }

  lemma {:induction false} SumDiffersAt(f: string -> int, g: string -> int, ids: seq<string>, id: string)
    requires Distinct(ids) && id in ids && forall x | x in ids && x != id :: f(x) == g(x)
    ensures Sum(f, ids) - Sum(g, ids) == f(id) - g(id)
  {
    var lost := (x: string) => f(x) - g(x);
    SumAdd(g, lost, f, ids);
    SumOverMore(lost, [id], ids);
    SumOne(lost, id);
  }

  function GrossOf(entries: seq<Entry>, cats: set<Category>, prices: map<string, AssetValuation>): Option<int> {
    Gross(AggregateOf(entries, cats), ReportOf(entries, cats, prices))
  }

  lemma {:induction false} EntryAdds(entries: seq<Entry>, k: nat, cats: set<Category>,
                                     prices: map<string, AssetValuation>)
    requires k < |entries| && Known(entries) && NoneNegative(entries) && PricesNonNegative(prices)
    requires entries[k].countsTowardTotal && entries[k].category in cats
    ensures OwnWorth(entries[k], prices)
         <= Read(GrossOf(entries, cats, prices)) - Read(GrossOf(Without(entries, k), cats, prices))
         <= OwnWorth(entries[k], prices) + 1
  {
    var e, rest, ids := entries[k], Without(entries, k), Order(Held(entries, cats));
    TotalIs(entries, cats, prices);
    TotalWithout(entries, k, cats, prices);
    OrderHolds(Held(entries, cats));
    InHeld(entries, cats, Holding(e.assetId, e.quantity));
    forall id | id in ids && id != e.assetId
      ensures WorthOf(entries, cats, prices)(id) == WorthOf(rest, cats, prices)(id)
    {
      WorthLost(entries, k, cats, prices, id);
    }
    WorthLost(entries, k, cats, prices, e.assetId);
    SumDiffersAt(WorthOf(entries, cats, prices), WorthOf(rest, cats, prices), ids, e.assetId);
  }

  /** An entry of another category leaves a gross figure as it is. */
  lemma {:induction false} OthersAdd(entries: seq<Entry>, k: nat, cats: set<Category>,
                                     prices: map<string, AssetValuation>)
    requires k < |entries| && entries[k].category !in cats
    ensures GrossOf(Without(entries, k), cats, prices) == GrossOf(entries, cats, prices)
  {
    FlatMappedSkip(HoldingOf(cats), entries, k);
    SameReport(Without(entries, k), entries, cats, prices);
  }

  /** One gross figure is more than another by what an entry is worth, to one unit of rounding. */
  predicate MoreBy(more: Option<int>, less: Option<int>, worth: int) {
    worth <= Read(more) - Read(less) <= worth + 1
  }

  lemma {:induction false} AssetAdds(entries: seq<Entry>, k: nat, prices: map<string, AssetValuation>)
    requires k < |entries| && Known(entries) && NoneNegative(entries) && PricesNonNegative(prices)
    requires entries[k].countsTowardTotal && entries[k].category != Debt
    ensures MoreBy(Summarized(entries, prices).grossAssetsUsd, Summarized(Without(entries, k), prices).grossAssetsUsd,
                   OwnWorth(entries[k], prices))
  {
    EntryAdds(entries, k, ASSETS, prices);
  }

  lemma {:induction false} AssetOwesNothing(entries: seq<Entry>, k: nat, prices: map<string, AssetValuation>)
    requires k < |entries| && entries[k].category != Debt
    ensures Summarized(Without(entries, k), prices).grossDebtUsd == Summarized(entries, prices).grossDebtUsd
  {
    OthersAdd(entries, k, {Debt}, prices);
  }

  /**
   * A receipt marked as counting does count: taking it out takes its own worth off the gross total, to one unit, and
   * leaves the debts as they are.
   */
  lemma {:induction false} CountedReceiptCounts(entries: seq<Entry>, k: nat, prices: map<string, AssetValuation>)
    requires k < |entries| && Known(entries) && NoneNegative(entries) && PricesNonNegative(prices)
    requires entries[k].countsTowardTotal && entries[k].category != Debt
    ensures MoreBy(Summarized(entries, prices).grossAssetsUsd, Summarized(Without(entries, k), prices).grossAssetsUsd,
                   OwnWorth(entries[k], prices))
    ensures Summarized(Without(entries, k), prices).grossDebtUsd == Summarized(entries, prices).grossDebtUsd
  {
    AssetAdds(entries, k, prices);
    AssetOwesNothing(entries, k, prices);
  }

  lemma {:induction false} DebtAdds(entries: seq<Entry>, k: nat, prices: map<string, AssetValuation>)
    requires k < |entries| && Known(entries) && NoneNegative(entries) && PricesNonNegative(prices)
    requires entries[k].countsTowardTotal && entries[k].category == Debt
    ensures MoreBy(Summarized(entries, prices).grossDebtUsd, Summarized(Without(entries, k), prices).grossDebtUsd,
                   OwnWorth(entries[k], prices))
  {
    EntryAdds(entries, k, {Debt}, prices);
  }

  lemma {:induction false} DebtHoldsNothing(entries: seq<Entry>, k: nat, prices: map<string, AssetValuation>)
    requires k < |entries| && entries[k].category == Debt
    ensures Summarized(Without(entries, k), prices).grossAssetsUsd == Summarized(entries, prices).grossAssetsUsd
  {
    OthersAdd(entries, k, ASSETS, prices);
  }

  /** A debt that counts adds its own worth to the gross debt, to one unit, and leaves the assets as they are. */
  lemma {:induction false} CountedDebtCounts(entries: seq<Entry>, k: nat, prices: map<string, AssetValuation>)
    requires k < |entries| && Known(entries) && NoneNegative(entries) && PricesNonNegative(prices)
    requires entries[k].countsTowardTotal && entries[k].category == Debt
    ensures MoreBy(Summarized(entries, prices).grossDebtUsd, Summarized(Without(entries, k), prices).grossDebtUsd,
                   OwnWorth(entries[k], prices))
    ensures Summarized(Without(entries, k), prices).grossAssetsUsd == Summarized(entries, prices).grossAssetsUsd
  {
    DebtAdds(entries, k, prices);
    DebtHoldsNothing(entries, k, prices);
  }

  lemma {:induction false} AggregatedOne(h: Holding)
    ensures Aggregated([h]) == [h]
  {
    QuantityStep([], h, h.assetId);
    OrderStep([], h);
    assert [] + [h] == [h];
  }

  lemma {:induction false} AggregatedUnknown(h: Holding, n: Holding)
    requires n == Holding(h.assetId, None)
    ensures Aggregated([h] + [n]) == [n]
  {
    QuantityStep([h], n, h.assetId);
    OrderStep([], h);
    OrderStep([h], n);
    assert [] + [h] == [h];
  }

  lemma {:induction false} OneOfTwo(known: Entry, unknown: Entry)
    requires known.countsTowardTotal && unknown.countsTowardTotal && known.category == Wallet
             && unknown.category == Supplied
    ensures Held([known, unknown], ASSETS)
            == [Holding(known.assetId, known.quantity)] + [Holding(unknown.assetId, unknown.quantity)]
    ensures Held([known, unknown], {Wallet}) == [Holding(known.assetId, known.quantity)]
  {
    assert [known, unknown] == [known] + [unknown];
    FlatMappedOne(HoldingOf(ASSETS), known);
    FlatMappedOne(HoldingOf({Wallet}), known);
    HeldStep([known], unknown, ASSETS);
    HeldStep([known], unknown, {Wallet});
  }

  /** One unknown quantity hides an asset from the gross total, while another category still shows its part. */
  lemma {:induction false} UnknownHidesAsset(known: Entry, unknown: Entry, prices: map<string, AssetValuation>)
    requires known.countsTowardTotal && unknown.countsTowardTotal && known.category == Wallet
             && unknown.category == Supplied
    requires known.assetId == unknown.assetId && known.quantity.Some? && unknown.quantity.None?
             && HasPrice(prices, known.assetId)
    ensures var summary := Summarized([known, unknown], prices);
      && summary.grossAssetsUsd == None
      && summary.byCategory[Wallet].totalUsd == Some(Worth(prices)(Holding(known.assetId, known.quantity)))
  {
    var h, n := Holding(known.assetId, known.quantity), Holding(unknown.assetId, None);
    OneOfTwo(known, unknown);
    AggregatedUnknown(h, n);
    AggregatedOne(h);
    UsableIff(prices, h);
    FlatMappedOne(IdIfValued(prices, true), h);
    FlatMappedOne(IdIfValued(prices, true), n);
    SumOne(Worth(prices), h);
  }
}
