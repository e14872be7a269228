/** What every figure of the portfolio summary is, read off the ledger's entries. */
module Figures {
  import opened Wrappers
  import opened Lists
  import opened Decimal
  import opened Risk
  import opened Quorum
  import opened Holdings
  import opened Accounting
  import opened Ledger

  ghost predicate CountedIn(e: Entry, cats: set<Category>) {
    e.countsTowardTotal && e.category in cats
  }

  /** The assets that entries of some categories count, each once. */
  ghost predicate Listing(ids: seq<string>, entries: seq<Entry>, cats: set<Category>) {
    Distinct(ids) && forall id :: id in ids <==> exists e | e in entries :: CountedIn(e, cats) && e.assetId == id
  }

  /** The known quantities of an asset, added up. */
  ghost function Quantity(entries: seq<Entry>, cats: set<Category>, id: string): int {
    if entries == [] then 0
    else
      var e := entries[0];
      (if CountedIn(e, cats) && e.assetId == id && e.quantity.Some? then e.quantity.value else 0)
        + Quantity(entries[1..], cats, id)
  }

  /** All counted quantities of an asset are known, and it has a usable, undisputed price. */
  ghost predicate IsValued(entries: seq<Entry>, cats: set<Category>, prices: map<string, AssetValuation>, id: string) {
    && (forall e | e in entries && CountedIn(e, cats) && e.assetId == id :: e.quantity.Some?)
    && HasPrice(prices, id)
  }

  ghost predicate TextAt(s: string, part: string, i: nat) {
    i + |part| <= |s| && s[i..i + |part|] == part
  }

  ghost predicate HasText(s: string, part: string) {
    exists i: nat :: TextAt(s, part, i)
  }

  ghost predicate UsdcAt(id: string, i: nat) {
    && i + 4 <= |id|
    && id[i] in {'u', 'U'} && id[i + 1] in {'s', 'S'} && id[i + 2] in {'d', 'D'} && id[i + 3] in {'c', 'C'}
  }

  ghost predicate NamesUsdc(id: string) {
    exists i: nat :: UsdcAt(id, i)
  }

  /** Base units of one whole asset: six decimals for native stx and for usdc however it is spelled, eight otherwise. */
  ghost function UnitOf(id: string): int {
    if HasText(id, ":stx") || NamesUsdc(id) then 1_000_000 else 100_000_000
  }

  /** Dividing by a unit, cut toward zero. */
  ghost function Cut(x: int, unit: int): int
    requires unit > 0
  {
    if x >= 0 then x / unit else -(-x / unit)
  }

  /** What an asset adds to the total of some categories. */
  ghost function Figure(entries: seq<Entry>, cats: set<Category>, prices: map<string, AssetValuation>)
    : (f: string -> int)
    ensures forall id ::
      f(id) == if IsValued(entries, cats, prices, id)
               then Cut(Quantity(entries, cats, id) * prices[id].price.value, UnitOf(id)) else 0
  {
    id => if IsValued(entries, cats, prices, id)
          then Cut(Quantity(entries, cats, id) * prices[id].price.value, UnitOf(id)) else 0
  }

  // ----- Decimals -----

  lemma TextLater(s: string, part: string, i: nat)
    requires s != []
    ensures TextAt(s[1..], part, i) <==> TextAt(s, part, i + 1)
  {
    if i + 1 + |part| <= |s| { assert s[1..][i..i + |part|] == s[i + 1..i + 1 + |part|]; }
  }

  lemma TextFirst(s: string, part: string)
    ensures TextAt(s, part, 0) <==> part <= s
  {
    if |part| <= |s| { assert s[0..0 + |part|] == s[..|part|]; }
  }

  lemma {:induction false} ContainsIff(s: string, part: string)
    ensures Contains(s, part) <==> HasText(s, part)
  {
    TextFirst(s, part);
    if s != [] {
      ContainsIff(s[1..], part);
      if HasText(s[1..], part) {
        var i: nat :| TextAt(s[1..], part, i);
        TextLater(s, part, i);
      }
      if HasText(s, part) && !TextAt(s, part, 0) {
        var i: nat :| TextAt(s, part, i);
        TextLater(s, part, i - 1);
      }
    }
  }

  lemma LowerIs(c: char, small: char)
    requires small in {'u', 's', 'd', 'c'}
    ensures Lower([c])[0] == small <==> c == small || c == small - 'a' + 'A'
  {
  }

  lemma {:induction false} LowerAt(s: string, i: nat)
    requires i < |s|
    ensures Lower(s)[i] == Lower([s[i]])[0]
  {
  }

  lemma {:induction false} UsdcSpelled(id: string, i: nat)
    ensures TextAt(Lower(id), "usdc", i) <==> UsdcAt(id, i)
  {
    if i + 4 <= |id| {
      var low := Lower(id)[i..i + 4];
      assert low == "usdc" <==> low[0] == 'u' && low[1] == 's' && low[2] == 'd' && low[3] == 'c';
      LowerAt(id, i);
      LowerAt(id, i + 1);
      LowerAt(id, i + 2);
      LowerAt(id, i + 3);
      LowerIs(id[i], 'u');
      LowerIs(id[i + 1], 's');
      LowerIs(id[i + 2], 'd');
      LowerIs(id[i + 3], 'c');
    }
  }

  lemma {:induction false} UsdcIff(id: string)
    ensures HasText(Lower(id), "usdc") <==> NamesUsdc(id)
  {
    forall i: nat ensures TextAt(Lower(id), "usdc", i) <==> UsdcAt(id, i) { UsdcSpelled(id, i); }
  }

  /** The unit every asset is priced at. */
  lemma {:induction false} UnitIs(id: string)
    ensures Pow10(DefaultDecimals(id)) == UnitOf(id)
  {
    ContainsIff(id, ":stx");
    ContainsIff(Lower(id), "usdc");
    UsdcIff(id);
    assert Pow10(6) == 1_000_000;
    assert Pow10(8) == 100 * Pow10(6);
  }

  // ----- Totals -----

  lemma {:induction false} QuantityIs(entries: seq<Entry>, cats: set<Category>, id: string)
    ensures Sum(AmountOf(id), Held(entries, cats)) == Quantity(entries, cats, id)
  {
    if entries != [] {
      QuantityIs(entries[1..], cats, id);
      HeldFirst(entries, cats, id);
      var e := entries[0];
      if CountedIn(e, cats) { SumOne(AmountOf(id), Holding(e.assetId, e.quantity)); }
    }
  }

  lemma {:induction false} ValuedIff(entries: seq<Entry>, cats: set<Category>, prices: map<string, AssetValuation>,
                                     id: string)
    ensures IsValued(entries, cats, prices, id) <==> QuantityOf(Held(entries, cats), id).Some? && HasPrice(prices, id)
  {
    InHeld(entries, cats, Holding(id, None));
  }

  lemma {:induction false} FigureIs(entries: seq<Entry>, cats: set<Category>, prices: map<string, AssetValuation>,
                                    id: string)
    ensures WorthOf(entries, cats, prices)(id) == Figure(entries, cats, prices)(id)
  {
    ValuedIff(entries, cats, prices, id);
    var h := Holding(id, QuantityOf(Held(entries, cats), id));
    if h.quantity.Some? {
      UsableIff(prices, h);
      QuantityIs(entries, cats, id);
      UnitIs(id);
    }
  }

  lemma {:induction false} ListsHeld(entries: seq<Entry>, cats: set<Category>, ids: seq<string>, id: string)
    requires Listing(ids, entries, cats)
    ensures id in ids <==> HasAsset(Held(entries, cats), id)
  {
    if id in ids {
      var e :| e in entries && CountedIn(e, cats) && e.assetId == id;
      InHeld(entries, cats, Holding(id, e.quantity));
    }
    if HasAsset(Held(entries, cats), id) {
      var h :| h in Held(entries, cats) && h.assetId == id;
      InHeld(entries, cats, h);
    }
  }

  lemma {:induction false} ListsReported(entries: seq<Entry>, cats: set<Category>, prices: map<string, AssetValuation>,
                                         ids: seq<string>)
    requires Listing(ids, entries, cats)
    ensures forall id ::
      id in ReportOf(entries, cats, prices).valued <==> id in ids && IsValued(entries, cats, prices, id)
    ensures forall id ::
      id in ReportOf(entries, cats, prices).unvalued <==> id in ids && !IsValued(entries, cats, prices, id)
    ensures forall id :: id in IdsOf(AggregateOf(entries, cats)) <==> id in ids
  {
    var held := Held(entries, cats);
    forall id
      ensures id in ReportOf(entries, cats, prices).valued <==> id in ids && IsValued(entries, cats, prices, id)
      ensures id in ReportOf(entries, cats, prices).unvalued <==> id in ids && !IsValued(entries, cats, prices, id)
      ensures id in IdsOf(AggregateOf(entries, cats)) <==> id in ids
    {
      ListsHeld(entries, cats, ids, id);
      ValuedIff(entries, cats, prices, id);
      ValuedAssets(held, prices, id);
      UnvaluedAssets(held, prices, id);
      AggregatedAssets(held, id);
    }
  }

  lemma {:induction false} UnvaluedAssets(list: seq<Holding>, prices: map<string, AssetValuation>, id: string)
    ensures id in Reported(Aggregated(list), prices).unvalued
       <==> HasAsset(list, id) && !(QuantityOf(list, id).Some? && HasPrice(prices, id))
  {
    var one := Holding(id, QuantityOf(list, id));
    InAggregated(list, one);
    InFlatMapped(IdIfValued(prices, false), Aggregated(list), id);
    if one.quantity.Some? { UsableIff(prices, one); }
    forall h | h in Aggregated(list) && id in IdIfValued(prices, false)(h) ensures h == one { InAggregated(list, h); }
  }

  /** A total: none when nothing is valued, else the sum of what the listed assets add. */
  ghost predicate Totals(total: Option<int>, entries: seq<Entry>, cats: set<Category>,
                         prices: map<string, AssetValuation>, ids: seq<string>)
  {
    && (total.Some? <==> exists id | id in ids :: IsValued(entries, cats, prices, id))
    && (total.Some? ==> total.value == Sum(Figure(entries, cats, prices), ids))
  }

  lemma {:induction false} ReportTotals(entries: seq<Entry>, cats: set<Category>, prices: map<string, AssetValuation>,
                                        ids: seq<string>)
    requires Listing(ids, entries, cats)
    ensures Totals(ReportOf(entries, cats, prices).totalUsd, entries, cats, prices, ids)
  {
    var held, report := Held(entries, cats), ReportOf(entries, cats, prices);
    ListsReported(entries, cats, prices, ids);
    assert report.valued != [] ==> report.valued[0] in report.valued;
    TotalIs(entries, cats, prices);
    OrderHolds(held);
    forall id ensures id in ids <==> id in Order(held) { ListsHeld(entries, cats, ids, id); }
    SumOverMore(WorthOf(entries, cats, prices), ids, Order(held));
    forall id | id in ids ensures WorthOf(entries, cats, prices)(id) == Figure(entries, cats, prices)(id) {
      FigureIs(entries, cats, prices, id);
    }
    SumSame(WorthOf(entries, cats, prices), Figure(entries, cats, prices), ids);
  }

  lemma {:induction false} NothingListed(entries: seq<Entry>, cats: set<Category>, ids: seq<string>)
    requires Listing(ids, entries, cats)
    ensures AggregateOf(entries, cats) == [] <==> ids == []
  {
    var held := Held(entries, cats);
    if ids != [] {
      ListsHeld(entries, cats, ids, ids[0]);
      AggregatedAssets(held, ids[0]);
    }
    if AggregateOf(entries, cats) != [] {
      var id := AggregateOf(entries, cats)[0].assetId;
      assert id in IdsOf(AggregateOf(entries, cats));
      AggregatedAssets(held, id);
      ListsHeld(entries, cats, ids, id);
    }
  }

  /** A gross figure: nothing listed is worth zero. */
  ghost predicate Grosses(gross: Option<int>, entries: seq<Entry>, cats: set<Category>,
                          prices: map<string, AssetValuation>, ids: seq<string>)
  {
    if ids == [] then gross == Some(0) else Totals(gross, entries, cats, prices, ids)
  }

  /**
   * For every ledger and all prices: each gross figure is the sum, over the assets its categories count, of the known
   * quantity times the price, cut to whole units; it is unknown only when something is counted and nothing has a
   * value. The net is known exactly when both are, and then net and debt make up the assets.
   */
  lemma {:induction false} GrossAndNet(entries: seq<Entry>, prices: map<string, AssetValuation>, assets: seq<string>,
                                       debts: seq<string>)
    requires Listing(assets, entries, {Wallet, Supplied, Lp, Collateral, Locked}) && Listing(debts, entries, {Debt})
    ensures var summary := Summarized(entries, prices);
      && Grosses(summary.grossAssetsUsd, entries, {Wallet, Supplied, Lp, Collateral, Locked}, prices, assets)
      && Grosses(summary.grossDebtUsd, entries, {Debt}, prices, debts)
      && (summary.netWorthUsd.Some? <==> summary.grossAssetsUsd.Some? && summary.grossDebtUsd.Some?)
      && (summary.netWorthUsd.Some? ==>
            summary.netWorthUsd.value + summary.grossDebtUsd.value == summary.grossAssetsUsd.value)
  {
    ReportTotals(entries, ASSETS, prices, assets);
    ReportTotals(entries, {Debt}, prices, debts);
    NothingListed(entries, ASSETS, assets);
    NothingListed(entries, {Debt}, debts);
  }

  /** The listed assets with a value, or those without. */
  ghost function Where(valued: bool, entries: seq<Entry>, cats: set<Category>, prices: map<string, AssetValuation>,
                       ids: seq<string>): set<string>
  {
    set id | id in ids && IsValued(entries, cats, prices, id) == valued
  }

  lemma {:induction false} ReportSets(entries: seq<Entry>, cats: set<Category>, prices: map<string, AssetValuation>,
                                      ids: seq<string>)
    requires Listing(ids, entries, cats)
    ensures Members(ReportOf(entries, cats, prices).valued) == Where(true, entries, cats, prices, ids)
    ensures Members(ReportOf(entries, cats, prices).unvalued) == Where(false, entries, cats, prices, ids)
    ensures IdsOf(AggregateOf(entries, cats)) == set id | id in ids
  {
    ListsReported(entries, cats, prices, ids);
  }

  /** Coverage counts assets, not entries; one held and owed may be valued on one side and not on the other. */
  lemma {:induction false} CoverageCounts(entries: seq<Entry>, prices: map<string, AssetValuation>,
                                          assets: seq<string>, debts: seq<string>)
    requires Listing(assets, entries, {Wallet, Supplied, Lp, Collateral, Locked}) && Listing(debts, entries, {Debt})
    ensures var summary := Summarized(entries, prices);
      && summary.totalCount == |(set id | id in assets) + set id | id in debts|
      && summary.valuedCount == |Where(true, entries, {Wallet, Supplied, Lp, Collateral, Locked}, prices, assets)
                                 + Where(true, entries, {Debt}, prices, debts)|
      && summary.unvaluedCount == |Where(false, entries, {Wallet, Supplied, Lp, Collateral, Locked}, prices, assets)
                                   + Where(false, entries, {Debt}, prices, debts)|
  {
    ReportSets(entries, ASSETS, prices, assets);
    ReportSets(entries, {Debt}, prices, debts);
  }

  /** How many entries of a category count. */
  ghost function CountIn(entries: seq<Entry>, c: Category): nat {
    if entries == [] then 0
    else (if entries[0].countsTowardTotal && entries[0].category == c then 1 else 0) + CountIn(entries[1..], c)
  }

  lemma {:induction false} CountIs(entries: seq<Entry>, c: Category)
    ensures |Held(entries, {c})| == CountIn(entries, c)
  {
    if entries != [] { CountIs(entries[1..], c); }
  }

  /** Each category is counted and valued from its own entries; its total is unknown without a value, even if empty. */
  lemma {:induction false} CategoryIs(entries: seq<Entry>, prices: map<string, AssetValuation>, c: Category,
                                      ids: seq<string>)
    requires Listing(ids, entries, {c})
    ensures var summary := Summarized(entries, prices);
      && c in summary.byCategory && summary.byCategory[c].count == CountIn(entries, c)
      && Totals(summary.byCategory[c].totalUsd, entries, {c}, prices, ids)
  {
    ReportTotals(entries, {c}, prices, ids);
    CountIs(entries, c);
  }
}
