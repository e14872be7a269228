/** The portfolio ledger: what is held and owed, by category and in all. */
module Accounting {
  import opened Wrappers
  import opened Arith
  import opened Lists
  import opened Decimal
  import opened Risk
  import opened Quorum
  import opened Holdings

  datatype Category = Wallet | Supplied | Lp | Collateral | Debt | Locked

  const CATEGORIES: seq<Category> := [Wallet, Supplied, Lp, Collateral, Debt, Locked]
  const ASSETS: set<Category> := {Wallet, Supplied, Lp, Collateral, Locked}
  const ASSET_CATEGORIES: seq<Category> := [Wallet, Supplied, Lp, Collateral, Locked]

  datatype Entry = Entry(
    id: string, category: Category, assetId: string, quantity: Option<int>, isReceipt: bool, countsTowardTotal: bool)

  datatype CategorySummary = CategorySummary(totalUsd: Option<int>, count: nat)

  datatype Summary = Summary(
    grossAssetsUsd: Option<int>, grossDebtUsd: Option<int>, netWorthUsd: Option<int>,
    byCategory: map<Category, CategorySummary>, valuedCount: nat, unvaluedCount: nat, totalCount: nat, isComplete: bool)

  // ----- The ledger as functions of its entries -----

  function HoldingOf(cats: set<Category>): (f: Entry -> seq<Holding>)
    ensures forall e: Entry ::
      f(e) == if e.countsTowardTotal && e.category in cats then [Holding(e.assetId, e.quantity)] else []
  {
    (e: Entry) => if e.countsTowardTotal && e.category in cats then [Holding(e.assetId, e.quantity)] else []
  }

  /** The counted holdings of some categories, in ledger order. */
  function Held(entries: seq<Entry>, cats: set<Category>): seq<Holding> {
    FlatMapped(HoldingOf(cats), entries)
  }

  function AggregateOf(entries: seq<Entry>, cats: set<Category>): seq<Holding> {
    Aggregated(Held(entries, cats))
  }

  function ReportOf(entries: seq<Entry>, cats: set<Category>, prices: map<string, AssetValuation>): Report {
    Reported(AggregateOf(entries, cats), prices)
  }

  /** Nothing held is worth zero; something held is worth what has a price, if anything has. */
  function Gross(holdings: seq<Holding>, report: Report): Option<int> {
    if holdings == [] then Some(0) else report.totalUsd
  }

  function CategoryOf(entries: seq<Entry>, c: Category, prices: map<string, AssetValuation>): CategorySummary {
    CategorySummary(ReportOf(entries, {c}, prices).totalUsd, |Held(entries, {c})|)
  }

  predicate AnyUnknown(entries: seq<Entry>) {
    exists e | e in entries :: e.countsTowardTotal && e.quantity.None?
  }

  function IdsOf(holdings: seq<Holding>): set<string> {
    set h | h in holdings :: h.assetId
  }

  function Members(ids: seq<string>): set<string> {
    set id | id in ids
  }

  function Net(assets: Option<int>, debts: Option<int>): Option<int> {
    if assets.Some? && debts.Some? then Some(assets.value - debts.value) else None
  }

  /** The figures that come out of the two reports; anything unknown leaves the coverage incomplete. */
  function Assembled(assets: seq<Holding>, assetReport: Report, debts: seq<Holding>, debtReport: Report,
                     byCategory: map<Category, CategorySummary>, unknown: bool): Summary {
    var grossAssets, grossDebt := Gross(assets, assetReport), Gross(debts, debtReport);
    var all := IdsOf(assets) + IdsOf(debts);
    var valued := Members(assetReport.valued) + Members(debtReport.valued);
    var unvalued := Members(assetReport.unvalued) + Members(debtReport.unvalued);
    var net := Net(grossAssets, grossDebt);
    Summary(grossAssets, grossDebt, net, byCategory, |valued|, |unvalued|, |all|,
            |all| > 0 && |valued| == |all| && !unknown && net.Some?)
  }

  function Categorized(entries: seq<Entry>, prices: map<string, AssetValuation>): map<Category, CategorySummary> {
    map c: Category :: CategoryOf(entries, c, prices)
  }

  function Summarized(entries: seq<Entry>, prices: map<string, AssetValuation>): Summary {
    Assembled(AggregateOf(entries, ASSETS), ReportOf(entries, ASSETS, prices),
              AggregateOf(entries, {Debt}), ReportOf(entries, {Debt}, prices),
              Categorized(entries, prices), AnyUnknown(entries))
  }

  // ----- The ledger in one pass -----

  lemma {:induction false} HeldStep(entries: seq<Entry>, e: Entry, cats: set<Category>)
    ensures Held(entries + [e], cats) == Held(entries, cats) + HoldingOf(cats)(e)
  {
    FlatMappedAppend(HoldingOf(cats), entries, [e]);
    FlatMappedOne(HoldingOf(cats), e);
  }

  /** Each category's list holds what was counted for it. */
  ghost predicate Filed(lists: map<Category, seq<Holding>>, entries: seq<Entry>) {
    forall c: Category :: c in lists && lists[c] == Held(entries, {c})
  }

  lemma {:induction false} FiledCounted(lists: map<Category, seq<Holding>>, entries: seq<Entry>, e: Entry)
    requires Filed(lists, entries) && e.countsTowardTotal
    ensures Filed(lists[e.category := lists[e.category] + [Holding(e.assetId, e.quantity)]], entries + [e])
  {
    var longer := lists[e.category := lists[e.category] + [Holding(e.assetId, e.quantity)]];
    forall c: Category ensures c in longer && longer[c] == Held(entries + [e], {c}) {
      HeldStep(entries, e, {c});
    }
  }

  lemma {:induction false} FiledUncounted(lists: map<Category, seq<Holding>>, entries: seq<Entry>, e: Entry)
    requires Filed(lists, entries) && !e.countsTowardTotal
    ensures Filed(lists, entries + [e])
  {
    forall c: Category ensures lists[c] == Held(entries + [e], {c}) { HeldStep(entries, e, {c}); }
  }

  lemma {:induction false} EveryCategory(c: Category)
    ensures c in CATEGORIES
  {
    match c {
      case Wallet => assert CATEGORIES[0] == c;
      case Supplied => assert CATEGORIES[1] == c;
      case Lp => assert CATEGORIES[2] == c;
      case Collateral => assert CATEGORIES[3] == c;
      case Debt => assert CATEGORIES[4] == c;
      case Locked => assert CATEGORIES[5] == c;
    }
  }

  lemma {:induction false} NothingFiled()
    ensures Filed(map[Wallet := [], Supplied := [], Lp := [], Collateral := [], Debt := [], Locked := []], [])
  {
    var lists: map<Category, seq<Holding>> :=
      map[Wallet := [], Supplied := [], Lp := [], Collateral := [], Debt := [], Locked := []];
    forall c: Category ensures c in lists && lists[c] == Held([], {c}) {
      match c { case Wallet => case Supplied => case Lp => case Collateral => case Debt => case Locked => }
    }
  }

  /** What one pass over the entries puts where: assets, debts, and whether a counted quantity is unknown. */
  function PassOf(entries: seq<Entry>): (seq<Holding>, seq<Holding>, bool) {
    (Held(entries, ASSETS), Held(entries, {Debt}), AnyUnknown(entries))
  }

  lemma {:induction false} PassStep(entries: seq<Entry>, e: Entry)
    ensures var (assets, debts, unknown) := PassOf(entries);
      var h := Holding(e.assetId, e.quantity);
      PassOf(entries + [e])
        == if !e.countsTowardTotal then (assets, debts, unknown)
           else if e.category.Debt? then (assets, debts + [h], unknown || e.quantity.None?)
           else (assets + [h], debts, unknown || e.quantity.None?)
  {
    HeldStep(entries, e, ASSETS);
    HeldStep(entries, e, {Debt});
    assert e in entries + [e];
    assert forall x | x in entries :: x in entries + [e];
    assert Held(entries, ASSETS) + [] == Held(entries, ASSETS) && Held(entries, {Debt}) + [] == Held(entries, {Debt});
  }

  method FileEntries(entries: seq<Entry>)
    returns (assets: seq<Holding>, debts: seq<Holding>, lists: map<Category, seq<Holding>>, unknown: bool)
    ensures (assets, debts, unknown) == PassOf(entries) && Filed(lists, entries)
  {
    assets, debts, unknown := [], [], false;
    lists := map[Wallet := [], Supplied := [], Lp := [], Collateral := [], Debt := [], Locked := []];
    NothingFiled();
    for k := 0 to |entries|
      invariant (assets, debts, unknown) == PassOf(entries[..k]) && Filed(lists, entries[..k])
    {
      var e := entries[k];
      assert entries[..k + 1] == entries[..k] + [e];
      PassStep(entries[..k], e);
      if e.countsTowardTotal {
        FiledCounted(lists, entries[..k], e);
        var h := Holding(e.assetId, e.quantity);
        if e.quantity.None? {
          unknown := true;
        }
        lists := lists[e.category := lists[e.category] + [h]];
        if e.category.Debt? {
          debts := debts + [h];
        } else {
          assets := assets + [h];
        }
      } else {
        FiledUncounted(lists, entries[..k], e);
      }
    }
    assert entries[..|entries|] == entries;
  }

  /** Exactly the given categories are valued. */
  ghost predicate ValuedFor(byCategory: map<Category, CategorySummary>, cats: seq<Category>, entries: seq<Entry>,
                            prices: map<string, AssetValuation>)
  {
    && (forall c :: c in byCategory <==> c in cats)
    && (forall c | c in byCategory :: byCategory[c] == CategoryOf(entries, c, prices))
  }

  lemma {:induction false} ValuedOneMore(byCategory: map<Category, CategorySummary>, cats: seq<Category>, c: Category,
                                         entries: seq<Entry>, prices: map<string, AssetValuation>)
    requires ValuedFor(byCategory, cats, entries, prices)
    ensures ValuedFor(byCategory[c := CategoryOf(entries, c, prices)], cats + [c], entries, prices)
  {
  }

  lemma {:induction false} AllValued(byCategory: map<Category, CategorySummary>, entries: seq<Entry>,
                                     prices: map<string, AssetValuation>)
    requires ValuedFor(byCategory, CATEGORIES, entries, prices)
    ensures byCategory == Categorized(entries, prices)
  {
    forall c: Category ensures c in byCategory { EveryCategory(c); }
  }

  method ValueCategories(lists: map<Category, seq<Holding>>, ghost entries: seq<Entry>,
                         prices: map<string, AssetValuation>)
    returns (byCategory: map<Category, CategorySummary>)
    requires Filed(lists, entries)
    ensures byCategory == Categorized(entries, prices)
  {
    byCategory := map[];
    for k := 0 to |CATEGORIES|
      invariant ValuedFor(byCategory, CATEGORIES[..k], entries, prices)
    {
      var c := CATEGORIES[k];
      assert CATEGORIES[..k + 1] == CATEGORIES[..k] + [c];
      ValuedOneMore(byCategory, CATEGORIES[..k], c, entries, prices);
      var aggregated := AggregateHoldings(lists[c]);
      var report := ValuePortfolio(aggregated, prices);
      byCategory := byCategory[c := CategorySummary(report.totalUsd, |lists[c]|)];
    }
    assert CATEGORIES[..|CATEGORIES|] == CATEGORIES;
    AllValued(byCategory, entries, prices);
  }

  method EvaluatePortfolioAccounting(entries: seq<Entry>, prices: map<string, AssetValuation>)
    returns (summary: Summary)
    ensures summary == Summarized(entries, prices)
  {
    var assets, debts, lists, unknown := FileEntries(entries);
    var aggregatedAssets := AggregateHoldings(assets);
    var aggregatedDebts := AggregateHoldings(debts);
    var assetReport := ValuePortfolio(aggregatedAssets, prices);
    var debtReport := ValuePortfolio(aggregatedDebts, prices);
    var byCategory := ValueCategories(lists, entries, prices);
    summary := Assembled(aggregatedAssets, assetReport, aggregatedDebts, debtReport, byCategory, unknown);
  }
}
