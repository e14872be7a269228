/** Quantities of assets, added up by asset and valued against prices. */
module Holdings {
  import opened Wrappers
  import opened Lists
  import opened Decimal
  import opened Risk
  import opened Quorum

  /** `None` is an unknown quantity. */
  datatype Holding = Holding(assetId: string, quantity: Option<int>)

  // ----- Valuing -----

  predicate Contains(s: string, part: string) {
    part <= s || (s != [] && Contains(s[1..], part))
  }

  function Lower(s: string): string {
    seq(|s|, i requires 0 <= i < |s| => if 'A' <= s[i] <= 'Z' then s[i] - 'A' + 'a' else s[i])
  }

  function DefaultDecimals(assetId: string): nat {
    if Contains(assetId, ":stx") || Contains(Lower(assetId), "usdc") then 6 else 8
  }

  datatype Outcome = Valued(usd: int) | MissingQuantity | NoFeed | InDispute | NoFreshPrice

  function Value(prices: map<string, AssetValuation>, h: Holding): Outcome {
    if h.quantity.None? then MissingQuantity
    else if h.assetId !in prices || prices[h.assetId].status == Unsupported then NoFeed
    else
      var v := prices[h.assetId];
      if v.disagreement || v.status == Disputed then InDispute
      else if v.status == Stale || v.price.None? then NoFreshPrice
      else Valued(MulDiv(h.quantity.value, v.price.value, Pow10(DefaultDecimals(h.assetId)), Down).value)
  }

  function ValueIn(prices: map<string, AssetValuation>): (f: Holding -> Outcome)
    ensures forall h: Holding :: f(h) == Value(prices, h)
  {
    (h: Holding) => Value(prices, h)
  }

  /** What a holding adds to a total. */
  function Worth(prices: map<string, AssetValuation>): (f: Holding -> int)
    ensures forall h: Holding :: f(h) == match Value(prices, h) case Valued(usd) => usd case _ => 0
  {
    (h: Holding) => match Value(prices, h) case Valued(usd) => usd case _ => 0
  }

  function IdIfValued(prices: map<string, AssetValuation>, valued: bool): (f: Holding -> seq<string>)
    ensures forall h: Holding :: f(h) == if Value(prices, h).Valued? == valued then [h.assetId] else []
  {
    (h: Holding) => if Value(prices, h).Valued? == valued then [h.assetId] else []
  }

  datatype Report = Report(totalUsd: Option<int>, items: seq<Outcome>, valued: seq<string>, unvalued: seq<string>)

  /** Each holding's outcome in order; the total is of those with a value, and unknown without any. */
  function Reported(holdings: seq<Holding>, prices: map<string, AssetValuation>): Report {
    var valued := FlatMapped(IdIfValued(prices, true), holdings);
    Report(if valued == [] then None else Some(Sum(Worth(prices), holdings)), Mapped(ValueIn(prices), holdings),
           valued, FlatMapped(IdIfValued(prices, false), holdings))
  }

  lemma {:induction false} ReportStep(holdings: seq<Holding>, h: Holding, prices: map<string, AssetValuation>)
    ensures Sum(Worth(prices), holdings + [h]) == Sum(Worth(prices), holdings) + Worth(prices)(h)
    ensures Mapped(ValueIn(prices), holdings + [h]) == Mapped(ValueIn(prices), holdings) + [Value(prices, h)]
  {
    SumAppend(Worth(prices), holdings, [h]);
    SumOne(Worth(prices), h);
  }

  lemma {:induction false} IdsStep(holdings: seq<Holding>, h: Holding, prices: map<string, AssetValuation>,
                                   valued: bool)
    ensures FlatMapped(IdIfValued(prices, valued), holdings + [h])
         == FlatMapped(IdIfValued(prices, valued), holdings)
            + if Value(prices, h).Valued? == valued then [h.assetId] else []
  {
    FlatMappedAppend(IdIfValued(prices, valued), holdings, [h]);
    FlatMappedOne(IdIfValued(prices, valued), h);
  }

  method ValuePortfolio(holdings: seq<Holding>, prices: map<string, AssetValuation>) returns (report: Report)
    ensures report == Reported(holdings, prices)
  {
    var total, items, valued, unvalued := 0, [], [], [];
    for k := 0 to |holdings|
      invariant total == Sum(Worth(prices), holdings[..k]) && items == Mapped(ValueIn(prices), holdings[..k])
      invariant valued == FlatMapped(IdIfValued(prices, true), holdings[..k])
      invariant unvalued == FlatMapped(IdIfValued(prices, false), holdings[..k])
    {
      var h := holdings[k];
      assert holdings[..k + 1] == holdings[..k] + [h];
      ReportStep(holdings[..k], h, prices);
      IdsStep(holdings[..k], h, prices, true);
      IdsStep(holdings[..k], h, prices, false);
      var outcome := Value(prices, h);
      items := items + [outcome];
      match outcome {
        case Valued(usd) =>
          total := total + usd;
          valued := valued + [h.assetId];
        case _ =>
          unvalued := unvalued + [h.assetId];
      }
    }
    assert holdings[..|holdings|] == holdings;
    report := Report(if valued == [] then None else Some(total), items, valued, unvalued);
  }

  /** Why a holding has no value: the first of an unknown quantity, no feed, a dispute, and no fresh price. */
  lemma {:induction false} OutcomeReads(prices: map<string, AssetValuation>, h: Holding)
    ensures var fed := h.assetId in prices && prices[h.assetId].status != Unsupported;
      var disputed := fed && (prices[h.assetId].disagreement || prices[h.assetId].status == Disputed);
      var priced := fed && prices[h.assetId].status == Verified && prices[h.assetId].price.Some?;
      && (Value(prices, h) == MissingQuantity <==> h.quantity.None?)
      && (Value(prices, h) == NoFeed <==> h.quantity.Some? && !fed)
      && (Value(prices, h) == InDispute <==> h.quantity.Some? && disputed)
      && (Value(prices, h) == NoFreshPrice <==> h.quantity.Some? && fed && !disputed && !priced)
      && (Value(prices, h).Valued? <==> h.quantity.Some? && priced && !disputed)
  {
  }

  /** A holding of the asset has a value, or has none. */
  ghost predicate HasOutcome(holdings: seq<Holding>, prices: map<string, AssetValuation>, id: string, valued: bool) {
    exists i :: 0 <= i < |holdings| && holdings[i].assetId == id && Value(prices, holdings[i]).Valued? == valued
  }

  lemma {:induction false} IdsListed(holdings: seq<Holding>, prices: map<string, AssetValuation>, id: string,
                                     valued: bool)
    ensures id in FlatMapped(IdIfValued(prices, valued), holdings) <==> HasOutcome(holdings, prices, id, valued)
  {
    InFlatMapped(IdIfValued(prices, valued), holdings, id);
    if h :| h in holdings && id in IdIfValued(prices, valued)(h) {
      var i :| 0 <= i < |holdings| && holdings[i] == h;
      assert holdings[i].assetId == id;
    }
    if HasOutcome(holdings, prices, id, valued) {
      var i :| 0 <= i < |holdings| && holdings[i].assetId == id && Value(prices, holdings[i]).Valued? == valued;
      assert id in IdIfValued(prices, valued)(holdings[i]);
    }
  }

  /** The report lists every holding's outcome in order, and each asset as valued or not. */
  lemma {:induction false} ReportLists(holdings: seq<Holding>, prices: map<string, AssetValuation>, id: string)
    ensures var report := Reported(holdings, prices);
      && |report.items| == |holdings|
      && (forall i | 0 <= i < |holdings| :: report.items[i] == Value(prices, holdings[i]))
      && (id in report.valued <==> HasOutcome(holdings, prices, id, true))
      && (id in report.unvalued <==> HasOutcome(holdings, prices, id, false))
  {
    IdsListed(holdings, prices, id, true);
    IdsListed(holdings, prices, id, false);
  }

  // ----- Adding up by asset -----

  function AmountOf(id: string): (f: Holding -> int)
    ensures forall h: Holding :: f(h) == if h.assetId == id && h.quantity.Some? then h.quantity.value else 0
  {
    (h: Holding) => if h.assetId == id && h.quantity.Some? then h.quantity.value else 0
  }

  predicate HasUnknown(list: seq<Holding>, id: string) {
    Holding(id, None) in list
  }

  /** The quantity of an asset on the list: unknown as soon as one of its entries is. */
  function QuantityOf(list: seq<Holding>, id: string): Option<int> {
    if HasUnknown(list, id) then None else Some(Sum(AmountOf(id), list))
  }

  predicate HasAsset(list: seq<Holding>, id: string) {
    exists h | h in list :: h.assetId == id
  }

  /** The assets of a list in the order they first appear. */
  function Order(list: seq<Holding>): seq<string> {
    if list == [] then []
    else
      var init, last := Order(list[..|list| - 1]), list[|list| - 1].assetId;
      if last in init then init else init + [last]
  }

  lemma {:induction false} OrderHolds(list: seq<Holding>)
    ensures Distinct(Order(list)) && forall id :: id in Order(list) <==> HasAsset(list, id)
  {
    if list != [] {
      var init, last := list[..|list| - 1], list[|list| - 1];
      OrderHolds(init);
      assert list == init + [last];
    }
  }

  function HoldingIn(list: seq<Holding>): (f: string -> Holding)
    ensures forall id :: f(id) == Holding(id, QuantityOf(list, id))
  {
    id => Holding(id, QuantityOf(list, id))
  }

  /** One holding for each asset, in order of first appearance. */
  function Aggregated(list: seq<Holding>): seq<Holding> {
    Mapped(HoldingIn(list), Order(list))
  }

  function Added(before: Option<int>, more: Option<int>): Option<int> {
    if before.None? || more.None? then None else Some(before.value + more.value)
  }

  lemma {:induction false} QuantityStep(list: seq<Holding>, h: Holding, id: string)
    ensures QuantityOf(list + [h], id)
         == if id != h.assetId then QuantityOf(list, id) else Added(QuantityOf(list, id), h.quantity)
  {
    SumAppend(AmountOf(id), list, [h]);
    SumOne(AmountOf(id), h);
    assert HasUnknown(list + [h], id) <==> HasUnknown(list, id) || h == Holding(id, None);
  }

  lemma {:induction false} NoneOfIt(list: seq<Holding>, id: string)
    requires !HasAsset(list, id)
    ensures QuantityOf(list, id) == Some(0)
  {
    forall h | h in list ensures AmountOf(id)(h) == 0 { }
    SumNonNegative(AmountOf(id), list);
  }

  lemma {:induction false} OrderStep(list: seq<Holding>, h: Holding)
    ensures Order(list + [h]) == if h.assetId in Order(list) then Order(list) else Order(list) + [h.assetId]
  {
    assert (list + [h])[..|list|] == list;
  }

  /** The map's keys are the assets of the list, in the order they were first set. */
  ghost predicate KeysKept(quantities: map<string, Option<int>>, keys: seq<string>, list: seq<Holding>) {
    keys == Order(list) && forall id :: id in quantities <==> id in keys
  }

  ghost predicate QuantitiesKept(quantities: map<string, Option<int>>, list: seq<Holding>) {
    forall id | id in quantities :: quantities[id] == QuantityOf(list, id)
  }

  lemma {:induction false} KeysStep(quantities: map<string, Option<int>>, keys: seq<string>, list: seq<Holding>,
                                    h: Holding, value: Option<int>)
    requires KeysKept(quantities, keys, list)
    ensures KeysKept(quantities[h.assetId := value],
                     if h.assetId in quantities then keys else keys + [h.assetId], list + [h])
  {
    OrderStep(list, h);
  }

  /** What the map says about the asset before it is set: nothing reads as zero. */
  function Current(quantities: map<string, Option<int>>, id: string): Option<int> {
    if id in quantities then quantities[id] else Some(0)
  }

  lemma {:induction false} CurrentIs(quantities: map<string, Option<int>>, keys: seq<string>, list: seq<Holding>,
                                     id: string)
    requires KeysKept(quantities, keys, list) && QuantitiesKept(quantities, list)
    ensures Current(quantities, id) == QuantityOf(list, id)
  {
    OrderHolds(list);
    if id !in quantities { NoneOfIt(list, id); }
  }

  lemma {:induction false} QuantitiesSet(quantities: map<string, Option<int>>, list: seq<Holding>, h: Holding)
    requires QuantitiesKept(quantities, list) && Current(quantities, h.assetId) == QuantityOf(list, h.assetId)
    ensures QuantitiesKept(quantities[h.assetId := Added(Current(quantities, h.assetId), h.quantity)], list + [h])
  {
    var longer := quantities[h.assetId := Added(Current(quantities, h.assetId), h.quantity)];
    forall id | id in longer ensures longer[id] == QuantityOf(list + [h], id) {
      QuantityStep(list, h, id);
    }
  }

  /** One more entry: keys and quantities stay those of the list. */
  lemma {:induction false} KeptStep(quantities: map<string, Option<int>>, keys: seq<string>, list: seq<Holding>,
                                    h: Holding, quantities': map<string, Option<int>>, keys': seq<string>,
                                    longer: seq<Holding>)
    requires KeysKept(quantities, keys, list) && QuantitiesKept(quantities, list) && longer == list + [h]
    requires quantities' == quantities[h.assetId := Added(Current(quantities, h.assetId), h.quantity)]
    requires keys' == if h.assetId in quantities then keys else keys + [h.assetId]
    ensures KeysKept(quantities', keys', longer) && QuantitiesKept(quantities', longer)
  {
    CurrentIs(quantities, keys, list, h.assetId);
    KeysStep(quantities, keys, list, h, Added(Current(quantities, h.assetId), h.quantity));
    QuantitiesSet(quantities, list, h);
  }

  lemma {:induction false} EntriesAre(quantities: map<string, Option<int>>, keys: seq<string>, list: seq<Holding>,
                                      entries: seq<Holding>)
    requires KeysKept(quantities, keys, list) && QuantitiesKept(quantities, list) && |entries| == |keys|
    requires forall i | 0 <= i < |keys| :: keys[i] in quantities && entries[i] == Holding(keys[i], quantities[keys[i]])
    ensures entries == Aggregated(list)
  {
  }

  method AggregateHoldings(list: seq<Holding>) returns (aggregated: seq<Holding>)
    ensures aggregated == Aggregated(list)
  {
    var quantities: map<string, Option<int>> := map[];
    var keys: seq<string> := [];
    for k := 0 to |list|
      invariant KeysKept(quantities, keys, list[..k]) && QuantitiesKept(quantities, list[..k])
    {
      var h := list[k];
      assert list[..k + 1] == list[..k] + [h];
      ghost var before, keysBefore := quantities, keys;
      if h.assetId !in quantities {
        keys := keys + [h.assetId];
        quantities := quantities[h.assetId := if h.quantity.None? then None else Some(0 + h.quantity.value)];
      } else if quantities[h.assetId].None? || h.quantity.None? {
        quantities := quantities[h.assetId := None];
      } else {
        quantities := quantities[h.assetId := Some(quantities[h.assetId].value + h.quantity.value)];
      }
      KeptStep(before, keysBefore, list[..k], h, quantities, keys, list[..k + 1]);
    }
    assert list[..|list|] == list;
    aggregated :=
      seq(|keys|, i requires 0 <= i < |keys| && keys[i] in quantities => Holding(keys[i], quantities[keys[i]]));
    EntriesAre(quantities, keys, list, aggregated);
  }
}
