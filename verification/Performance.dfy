/** Earnings on a position: shares and what they are worth, and which part of a balance is yield. */
module Performance {
  import opened Wrappers
  import opened Arith
  import opened Lists
  import opened Risk

  datatype ShareRate = ShareRate(numerator: int, denominator: int)

  /** A rate with a zero where it divides throws. */
  function UnderlyingFromShares(shares: int, rate: ShareRate): Result<int, RiskError> {
    MulDiv(shares, rate.denominator, rate.numerator, Down)
  }

  function SharesFromUnderlying(assets: int, rate: ShareRate): Result<int, RiskError> {
    MulDiv(assets, rate.numerator, rate.denominator, Down)
  }

  function Back(shares: int, rate: ShareRate): Result<int, RiskError> {
    match UnderlyingFromShares(shares, rate)
    case Err(e) => Err(e)
    case Ok(assets) => SharesFromUnderlying(assets, rate)
  }

  lemma {:induction false} FloorBounds(x: int, p: int)
    requires p > 0
    ensures x - p < (x / p) * p <= x
  {
    assert x == (x / p) * p + x % p;
  }

  lemma {:induction false} BackIs(shares: nat, rate: ShareRate)
    requires rate.numerator > 0 && rate.denominator > 0
    ensures var u := shares * rate.denominator / rate.numerator;
      && UnderlyingFromShares(shares, rate) == Ok(u) && u >= 0
      && Back(shares, rate) == Ok(u * rate.numerator / rate.denominator)
  {
    var u := shares * rate.denominator / rate.numerator;
    NonNegative(shares, rate.denominator);
    TruncatesDown(shares * rate.denominator, rate.numerator);
    NonNegative(u, rate.numerator);
    TruncatesDown(u * rate.numerator, rate.denominator);
  }

  /** Converting shares to assets and back never gains, loses less than (numerator + denominator) / denominator shares,
    * and loses nothing exactly when the assets come out whole. */
  lemma {:induction false} BackLosesLittle(shares: nat, rate: ShareRate)
    requires rate.numerator > 0 && rate.denominator > 0
    ensures Back(shares, rate).Ok? && Back(shares, rate).value <= shares
    ensures (shares - Back(shares, rate).value) * rate.denominator < rate.numerator + rate.denominator
    ensures Back(shares, rate).value == shares <==> shares * rate.denominator % rate.numerator == 0
  {
    var num, den := rate.numerator, rate.denominator;
    var x := shares * den;
    var u := x / num;
    var back := u * num / den;
    BackIs(shares, rate);
    FloorBounds(x, num);
    FloorBounds(u * num, den);
    FloorIff(u * num, den, shares);
    FloorIff(u * num, den, shares + 1);
    assert (shares + 1) * den == x + den;
    assert (shares - back) * den == x - back * den;
    assert x == u * num + x % num;
  }

  // ----- Attribution -----

  datatype FlowKind = Deposit | Withdrawal | Fee | RewardClaim
  datatype CashFlow = CashFlow(kind: FlowKind, amount: int)

  datatype Position = Position(
    currentValue: int, startingValue: int, shares: Option<int>,
    currentRate: Option<ShareRate>, initialRate: Option<ShareRate>, flows: seq<CashFlow>)

  datatype Attribution = Attribution(
    deposits: int, withdrawals: int, fees: int, claimed: int, costBasis: int,
    shareAppreciation: int, realizedGains: int, unattributedInflow: int, earnedYield: int)

  function OfKind(kind: FlowKind): (f: CashFlow -> int)
    ensures forall flow: CashFlow :: f(flow) == if flow.kind == kind then flow.amount else 0
  {
    (flow: CashFlow) => if flow.kind == kind then flow.amount else 0
  }

  function Total(flows: seq<CashFlow>, kind: FlowKind): int {
    Sum(OfKind(kind), flows)
  }

  function AtLeastZero(n: int): int {
    if n > 0 then n else 0
  }

  /** What the shares are worth now beyond what they were worth at first, or beyond the cost. */
  function ShareAppreciation(p: Position, costBasis: int): Result<int, RiskError> {
    if p.shares.None? || p.currentRate.None? then Ok(0)
    else match UnderlyingFromShares(p.shares.value, p.currentRate.value)
    case Err(e) => Err(e)
    case Ok(worth) =>
      if p.initialRate.None? then Ok(AtLeastZero(worth - costBasis))
      else match UnderlyingFromShares(p.shares.value, p.initialRate.value)
      case Err(e) => Err(e)
      case Ok(initial) => Ok(AtLeastZero(worth - initial))
  }

  /** Withdrawals beyond the deposits and claimed rewards, less the fees. */
  function RealizedGains(deposits: int, withdrawals: int, fees: int, claimed: int): int {
    AtLeastZero(AtLeastZero(withdrawals - deposits) + claimed - fees)
  }

  function Attributed(p: Position): Result<Attribution, RiskError> {
    var deposits, withdrawals := Total(p.flows, Deposit), Total(p.flows, Withdrawal);
    var fees, claimed := Total(p.flows, Fee), Total(p.flows, RewardClaim);
    var net := deposits - withdrawals;
    match ShareAppreciation(p, AtLeastZero(net))
    case Err(e) => Err(e)
    case Ok(appreciation) =>
      var gains := RealizedGains(deposits, withdrawals, fees, claimed);
      Ok(Attribution(deposits, withdrawals, fees, claimed, AtLeastZero(net), appreciation, gains,
                     AtLeastZero(p.currentValue - (p.startingValue + net + appreciation)), appreciation + gains))
  }

  lemma {:induction false} TotalStep(flows: seq<CashFlow>, k: nat, kind: FlowKind)
    requires k < |flows|
    ensures Total(flows[..k + 1], kind)
         == Total(flows[..k], kind) + if flows[k].kind == kind then flows[k].amount else 0
  {
    assert flows[..k + 1] == flows[..k] + [flows[k]];
    SumAppend(OfKind(kind), flows[..k], [flows[k]]);
    SumOne(OfKind(kind), flows[k]);
  }

  method FlowTotals(flows: seq<CashFlow>) returns (deposits: int, withdrawals: int, fees: int, claimed: int)
    ensures deposits == Total(flows, Deposit) && withdrawals == Total(flows, Withdrawal)
    ensures fees == Total(flows, Fee) && claimed == Total(flows, RewardClaim)
  {
    deposits, withdrawals, fees, claimed := 0, 0, 0, 0;
    for k := 0 to |flows|
      invariant deposits == Total(flows[..k], Deposit) && withdrawals == Total(flows[..k], Withdrawal)
      invariant fees == Total(flows[..k], Fee) && claimed == Total(flows[..k], RewardClaim)
    {
      TotalStep(flows, k, Deposit);
      TotalStep(flows, k, Withdrawal);
      TotalStep(flows, k, Fee);
      TotalStep(flows, k, RewardClaim);
      match flows[k].kind {
        case Deposit => deposits := deposits + flows[k].amount;
        case Withdrawal => withdrawals := withdrawals + flows[k].amount;
        case Fee => fees := fees + flows[k].amount;
        case RewardClaim => claimed := claimed + flows[k].amount;
      }
    }
    assert flows[..|flows|] == flows;
  }

  method AttributeCashFlowYield(p: Position) returns (result: Result<Attribution, RiskError>)
    ensures result == Attributed(p)
  {
    var deposits, withdrawals, fees, claimed := FlowTotals(p.flows);
    var net := deposits - withdrawals;
    var costBasis := if net > 0 then net else 0;
    var appreciation := ShareAppreciation(p, costBasis);
    if appreciation.Err? {
      return Err(appreciation.error);
    }
    var gains := 0;
    if withdrawals > deposits {
      gains := withdrawals - deposits;
    }
    gains := gains + claimed;
    if gains > fees {
      gains := gains - fees;
    } else {
      gains := 0;
    }
    var expected := p.startingValue + net + appreciation.value;
    var unattributed := 0;
    if p.currentValue > expected {
      unattributed := p.currentValue - expected;
    }
    result := Ok(Attribution(deposits, withdrawals, fees, claimed, costBasis, appreciation.value, gains,
                             unattributed, appreciation.value + gains));
  }

  /** A cash flow counts in the total of its own kind with its amount, and in no other. */
  lemma {:induction false} FlowCounts(flows: seq<CashFlow>, k: nat, kind: FlowKind)
    requires k < |flows|
    ensures Total(flows, kind)
         == Total(Without(flows, k), kind) + if flows[k].kind == kind then flows[k].amount else 0
  {
    SumWithout(OfKind(kind), flows, k);
  }

  /** Attribution depends on which cash flows there were, not on their order. */
  lemma {:induction false} FlowsInAnyOrder(p: Position, flows: seq<CashFlow>)
    requires multiset(flows) == multiset(p.flows)
    ensures Attributed(p.(flows := flows)) == Attributed(p)
  {
    SumPermuted(OfKind(Deposit), flows, p.flows);
    SumPermuted(OfKind(Withdrawal), flows, p.flows);
    SumPermuted(OfKind(Fee), flows, p.flows);
    SumPermuted(OfKind(RewardClaim), flows, p.flows);
  }

  /** Realized gains are the least amount that, with the fees, covers the claimed rewards, and with the deposits besides
    * everything that came out. */
  lemma {:induction false} GainsAreLeast(deposits: int, withdrawals: int, fees: int, claimed: int, least: nat)
    ensures RealizedGains(deposits, withdrawals, fees, claimed) <= least <==>
      least + fees >= claimed && least + fees + deposits >= withdrawals + claimed
  {
    var beyond := AtLeastZero(withdrawals - deposits);
    assert beyond >= 0 && beyond >= withdrawals - deposits;
  }

  /** The value the cash flows and the share rate account for. */
  function Expected(p: Position): Result<int, RiskError> {
    match Attributed(p)
    case Err(e) => Err(e)
    case Ok(a) => Ok(p.startingValue + a.deposits - a.withdrawals + a.shareAppreciation)
  }

  /** A rise in the balance alone is never yield; it is unattributed in full exactly from the expected value on. */
  lemma {:induction false} RiseIsNotYield(p: Position, rise: nat)
    requires Attributed(p).Ok?
    ensures var higher := Attributed(p.(currentValue := p.currentValue + rise));
      && higher.Ok? && higher.value.earnedYield == Attributed(p).value.earnedYield
      && (higher.value.unattributedInflow == Attributed(p).value.unattributedInflow + rise <==>
            rise == 0 || p.currentValue >= Expected(p).value)
  {
    assert ShareAppreciation(p.(currentValue := p.currentValue + rise), 0) == ShareAppreciation(p, 0);
  }

  /** What the shares are worth over the cost shrinks with the deposit: no initial rate says otherwise. */
  predicate CostMatters(p: Position, amount: nat)
    requires Attributed(p).Ok?
  {
    var net := Total(p.flows, Deposit) - Total(p.flows, Withdrawal);
    && p.shares.Some? && p.currentRate.Some? && p.initialRate.None?
    && UnderlyingFromShares(p.shares.value, p.currentRate.value).value > AtLeastZero(net)
    && amount > 0 && net + amount > 0
  }

  /** The deposit makes up for withdrawals that were counted as a gain. */
  predicate GainMatters(p: Position, amount: nat) {
    var beyond := Total(p.flows, Withdrawal) - Total(p.flows, Deposit);
    amount > 0 && beyond > 0 && beyond + Total(p.flows, RewardClaim) > Total(p.flows, Fee)
  }

  function Deposited(p: Position, amount: nat): Position {
    p.(currentValue := p.currentValue + amount, flows := p.flows + [CashFlow(Deposit, amount)])
  }

  /** A deposit moves the deposits by its amount and no other total. */
  lemma {:induction false} DepositTotals(p: Position, amount: nat, kind: FlowKind)
    ensures Total(Deposited(p, amount).flows, kind) == Total(p.flows, kind) + if kind == Deposit then amount else 0
  {
    SumAppend(OfKind(kind), p.flows, [CashFlow(Deposit, amount)]);
    SumOne(OfKind(kind), CashFlow(Deposit, amount));
  }

  /**
   * A deposit already in the balance never adds yield. It leaves yield as it was exactly when it neither lowers
   * the shares' worth over the cost nor makes up for a counted gain, and then adds no unattributed inflow.
   */
  lemma {:induction false} DepositIsNotYield(p: Position, amount: nat)
    requires Attributed(p).Ok?
    ensures var before := Attributed(p).value;
      var after := Attributed(Deposited(p, amount));
      && after.Ok? && after.value.earnedYield <= before.earnedYield
      && (after.value.earnedYield == before.earnedYield <==> !CostMatters(p, amount) && !GainMatters(p, amount))
      && (!CostMatters(p, amount) ==> after.value.unattributedInflow == before.unattributedInflow)
      && after.value.costBasis == AtLeastZero(Total(p.flows, Deposit) - Total(p.flows, Withdrawal) + amount)
  {
    DepositTotals(p, amount, Deposit);
    DepositTotals(p, amount, Withdrawal);
    DepositTotals(p, amount, Fee);
    DepositTotals(p, amount, RewardClaim);
  }

  // ----- What the figures are -----

  /** What the shares are worth now is at most the appreciation over what they were worth at first, or else the cost. */
  lemma {:induction false} AppreciationIsLeast(p: Position, costBasis: int, least: nat)
    requires p.shares.Some? && p.shares.value >= 0 && p.currentRate.Some?
    requires p.currentRate.value.numerator > 0 && p.currentRate.value.denominator >= 0
    requires p.initialRate.Some? ==> p.initialRate.value.numerator > 0 && p.initialRate.value.denominator >= 0
    ensures var worth := p.shares.value * p.currentRate.value.denominator / p.currentRate.value.numerator;
      var before := if p.initialRate.None? then costBasis
                    else p.shares.value * p.initialRate.value.denominator / p.initialRate.value.numerator;
      var appreciation := ShareAppreciation(p, costBasis);
      appreciation.Ok? && appreciation.value >= 0 && (appreciation.value <= least <==> worth <= before + least)
  {
    NonNegative(p.shares.value, p.currentRate.value.denominator);
    TruncatesDown(p.shares.value * p.currentRate.value.denominator, p.currentRate.value.numerator);
    if p.initialRate.Some? {
      NonNegative(p.shares.value, p.initialRate.value.denominator);
      TruncatesDown(p.shares.value * p.initialRate.value.denominator, p.initialRate.value.numerator);
    }
  }

  /** Without shares or a rate nothing appreciates. */
  lemma {:induction false} NothingAppreciates(p: Position, costBasis: int)
    requires p.shares.None? || p.currentRate.None?
    ensures ShareAppreciation(p, costBasis) == Ok(0)
  {
  }

  /**
   * Yield is what the shares gained and what was realized; the cost is what was put in and not taken out, and what the
   * balance holds beyond everything accounted for is unattributed.
   */
  lemma {:induction false} FiguresAdd(p: Position, least: nat)
    requires Attributed(p).Ok?
    ensures var a := Attributed(p).value;
      && a.earnedYield == a.shareAppreciation + a.realizedGains
      && a.costBasis >= 0 && (a.costBasis <= least <==> a.deposits <= a.withdrawals + least)
      && a.unattributedInflow >= 0
      && (a.unattributedInflow <= least <==>
            p.currentValue + a.withdrawals <= p.startingValue + a.deposits + a.shareAppreciation + least)
      && a.realizedGains >= 0
      && (a.realizedGains <= least <==>
            least + a.fees >= a.claimed && least + a.fees + a.deposits >= a.withdrawals + a.claimed)
  {
    GainsAreLeast(Total(p.flows, Deposit), Total(p.flows, Withdrawal), Total(p.flows, Fee),
                  Total(p.flows, RewardClaim), least);
  }
}
