/** Loan health in fixed-point money: notional values, loan-to-value, health factor and the largest safe debt. */
module Risk {
  import opened Wrappers
  import opened Arith
  import opened Decimal

  datatype Rounding = Down | Up
  datatype RiskError = DivisionByZero | NegativeDecimals | BadScale

  const BPS: int := 10000
  const SENTINEL: int := 100000

  /** Division of big integers drops the fraction, toward zero. */
  function Truncate(x: int, y: int): int
    requires y != 0
  {
    if x >= 0 then x / y else -((-x) / y)
  }

  function MulDiv(value: int, numerator: int, denominator: int, rounding: Rounding): Result<int, RiskError> {
    if denominator == 0 then Err(DivisionByZero)
    else match rounding
    case Down => Ok(Truncate(value * numerator, denominator))
    case Up => Ok(Truncate(value * numerator + denominator - 1, denominator))
  }

  predicate IsFloor(q: int, x: int, y: int) {
    q * y <= x < (q + 1) * y
  }

  predicate IsCeiling(q: int, x: int, y: int) {
    (q - 1) * y < x <= q * y
  }

  lemma {:induction false} TruncateFloorIff(x: int, y: int)
    requires y > 0
    ensures IsFloor(Truncate(x, y), x, y) <==> x >= 0 || x % y == 0
  {
    if x >= 0 {
      var q := x / y;
      assert x == q * y + x % y;
      assert (q + 1) * y == q * y + y;
    } else {
      var q := (-x) / y;
      assert -x == q * y + (-x) % y;
      assert (-q) * y == -(q * y) && (-q + 1) * y == -(q * y) + y;
      NegativeRemainder(x, y);
    }
  }

  lemma {:induction false} NegativeRemainder(x: int, y: int)
    requires y > 0
    ensures (-x) % y == 0 <==> x % y == 0
  {
    var a, b := x / y, (-x) / y;
    assert x == a * y + x % y && -x == b * y + (-x) % y;
    assert (a + b) * y == a * y + b * y;
    if x % y == 0 || (-x) % y == 0 {
      var r := x % y + (-x) % y;
      assert (a + b) * y == -r;
      if a + b <= -1 { MulMono(a + b, -1, y); }
      if a + b >= 1 { MulMono(1, a + b, y); }
    }
  }

  /**
   * Exactly when "down" is the floor and "up" the ceiling: always for non-negative products, not for every
   * negative one.
   */
  lemma {:induction false} RoundingExactIff(value: int, numerator: int, denominator: int)
    requires denominator > 0
    ensures var x := value * numerator;
      && (IsFloor(MulDiv(value, numerator, denominator, Down).value, x, denominator) <==>
          x >= 0 || x % denominator == 0)
      && (IsCeiling(MulDiv(value, numerator, denominator, Up).value, x, denominator) <==>
            x + denominator - 1 >= 0 || (x + denominator - 1) % denominator == 0)
  {
    var x := value * numerator;
    TruncateFloorIff(x, denominator);
    TruncateFloorIff(x + denominator - 1, denominator);
    var q := Truncate(x + denominator - 1, denominator);
    assert (q + 1) * denominator == q * denominator + denominator;
    assert (q - 1) * denominator == q * denominator - denominator;
  }

  /** The loop that multiplies by ten computes the power, and refuses a negative exponent. */
  method PowerOfTen(decimals: int) returns (result: Result<int, RiskError>)
    ensures decimals < 0 ==> result == Err(NegativeDecimals)
    ensures decimals >= 0 ==> result == Ok(Pow10(decimals))
  {
    if decimals < 0 {
      return Err(NegativeDecimals);
    }
    var out := 1;
    for i := 0 to decimals
      invariant out == Pow10(i)
    {
      out := out * 10;
    }
    result := Ok(out);
  }

  /** `observedAt` in milliseconds, when it is a date; `disputed` when the price sources disagree. */
  datatype Oracle = Oracle(price: int, scale: int, observedAt: Option<int>, stale: bool, maxAgeMs: int, disputed: bool)
  datatype Side = Side(amount: int, decimals: int, oracle: Oracle)
  datatype Params = Params(ltvBorrowBps: int, ltvLiqBps: int, bufferBps: int)

  datatype Health = Health(
    collateralUsd: int, debtUsd: int, currentLtvBps: int, healthFactorBps: int, maxBorrow: int,
    liquidationThresholdBps: int, withinBuffer: bool, healthy: bool, stale: bool)

  predicate Fresh(oracle: Oracle, now: int) {
    !oracle.stale && oracle.observedAt.Some? && 0 <= now - oracle.observedAt.value <= oracle.maxAgeMs
  }

  function UsdNotional(side: Side, rounding: Rounding): Result<int, RiskError> {
    if side.oracle.scale != 8 then Err(BadScale)
    else if side.decimals < 0 then Err(NegativeDecimals)
    else MulDiv(side.amount, side.oracle.price, Pow10(side.decimals), rounding)
  }

  function Withheld(params: Params): Health {
    Health(0, 0, 0, 0, 0, params.ltvLiqBps, false, false, true)
  }

  function BufferLimit(params: Params): int {
    if params.ltvBorrowBps > params.bufferBps then params.ltvBorrowBps - params.bufferBps else 0
  }

  function LoanToValue(collateralUsd: int, debtUsd: int): int {
    if collateralUsd == 0 then SENTINEL else MulDiv(debtUsd, BPS, collateralUsd, Up).value
  }

  function HealthFactor(collateralUsd: int, debtUsd: int, params: Params): int {
    if debtUsd == 0 then SENTINEL else MulDiv(collateralUsd * params.ltvLiqBps, 1, debtUsd, Down).value
  }

  function HealthOf(collateralUsd: int, debtUsd: int, maxBorrow: int, params: Params): Health {
    var ltv := LoanToValue(collateralUsd, debtUsd);
    var factor := HealthFactor(collateralUsd, debtUsd, params);
    Health(collateralUsd, debtUsd, ltv, factor, maxBorrow, params.ltvLiqBps,
           debtUsd == 0 || ltv <= BufferLimit(params), factor >= BPS && ltv <= params.ltvBorrowBps, false)
  }

  function ComputeHealth(collateral: Side, debt: Side, params: Params, now: int): Result<Health, RiskError> {
    if collateral.oracle.disputed || debt.oracle.disputed then Ok(Withheld(params))
    else if !Fresh(collateral.oracle, now) || !Fresh(debt.oracle, now) then Ok(Withheld(params))
    else
      match UsdNotional(collateral, Down)
      case Err(e) => Err(e)
      case Ok(collateralUsd) =>
        match UsdNotional(debt, Up)
        case Err(e) => Err(e)
        case Ok(debtUsd) =>
          var maxDebtUsd := MulDiv(collateralUsd, BufferLimit(params), BPS, Down).value;
          match MulDiv(maxDebtUsd, Pow10(debt.decimals), debt.oracle.price, Down)
          case Err(e) => Err(e)
          case Ok(maxBorrow) => Ok(HealthOf(collateralUsd, debtUsd, maxBorrow, params))
  }

  /** The debt after a change, never below zero; likewise the collateral. */
  function Clamped(before: int, delta: int): int {
    if before + delta < 0 then 0 else before + delta
  }

  function ProjectedHealth(collateral: Side, debt: Side, collateralDelta: int, debtDelta: int, params: Params, now: int)
    : Result<Health, RiskError>
  {
    ComputeHealth(collateral.(amount := Clamped(collateral.amount, collateralDelta)),
                  debt.(amount := Clamped(debt.amount, debtDelta)), params, now)
  }

  /** The price counts: undisputed, not marked stale, dated, not from the future and not too old. */
  predicate Counts(oracle: Oracle, now: int) {
    && !oracle.disputed && !oracle.stale
    && oracle.observedAt.Some? && oracle.observedAt.value <= now <= oracle.observedAt.value + oracle.maxAgeMs
  }

  predicate BothCount(collateral: Side, debt: Side, now: int) {
    Counts(collateral.oracle, now) && Counts(debt.oracle, now)
  }

  /** Every figure is withheld, and the position reads as unhealthy, exactly when one price does not count. */
  lemma WithheldIff(collateral: Side, debt: Side, params: Params, now: int)
    ensures var health := ComputeHealth(collateral, debt, params, now);
      if BothCount(collateral, debt, now) then health.Ok? ==> !health.value.stale
      else health == Ok(Health(0, 0, 0, 0, 0, params.ltvLiqBps, false, false, true))
  {
    var c, d := collateral.oracle, debt.oracle;
    assert Fresh(c, now) && !c.disputed <==> Counts(c, now);
    assert Fresh(d, now) && !d.disputed <==> Counts(d, now);
  }

  predicate WellFormed(side: Side) {
    side.oracle.scale == 8 && side.decimals >= 0
  }

  /** Otherwise health throws exactly on a price of another scale, negative decimals or a debt priced at zero. */
  lemma ThrowsIff(collateral: Side, debt: Side, params: Params, now: int)
    requires BothCount(collateral, debt, now)
    ensures ComputeHealth(collateral, debt, params, now).Err?
       <==> !WellFormed(collateral) || !WellFormed(debt) || debt.oracle.price == 0
    ensures WellFormed(collateral) && WellFormed(debt) && debt.oracle.price == 0 ==>
            ComputeHealth(collateral, debt, params, now) == Err(DivisionByZero)
  {
  }

  /** With nothing lent the ratio, and with nothing owed the factor, is reported as ten; owing nothing is safe. */
  lemma NothingToDivide(worth: int, m: int, params: Params)
    ensures HealthOf(0, worth, m, params).currentLtvBps == 100_000
    ensures HealthOf(worth, 0, m, params).healthFactorBps == 100_000 && HealthOf(worth, 0, m, params).withinBuffer
  {
  }

  /** A projection is the health of the amounts after the change, where more taken out than there is leaves nothing. */
  lemma ProjectionIs(collateral: Side, debt: Side, collateralAfter: nat, debtAfter: nat, collateralDelta: int,
                     debtDelta: int, params: Params, now: int)
    requires collateral.amount + collateralDelta == collateralAfter
             || (collateral.amount + collateralDelta < 0 && collateralAfter == 0)
    requires debt.amount + debtDelta == debtAfter || (debt.amount + debtDelta < 0 && debtAfter == 0)
    ensures ProjectedHealth(collateral, debt, collateralDelta, debtDelta, params, now)
         == ComputeHealth(collateral.(amount := collateralAfter), debt.(amount := debtAfter), params, now)
  {
  }

  // ----- Positions with evidence -----

  /** Nothing negative, proper scale, fresh and undisputed. */
  predicate Known(side: Side, now: int) {
    && side.amount >= 0 && side.decimals >= 0 && side.oracle.price >= 0 && side.oracle.scale == 8
    && Fresh(side.oracle, now) && !side.oracle.disputed
  }

  predicate Evidenced(side: Side, now: int) {
    Known(side, now) && side.oracle.price > 0
  }

  predicate Sane(params: Params) {
    params.ltvBorrowBps >= 0 && params.ltvLiqBps >= 0 && params.bufferBps >= 0
  }

  function CollateralUsd(side: Side): int
    requires side.decimals >= 0
  {
    side.amount * side.oracle.price / Pow10(side.decimals)
  }

  function DebtUsd(side: Side): int
    requires side.decimals >= 0
  {
    (side.amount * side.oracle.price + Pow10(side.decimals) - 1) / Pow10(side.decimals)
  }

  /** The largest debt value, then the largest debt amount, that the buffer allows. */
  function MaxDebtUsd(collateralUsd: int, params: Params): int {
    collateralUsd * BufferLimit(params) / BPS
  }

  function MaxBorrow(collateral: Side, debt: Side, params: Params): int
    requires collateral.decimals >= 0 && debt.decimals >= 0 && debt.oracle.price > 0
  {
    MaxDebtUsd(CollateralUsd(collateral), params) * Pow10(debt.decimals) / debt.oracle.price
  }

  lemma {:induction false} NonNegative(a: int, b: int)
    requires a >= 0 && b >= 0
    ensures a * b >= 0
  {
  }

  lemma {:induction false} TruncatesDown(x: int, y: int)
    requires x >= 0 && y > 0
    ensures Truncate(x, y) == x / y >= 0
  {
    FloorIff(x, y, 0);
  }

  lemma {:induction false} NotionalsAre(side: Side, now: int)
    requires Known(side, now)
    ensures UsdNotional(side, Down) == Ok(CollateralUsd(side)) && CollateralUsd(side) >= 0
    ensures UsdNotional(side, Up) == Ok(DebtUsd(side)) && DebtUsd(side) >= 0
  {
    NonNegative(side.amount, side.oracle.price);
    TruncatesDown(side.amount * side.oracle.price, Pow10(side.decimals));
    TruncatesDown(side.amount * side.oracle.price + Pow10(side.decimals) - 1, Pow10(side.decimals));
  }

  /** On evidenced sides nothing is thrown, and every division is of non-negative numbers. */
  lemma {:induction false} HealthIs(collateral: Side, debt: Side, params: Params, now: int)
    requires Known(collateral, now) && Evidenced(debt, now) && Sane(params)
    ensures ComputeHealth(collateral, debt, params, now)
         == Ok(HealthOf(CollateralUsd(collateral), DebtUsd(debt), MaxBorrow(collateral, debt, params), params))
  {
    NotionalsAre(collateral, now);
    NotionalsAre(debt, now);
    var c := CollateralUsd(collateral);
    NonNegative(c, BufferLimit(params));
    NonNegative(MaxDebtUsd(c, params), Pow10(debt.decimals));
  }

  lemma {:induction false} LtvAtMostIff(c: int, d: int, limit: int)
    requires c > 0 && d >= 0
    ensures LoanToValue(c, d) <= limit <==> d * BPS <= limit * c
  {
    CeilIff(d * BPS, c, limit);
  }

  lemma {:induction false} FactorAtLeastIff(c: int, d: int, params: Params, bound: int)
    requires c >= 0 && d > 0 && params.ltvLiqBps >= 0
    ensures HealthFactor(c, d, params) >= bound <==> bound * d <= c * params.ltvLiqBps
  {
    NonNegative(c, params.ltvLiqBps);
    FloorIff(c * params.ltvLiqBps, d, bound);
  }

  /** A debt value is within the buffer exactly when it is at most the largest one. */
  lemma {:induction false} WithinBufferIff(c: int, d: int, m: int, params: Params)
    requires c > 0 && d >= 0 && Sane(params)
    ensures HealthOf(c, d, m, params).withinBuffer <==> d <= MaxDebtUsd(c, params)
  {
    var limit := BufferLimit(params);
    LtvAtMostIff(c, d, limit);
    NonNegative(c, limit);
    FloorIff(c * limit, BPS, d);
    assert limit * c == c * limit;
  }

  lemma {:induction false} DebtFitsIff(debt: Side, m: int)
    requires debt.decimals >= 0 && debt.oracle.price > 0
    ensures DebtUsd(debt) <= m <==> debt.amount <= m * Pow10(debt.decimals) / debt.oracle.price
  {
    CeilIff(debt.amount * debt.oracle.price, Pow10(debt.decimals), m);
    FloorIff(m * Pow10(debt.decimals), debt.oracle.price, debt.amount);
  }

  lemma {:induction false} NoCollateral(d: int, m: int, params: Params)
    requires d >= 0
    ensures HealthOf(0, d, m, params).withinBuffer <==> d == 0 || SENTINEL <= BufferLimit(params)
  {
  }

  lemma {:induction false} DebtIsNothingIff(debt: Side, now: int)
    requires Evidenced(debt, now)
    ensures DebtUsd(debt) == 0 <==> debt.amount == 0
  {
    NotionalsAre(debt, now);
    CeilIff(debt.amount * debt.oracle.price, Pow10(debt.decimals), 0);
    if debt.amount > 0 { MulMono(1, debt.amount, debt.oracle.price); }
  }

  /** The reported `maxBorrow` tells whether the debt is within the buffer. */
  predicate BorrowExact(collateral: Side, debt: Side, params: Params, now: int) {
    var health := ComputeHealth(collateral, debt, params, now);
    health.Ok? && (health.value.withinBuffer <==> debt.amount <= health.value.maxBorrow)
  }

  /** Despite four roundings `maxBorrow` is exact, for every debt amount, when the collateral is worth something. */
  lemma {:induction false} MaxBorrowExact(collateral: Side, debt: Side, params: Params, now: int)
    requires Known(collateral, now) && Evidenced(debt, now) && Sane(params)
    requires CollateralUsd(collateral) > 0 || BufferLimit(params) < SENTINEL
    ensures BorrowExact(collateral, debt, params, now)
  {
    HealthIs(collateral, debt, params, now);
    NotionalsAre(collateral, now);
    NotionalsAre(debt, now);
    var c, d, m := CollateralUsd(collateral), DebtUsd(debt), MaxBorrow(collateral, debt, params);
    DebtFitsIff(debt, MaxDebtUsd(c, params));
    if c > 0 {
      WithinBufferIff(c, d, m, params);
    } else {
      NoCollateral(d, m, params);
      DebtIsNothingIff(debt, now);
      assert MaxDebtUsd(0, params) == 0;
    }
  }

  /** Exactly then: with worthless collateral a limit at the sentinel lets any debt through. */
  lemma {:induction false} MaxBorrowExactIff(collateral: Side, debt: Side, params: Params, now: int)
    requires Known(collateral, now) && Evidenced(debt, now) && Sane(params)
    ensures CollateralUsd(collateral) > 0 || BufferLimit(params) < SENTINEL
       <==> forall amount: nat :: BorrowExact(collateral, debt.(amount := amount), params, now)
  {
    if CollateralUsd(collateral) > 0 || BufferLimit(params) < SENTINEL {
      forall amount: nat ensures BorrowExact(collateral, debt.(amount := amount), params, now) {
        MaxBorrowExact(collateral, debt.(amount := amount), params, now);
      }
    } else {
      var one := debt.(amount := 1);
      NotionalsAre(collateral, now);
      HealthIs(collateral, one, params, now);
      NotionalsAre(one, now);
      NoCollateral(DebtUsd(one), MaxBorrow(collateral, one, params), params);
      DebtFitsIff(one, 0);
      DebtIsNothingIff(one, now);
      assert MaxDebtUsd(0, params) == 0;
      assert !BorrowExact(collateral, debt.(amount := 1), params, now);
    }
  }

  /** Within the buffer a position is healthy, when borrowing stops at or below the liquidation threshold. */
  lemma {:induction false} WithinBufferIsHealthy(collateral: Side, debt: Side, params: Params, now: int)
    requires Known(collateral, now) && Evidenced(debt, now) && Sane(params)
    requires CollateralUsd(collateral) > 0 && params.ltvBorrowBps <= params.ltvLiqBps
    requires debt.amount <= MaxBorrow(collateral, debt, params)
    ensures ComputeHealth(collateral, debt, params, now).value.healthy
  {
    HealthIs(collateral, debt, params, now);
    NotionalsAre(debt, now);
    var c, d, limit := CollateralUsd(collateral), DebtUsd(debt), BufferLimit(params);
    DebtFitsIff(debt, MaxDebtUsd(c, params));
    WithinBufferIff(c, d, MaxBorrow(collateral, debt, params), params);
    LtvAtMostIff(c, d, params.ltvBorrowBps);
    if d > 0 {
      LtvAtMostIff(c, d, limit);
      FactorAtLeastIff(c, d, params, BPS);
      MulMono(limit, params.ltvBorrowBps, c);
      MulMono(params.ltvBorrowBps, params.ltvLiqBps, c);
      assert c * params.ltvLiqBps == params.ltvLiqBps * c;
    } else {
      NonNegative(params.ltvBorrowBps, c);
    }
  }

  /** How much more can be borrowed: a further debt stays in the buffer exactly up to the difference. */
  lemma {:induction false} BorrowRoom(collateral: Side, debt: Side, more: nat, params: Params, now: int)
    requires Known(collateral, now) && Evidenced(debt, now) && Sane(params) && CollateralUsd(collateral) > 0
    ensures var projected := ProjectedHealth(collateral, debt, 0, more, params, now);
      projected.Ok? && (projected.value.withinBuffer <==> more <= MaxBorrow(collateral, debt, params) - debt.amount)
  {
    MaxBorrowExact(collateral, debt.(amount := debt.amount + more), params, now);
    assert collateral.(amount := Clamped(collateral.amount, 0)) == collateral;
  }

  // ----- Slippage -----

  datatype SlippageError = BadSlippage

  function MinOutFromSpot(amountOut: int, slippageBps: int): Result<int, SlippageError> {
    if slippageBps < 0 || slippageBps >= BPS then Err(BadSlippage)
    else Ok(MulDiv(amountOut, BPS - slippageBps, BPS, Down).value)
  }

  /** The whole output can never be given up. */
  lemma SlippageRejectedIff(amountOut: int, slippageBps: int)
    ensures MinOutFromSpot(amountOut, slippageBps).Err? <==> slippageBps < 0 || slippageBps >= 10_000
  {
  }

  /** The least accepted output is the greatest one that gives up at least the allowed share. */
  lemma {:induction false} MinOutIsExact(amountOut: nat, slippageBps: int, floor: int)
    requires 0 <= slippageBps < BPS
    ensures floor <= MinOutFromSpot(amountOut, slippageBps).value
            <==> slippageBps * amountOut <= (amountOut - floor) * BPS
  {
    NonNegative(amountOut, BPS - slippageBps);
    FloorIff(amountOut * (BPS - slippageBps), BPS, floor);
    assert amountOut * (BPS - slippageBps) == amountOut * BPS - slippageBps * amountOut;
  }
}
