/** Reading a position's health, and stressing it by shifting the collateral price. */
module RiskReport {
  import opened Wrappers
  import opened Arith
  import opened Decimal
  import opened Risk

  datatype Reading = Reading(healthFactorBps: int, currentLtvBps: int, liquidatable: bool, withinBorrowCap: bool,
                             withinBuffer: bool, healthy: bool, stale: bool)

  function Interpret(health: Health, params: Params): Reading {
    Reading(health.healthFactorBps, health.currentLtvBps,
            !health.stale && health.debtUsd > 0 && health.currentLtvBps >= params.ltvLiqBps,
            !health.stale && health.currentLtvBps <= params.ltvBorrowBps,
            health.withinBuffer, health.healthy, health.stale)
  }

  predicate Liquidatable(health: Health, params: Params) {
    Interpret(health, params).liquidatable
  }

  /** Stale health marks a position as nothing at all. */
  lemma StaleMarksNothing(collateral: Side, debt: Side, params: Params, now: int)
    requires !BothCount(collateral, debt, now)
    ensures var health := ComputeHealth(collateral, debt, params, now);
      health.Ok? && Interpret(health.value, params) == Reading(0, 0, false, false, false, false, true)
  {
    WithheldIff(collateral, debt, params, now);
  }

  /** A debt of nothing is never liquidatable, and a stale figure is neither liquidatable nor within the cap. */
  lemma NeverLiquidatable(health: Health, params: Params)
    requires health.debtUsd <= 0 || health.stale
    ensures !Interpret(health, params).liquidatable
    ensures health.stale ==> !Interpret(health, params).withinBorrowCap && Interpret(health, params).stale
  {
  }

  // ----- Health factor against loan-to-value -----

  /**
   * A health factor below one says that loan-to-value is over the threshold; with worthless collateral only below
   * the sentinel.
   */
  lemma {:induction false} FactorBelowOneIff(c: int, d: int, m: int, params: Params)
    requires c >= 0 && d > 0 && Sane(params)
    ensures var health := HealthOf(c, d, m, params);
      (health.healthFactorBps < BPS <==> health.currentLtvBps > params.ltvLiqBps)
          <==> c > 0 || params.ltvLiqBps < SENTINEL
  {
    FactorAtLeastIff(c, d, params, BPS);
    if c > 0 {
      LtvAtMostIff(c, d, params.ltvLiqBps);
      assert c * params.ltvLiqBps == params.ltvLiqBps * c;
    }
  }

  /**
   * Liquidation starts one step earlier than the health factor says: exactly at the threshold the factor is still
   * at least one.
   */
  lemma {:induction false} LiquidatableAtOneIff(c: int, d: int, m: int, params: Params)
    requires c > 0 && d > 0 && Sane(params)
    ensures var health := HealthOf(c, d, m, params);
      Liquidatable(health, params) && health.healthFactorBps >= BPS <==> health.currentLtvBps == params.ltvLiqBps
  {
    FactorBelowOneIff(c, d, m, params);
  }

  /** The reading in money: each mark as a comparison of debt and collateral, without rounding. */
  lemma {:induction false} ReadInMoney(c: int, d: int, m: int, params: Params)
    requires c > 0 && d > 0 && Sane(params)
    ensures var reading := Interpret(HealthOf(c, d, m, params), params);
      && (reading.liquidatable <==> d * BPS > (params.ltvLiqBps - 1) * c)
      && (reading.withinBorrowCap <==> d * BPS <= params.ltvBorrowBps * c)
      && (reading.withinBuffer <==> d * BPS <= BufferLimit(params) * c)
      && (reading.healthy <==> d * BPS <= params.ltvBorrowBps * c && d * BPS <= params.ltvLiqBps * c)
  {
    LtvAtMostIff(c, d, params.ltvLiqBps - 1);
    LtvAtMostIff(c, d, params.ltvBorrowBps);
    LtvAtMostIff(c, d, BufferLimit(params));
    FactorAtLeastIff(c, d, params, BPS);
    assert c * params.ltvLiqBps == params.ltvLiqBps * c;
  }

  predicate Both(c: int, d: int, m: int, params: Params) {
    HealthOf(c, d, m, params).healthy && Liquidatable(HealthOf(c, d, m, params), params)
  }

  /**
   * A position is never both healthy and liquidatable exactly when borrowing stops below the threshold, or the
   * threshold is zero.
   */
  lemma {:induction false} NeverBothIff(params: Params)
    requires Sane(params)
    ensures params.ltvBorrowBps < params.ltvLiqBps || params.ltvLiqBps == 0
            <==> forall c: nat, d: nat, m: int :: !Both(c, d, m, params)
  {
    var liq := params.ltvLiqBps;
    if liq == 0 {
      forall c: nat, d: nat, m: int ensures !Both(c, d, m, params) {
        if d > 0 { FactorAtLeastIff(c, d, params, BPS); }
      }
    } else if params.ltvBorrowBps >= liq {
      LtvAtMostIff(BPS, liq, liq);
      LtvAtMostIff(BPS, liq, liq - 1);
      FactorAtLeastIff(BPS, liq, params, BPS);
      assert Both(BPS, liq, 0, params);
    }
  }

  // ----- Stress -----

  datatype Unavailable = CollateralStale | DebtStale | NoCollateralPrice | NoDebtPrice | ShiftUnsupported

  datatype Row = Row(shift: Option<int>, health: Result<Health, Unavailable>)

  /** A shift that is not a whole number of basis points is `None`. */
  function ShiftOraclePrice(basePrice: int, shift: Option<int>): Option<int> {
    if basePrice <= 0 || shift.None? || BPS + shift.value <= 0 then None
    else Some(Truncate(basePrice * (BPS + shift.value), BPS))
  }

  /** A price can be shifted when there is one, by whole basis points, as long as some of it is left. */
  lemma {:induction false} ShiftableIff(basePrice: int, shift: Option<int>)
    ensures ShiftOraclePrice(basePrice, shift).Some? <==> basePrice > 0 && shift.Some? && shift.value > -10_000
  {
  }

  function Blocker(collateral: Side, debt: Side, now: int): Option<Unavailable> {
    if !Fresh(collateral.oracle, now) then Some(CollateralStale)
    else if !Fresh(debt.oracle, now) then Some(DebtStale)
    else if collateral.oracle.price <= 0 then Some(NoCollateralPrice)
    else if debt.oracle.price <= 0 then Some(NoDebtPrice)
    else None
  }

  function Repriced(side: Side, price: int): Side {
    side.(oracle := side.oracle.(price := price))
  }

  function StressRow(collateral: Side, debt: Side, params: Params, now: int, shift: Option<int>): Result<Row, RiskError>
  {
    match Blocker(collateral, debt, now)
    case Some(reason) => Ok(Row(shift, Err(reason)))
    case None =>
      match ShiftOraclePrice(collateral.oracle.price, shift)
      case None => Ok(Row(shift, Err(ShiftUnsupported)))
      case Some(moved) =>
        match ComputeHealth(Repriced(collateral, moved), debt, params, now)
        case Err(e) => Err(e)
        case Ok(health) => Ok(Row(shift, Ok(health)))
  }

  /** Row i is the first that throws, with this error. */
  ghost predicate FirstThrows(collateral: Side, debt: Side, params: Params, now: int, shifts: seq<Option<int>>, i: nat,
                              error: RiskError)
  {
    && i < |shifts| && StressRow(collateral, debt, params, now, shifts[i]) == Err(error)
    && forall j | 0 <= j < i :: StressRow(collateral, debt, params, now, shifts[j]).Ok?
  }

  /** One row per shift, in order; the first that throws ends the report with its error. */
  function Stress(collateral: Side, debt: Side, params: Params, now: int, shifts: seq<Option<int>>)
    : (report: Result<seq<Row>, RiskError>)
    ensures report.Ok? ==> |report.value| == |shifts|
    ensures report.Ok? ==>
      forall i | 0 <= i < |shifts| :: StressRow(collateral, debt, params, now, shifts[i]) == Ok(report.value[i])
    ensures report.Err? ==> exists i: nat :: FirstThrows(collateral, debt, params, now, shifts, i, report.error)
  {
    if shifts == [] then Ok([])
    else match StressRow(collateral, debt, params, now, shifts[0])
    case Err(e) =>
      assert FirstThrows(collateral, debt, params, now, shifts, 0, e);
      Err(e)
    case Ok(row) =>
      match Stress(collateral, debt, params, now, shifts[1..])
      case Err(e) =>
        ThrowsLater(collateral, debt, params, now, shifts, e);
        Err(e)
      case Ok(rest) => Ok([row] + rest)
  }

  lemma ThrowsLater(collateral: Side, debt: Side, params: Params, now: int, shifts: seq<Option<int>>, e: RiskError)
    requires shifts != [] && StressRow(collateral, debt, params, now, shifts[0]).Ok?
    requires exists i: nat :: FirstThrows(collateral, debt, params, now, shifts[1..], i, e)
    ensures exists i: nat :: FirstThrows(collateral, debt, params, now, shifts, i, e)
  {
    var i: nat :| FirstThrows(collateral, debt, params, now, shifts[1..], i, e);
    forall j | 0 <= j < i + 1 ensures StressRow(collateral, debt, params, now, shifts[j]).Ok? {
      if j > 0 { assert shifts[j] == shifts[1..][j - 1]; }
    }
    assert FirstThrows(collateral, debt, params, now, shifts, i + 1, e);
  }

  predicate RowLiquidatable(row: Result<Row, RiskError>, params: Params) {
    row.Ok? && row.value.health.Ok? && Liquidatable(row.value.health.value, params)
  }

  predicate Evidence(collateral: Side, debt: Side, params: Params, now: int) {
    Evidenced(collateral, now) && Evidenced(debt, now) && Sane(params)
  }

  /**
   * Why a row has no health: the first of a stale collateral price, a stale debt price, no collateral price, no debt
   * price, and a shift that is no whole number of basis points or leaves no price.
   */
  lemma {:induction false} RowBlockedIff(collateral: Side, debt: Side, params: Params, now: int, shift: Option<int>,
                                         reason: Unavailable)
    ensures var staleCollateral, staleDebt := !Fresh(collateral.oracle, now), !Fresh(debt.oracle, now);
      var priced := collateral.oracle.price > 0 && debt.oracle.price > 0;
      StressRow(collateral, debt, params, now, shift) == Ok(Row(shift, Err(reason))) <==>
        match reason
        case CollateralStale => staleCollateral
        case DebtStale => !staleCollateral && staleDebt
        case NoCollateralPrice => !staleCollateral && !staleDebt && collateral.oracle.price <= 0
        case NoDebtPrice =>
          !staleCollateral && !staleDebt && collateral.oracle.price > 0 && debt.oracle.price <= 0
        case ShiftUnsupported =>
          !staleCollateral && !staleDebt && priced && (shift.None? || shift.value <= -10_000)
  {
  }

  /** A computable shift moves the price down to a whole unit, and a deeper one no less far. */
  lemma {:induction false} ShiftIs(basePrice: int, shift: int)
    requires basePrice > 0 && BPS + shift > 0
    ensures ShiftOraclePrice(basePrice, Some(shift)) == Some(basePrice * (BPS + shift) / BPS)
    ensures basePrice * (BPS + shift) / BPS >= 0
  {
    NonNegative(basePrice, BPS + shift);
    TruncatesDown(basePrice * (BPS + shift), BPS);
  }

  lemma {:induction false} CollateralFalls(side: Side, low: int, high: int)
    requires side.amount >= 0 && side.decimals >= 0 && low <= high
    ensures CollateralUsd(Repriced(side, low)) <= CollateralUsd(Repriced(side, high))
  {
    MulMono(low, high, side.amount);
    assert low * side.amount == side.amount * low && high * side.amount == side.amount * high;
    FloorMono(side.amount * low, side.amount * high, Pow10(side.decimals));
  }

  /** Less collateral is no safer, as long as the sentinel for worthless collateral is not below the threshold. */
  lemma {:induction false} LessIsNoSafer(less: int, more: int, d: int, m: int, n: int, params: Params)
    requires 0 <= less <= more && d >= 0 && Sane(params) && params.ltvLiqBps <= SENTINEL
    requires Liquidatable(HealthOf(more, d, m, params), params)
    ensures Liquidatable(HealthOf(less, d, n, params), params)
  {
    var liq := params.ltvLiqBps;
    if less > 0 {
      LtvAtMostIff(more, d, liq - 1);
      LtvAtMostIff(less, d, liq - 1);
      if liq > 0 {
        MulMono(less, more, liq - 1);
        assert (liq - 1) * less == less * (liq - 1) && (liq - 1) * more == more * (liq - 1);
      } else {
        assert (liq - 1) * less == -less;
      }
    }
  }

  function Moved(side: Side, shift: int): Side {
    Repriced(side, side.oracle.price * (BPS + shift) / BPS)
  }

  lemma {:induction false} RowIs(collateral: Side, debt: Side, params: Params, now: int, shift: int)
    requires Evidence(collateral, debt, params, now) && BPS + shift > 0
    ensures var moved := Moved(collateral, shift);
      StressRow(collateral, debt, params, now, Some(shift))
      == Ok(Row(Some(shift), Ok(HealthOf(CollateralUsd(moved), DebtUsd(debt), MaxBorrow(moved, debt, params), params))))
  {
    ShiftIs(collateral.oracle.price, shift);
    HealthIs(Moved(collateral, shift), debt, params, now);
  }

  lemma {:induction false} MovesDown(side: Side, now: int, deeper: int, shift: int)
    requires Evidenced(side, now) && -BPS < deeper <= shift
    ensures 0 <= CollateralUsd(Moved(side, deeper)) <= CollateralUsd(Moved(side, shift))
  {
    var base := side.oracle.price;
    ShiftIs(base, deeper);
    MulMono(BPS + deeper, BPS + shift, base);
    assert base * (BPS + deeper) <= base * (BPS + shift);
    FloorMono(base * (BPS + deeper), base * (BPS + shift), BPS);
    CollateralFalls(side, base * (BPS + deeper) / BPS, base * (BPS + shift) / BPS);
    NotionalsAre(Moved(side, deeper), now);
  }

  /** What is liquidatable stays so under every deeper computable shift. */
  lemma {:induction false} DeeperStaysLiquidatable(collateral: Side, debt: Side, params: Params, now: int, deeper: int,
                                                   shift: int)
    requires Evidence(collateral, debt, params, now) && params.ltvLiqBps <= SENTINEL && -BPS < deeper <= shift
    requires RowLiquidatable(StressRow(collateral, debt, params, now, Some(shift)), params)
    ensures RowLiquidatable(StressRow(collateral, debt, params, now, Some(deeper)), params)
  {
    RowIs(collateral, debt, params, now, deeper);
    RowIs(collateral, debt, params, now, shift);
    MovesDown(collateral, now, deeper, shift);
    NotionalsAre(debt, now);
    LessIsNoSafer(CollateralUsd(Moved(collateral, deeper)), CollateralUsd(Moved(collateral, shift)), DebtUsd(debt),
                  MaxBorrow(Moved(collateral, shift), debt, params),
                  MaxBorrow(Moved(collateral, deeper), debt, params), params);
  }

  /** Stress is monotone for this threshold: over every position and every pair of computable shifts. */
  ghost predicate StressMonotone(liq: int) {
    forall collateral, debt, params, now, deeper, shift
      | Evidence(collateral, debt, params, now) && params.ltvLiqBps == liq && -BPS < deeper <= shift
        && RowLiquidatable(StressRow(collateral, debt, params, now, Some(shift)), params)
      :: RowLiquidatable(StressRow(collateral, debt, params, now, Some(deeper)), params)
  }

  /** One unit of collateral at one unit of price, and a debt worth the threshold. */
  function Edge(amount: int): Side {
    Side(amount, 0, Oracle(1, 8, Some(0), false, 0, false))
  }

  /** Rounded to nothing, the collateral turns a liquidatable position into one that is not. */
  lemma {:induction false} RoundedAwayIsSafe(liq: int)
    requires liq > SENTINEL
    ensures var params := Params(0, liq, 0);
      && Evidence(Edge(1), Edge(liq), params, 0)
      && RowLiquidatable(StressRow(Edge(1), Edge(liq), params, 0, Some(0)), params)
      && !RowLiquidatable(StressRow(Edge(1), Edge(liq), params, 0, Some(-1)), params)
  {
    var params := Params(0, liq, 0);
    RowIs(Edge(1), Edge(liq), params, 0, 0);
    RowIs(Edge(1), Edge(liq), params, 0, -1);
    LtvAtMostIff(1, liq, liq - 1);
  }

  lemma {:induction false} StressMonotoneIff(liq: nat)
    ensures StressMonotone(liq) <==> liq <= SENTINEL
  {
    if liq <= SENTINEL {
      forall collateral, debt, params, now, deeper, shift
        | Evidence(collateral, debt, params, now) && params.ltvLiqBps == liq && -BPS < deeper <= shift
          && RowLiquidatable(StressRow(collateral, debt, params, now, Some(shift)), params)
        ensures RowLiquidatable(StressRow(collateral, debt, params, now, Some(deeper)), params)
      {
        DeeperStaysLiquidatable(collateral, debt, params, now, deeper, shift);
      }
    } else {
      RoundedAwayIsSafe(liq);
    }
  }
}
