/**
 * The derived figures of src/app/components/PortfolioMetrics.tsx: the
 * percentage change, its up/down badge, and the profit card.
 */
module PortfolioMetricsView {
  import opened Portfolio

  /**
   * A JavaScript number as far as this arithmetic needs it: a finite value
   * (exact, no rounding), an infinity, or NaN.
   */
  datatype Number = Finite(value: real) | PosInfinity | NegInfinity | NaN

  /** `a / b` on finite operands: division by zero gives an infinity of the numerator's sign, or NaN for 0 / 0. */
  function Divide(a: real, b: real): (q: Number)
    ensures b != 0.0 ==> q == Finite(a / b)
    ensures b == 0.0 ==> (q.NaN? <==> a == 0.0) && (q == PosInfinity <==> a > 0.0) && (q == NegInfinity <==> a < 0.0)
  {
    if b != 0.0 then Finite(a / b)
    else if a > 0.0 then PosInfinity
    else if a < 0.0 then NegInfinity
    else NaN
  }

  /** `x * k` for a positive finite `k`. */
  function Scale(x: Number, k: real): Number
    requires k > 0.0
  {
    match x
    case Finite(v) => Finite(v * k)
    case _ => x
  }

  /** `x >= 0`; every comparison with NaN is false. */
  predicate AtLeastZero(x: Number) {
    (x.Finite? && x.value >= 0.0) || x.PosInfinity?
  }

  /** `Math.abs(x)`. */
  function Abs(x: Number): (r: Number)
    ensures r.NaN? <==> x.NaN?
    ensures r.Finite? <==> x.Finite?
    ensures r.Finite? ==> r.value >= 0.0 && (r.value == x.value || r.value == -x.value)
    ensures !r.Finite? && !r.NaN? ==> r == PosInfinity
  {
    match x
    case Finite(v) => Finite(if v < 0.0 then -v else v)
    case NaN => NaN
    case _ => PosInfinity
  }

  /** `((currentValue - totalInvested) / totalInvested) * 100`. */
  function PercentageChange(m: Totals): Number {
    Scale(Divide(m.currentValue - m.totalInvested, m.totalInvested), 100.0)
  }

  datatype Arrow = Up | Down

  /** The header badge: green with "↑" when the change is at least 0, red with "↓" otherwise, and the change's magnitude. */
  datatype Badge = Badge(arrow: Arrow, green: bool, shown: Number)

  function ChangeBadge(m: Totals): (b: Badge)
    ensures b.green <==> b.arrow == Up
    ensures b.shown == Abs(PercentageChange(m))
    ensures m.totalInvested > 0.0 ==> (b.arrow == Up <==> m.currentValue >= m.totalInvested)
    ensures m.totalInvested < 0.0 ==> (b.arrow == Up <==> m.currentValue <= m.totalInvested)
    ensures m.totalInvested == 0.0 ==> (b.arrow == Up <==> m.currentValue > 0.0)
  {
    var change := PercentageChange(m);
    assert m.totalInvested != 0.0 ==>
             (AtLeastZero(change) <==>
                || (m.currentValue >= m.totalInvested && m.totalInvested > 0.0)
                || (m.currentValue <= m.totalInvested && m.totalInvested < 0.0)) by {
      if m.totalInvested != 0.0 {
        QuotientSign(m.currentValue - m.totalInvested, m.totalInvested);
      }
    }
    if AtLeastZero(change) then Badge(Up, true, Abs(change)) else Badge(Down, false, Abs(change))
  }

  lemma QuotientSign(a: real, b: real)
    requires b != 0.0
    ensures a / b * 100.0 >= 0.0 <==> (a >= 0.0 && b > 0.0) || (a <= 0.0 && b < 0.0)
  {
    var q := a / b;
    assert a == q * b;
    if b > 0.0 {
      if q < 0.0 { assert q * b < 0.0; }
      if q >= 0.0 { assert q * b >= 0.0; }
    } else {
      if q < 0.0 { assert q * b > 0.0; }
      if q > 0.0 { assert q * b < 0.0; }
    }
  }

  /** A break-even portfolio shows "↑ 0.00%". */
  lemma BreakEvenShowsUp(m: Totals)
    requires m.totalInvested != 0.0 && m.currentValue == m.totalInvested
    ensures ChangeBadge(m) == Badge(Up, true, Finite(0.0))
  {
  }

  datatype Trend = TrendingUp | TrendingDown

  /** The profit card: icon and colour from the sign of the profit, and its absolute value. */
  datatype ProfitCard = ProfitCard(trend: Trend, green: bool, amount: real)

  function Profit(m: Totals): (c: ProfitCard)
    ensures c.trend == TrendingUp <==> m.totalProfit >= 0.0
    ensures c.green <==> c.trend == TrendingUp
    ensures c.amount >= 0.0 && (c.amount == m.totalProfit || c.amount == -m.totalProfit)
  {
    if m.totalProfit >= 0.0 then ProfitCard(TrendingUp, true, m.totalProfit)
    else ProfitCard(TrendingDown, false, -m.totalProfit)
  }

  /** The profit card and the badge agree for a portfolio that cost something. */
  lemma ProfitAgreesWithBadge(stocks: seq<Holding>)
    requires CalculateMetrics(stocks).totalInvested > 0.0
    ensures var m := CalculateMetrics(stocks);
            (Profit(m).trend == TrendingUp) <==> (ChangeBadge(m).arrow == Up)
  {
  }

  /**
   * As written: an empty portfolio divides 0 by 0, so the badge is a red "↓"
   * showing NaN.
   */
  lemma EmptyPortfolioShowsNaN()
    ensures ChangeBadge(CalculateMetrics([])) == Badge(Down, false, NaN)
  {
  }

  /** Corrected: no investment means no change, 0 rather than NaN or an infinity. */
  function GuardedPercentageChange(m: Totals): (r: Number)
    ensures r.Finite?
    ensures m.totalInvested != 0.0 ==> r == PercentageChange(m)
    ensures m.totalInvested == 0.0 ==> r == Finite(0.0)
  {
    if m.totalInvested == 0.0 then Finite(0.0) else PercentageChange(m)
  }

  /** The corrected badge, which never shows NaN and shows "↑ 0.00%" for an empty portfolio. */
  function GuardedChangeBadge(m: Totals): (b: Badge)
    ensures b.shown.Finite?
    ensures m.totalInvested != 0.0 ==> b == ChangeBadge(m)
    ensures m.totalInvested == 0.0 ==> b == Badge(Up, true, Finite(0.0))
  {
    var change := GuardedPercentageChange(m);
    if AtLeastZero(change) then Badge(Up, true, Abs(change)) else Badge(Down, false, Abs(change))
  }
}
