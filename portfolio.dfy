/**
 * A holding as the dashboards hold it, and `calculateMetrics`: the `reduce`
 * over the holdings that both dashboard pages use for their three totals.
 */
module Portfolio {

  /**
   * One position. Prices and quantities are exact reals here, not doubles.
   * `name` is the in-memory dashboard's `name` field; on the API-backed page and
   * in PortfolioCharts and PortfolioMetrics it stands for the row's `stockName`.
   */
  datatype Holding = Holding(id: int, name: string, ticker: string, quantity: real, buyPrice: real, currentPrice: real)

  datatype Totals = Totals(totalInvested: real, currentValue: real, totalProfit: real)

  /** The `reduce`'s initial accumulator. */
  const Zero := Totals(0.0, 0.0, 0.0)

  function Invested(h: Holding): real {
    h.quantity * h.buyPrice
  }

  function Current(h: Holding): real {
    h.quantity * h.currentPrice
  }

  /** The profit column of a holdings table row: `(currentPrice - buyPrice) * quantity`. */
  function RowProfit(h: Holding): real {
    (h.currentPrice - h.buyPrice) * h.quantity
  }

  /** The `reduce` callback. */
  function Accumulate(acc: Totals, h: Holding): Totals {
    var invested := Invested(h);
    var current := Current(h);
    Totals(acc.totalInvested + invested, acc.currentValue + current, acc.totalProfit + (current - invested))
  }

  /** `stocks.reduce(Accumulate, Zero)`: a left fold, so the last holding is added last. */
  function CalculateMetrics(stocks: seq<Holding>): (t: Totals)
    ensures t.totalProfit == t.currentValue - t.totalInvested
    decreases |stocks|
  {
    if stocks == [] then Zero
    else Accumulate(CalculateMetrics(stocks[..|stocks| - 1]), stocks[|stocks| - 1])
  }

  function Plus(a: Totals, b: Totals): Totals {
    Totals(a.totalInvested + b.totalInvested, a.currentValue + b.currentValue, a.totalProfit + b.totalProfit)
  }

  /** A holding's contribution to the totals; its profit part is the table row's profit. */
  lemma Contribution(h: Holding)
    ensures CalculateMetrics([h]) == Totals(Invested(h), Current(h), RowProfit(h))
  {
    assert [h][..0] == [];
  }

  /** Appending a holding adds exactly its contribution. */
  lemma MetricsAppend(stocks: seq<Holding>, h: Holding)
    ensures CalculateMetrics(stocks + [h]) == Plus(CalculateMetrics(stocks), CalculateMetrics([h]))
  {
    assert (stocks + [h])[..|stocks|] == stocks;
    Contribution(h);
  }

  /** The fold is additive: the totals of a concatenation are the sums of the totals. */
  lemma {:induction false} MetricsConcat(a: seq<Holding>, b: seq<Holding>)
    ensures CalculateMetrics(a + b) == Plus(CalculateMetrics(a), CalculateMetrics(b))
    decreases |b|
  {
    if b == [] {
      assert a + b == a;
    } else {
      var init, last := b[..|b| - 1], b[|b| - 1];
      assert b == init + [last];
      assert a + b == (a + init) + [last];
      MetricsAppend(a + init, last);
      MetricsConcat(a, init);
      MetricsAppend(init, last);
    }
  }

  /** The order of the holdings does not matter: swapping two blocks leaves the totals alone. */
  lemma MetricsSwap(a: seq<Holding>, b: seq<Holding>)
    ensures CalculateMetrics(a + b) == CalculateMetrics(b + a)
  {
    MetricsConcat(a, b);
    MetricsConcat(b, a);
  }
}
