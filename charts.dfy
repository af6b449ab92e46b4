/**
 * The chart data of src/app/components/PortfolioCharts.tsx: one composition
 * slice and one performance point per holding, in order.
 */
module PortfolioCharts {
  import opened Portfolio

  /** The palette; slice `i` takes colour `i % 6`. */
  const Colors: seq<string> := ["#0088FE", "#00C49F", "#FFBB28", "#FF8042", "#8884d8", "#82ca9d"]

  datatype Slice = Slice(name: string, value: real, qty: real, color: string)

  /** `compositionData`. */
  function CompositionData(stocks: seq<Holding>): seq<Slice> {
    seq(|stocks|, i requires 0 <= i < |stocks| =>
      Slice(stocks[i].name, stocks[i].quantity * stocks[i].buyPrice, stocks[i].quantity, Colors[i % |Colors|]))
  }

  /** Sum of the slice values (what the pie's angles are proportional to). */
  function TotalValue(slices: seq<Slice>): real
    decreases |slices|
  {
    if slices == [] then 0.0 else TotalValue(slices[..|slices| - 1]) + slices[|slices| - 1].value
  }

  /** One slice per holding, in order, named and sized after it. */
  lemma CompositionShape(stocks: seq<Holding>, i: int)
    requires 0 <= i < |stocks|
    ensures |CompositionData(stocks)| == |stocks|
    ensures CompositionData(stocks)[i].name == stocks[i].name
    ensures CompositionData(stocks)[i].value == Invested(stocks[i])
    ensures CompositionData(stocks)[i].qty == stocks[i].quantity
  {
  }

  /** Colours repeat with period 6 ... */
  lemma ColorsRepeat(stocks: seq<Holding>, i: int)
    requires 0 <= i && i + 6 < |stocks|
    ensures CompositionData(stocks)[i].color == CompositionData(stocks)[i + 6].color
  {
    assert (i + 6) % 6 == i % 6;
  }

  /** ... and no two slices fewer than 6 apart share one. */
  lemma NearbyColorsDiffer(stocks: seq<Holding>, i: int, j: int)
    requires 0 <= i < j < |stocks| && j - i < 6
    ensures CompositionData(stocks)[i].color != CompositionData(stocks)[j].color
  {
    assert i % 6 != j % 6;
  }

  /** The pie's total is the dashboard's total invested. */
  lemma {:induction false} CompositionTotal(stocks: seq<Holding>)
    ensures TotalValue(CompositionData(stocks)) == CalculateMetrics(stocks).totalInvested
    decreases |stocks|
  {
    if stocks != [] {
      var init := stocks[..|stocks| - 1];
      var slices := CompositionData(stocks);
      forall k | 0 <= k < |init| ensures slices[k] == CompositionData(init)[k] {
      }
      assert slices[..|slices| - 1] == CompositionData(init);
      CompositionTotal(init);
    }
  }

  const Red := "#FF0000"
  const StrokeGreen := "#82ca9d"

  datatype Point = Point(name: string, investment: real, currentValue: real, strokeColor: string)

  /** `strokeColor`: red when the simulated value `investment * 1.5` is below the investment. */
  function StrokeColor(investment: real): (c: string)
    ensures c == Red <==> investment < 0.0
    ensures c == Red || c == StrokeGreen
  {
    var totalValue := investment * 1.5;
    if totalValue < investment then Red else StrokeGreen
  }

  /** `performanceData` (its random `profit` field left out). */
  function PerformanceData(stocks: seq<Holding>): seq<Point> {
    seq(|stocks|, i requires 0 <= i < |stocks| =>
      var currentValue := stocks[i].quantity * stocks[i].buyPrice;
      Point(stocks[i].name, currentValue, currentValue * 1.5, StrokeColor(currentValue)))
  }

  /** One point per holding: its investment, and a current value half as much again. */
  lemma PerformanceShape(stocks: seq<Holding>, i: int)
    requires 0 <= i < |stocks|
    ensures |PerformanceData(stocks)| == |stocks|
    ensures PerformanceData(stocks)[i].investment == Invested(stocks[i])
    ensures PerformanceData(stocks)[i].currentValue == 1.5 * Invested(stocks[i])
    ensures PerformanceData(stocks)[i].strokeColor == Red <==> Invested(stocks[i]) < 0.0
  {
  }

  /** `performanceData.some(d => d.strokeColor === "#FF0000")`. */
  function AnyRed(points: seq<Point>): (b: bool)
    ensures b <==> exists i :: 0 <= i < |points| && points[i].strokeColor == Red
  {
    if points == [] then false
    else points[0].strokeColor == Red || AnyRed(points[1..])
  }

  datatype ChartType = Area | Bar | Line

  const SeriesGreen := "#37E05C"

  /** The colour of the current-value series: red if any point is red, a darker red in the bar and line charts. */
  function SeriesColor(points: seq<Point>, chart: ChartType): string {
    if AnyRed(points) then (if chart == Area then Red else "#D42712") else SeriesGreen
  }

  /** The series turns red exactly when some holding has a negative investment. */
  lemma SeriesRedIffNegativeInvestment(stocks: seq<Holding>, chart: ChartType)
    ensures SeriesColor(PerformanceData(stocks), chart) != SeriesGreen
            <==> exists i :: 0 <= i < |stocks| && Invested(stocks[i]) < 0.0
  {
    var points := PerformanceData(stocks);
    forall i | 0 <= i < |stocks| ensures points[i].strokeColor == Red <==> Invested(stocks[i]) < 0.0 {
      PerformanceShape(stocks, i);
    }
  }

  /** With no negative quantities or prices the series is always green. */
  lemma NonNegativeAlwaysGreen(stocks: seq<Holding>, chart: ChartType)
    requires forall i :: 0 <= i < |stocks| ==> stocks[i].quantity >= 0.0 && stocks[i].buyPrice >= 0.0
    ensures SeriesColor(PerformanceData(stocks), chart) == SeriesGreen
  {
    SeriesRedIffNegativeInvestment(stocks, chart);
    forall i | 0 <= i < |stocks| ensures Invested(stocks[i]) >= 0.0 {
      NonNegativeProduct(stocks[i].quantity, stocks[i].buyPrice);
    }
  }

  lemma NonNegativeProduct(a: real, b: real)
    requires a >= 0.0 && b >= 0.0
    ensures a * b >= 0.0
  {
  }
}
