/** Resolution and chart dispatch, the body of `if execute and command:`
    (app.py:426-512) without its markup: what the output panel shows for a
    parsed command, and which illustrative chart, if any, is drawn. */
module Resolver {
  import opened Wrappers
  import opened Parser
  import opened KnowledgeBase

  /** What the output panel shows. A global function is echoed without looking
      at the table; a function under a context is either documented, with its
      descriptor and chart, or shown as recognized but not documented. */
  datatype Plan =
    | Global(code: string)
    | Undocumented(context: string, code: string)
    | Documented(context: string, code: string, descriptor: Descriptor, chart: Chart)

  /** The branches at app.py:434-443 and 511-512. */
  function Resolve(kb: map<string, Descriptor>, c: Command): (p: Plan)
    ensures p.code == c.code
    ensures c.context.None? <==> p.Global?
    ensures c.context.Some? ==> !p.Global? && p.context == c.context.value
    ensures c.context.Some? ==> (p.Documented? <==> c.code in kb)
    ensures p.Documented? ==> c.code in kb && p.descriptor == kb[c.code] && p.chart == kb[c.code].chart
  {
    match c.context
    case None => Global(c.code)
    case Some(ctx) =>
      if c.code in kb then Documented(ctx, c.code, kb[c.code], kb[c.code].chart)
      else Undocumented(ctx, c.code)
  }

  /** A global function never consults the table: any two tables give the same
      plan. */
  lemma GlobalIgnoresKb(kb1: map<string, Descriptor>, kb2: map<string, Descriptor>, code: string)
    ensures Resolve(kb1, Command(None, code)) == Resolve(kb2, Command(None, code)) == Global(code)
  {
  }

  /** What each chart branch draws, with the fixed integer data it plots; the
      random and floating-point series are not modelled. */
  datatype Figure =
    | CurvePlot(maturities: seq<int>, spreads: seq<int>)
    | PricePlot(days: seq<int>, level: int)
    | PdPlot(horizons: seq<int>)
    | MarketPlot(years: seq<int>, spreads: seq<int>, title: string)
    | RotationPlot(title: string)
    | TrendPlot(steps: nat, level: int, title: string)

  /** The chart tag a figure belongs to. */
  function KindOf(f: Figure): Chart {
    match f
    case CurvePlot(_, _) => CreditCurve
    case PricePlot(_, _) => PriceCompare
    case PdPlot(_) => PdCurve
    case MarketPlot(_, _, _) => CreditMarket
    case RotationPlot(_) => RrgQuadrant
    case TrendPlot(_, _, _) => TechnicalPrice
  }

  /** Each value is larger than the one before it. */
  predicate Increasing(xs: seq<int>) {
    forall i :: 0 < i < |xs| ==> xs[i - 1] < xs[i]
  }

  /** A plottable figure: its x-values increase and, where y-values are given,
      there is one per x-value. */
  predicate Plottable(f: Figure) {
    match f
    case CurvePlot(x, y) => Increasing(x) && |x| == |y|
    case PricePlot(d, _) => Increasing(d)
    case PdPlot(h) => Increasing(h)
    case MarketPlot(t, y, _) => Increasing(t) && |t| == |y|
    case RotationPlot(_) => true
    case TrendPlot(n, _, _) => n > 0
  }

  /** The `elif` chain at app.py:468-508: no chart for a descriptor without
      one, and otherwise exactly the figure of that tag. */
  function FigureFor(tag: Chart): (f: Option<Figure>)
    ensures f.None? <==> tag == NoChart
    ensures f.Some? ==> KindOf(f.value) == tag && Plottable(f.value)
  {
    match tag
    case NoChart => None
    case CreditCurve => Some(CurvePlot([1, 3, 5, 7, 10], [120, 140, 160, 180, 200]))
    case PriceCompare => Some(PricePlot([1, 2, 3, 4, 5, 6, 7, 8, 9, 10], 100))
    case PdCurve => Some(PdPlot([1, 2, 3, 5, 7, 10]))
    case CreditMarket =>
      Some(MarketPlot([2018, 2019, 2020, 2021, 2022, 2023, 2024, 2025],
                      [90, 110, 180, 140, 160, 155, 150, 145],
                      "Corporate Credit Spread Index (bps)"))
    case RrgQuadrant => Some(RotationPlot("Relative Rotation Graph (Pedagogical)"))
    case TechnicalPrice => Some(TrendPlot(100, 100, "Price Chart with Trend (Mock)"))
  }

  /** Distinct tags draw distinct things: the dispatch loses no information. */
  lemma FigureForInjective(a: Chart, b: Chart)
    requires FigureFor(a) == FigureFor(b)
    ensures a == b
  {
  }

  /** The figure a plan draws: at most one, and only for a documented function
      whose descriptor names a chart. */
  function Drawn(p: Plan): (f: Option<Figure>)
    ensures f.Some? <==> p.Documented? && p.chart != NoChart
    ensures f.Some? ==> KindOf(f.value) == p.chart
  {
    if p.Documented? then FigureFor(p.chart) else None
  }
}
