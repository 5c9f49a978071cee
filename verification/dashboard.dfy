/**
 * The KPI strip and advice box of the dashboard page: indicators over the
 * whole fetched history, then the last `days` rows for display; the latest
 * net value and its change, the RSI with its hint, the percent distance to
 * the lower band and a first-match advice.
 */
module Dashboard {
  import opened Numeric
  import opened Indicators
  import Analysis

  datatype Advice = BuyTheDip | BandBreak | TakeProfit | RangeBound

  datatype RsiHint = Opportunity | Normal

  datatype Kpi = Kpi(nav: real, navDelta: real, rsi: Option<real>, hint: RsiHint,
                     dist: Float, advice: Advice)

  /** The RSI hint: an opportunity below 30, normal otherwise (including a missing RSI). */
  function Hint(rsi: Option<real>): (h: RsiHint)
    ensures h == Opportunity <==> Below(rsi, Analysis.OversoldLevel)
  {
    if Below(rsi, Analysis.OversoldLevel) then Opportunity else Normal
  }

  /**
   * Percent distance to the lower band. Unlike the daily report there is no
   * guard: a missing band propagates as NaN.
   */
  function Dist(price: real, low: Option<real>): (d: Float)
    ensures low.None? ==> d == NaN
    ensures low.Some? && low.value != 0.0 ==> d == Fin((price - low.value) / low.value * 100.0)
  {
    match low
    case None => NaN
    case Some(lo) => Times(Quotient(price - lo, lo), 100.0)
  }

  /** The advice rule: buy below RSI 30, then a band break, then take profit above 70, else range-bound. */
  function Advise(rsi: Option<real>, dist: Float): (a: Advice)
    ensures a == BuyTheDip <==> Below(rsi, Analysis.OversoldLevel)
    ensures a == BandBreak <==> !Below(rsi, Analysis.OversoldLevel) && IsNegative(dist)
    ensures a == TakeProfit <==>
              !Below(rsi, Analysis.OversoldLevel) && !IsNegative(dist) && Above(rsi, Analysis.OverheatedLevel)
    ensures a == RangeBound <==>
              !Below(rsi, Analysis.OversoldLevel) && !IsNegative(dist) && !Above(rsi, Analysis.OverheatedLevel)
  {
    if Below(rsi, Analysis.OversoldLevel) then BuyTheDip
    else if IsNegative(dist) then BandBreak
    else if Above(rsi, Analysis.OverheatedLevel) then TakeProfit
    else RangeBound
  }

  /** With a positive lower band the distance is negative exactly when the price is below it. */
  lemma BandBreakMeansBelowBand(price: real, lo: real)
    requires lo > 0.0
    ensures IsNegative(Dist(price, Some(lo))) <==> price < lo
  {
    ScaledQuotientNegative(price - lo, lo, 100.0);
  }

  /** The advice is the report signal under another name, row for row. */
  function AsSignal(a: Advice): Analysis.Signal
  {
    match a
    case BuyTheDip => Analysis.Oversold
    case BandBreak => Analysis.BrokeLowerBand
    case TakeProfit => Analysis.Overheated
    case RangeBound => Analysis.Watch
  }

  /**
   * On the same indicator row the dashboard advises what the daily report
   * signals: the report's zero distance and the dashboard's NaN distance for
   * a missing band are both "not below".
   */
  lemma AdviceAgreesWithReport(r: Row)
    ensures AsSignal(Advise(r.rsi, Dist(r.price, r.lower)))
         == Analysis.ReportSignal(r.rsi, Analysis.DistToLower(r.price, r.lower))
  {
  }

  /**
   * The page for a price history and a display window of `days` rows. The
   * indicators are computed on the whole history before the window is cut,
   * and a window of fewer than two rows fails at the net-value change, which
   * the page reports as an error (`None`).
   */
  function View(p: seq<real>, days: nat, root: real -> real): (v: Option<Kpi>)
    ensures v.Some? <==> |p| >= 2 && days >= 2
    ensures v.Some? ==> (v.value.hint == Opportunity <==> Below(v.value.rsi, Analysis.OversoldLevel))
    ensures v.Some? ==> v.value.advice == Advise(v.value.rsi, v.value.dist)
  {
    var data := Tail(Frame(p, root), days);
    if |data| < 2 then None
    else
      var last := data[|data| - 1];
      var prev := data[|data| - 2];
      var dist := Dist(last.price, last.lower);
      Some(Kpi(last.price, last.price - prev.price, last.rsi, Hint(last.rsi), dist,
               Advise(last.rsi, dist)))
  }

  /**
   * Cutting the window changes nothing shown: the KPIs are those of the last
   * price of the whole history, with the RSI and the lower band computed over
   * all of it, and the change from the price before.
   */
  lemma ViewShowsLastPrice(p: seq<real>, days: nat, root: real -> real)
    requires |p| >= 2 && days >= 2
    ensures var v := View(p, days, root).value;
      && v.nav == p[|p| - 1]
      && v.navDelta == p[|p| - 1] - p[|p| - 2]
      && v.rsi == Rsi(p, |p| - 1)
      && v.dist == Dist(p[|p| - 1], Lower(Mid(p, |p| - 1), Std(p, |p| - 1, root)))
  {
    var f := Frame(p, root);
    var data := Tail(f, days);
    assert data[|data| - 1] == f[|p| - 1] == RowAt(p, |p| - 1, root);
    assert data[|data| - 2] == f[|p| - 2] == RowAt(p, |p| - 2, root);
  }

  /** The values shown for a date do not depend on how many later prices exist. */
  lemma ShownRowsIgnoreLaterPrices(p: seq<real>, q: seq<real>, i: nat, root: real -> real)
    requires i < |p|
    ensures Frame(p + q, root)[i] == Frame(p, root)[i]
  {
    FrameExtends(p, q, root);
    assert Frame(p + q, root)[..|p|][i] == Frame(p + q, root)[i];
  }
}
