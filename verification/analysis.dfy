/**
 * The daily report of `FundAnalyzer.run_analysis`: for every configured fund
 * with data, the indicators of its latest 120 rows, a signal read off the
 * last row by a first-match rule, and one report line.
 */
module Analysis {
  import opened Numeric
  import opened Indicators

  /** `get_fund_data(limit=120)` keeps the most recent 120 rows. */
  const HistoryLimit: nat := 120
  const OversoldLevel: real := 30.0
  const OverheatedLevel: real := 70.0

  datatype Signal = Watch | Oversold | BrokeLowerBand | Overheated

  /** Percent distance of the price above the lower band; 0 when the band is missing. */
  function DistToLower(price: real, lower: Option<real>): (d: Float)
    ensures lower.None? ==> d == Fin(0.0)
    ensures lower.Some? && lower.value != 0.0 ==>
              d == Fin((price - lower.value) / lower.value * 100.0)
  {
    match lower
    case None => Fin(0.0)
    case Some(lo) => Times(Quotient(price - lo, lo), 100.0)
  }

  /** The report rule: oversold first, then a broken lower band, then overheated, else watch. */
  function ReportSignal(rsi: Option<real>, dist: Float): (s: Signal)
    ensures s == Oversold <==> Below(rsi, OversoldLevel)
    ensures s == BrokeLowerBand <==> !Below(rsi, OversoldLevel) && IsNegative(dist)
    ensures s == Overheated <==>
              !Below(rsi, OversoldLevel) && !IsNegative(dist) && Above(rsi, OverheatedLevel)
    ensures s == Watch <==>
              !Below(rsi, OversoldLevel) && !IsNegative(dist) && !Above(rsi, OverheatedLevel)
  {
    if Below(rsi, OversoldLevel) then Oversold
    else if IsNegative(dist) then BrokeLowerBand
    else if Above(rsi, OverheatedLevel) then Overheated
    else Watch
  }

  /** An oversold RSI decides the signal whatever the bands say. */
  lemma OversoldIgnoresBands(rsi: Option<real>, d1: Float, d2: Float)
    ensures ReportSignal(rsi, d1) == Oversold <==> ReportSignal(rsi, d2) == Oversold
  {
  }

  /** Without a lower band the distance is 0, so "broke lower band" cannot fire. */
  lemma MissingBandNeverBreaks(price: real, rsi: Option<real>)
    ensures ReportSignal(rsi, DistToLower(price, None)) != BrokeLowerBand
  {
  }

  /** With a positive lower band the distance is negative exactly when the price is below the band. */
  lemma BreakMeansBelowBand(price: real, lo: real)
    requires lo > 0.0
    ensures IsNegative(DistToLower(price, Some(lo))) <==> price < lo
  {
    ScaledQuotientNegative(price - lo, lo, 100.0);
  }

  /**
   * A negative lower band (possible on a very volatile window) makes the
   * distance negative for every positive price, so the rule reports a broken
   * band although the price is above it.
   */
  lemma NegativeBandReadsAsBreak(price: real, lo: real)
    requires lo < 0.0 < price
    ensures IsNegative(DistToLower(price, Some(lo)))
  {
    ScaledQuotientNegative(price - lo, lo, 100.0);
  }

  datatype Fund = Fund(name: string, history: seq<Point>)

  /** A report line: name, date and RSI of the last row, and the signal. */
  datatype ReportLine = ReportLine(name: string, date: int, rsi: Option<real>, signal: Signal)

  /** The signal of the last row of a non-empty series. */
  function LatestSignal(p: seq<real>, root: real -> real): Signal
    requires |p| > 0
  {
    var last := RowAt(p, |p| - 1, root);
    ReportSignal(last.rsi, DistToLower(last.price, last.lower))
  }

  /** A series of fewer than 20 prices never reports a broken lower band. */
  lemma ShortSeriesNeverBreaks(p: seq<real>, root: real -> real)
    requires 0 < |p| < BandWindow
    ensures LatestSignal(p, root) != BrokeLowerBand
  {
  }

  /** The line for one fund; a fund without data gets none. */
  function FundLine(f: Fund, root: real -> real): (l: Option<ReportLine>)
    ensures l.Some? <==> |f.history| > 0
    ensures l.Some? ==> l.value.name == f.name
    ensures l.Some? ==> l.value.date == f.history[|f.history| - 1].date
  {
    var h := Tail(f.history, HistoryLimit);
    if |h| == 0 then None
    else
      var p := Values(h);
      var last := RowAt(p, |p| - 1, root);
      Some(ReportLine(f.name, h[|h| - 1].date, last.rsi, LatestSignal(p, root)))
  }

  /**
   * A fund's line reads the last of its latest 120 rows: the RSI of that
   * row, and the report rule applied to that RSI and to the distance of the
   * last price above that row's lower band.
   */
  lemma FundLineReadsLatestRow(f: Fund, root: real -> real)
    requires |f.history| > 0
    ensures var p := Values(Tail(f.history, HistoryLimit));
      var n := |p| - 1;
      && FundLine(f, root).value.rsi == Rsi(p, n)
      && FundLine(f, root).value.signal
           == ReportSignal(Rsi(p, n), DistToLower(f.history[|f.history| - 1].value,
                                                  Lower(Mid(p, n), Std(p, n, root))))
  {
  }

  /** The funds that have data, in configuration order. */
  function WithData(funds: seq<Fund>): (r: seq<Fund>)
    ensures |r| <= |funds|
    ensures forall k :: 0 <= k < |r| ==> |r[k].history| > 0
    ensures forall f {:trigger f in r} :: f in r <==> f in funds && |f.history| > 0
  {
    if |funds| == 0 then []
    else if |funds[0].history| == 0 then WithData(funds[1..])
    else [funds[0]] + WithData(funds[1..])
  }

  /**
   * `run_analysis`: one line per fund with data, skipping the others, in
   * configuration order. Joining the lines with newlines is left to the
   * text layer.
   */
  function Report(funds: seq<Fund>, root: real -> real): (r: seq<ReportLine>)
    ensures |r| == |WithData(funds)|
    ensures forall k :: 0 <= k < |r| ==> Some(r[k]) == FundLine(WithData(funds)[k], root)
  {
    LinesOf(WithData(funds), root)
  }

  /** Filtering keeps configuration order: the funds with data of a concatenation are those of each part. */
  lemma {:induction false} WithDataAppend(a: seq<Fund>, b: seq<Fund>)
    ensures WithData(a + b) == WithData(a) + WithData(b)
  {
    if |a| > 0 {
      WithDataAppend(a[1..], b);
      assert (a + b)[1..] == a[1..] + b;
    } else {
      assert a + b == b;
    }
  }

  /**
   * The report is assembled fund by fund in configuration order: the report
   * of a concatenation is the two reports one after the other.
   */
  lemma ReportInOrder(a: seq<Fund>, b: seq<Fund>, root: real -> real)
    ensures Report(a + b, root) == Report(a, root) + Report(b, root)
  {
    WithDataAppend(a, b);
    LinesAppend(WithData(a), WithData(b), root);
  }

  /** The line of a fund with data. */
  function LineMaker(root: real -> real): Fund --> ReportLine
  {
    (f: Fund) requires |f.history| > 0 => FundLine(f, root).value
  }

  /** The lines of funds that all have data, one per fund, in order. */
  function LinesOf(w: seq<Fund>, root: real -> real): (ls: seq<ReportLine>)
    requires forall k :: 0 <= k < |w| ==> |w[k].history| > 0
    ensures |ls| == |w|
    ensures forall k :: 0 <= k < |w| ==> Some(ls[k]) == FundLine(w[k], root)
  {
    Map(w, LineMaker(root))
  }

  lemma LinesAppend(wa: seq<Fund>, wb: seq<Fund>, root: real -> real)
    requires forall k :: 0 <= k < |wa| ==> |wa[k].history| > 0
    requires forall k :: 0 <= k < |wb| ==> |wb[k].history| > 0
    ensures LinesOf(wa + wb, root) == LinesOf(wa, root) + LinesOf(wb, root)
  {
    MapAppend(wa, wb, LineMaker(root));
  }

  /** A single fund contributes its line when it has data, and nothing otherwise. */
  lemma ReportOfOneFund(f: Fund, root: real -> real)
    ensures Report([f], root) == if |f.history| > 0 then [FundLine(f, root).value] else []
  {
    assert [f][1..] == [];
  }

  /** The report of a fund list with data for none of them is empty. */
  lemma {:induction false} NoDataNoReport(funds: seq<Fund>, root: real -> real)
    requires forall k :: 0 <= k < |funds| ==> |funds[k].history| == 0
    ensures Report(funds, root) == []
  {
    if |funds| > 0 {
      NoDataNoReport(funds[1..], root);
      assert WithData(funds) == WithData(funds[1..]);
    }
  }
}
