/**
 * The indicator engine shared by the daily report, the dashboard and the
 * backtest: RSI(14) from Wilder-style exponential averages of gains and
 * losses, and 20-row Bollinger bands at two sample standard deviations.
 *
 * A series is a `seq<real>` of net asset values in date order; row `i` of
 * the indicator frame belongs to price `p[i]`.
 *
 * Reals have no square root in Dafny, so the standard deviation is taken
 * through a `root` function supplied by the caller; every property that
 * needs it to be a square root says so in its `requires`.
 */
module Indicators {
  import opened Numeric

  /** Smoothing factor of both exponential averages (`alpha=1/14`). */
  const Alpha: real := 1.0 / 14.0
  /** Rows in a Bollinger window (`rolling(20)`). */
  const BandWindow: nat := 20
  /** Band half-width in standard deviations. */
  const BandWidth: real := 2.0

  /** `diff()`: the change into row `i`, missing on the first row. */
  function Change(p: seq<real>, i: nat): (c: Option<real>)
    requires i < |p|
    ensures c.Some? <==> i > 0
    ensures c.Some? ==> p[i - 1] + c.value == p[i]
  {
    if i == 0 then None else Some(p[i] - p[i - 1])
  }

  /** `clip(lower=0)`: the larger of the change and zero. */
  function Gain(c: real): (g: real)
    ensures g >= 0.0 && g >= c
    ensures g == c || g == 0.0
  {
    if c > 0.0 then c else 0.0
  }

  /** `clip(upper=0).abs()`: the larger of the negated change and zero. */
  function Loss(c: real): (l: real)
    ensures l >= 0.0 && l >= -c
    ensures l == -c || l == 0.0
  {
    if c < 0.0 then -c else 0.0
  }

  /** A change splits into a non-negative gain and loss, at most one of them non-zero. */
  lemma GainLossSplit(c: real)
    ensures Gain(c) >= 0.0 && Loss(c) >= 0.0
    ensures Gain(c) - Loss(c) == c
    ensures Gain(c) == 0.0 || Loss(c) == 0.0
    ensures Gain(c) + Loss(c) == 0.0 <==> c == 0.0
  {
  }

  /** The defined changes of a series: element `j` is the change into row `j + 1`. */
  function Steps(p: seq<real>): (d: seq<real>)
    ensures |d| == if |p| == 0 then 0 else |p| - 1
    ensures forall j :: 0 <= j < |d| ==> Change(p, j + 1) == Some(d[j])
  {
    if |p| == 0 then [] else seq(|p| - 1, j requires 0 <= j < |p| - 1 => p[j + 1] - p[j])
  }

  function Gains(p: seq<real>): (g: seq<real>)
    ensures |g| == |Steps(p)|
    ensures forall j :: 0 <= j < |g| ==> g[j] >= 0.0
  {
    var d := Steps(p);
    seq(|d|, j requires 0 <= j < |d| => Gain(d[j]))
  }

  function Losses(p: seq<real>): (l: seq<real>)
    ensures |l| == |Steps(p)|
    ensures forall j :: 0 <= j < |l| ==> l[j] >= 0.0
  {
    var d := Steps(p);
    seq(|d|, j requires 0 <= j < |d| => Loss(d[j]))
  }

  /**
   * Column by column, the gain and loss of a row split its change: gain
   * minus loss is the price move into the row, and at most one is non-zero.
   */
  lemma GainsLossesSplitChanges(p: seq<real>, j: nat)
    requires j + 1 < |p|
    ensures j < |Gains(p)| && j < |Losses(p)|
    ensures Gains(p)[j] - Losses(p)[j] == p[j + 1] - p[j]
    ensures Gains(p)[j] == 0.0 || Losses(p)[j] == 0.0
  {
    var d := Steps(p);
    assert Change(p, j + 1) == Some(d[j]);
    GainLossSplit(d[j]);
  }

  /**
   * `ewm(alpha=1/14, adjust=False).mean()` over the defined values of a
   * column: the first value seeds the average, and every later output moves
   * the previous one a fourteenth of the way towards the new input.
   */
  function Ewm(xs: seq<real>): (ys: seq<real>)
    ensures |ys| == |xs|
    ensures |xs| > 0 ==> ys[0] == xs[0]
    ensures forall k :: 0 < k < |xs| ==> ys[k] == Smooth(ys[k - 1], xs[k])
    decreases |xs|
  {
    if |xs| == 0 then []
    else if |xs| == 1 then [xs[0]]
    else
      var prev := Ewm(xs[..|xs| - 1]);
      prev + [Smooth(prev[|prev| - 1], xs[|xs| - 1])]
  }

  /** One smoothing step: the previous average moved a fourteenth of the way towards the input. */
  function Smooth(prev: real, x: real): real
  {
    prev + (x - prev) / 14.0
  }

  /** The smoothing step is `(1 - alpha) * prev + alpha * x` with `alpha = 1/14`. */
  lemma SmoothIsAlphaStep(prev: real, x: real)
    ensures Smooth(prev, x) == (1.0 - Alpha) * prev + Alpha * x
  {
  }

  /** The average at position `k` stays within any bounds of the inputs seen up to `k`. */
  lemma {:induction false} EwmWithinSeen(xs: seq<real>, k: nat, lo: real, hi: real)
    requires k < |xs|
    requires forall j :: 0 <= j <= k ==> lo <= xs[j] <= hi
    ensures lo <= Ewm(xs)[k] <= hi
  {
    if k > 0 {
      EwmWithinSeen(xs, k - 1, lo, hi);
    }
  }

  lemma {:induction false} EwmNonNegative(xs: seq<real>, k: nat)
    requires k < |xs|
    requires forall j :: 0 <= j <= k ==> xs[j] >= 0.0
    ensures Ewm(xs)[k] >= 0.0
  {
    if k > 0 {
      EwmNonNegative(xs, k - 1);
    }
  }

  /** On non-negative inputs the average is zero exactly when every input seen so far is zero. */
  lemma {:induction false} EwmZeroIff(xs: seq<real>, k: nat)
    requires k < |xs|
    requires forall j :: 0 <= j <= k ==> xs[j] >= 0.0
    ensures Ewm(xs)[k] == 0.0 <==> forall j :: 0 <= j <= k ==> xs[j] == 0.0
  {
    if k > 0 {
      EwmZeroIff(xs, k - 1);
      EwmNonNegative(xs, k - 1);
    }
  }

  /** Average gain on row `i >= 1` (row 0 has none: its change is missing). */
  function AvgGain(p: seq<real>, i: nat): (g: real)
    requires 1 <= i < |p|
    ensures g >= 0.0
  {
    EwmNonNegative(Gains(p), i - 1);
    Ewm(Gains(p))[i - 1]
  }

  /** Average loss on row `i >= 1`. */
  function AvgLoss(p: seq<real>, i: nat): (l: real)
    requires 1 <= i < |p|
    ensures l >= 0.0
  {
    EwmNonNegative(Losses(p), i - 1);
    Ewm(Losses(p))[i - 1]
  }

  /** The average gain of a row is zero exactly when the price never rose up to it. */
  lemma AvgGainZeroIffNeverRose(p: seq<real>, i: nat)
    requires 1 <= i < |p|
    ensures AvgGain(p, i) == 0.0 <==> NeverRose(p, i)
  {
    EwmZeroIff(Gains(p), i - 1);
    GainsZeroIffNoRise(p, i);
  }

  /** The average loss of a row is zero exactly when the price never fell up to it. */
  lemma AvgLossZeroIffNeverFell(p: seq<real>, i: nat)
    requires 1 <= i < |p|
    ensures AvgLoss(p, i) == 0.0 <==> NeverFell(p, i)
  {
    EwmZeroIff(Losses(p), i - 1);
    LossesZeroIffNoFall(p, i);
  }

  /** No price up to row `i` is above the one before. */
  ghost predicate NeverRose(p: seq<real>, i: nat)
    requires i < |p|
  {
    forall j :: 1 <= j <= i ==> p[j] <= p[j - 1]
  }

  /** No price up to row `i` is below the one before. */
  ghost predicate NeverFell(p: seq<real>, i: nat)
    requires i < |p|
  {
    forall j :: 1 <= j <= i ==> p[j] >= p[j - 1]
  }

  /** The gains up to row `i` are all zero exactly when the price never rose. */
  lemma GainsZeroIffNoRise(p: seq<real>, i: nat)
    requires 1 <= i < |p|
    ensures (forall m :: 0 <= m <= i - 1 ==> Gains(p)[m] == 0.0)
            <==> forall j :: 1 <= j <= i ==> p[j] <= p[j - 1]
  {
    forall m | 0 <= m <= i - 1
      ensures Gains(p)[m] == 0.0 <==> p[m + 1] <= p[m]
    {
      assert Steps(p)[m] == p[m + 1] - p[m];
    }
    if forall m :: 0 <= m <= i - 1 ==> Gains(p)[m] == 0.0 {
      forall j | 1 <= j <= i
        ensures p[j] <= p[j - 1]
      {
        assert Gains(p)[j - 1] == 0.0;
      }
    }
  }

  /** The losses up to row `i` are all zero exactly when the price never fell. */
  lemma LossesZeroIffNoFall(p: seq<real>, i: nat)
    requires 1 <= i < |p|
    ensures (forall m :: 0 <= m <= i - 1 ==> Losses(p)[m] == 0.0)
            <==> forall j :: 1 <= j <= i ==> p[j] >= p[j - 1]
  {
    forall m | 0 <= m <= i - 1
      ensures Losses(p)[m] == 0.0 <==> p[m + 1] >= p[m]
    {
      assert Steps(p)[m] == p[m + 1] - p[m];
    }
    if forall m :: 0 <= m <= i - 1 ==> Losses(p)[m] == 0.0 {
      forall j | 1 <= j <= i
        ensures p[j] >= p[j - 1]
      {
        assert Losses(p)[j - 1] == 0.0;
      }
    }
  }

  /**
   * `100 - 100 / (1 + avg_gain / avg_loss)` evaluated in floating point:
   * a zero loss average with a positive gain average makes `rs` infinite and
   * the RSI exactly 100, and two zero averages make `rs` NaN.
   */
  function RsiOf(g: real, l: real): (r: Option<real>)
    requires g >= 0.0 && l >= 0.0
    ensures r.Some? <==> g + l > 0.0
    ensures r.Some? ==> 0.0 <= r.value <= 100.0
  {
    if l > 0.0 then
      var rs := g / l;
      RsiAlgebra(g, l);
      ShareBounded(g, l);
      Some(100.0 - 100.0 / (1.0 + rs))
    else if g > 0.0 then Some(100.0)
    else None
  }

  /** RSI is the gains' percentage share of all movement: `100 g / (g + l)`. */
  lemma RsiIsGainShare(g: real, l: real)
    requires g >= 0.0 && l >= 0.0
    ensures RsiOf(g, l).Some? ==> RsiOf(g, l).value == 100.0 * g / (g + l)
  {
    if l > 0.0 {
      RsiAlgebra(g, l);
    } else {
      assert g + l == g;
    }
  }

  lemma ShareBounded(g: real, l: real)
    requires g >= 0.0 && l > 0.0
    ensures 0.0 <= 100.0 * g / (g + l) <= 100.0
  {
    var s := g + l;
    var q := g / s;
    assert q * s == g;
    assert (1.0 - q) * s == l;
  }

  /** `100 - 100 / (1 + g / l)` is `100 g / (g + l)` for a positive `l`. */
  lemma RsiAlgebra(g: real, l: real)
    requires g >= 0.0 && l > 0.0
    ensures 100.0 - 100.0 / (1.0 + g / l) == 100.0 * g / (g + l)
  {
    var rs := g / l;
    assert rs * l == g;
    var d := 1.0 + rs;
    assert d * l == l + g;
    var q := 100.0 / d;
    assert q * d == 100.0;
    assert q * (g + l) == 100.0 * l by {
      calc {
        q * (g + l);
        q * (d * l);
        (q * d) * l;
        100.0 * l;
      }
    }
    assert q == 100.0 * l / (g + l);
    assert (100.0 - q) * (g + l) == 100.0 * g;
    var t := 100.0 * g / (g + l);
    assert t * (g + l) == 100.0 * g;
    CancelPositive(100.0 - q, t, g + l);
  }

  lemma CancelPositive(a: real, b: real, c: real)
    requires c > 0.0 && a * c == b * c
    ensures a == b
  {
  }

  /** The RSI column. Row 0 is always missing; later rows are missing only when both averages are zero. */
  function Rsi(p: seq<real>, i: nat): (r: Option<real>)
    requires i < |p|
    ensures r.Some? ==> i > 0 && 0.0 <= r.value <= 100.0
  {
    if i == 0 then None else RsiOf(AvgGain(p, i), AvgLoss(p, i))
  }

  /** The RSI of a row is missing exactly when no price up to that row differs from the first one. */
  lemma RsiMissingIffFlat(p: seq<real>, i: nat)
    requires i < |p|
    ensures Rsi(p, i).None? <==> forall j :: 0 <= j <= i ==> p[j] == p[0]
  {
    if i > 0 {
      EwmZeroIff(Gains(p), i - 1);
      EwmZeroIff(Losses(p), i - 1);
      var d := Steps(p);
      if Rsi(p, i).None? {
        forall j | 0 <= j <= i
          ensures p[j] == p[0]
        {
          FlatPrefix(p, j);
        }
      } else {
        var g, l := AvgGain(p, i), AvgLoss(p, i);
        assert g > 0.0 || l > 0.0;
        var j :| 0 <= j <= i - 1 && (Gains(p)[j] != 0.0 || Losses(p)[j] != 0.0);
        GainLossSplit(d[j]);
        assert p[j + 1] != p[j];
      }
    }
  }

  /** A helper for `RsiMissingIffFlat`: zero changes up to row `j` keep the price at `p[0]`. */
  lemma {:induction false} FlatPrefix(p: seq<real>, j: nat)
    requires j < |p|
    requires forall m :: 0 <= m < j ==> Gains(p)[m] == 0.0 && Losses(p)[m] == 0.0
    ensures p[j] == p[0]
  {
    if j > 0 {
      FlatPrefix(p, j - 1);
      var c := Steps(p)[j - 1];
      assert c == p[j] - p[j - 1];
      assert Gains(p)[j - 1] == Gain(c) && Losses(p)[j - 1] == Loss(c);
      GainLossSplit(c);
    }
  }

  /** RSI is exactly 100 on a row when the price never fell up to it and rose at least once. */
  lemma RsiFullWhenNoDecline(p: seq<real>, i: nat)
    requires 1 <= i < |p|
    requires forall j :: 1 <= j <= i ==> p[j] >= p[j - 1]
    requires exists j :: 1 <= j <= i && p[j] > p[j - 1]
    ensures Rsi(p, i) == Some(100.0)
  {
    OnlyGainsAveraged(p, i);
  }

  /** Without a fall the loss average is zero; with a rise the gain average is positive. */
  lemma OnlyGainsAveraged(p: seq<real>, i: nat)
    requires 1 <= i < |p|
    requires forall j :: 1 <= j <= i ==> p[j] >= p[j - 1]
    requires exists j :: 1 <= j <= i && p[j] > p[j - 1]
    ensures AvgLoss(p, i) == 0.0 && AvgGain(p, i) > 0.0
  {
    ZeroLossAverage(p, i);
    PositiveGainAverage(p, i);
  }

  lemma ZeroLossAverage(p: seq<real>, i: nat)
    requires 1 <= i < |p|
    requires forall j :: 1 <= j <= i ==> p[j] >= p[j - 1]
    ensures AvgLoss(p, i) == 0.0
  {
    NoFallNoLoss(p, i);
    EwmZeroIff(Losses(p), i - 1);
  }

  lemma PositiveGainAverage(p: seq<real>, i: nat)
    requires 1 <= i < |p|
    requires exists j :: 1 <= j <= i && p[j] > p[j - 1]
    ensures AvgGain(p, i) > 0.0
  {
    var m := SomeRiseSomeGain(p, i);
    EwmZeroIff(Gains(p), i - 1);
  }

  lemma NoFallNoLoss(p: seq<real>, i: nat)
    requires 1 <= i < |p|
    requires forall j :: 1 <= j <= i ==> p[j] >= p[j - 1]
    ensures forall m :: 0 <= m <= i - 1 ==> Losses(p)[m] == 0.0
  {
    forall m | 0 <= m <= i - 1
      ensures Losses(p)[m] == 0.0
    {
      assert Steps(p)[m] == p[m + 1] - p[m];
    }
  }

  lemma SomeRiseSomeGain(p: seq<real>, i: nat) returns (m: nat)
    requires 1 <= i < |p|
    requires exists j :: 1 <= j <= i && p[j] > p[j - 1]
    ensures m <= i - 1 && Gains(p)[m] > 0.0
  {
    var j :| 1 <= j <= i && p[j] > p[j - 1];
    assert Steps(p)[j - 1] == p[j] - p[j - 1];
    m := j - 1;
  }

  /** The sum of squared deviations from `m`. */
  function SquaredDeviation(xs: seq<real>, m: real): (s: real)
    ensures s >= 0.0
  {
    if |xs| == 0 then 0.0
    else
      var d := xs[|xs| - 1] - m;
      assert d * d >= 0.0 by {
        if d < 0.0 { assert d * d == (-d) * (-d); }
      }
      SquaredDeviation(xs[..|xs| - 1], m) + d * d
  }

  /** The 20 prices ending at row `i`. */
  function Window(p: seq<real>, i: nat): (w: seq<real>)
    requires BandWindow - 1 <= i < |p|
    ensures |w| == BandWindow
  {
    p[i + 1 - BandWindow..i + 1]
  }

  /** `rolling(20).mean()`. */
  function Mid(p: seq<real>, i: nat): (m: Option<real>)
    requires i < |p|
    ensures m.Some? <==> i >= BandWindow - 1
    ensures m.Some? ==> m.value * 20.0 == Sum(Window(p, i))
  {
    if i < BandWindow - 1 then None else Some(Sum(Window(p, i)) / 20.0)
  }

  /** `rolling(20).var()`: the sample variance, dividing by 19. */
  function Variance(p: seq<real>, i: nat): (v: Option<real>)
    requires i < |p|
    ensures v.Some? <==> i >= BandWindow - 1
    ensures v.Some? ==> v.value >= 0.0
    ensures v.Some? ==> v.value * 19.0 == SquaredDeviation(Window(p, i), Mid(p, i).value)
  {
    match Mid(p, i)
    case None => None
    case Some(m) => Some(SquaredDeviation(Window(p, i), m) / 19.0)
  }

  /** One row of the indicator frame (`nan` is `None`). */
  datatype Row = Row(price: real, change: Option<real>, rsi: Option<real>,
                     mid: Option<real>, std: Option<real>,
                     upper: Option<real>, lower: Option<real>)

  /** `root` is a square root on the variance of row `i`, when that row has one. */
  ghost predicate RootAt(p: seq<real>, i: nat, root: real -> real)
    requires i < |p|
  {
    Variance(p, i).Some? ==>
      var v := Variance(p, i).value;
      root(v) >= 0.0 && root(v) * root(v) == v
  }

  /** `rolling(20).std()`, taking `root` of the sample variance. */
  function Std(p: seq<real>, i: nat, root: real -> real): (s: Option<real>)
    requires i < |p|
    ensures s.Some? <==> i >= BandWindow - 1
    ensures s.Some? ==> s.value == root(Variance(p, i).value)
  {
    match Variance(p, i)
    case None => None
    case Some(v) => Some(root(v))
  }

  /** Given a square root, the standard deviation is non-negative and squares to the sample variance. */
  lemma StdIsRoot(p: seq<real>, i: nat, root: real -> real)
    requires BandWindow - 1 <= i < |p| && RootAt(p, i, root)
    ensures Std(p, i, root).Some?
    ensures Std(p, i, root).value >= 0.0
    ensures Std(p, i, root).value * Std(p, i, root).value * 19.0
            == SquaredDeviation(Window(p, i), Mid(p, i).value)
  {
  }

  /** `mid + 2 * std`, missing when either operand is. */
  function Upper(mid: Option<real>, std: Option<real>): (u: Option<real>)
    ensures u.Some? <==> mid.Some? && std.Some?
    ensures u.Some? ==> u.value - mid.value == 2.0 * std.value
  {
    if mid.Some? && std.Some? then Some(mid.value + BandWidth * std.value) else None
  }

  /** `mid - 2 * std`, missing when either operand is. */
  function Lower(mid: Option<real>, std: Option<real>): (l: Option<real>)
    ensures l.Some? <==> mid.Some? && std.Some?
    ensures l.Some? ==> mid.value - l.value == 2.0 * std.value
  {
    if mid.Some? && std.Some? then Some(mid.value - BandWidth * std.value) else None
  }

  /** The indicator columns of row `i`. */
  function RowAt(p: seq<real>, i: nat, root: real -> real): Row
    requires i < |p|
  {
    var mid := Mid(p, i);
    var std := Std(p, i, root);
    Row(p[i], Change(p, i), Rsi(p, i), mid, std, Upper(mid, std), Lower(mid, std))
  }

  /** `calculate_indicators`: one row per price. */
  function Frame(p: seq<real>, root: real -> real): (f: seq<Row>)
    ensures |f| == |p|
  {
    seq(|p|, i requires 0 <= i < |p| => RowAt(p, i, root))
  }

  /** The band columns are missing on the first 19 rows and present from the 20th on. */
  lemma BandsDefinedFromTwentiethRow(p: seq<real>, i: nat, root: real -> real)
    requires i < |p|
    ensures var r := Frame(p, root)[i];
      && (r.mid.Some? <==> i >= 19) && (r.std.Some? <==> i >= 19)
      && (r.upper.Some? <==> i >= 19) && (r.lower.Some? <==> i >= 19)
  {
  }

  /**
   * Where the bands exist they lie two standard deviations either side of
   * the mean, and are ordered when `std` is non-negative.
   */
  lemma BandsSymmetricAndOrdered(p: seq<real>, i: nat, root: real -> real)
    requires i < |p|
    ensures var r := Frame(p, root)[i];
      r.lower.Some? ==> r.upper.value - r.mid.value == r.mid.value - r.lower.value
    ensures var r := Frame(p, root)[i];
      r.lower.Some? ==> r.upper.value - r.mid.value == 2.0 * r.std.value
                        && r.mid.value - r.lower.value == 2.0 * r.std.value
    ensures var r := Frame(p, root)[i];
      r.lower.Some? && RootAt(p, i, root) ==> r.lower.value <= r.mid.value <= r.upper.value
  {
  }

  /** Where defined, every RSI in the frame lies in [0, 100]. */
  lemma FrameRsiBounded(p: seq<real>, root: real -> real)
    ensures forall i :: 0 <= i < |p| && Frame(p, root)[i].rsi.Some? ==>
              0.0 <= Frame(p, root)[i].rsi.value <= 100.0
  {
  }

  lemma {:induction false} EwmPrefix(xs: seq<real>, m: nat, k: nat)
    requires k < m <= |xs|
    ensures Ewm(xs[..m])[k] == Ewm(xs)[k]
  {
    if k > 0 {
      EwmPrefix(xs, m, k - 1);
      assert xs[..m][k] == xs[k];
    }
  }

  /**
   * A row depends only on the prices up to it: the frame of a series with
   * further points appended agrees with the frame of the series itself on
   * every row of the latter.
   */
  lemma FrameExtends(p: seq<real>, q: seq<real>, root: real -> real)
    ensures Frame(p + q, root)[..|p|] == Frame(p, root)
  {
    var pq := p + q;
    assert pq[..|p|] == p;
    forall i | 0 <= i < |p|
      ensures RowAt(pq, i, root) == RowAt(p, i, root)
    {
      RowDependsOnPrefix(pq, |p|, i, root);
    }
  }

  lemma RowDependsOnPrefix(p: seq<real>, n: nat, i: nat, root: real -> real)
    requires i < n <= |p|
    ensures RowAt(p[..n], i, root) == RowAt(p, i, root)
  {
    var pre := p[..n];
    RsiDependsOnPrefix(p, n, i);
    BandsDependOnPrefix(p, n, i);
    StdDependsOnPrefix(p, n, i, root);
    ChangeDependsOnPrefix(p, n, i);
  }

  lemma ChangeDependsOnPrefix(p: seq<real>, n: nat, i: nat)
    requires i < n <= |p|
    ensures p[..n][i] == p[i]
    ensures Change(p[..n], i) == Change(p, i)
  {
  }

  lemma StdDependsOnPrefix(p: seq<real>, n: nat, i: nat, root: real -> real)
    requires i < n <= |p|
    requires Variance(p[..n], i) == Variance(p, i)
    ensures Std(p[..n], i, root) == Std(p, i, root)
  {
  }

  lemma BandsDependOnPrefix(p: seq<real>, n: nat, i: nat)
    requires i < n <= |p|
    ensures Mid(p[..n], i) == Mid(p, i)
    ensures Variance(p[..n], i) == Variance(p, i)
  {
    if i >= BandWindow - 1 {
      assert Window(p[..n], i) == Window(p, i);
    }
  }

  lemma RsiDependsOnPrefix(p: seq<real>, n: nat, i: nat)
    requires i < n <= |p|
    ensures Rsi(p[..n], i) == Rsi(p, i)
  {
    var pre := p[..n];
    if i > 0 {
      assert Steps(pre) == Steps(p)[..n - 1];
      assert Gains(pre) == Gains(p)[..n - 1];
      assert Losses(pre) == Losses(p)[..n - 1];
      EwmPrefix(Gains(p), n - 1, i - 1);
      EwmPrefix(Losses(p), n - 1, i - 1);
      assert AvgGain(pre, i) == AvgGain(p, i);
      assert AvgLoss(pre, i) == AvgLoss(p, i);
    }
  }
}
