/**
 * Relative-performance arithmetic shared by the practice scripts: rebasing
 * a price window to start at 1.0, its total return, and N-day momentum.
 */
module Performance {
  import opened Numeric

  /**
   * `recent / recent.iloc[0]`: every price divided by the first. An empty
   * window has no first price, and reading it raises (`None`).
   */
  function Rebase(w: seq<real>): (r: Option<seq<real>>)
    requires AllPositive(w)
    ensures r.Some? <==> |w| > 0
    ensures r.Some? ==> |r.value| == |w| && r.value[0] == 1.0
  {
    if |w| == 0 then None
    else
      var r := seq(|w|, k requires 0 <= k < |w| => w[k] / w[0]);
      assert r[0] == w[0] / w[0] == 1.0;
      Some(r)
  }

  lemma RebaseAt(w: seq<real>, k: nat)
    requires AllPositive(w) && k < |w|
    ensures Rebase(w).value[k] == w[k] / w[0]
  {
  }

  /** Scaling a rebased window back by the first price restores the prices. */
  lemma RebaseScales(w: seq<real>)
    requires AllPositive(w) && |w| > 0
    ensures forall k :: 0 <= k < |w| ==> Rebase(w).value[k] * w[0] == w[k]
  {
    var r := Rebase(w).value;
    forall k | 0 <= k < |w|
      ensures r[k] * w[0] == w[k]
    {
      assert r[k] == w[k] / w[0];
    }
  }

  /** Comparing a ratio of positive reals with 1 compares the operands. */
  lemma RatioVersusOne(a: real, b: real)
    requires b > 0.0
    ensures a / b > 1.0 <==> a > b
    ensures a / b == 1.0 <==> a == b
  {
    var q := a / b;
    assert q * b == a;
    if q > 1.0 {
      assert q * b > 1.0 * b;
    } else if q < 1.0 {
      assert q * b < 1.0 * b;
    }
  }

  /** Dividing by a positive real keeps the order. */
  lemma DivideKeepsOrder(a: real, b: real, c: real)
    requires c > 0.0
    ensures a / c < b / c <==> a < b
  {
    assert b / c - a / c == (b - a) / c;
    if a < b {
      assert (b - a) / c > 0.0;
    } else {
      assert (b - a) / c <= 0.0;
    }
  }

  /** Rebasing keeps the order of the prices. */
  lemma RebaseKeepsOrder(w: seq<real>, i: nat, j: nat)
    requires AllPositive(w)
    requires i < |w| && j < |w|
    ensures Rebase(w).value[i] < Rebase(w).value[j] <==> w[i] < w[j]
  {
    var r := Rebase(w).value;
    assert r[i] == w[i] / w[0] && r[j] == w[j] / w[0];
    DivideKeepsOrder(w[i], w[j], w[0]);
  }

  /** A rebased window does not depend on the unit of the prices. */
  lemma RebaseIgnoresScale(w: seq<real>, c: real)
    requires AllPositive(w) && c > 0.0
    ensures var cw := seq(|w|, k requires 0 <= k < |w| => c * w[k]);
      AllPositive(cw) && Rebase(cw) == Rebase(w)
  {
    var cw := seq(|w|, k requires 0 <= k < |w| => c * w[k]);
    if |w| > 0 {
      forall k | 0 <= k < |w|
        ensures cw[k] / cw[0] == w[k] / w[0]
      {
        assert cw[k] / cw[0] == (c * w[k]) / (c * w[0]);
        assert (c * w[k]) / (c * w[0]) == w[k] / w[0];
      }
      assert Rebase(cw).value == Rebase(w).value;
    }
  }

  /** `(rebased.iloc[-1] - 1) * 100`: the return over the window in percent. */
  function TotalReturn(rebased: seq<real>): real
    requires |rebased| > 0
  {
    (rebased[|rebased| - 1] - 1.0) * 100.0
  }

  /** The total return of a rebased window is the percent change from its first to its last price. */
  lemma TotalReturnOfWindow(w: seq<real>)
    requires AllPositive(w) && |w| > 0
    ensures TotalReturn(Rebase(w).value) == (w[|w| - 1] / w[0] - 1.0) * 100.0
    ensures TotalReturn(Rebase(w).value) > 0.0 <==> w[|w| - 1] > w[0]
    ensures TotalReturn(Rebase(w).value) == 0.0 <==> w[|w| - 1] == w[0]
  {
    var last := |w| - 1;
    assert Rebase(w).value[last] == w[last] / w[0];
    RatioVersusOne(w[last], w[0]);
  }

  /**
   * `(p[-1] - p[-1-n]) / p[-1-n] * 100`: the percent change over the last
   * `n` rows, when the series has `n + 1` of them.
   */
  function Momentum(p: seq<real>, n: nat): (m: Option<real>)
    requires AllPositive(p)
    ensures m.Some? <==> |p| > n
  {
    if |p| <= n then None
    else
      var past := p[|p| - 1 - n];
      Some((p[|p| - 1] - past) / past * 100.0)
  }

  /** Momentum is zero exactly when the price is unchanged, and positive exactly when it rose. */
  lemma MomentumSign(p: seq<real>, n: nat)
    requires AllPositive(p) && |p| > n
    ensures var past, latest := p[|p| - 1 - n], p[|p| - 1];
      && (Momentum(p, n).value == 0.0 <==> latest == past)
      && (Momentum(p, n).value > 0.0 <==> latest > past)
  {
    var past, latest := p[|p| - 1 - n], p[|p| - 1];
    var d := latest - past;
    if d > 0.0 {
      assert d / past > 0.0;
    } else if d < 0.0 {
      assert d / past < 0.0;
    }
  }
}
