/**
 * Shared value vocabulary for the signal pipeline.
 *
 * Prices and indicator values are exact reals. A missing pandas value (NaN in
 * an indicator column) is an `Option`. Where the code divides by a quantity
 * that may be zero or missing and then only COMPARES the quotient, the
 * quotient is a `Float`, which keeps the three non-finite outcomes IEEE
 * division can produce, so that comparisons with NaN come out false.
 */
module Numeric {

  datatype Option<+T> = None | Some(value: T)

  /** A double as far as the comparisons made by this code can tell. */
  datatype Float = Fin(r: real) | PosInf | NegInf | NaN

  /** IEEE division of two finite doubles. */
  function Quotient(a: real, b: real): (q: Float)
    ensures b != 0.0 ==> q == Fin(a / b)
    ensures b == 0.0 && a > 0.0 ==> q == PosInf
    ensures b == 0.0 && a < 0.0 ==> q == NegInf
    ensures b == 0.0 && a == 0.0 ==> q == NaN
  {
    if b != 0.0 then Fin(a / b)
    else if a > 0.0 then PosInf
    else if a < 0.0 then NegInf
    else NaN
  }

  /** Multiplication of a double by a positive finite constant. */
  function Times(x: Float, k: real): (y: Float)
    requires k > 0.0
    ensures x.Fin? <==> y.Fin?
    ensures x.Fin? ==> y.r == x.r * k
    ensures !x.Fin? ==> y == x
  {
    match x
    case Fin(r) => Fin(r * k)
    case _ => x
  }

  /** `x < 0` on a double: false for NaN, true for minus infinity. */
  predicate IsNegative(x: Float)
  {
    x.NegInf? || (x.Fin? && x.r < 0.0)
  }

  /** `x < c` where a missing value (NaN) compares false. */
  predicate Below(x: Option<real>, c: real)
  {
    x.Some? && x.value < c
  }

  /** `x > c` where a missing value (NaN) compares false. */
  predicate Above(x: Option<real>, c: real)
  {
    x.Some? && x.value > c
  }

  /** The sign of a scaled quotient is decided by the signs of its operands. */
  lemma ScaledQuotientNegative(a: real, b: real, k: real)
    requires k > 0.0
    ensures IsNegative(Times(Quotient(a, b), k)) <==>
              (b > 0.0 && a < 0.0) || (b < 0.0 && a > 0.0) || (b == 0.0 && a < 0.0)
  {
    if b > 0.0 && a < 0.0 {
      assert a / b < 0.0;
    } else if b < 0.0 && a > 0.0 {
      assert a / b < 0.0;
    } else if b > 0.0 {
      assert a / b >= 0.0;
    } else if b < 0.0 {
      assert a <= 0.0;
      assert a / b >= 0.0;
    }
  }

  function Sum(xs: seq<real>): real
  {
    if |xs| == 0 then 0.0 else Sum(xs[..|xs| - 1]) + xs[|xs| - 1]
  }

  /** One row of a fund's history: a trading day (days since an epoch) and its net asset value. */
  datatype Point = Point(date: int, value: real)

  /** The value column of a history. */
  function Values(h: seq<Point>): (p: seq<real>)
    ensures |p| == |h|
    ensures forall k :: 0 <= k < |h| ==> p[k] == h[k].value
  {
    seq(|h|, k requires 0 <= k < |h| => h[k].value)
  }

  /** Every price is a positive net asset value. */
  predicate AllPositive(xs: seq<real>)
  {
    forall k :: 0 <= k < |xs| ==> xs[k] > 0.0
  }

  /**
   * The present values of a sequence of optional results, in order: the
   * rows a loop keeps when it skips the items whose computation failed.
   */
  function Somes<T>(xs: seq<Option<T>>): (ys: seq<T>)
    ensures |ys| <= |xs|
    ensures (forall k :: 0 <= k < |xs| ==> xs[k].Some?) ==> |ys| == |xs|
  {
    if |xs| == 0 then []
    else
      match xs[0]
      case None => Somes(xs[1..])
      case Some(y) => [y] + Somes(xs[1..])
  }

  /** A value is kept exactly when it is present somewhere in the input. */
  lemma {:induction false} SomesComplete<T>(xs: seq<Option<T>>)
    ensures forall y :: y in Somes(xs) <==> Some(y) in xs
  {
    if |xs| > 0 {
      SomesComplete(xs[1..]);
      assert xs == [xs[0]] + xs[1..];
    }
  }

  /** A kept value was present in the input. */
  lemma KeptIsPresent<T>(xs: seq<Option<T>>, y: T)
    requires y in Somes(xs)
    ensures Some(y) in xs
  {
    SomesComplete(xs);
  }

  /** Skipping failures keeps the order: the kept values of a concatenation are the kept values of each part. */
  lemma {:induction false} SomesAppend<T>(a: seq<Option<T>>, b: seq<Option<T>>)
    ensures Somes(a + b) == Somes(a) + Somes(b)
  {
    if |a| > 0 {
      SomesAppend(a[1..], b);
      assert (a + b)[1..] == a[1..] + b;
    } else {
      assert a + b == b;
    }
  }

  /** `f` applied to every element, in order. */
  function Map<A, B>(xs: seq<A>, f: A --> B): (ys: seq<B>)
    requires forall k :: 0 <= k < |xs| ==> f.requires(xs[k])
    ensures |ys| == |xs|
    ensures forall k :: 0 <= k < |xs| ==> ys[k] == f(xs[k])
  {
    seq(|xs|, k requires 0 <= k < |xs| => f(xs[k]))
  }

  /** Mapping keeps order: the image of a concatenation is the two images one after the other. */
  lemma MapAppend<A, B>(a: seq<A>, b: seq<A>, f: A --> B)
    requires forall k :: 0 <= k < |a| ==> f.requires(a[k])
    requires forall k :: 0 <= k < |b| ==> f.requires(b[k])
    ensures Map(a + b, f) == Map(a, f) + Map(b, f)
  {
    var ab := a + b;
    assert forall k :: 0 <= k < |ab| ==> ab[k] == if k < |a| then a[k] else b[k - |a|];
  }

  /** pandas `tail(n)`: the last `n` elements, or all of them when there are fewer. */
  function Tail<T>(xs: seq<T>, n: nat): (t: seq<T>)
    ensures |t| == if |xs| < n then |xs| else n
    ensures forall k :: 0 <= k < |t| ==> t[k] == xs[|xs| - |t| + k]
  {
    if |xs| <= n then xs else xs[|xs| - n..]
  }

  /** The last elements of positive prices are positive. */
  lemma TailPositive(xs: seq<real>, n: nat)
    requires AllPositive(xs)
    ensures AllPositive(Tail(xs, n))
  {
    var t := Tail(xs, n);
    forall k | 0 <= k < |t|
      ensures t[k] > 0.0
    {
      assert t[k] == xs[|xs| - |t| + k];
    }
  }

  /** `w in s` for Python strings: `w` occurs as a contiguous substring of `s`. */
  predicate Contains(s: string, w: string)
  {
    exists i | 0 <= i <= |s| - |w| :: OccursAt(s, w, i)
  }

  predicate OccursAt(s: string, w: string, i: int)
  {
    0 <= i && i + |w| <= |s| && s[i..i + |w|] == w
  }

  lemma ContainsWitness(s: string, w: string, i: int)
    requires OccursAt(s, w, i)
    ensures Contains(s, w)
  {
  }
}
