/**
 * The 30-day duel against the coal fund: every fund's last 30 prices
 * rebased to 1.0, and each challenger judged on how far its last rebased
 * value ends above or below the coal fund's.
 */
module CompareNew {
  import opened Numeric
  import opened Performance
  import opened Table

  const Window: nat := 30

  datatype Fund = Fund(name: string, prices: seq<real>)

  datatype Verdict = Verdict(name: string, diff: real, beatsCoal: bool)

  ghost predicate ValidFunds(funds: seq<Fund>)
  {
    forall k :: 0 <= k < |funds| ==> AllPositive(funds[k].prices)
  }

  /** The last value of a fund's rebased 30-day window; an empty history has none. */
  function Performance30(f: Fund): (v: Option<real>)
    requires AllPositive(f.prices)
    ensures v.Some? <==> |f.prices| > 0
  {
    var w := Tail(f.prices, Window);
    TailPositive(f.prices, Window);
    if |w| == 0 then None
    else
      var r := Rebase(w).value;
      Some(r[|w| - 1])
  }

  /** A fund's performance is the ratio of the last to the first price of its 30-day window. */
  lemma PerformanceIsRatio(f: Fund)
    requires AllPositive(f.prices) && |f.prices| > 0
    ensures var w := Tail(f.prices, Window);
      Performance30(f).value == w[|w| - 1] / w[0]
  {
    var w := Tail(f.prices, Window);
    TailPositive(f.prices, Window);
    RebaseAt(w, |w| - 1);
  }

  /** `diff = (perf - coal) * 100`; a challenger beats coal only when the difference is positive. */
  function Judge(name: string, perf: real, coalPerf: real): (v: Verdict)
    ensures v.name == name
    ensures v.beatsCoal <==> perf > coalPerf
    ensures v.diff > 0.0 <==> perf > coalPerf
  {
    var diff := (perf - coalPerf) * 100.0;
    Verdict(name, diff, diff > 0.0)
  }

  /** The column a fund occupies in `data`. */
  function FundName(f: Fund): string
  {
    f.name
  }

  /** What each fund assigns to `data`, in configuration order. */
  function Entries(funds: seq<Fund>): (es: seq<Option<Fund>>)
    ensures |es| == |funds|
    ensures forall k :: 0 <= k < |funds| ==> es[k] == Some(funds[k])
  {
    seq(|funds|, k requires 0 <= k < |funds| => Some(funds[k]))
  }

  /**
   * The columns of `data`, one per distinct fund name: a later fund with the
   * name of an earlier one replaces that fund's column.
   */
  function DataColumns(funds: seq<Fund>): (cols: seq<Fund>)
    ensures |cols| <= |funds|
    ensures DistinctKeys(cols, FundName)
  {
    ColumnsDistinct(Entries(funds), FundName);
    Columns(Entries(funds), FundName)
  }

  /** No later fund carries the name of fund `j`. */
  ghost predicate LastNamed(funds: seq<Fund>, j: int)
    requires 0 <= j < |funds|
  {
    forall m :: j < m < |funds| ==> funds[m].name != funds[j].name
  }

  /** A fund that no later fund renames over keeps its column. */
  lemma LastNamedHasColumn(funds: seq<Fund>, j: nat)
    requires j < |funds| && LastNamed(funds, j)
    ensures funds[j] in DataColumns(funds)
  {
    var es := Entries(funds);
    ColumnsCoverNames(es, FundName);
    ColumnsHoldLast(es, FundName);
    assert es[j] == Some(funds[j]);
    var c :| c in Columns(es, FundName) && FundName(c) == funds[j].name;
    var i :| 0 <= i < |es| && es[i] == Some(c) && LastWithKey(es, i, FundName(c), FundName);
    assert i == j;
  }

  /** Every column is a fund that no later fund renames over. */
  lemma ColumnIsLastNamed(funds: seq<Fund>, c: Fund) returns (j: nat)
    requires c in DataColumns(funds)
    ensures j < |funds| && funds[j] == c && LastNamed(funds, j)
  {
    var es := Entries(funds);
    ColumnsHoldLast(es, FundName);
    j :| 0 <= j < |es| && es[j] == Some(c) && LastWithKey(es, j, FundName(c), FundName);
    forall m | j < m < |funds|
      ensures funds[m].name != funds[j].name
    {
      assert es[m] == Some(funds[m]);
    }
  }

  /** The coal fund's column: the first column carrying its name. */
  function Lookup(funds: seq<Fund>, coal: string): (v: Option<Fund>)
    ensures v.Some? ==> v.value in funds && v.value.name == coal
    ensures v.None? ==> forall k :: 0 <= k < |funds| ==> funds[k].name != coal
  {
    if |funds| == 0 then None
    else if funds[0].name == coal then Some(funds[0])
    else Lookup(funds[1..], coal)
  }

  /** The verdicts for all funds but the coal fund, in order. */
  function Verdicts(funds: seq<Fund>, coal: string, coalPerf: real): (vs: seq<Verdict>)
    requires ValidFunds(funds)
    requires forall k :: 0 <= k < |funds| ==> |funds[k].prices| > 0
    ensures forall k :: 0 <= k < |vs| ==> vs[k].name != coal
    ensures |vs| <= |funds|
  {
    if |funds| == 0 then []
    else if funds[0].name == coal then Verdicts(funds[1..], coal, coalPerf)
    else
      var perf := Performance30(funds[0]).value;
      [Judge(funds[0].name, perf, coalPerf)] + Verdicts(funds[1..], coal, coalPerf)
  }

  /** Every fund not named like the coal fund gets its verdict, and every verdict is such a fund's. */
  lemma {:induction false} VerdictsComplete(funds: seq<Fund>, coal: string, coalPerf: real)
    requires ValidFunds(funds)
    requires forall k :: 0 <= k < |funds| ==> |funds[k].prices| > 0
    ensures forall j :: 0 <= j < |funds| && funds[j].name != coal ==>
              Judge(funds[j].name, Performance30(funds[j]).value, coalPerf) in Verdicts(funds, coal, coalPerf)
    ensures forall v :: v in Verdicts(funds, coal, coalPerf) ==>
              exists j :: 0 <= j < |funds| && funds[j].name != coal
                          && v == Judge(funds[j].name, Performance30(funds[j]).value, coalPerf)
  {
    if |funds| > 0 {
      var rest := funds[1..];
      VerdictsComplete(rest, coal, coalPerf);
      assert forall j :: 1 <= j < |funds| ==> funds[j] == rest[j - 1];
    }
  }

  /** Columns the verdicts can be computed on: positive prices, none empty. */
  ghost predicate Comparable(funds: seq<Fund>)
  {
    ValidFunds(funds) && forall k :: 0 <= k < |funds| ==> |funds[k].prices| > 0
  }

  /** Two runs of comparable columns are comparable together. */
  lemma ComparableAppend(a: seq<Fund>, b: seq<Fund>)
    requires Comparable(a) && Comparable(b)
    ensures Comparable(a + b)
  {
    forall k | 0 <= k < |a + b|
      ensures AllPositive((a + b)[k].prices) && |(a + b)[k].prices| > 0
    {
      if k < |a| { assert (a + b)[k] == a[k]; } else { assert (a + b)[k] == b[k - |a|]; }
    }
  }

  /** The verdicts of two runs of columns are those of each run, one after the other. */
  lemma {:induction false} VerdictsAppend(a: seq<Fund>, b: seq<Fund>, coal: string, coalPerf: real)
    requires Comparable(a) && Comparable(b)
    ensures Comparable(a + b)
    ensures Verdicts(a + b, coal, coalPerf) == Verdicts(a, coal, coalPerf) + Verdicts(b, coal, coalPerf)
  {
    ComparableAppend(a, b);
    if |a| > 0 {
      assert (a + b)[1..] == a[1..] + b;
      assert a[0] == (a + b)[0];
      VerdictsAppend(a[1..], b, coal, coalPerf);
    } else {
      assert a + b == b;
    }
  }

  /** One column gives its verdict, unless it is the coal column, which gives none. */
  lemma VerdictsOfOne(f: Fund, coal: string, coalPerf: real)
    requires AllPositive(f.prices) && |f.prices| > 0
    ensures ValidFunds([f])
    ensures Verdicts([f], coal, coalPerf)
            == if f.name == coal then [] else [Judge(f.name, Performance30(f).value, coalPerf)]
  {
    assert [f][1..] == [];
  }

  /** Every fund name has a column, so the lookup of that name succeeds. */
  lemma NamedFundHasColumn(funds: seq<Fund>, j: nat)
    requires j < |funds|
    ensures Lookup(DataColumns(funds), funds[j].name).Some?
  {
    var es := Entries(funds);
    ColumnsCoverNames(es, FundName);
    assert es[j] == Some(funds[j]);
    var c :| c in Columns(es, FundName) && FundName(c) == funds[j].name;
  }

  /** The columns are funds of the input. */
  lemma ColumnsAreFunds(funds: seq<Fund>)
    ensures forall c :: c in DataColumns(funds) ==> c in funds
  {
    forall c | c in DataColumns(funds)
      ensures c in funds
    {
      var j := ColumnIsLastNamed(funds, c);
    }
  }

  /**
   * The whole comparison over the columns of `data`. A fund without data
   * makes the script fail, and so does a missing coal fund; both give `None`.
   */
  function Compare(funds: seq<Fund>, coal: string): (r: Option<seq<Verdict>>)
    requires ValidFunds(funds)
    ensures r.Some? <==> (forall k :: 0 <= k < |funds| ==> |funds[k].prices| > 0)
                         && exists k :: 0 <= k < |funds| && funds[k].name == coal
    ensures r.Some? ==> forall k :: 0 <= k < |r.value| ==> r.value[k].name != coal
  {
    if exists k :: 0 <= k < |funds| && |funds[k].prices| == 0 then None
    else
      var cols := DataColumns(funds);
      ColumnsAreFunds(funds);
      assert forall k :: 0 <= k < |cols| ==> cols[k] in funds;
      if exists k :: 0 <= k < |funds| && funds[k].name == coal then
        var k :| 0 <= k < |funds| && funds[k].name == coal;
        NamedFundHasColumn(funds, k);
        var c := Lookup(cols, coal).value;
        Some(Verdicts(cols, coal, Performance30(c).value))
      else
        assert Lookup(cols, coal).None?;
        None
  }

  /** The coal performance used is the one of the last fund named like the coal fund. */
  lemma CompareUsesLastCoal(funds: seq<Fund>, coal: string, jc: nat)
    requires ValidFunds(funds)
    requires forall k :: 0 <= k < |funds| ==> |funds[k].prices| > 0
    requires jc < |funds| && funds[jc].name == coal && LastNamed(funds, jc)
    ensures ValidFunds(DataColumns(funds))
    ensures forall k :: 0 <= k < |DataColumns(funds)| ==> |DataColumns(funds)[k].prices| > 0
    ensures Compare(funds, coal)
            == Some(Verdicts(DataColumns(funds), coal, Performance30(funds[jc]).value))
  {
    var cols := DataColumns(funds);
    ColumnsAreFunds(funds);
    assert forall k :: 0 <= k < |cols| ==> cols[k] in funds;
    NamedFundHasColumn(funds, jc);
    var c := Lookup(cols, coal).value;
    var i := ColumnIsLastNamed(funds, c);
    assert i == jc;
  }

  /**
   * With duplicate names the last fund of a name wins: every challenger
   * name is judged once, on its last fund, against the last coal fund, and
   * nothing else is judged.
   */
  lemma CompareLastWins(funds: seq<Fund>, coal: string, jc: nat)
    requires ValidFunds(funds)
    requires forall k :: 0 <= k < |funds| ==> |funds[k].prices| > 0
    requires jc < |funds| && funds[jc].name == coal && LastNamed(funds, jc)
    ensures Compare(funds, coal).Some?
    ensures var coalPerf := Performance30(funds[jc]).value;
      forall j :: 0 <= j < |funds| && funds[j].name != coal && LastNamed(funds, j) ==>
        Judge(funds[j].name, Performance30(funds[j]).value, coalPerf) in Compare(funds, coal).value
    ensures var coalPerf := Performance30(funds[jc]).value;
      forall v :: v in Compare(funds, coal).value ==>
        exists j :: 0 <= j < |funds| && funds[j].name != coal && LastNamed(funds, j)
                    && v == Judge(funds[j].name, Performance30(funds[j]).value, coalPerf)
  {
    var cols := DataColumns(funds);
    var coalPerf := Performance30(funds[jc]).value;
    CompareUsesLastCoal(funds, coal, jc);
    var vs := Verdicts(cols, coal, coalPerf);
    VerdictsComplete(cols, coal, coalPerf);
    forall j | 0 <= j < |funds| && funds[j].name != coal && LastNamed(funds, j)
      ensures Judge(funds[j].name, Performance30(funds[j]).value, coalPerf) in vs
    {
      LastNamedHasColumn(funds, j);
      var k :| 0 <= k < |cols| && cols[k] == funds[j];
    }
    forall v | v in vs
      ensures exists j :: 0 <= j < |funds| && funds[j].name != coal && LastNamed(funds, j)
                          && v == Judge(funds[j].name, Performance30(funds[j]).value, coalPerf)
    {
      var k :| 0 <= k < |cols| && cols[k].name != coal
               && v == Judge(cols[k].name, Performance30(cols[k]).value, coalPerf);
      var j := ColumnIsLastNamed(funds, cols[k]);
    }
  }

  /**
   * Two funds named like the coal fund: the second one's column replaces
   * the first, so a challenger ending at 1.5 beats a coal fund whose last
   * column ends at 1.0, by 50 points.
   */
  lemma SecondCoalFundReplacesFirst()
    ensures var funds := [Fund("c", [1.0, 2.0]), Fund("c", [1.0, 1.0]), Fund("x", [1.0, 1.5])];
      && Compare(funds, "c").Some?
      && Verdict("x", 50.0, true) in Compare(funds, "c").value
      && forall v :: v in Compare(funds, "c").value ==> v == Verdict("x", 50.0, true)
  {
    var funds := [Fund("c", [1.0, 2.0]), Fund("c", [1.0, 1.0]), Fund("x", [1.0, 1.5])];
    var coalPerf := Performance30(funds[1]).value;
    var win := Verdict("x", 50.0, true);
    SampleVerdict(funds[1], funds[2]);
    assert LastNamed(funds, 1) && LastNamed(funds, 2);
    CompareLastWins(funds, "c", 1);
    var vs := Compare(funds, "c").value;
    forall v | v in vs
      ensures v == win
    {
      var j :| 0 <= j < |funds| && funds[j].name != "c" && LastNamed(funds, j)
               && v == Judge(funds[j].name, Performance30(funds[j]).value, coalPerf);
      assert j == 2;
    }
  }

  /** The sample challenger ending at 1.5 beats the sample coal column ending at 1.0 by 50 points. */
  lemma SampleVerdict(coal: Fund, x: Fund)
    requires coal == Fund("c", [1.0, 1.0]) && x == Fund("x", [1.0, 1.5])
    ensures Judge("x", Performance30(x).value, Performance30(coal).value) == Verdict("x", 50.0, true)
  {
    PerformanceIsRatio(coal);
    PerformanceIsRatio(x);
    assert Tail(coal.prices, Window) == coal.prices;
    assert Tail(x.prices, Window) == x.prices;
  }

  /**
   * A challenger beats coal exactly when its 30-day price ratio, last over
   * first, is greater than the coal fund's; equal ratios count as losing.
   */
  lemma BeatsIffBetterRatio(f: Fund, c: Fund)
    requires AllPositive(f.prices) && AllPositive(c.prices)
    requires |f.prices| > 0 && |c.prices| > 0
    ensures var wf, wc := Tail(f.prices, Window), Tail(c.prices, Window);
      (Judge(f.name, Performance30(f).value, Performance30(c).value).beatsCoal
       <==> wf[|wf| - 1] / wf[0] > wc[|wc| - 1] / wc[0])
  {
    var wf, wc := Tail(f.prices, Window), Tail(c.prices, Window);
    PerformanceIsRatio(f);
    PerformanceIsRatio(c);
  }
}
