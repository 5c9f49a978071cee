/**
 * The global radar: each fund's last 60 prices rebased to 1.0, its total
 * return over the window, a ranking by that return, and a comment chosen by
 * keywords in the champion's name.
 */
module GlobalRadar {
  import opened Numeric
  import opened Performance
  import opened Ranking
  import opened Table

  /** Trading days looked back (`lookback_days`). */
  const Lookback: nat := 60

  datatype Fund = Fund(name: string, prices: seq<real>)

  datatype Standing = Standing(name: string, totalReturn: real)

  function Return(s: Standing): real
  {
    s.totalReturn
  }

  /** The column a standing occupies in `combined_df`. */
  function Name(s: Standing): string
  {
    s.name
  }

  /** The standing of one fund; an empty history fails at its first price and the fund is skipped. */
  function Judge(f: Fund): (s: Option<Standing>)
    requires AllPositive(f.prices)
    ensures s.Some? <==> |f.prices| > 0
    ensures s.Some? ==> s.value.name == f.name
  {
    var w := Tail(f.prices, Lookback);
    TailPositive(f.prices, Lookback);
    if |w| == 0 then None
    else Some(Standing(f.name, TotalReturn(Rebase(w).value)))
  }

  /**
   * A fund's total return is the percent change over its window, positive
   * exactly when the last price is above the first.
   */
  lemma StandingIsPercentChange(f: Fund)
    requires AllPositive(f.prices) && |f.prices| > 0
    ensures var w := Tail(f.prices, Lookback);
      && Judge(f).value.totalReturn == (w[|w| - 1] / w[0] - 1.0) * 100.0
      && (Judge(f).value.totalReturn > 0.0 <==> w[|w| - 1] > w[0])
  {
    var w := Tail(f.prices, Lookback);
    TailPositive(f.prices, Lookback);
    assert Judge(f).value.totalReturn == TotalReturn(Rebase(w).value);
    TotalReturnOfWindow(w);
  }

  ghost predicate ValidFunds(funds: seq<Fund>)
  {
    forall k :: 0 <= k < |funds| ==> AllPositive(funds[k].prices)
  }

  /** What each fund assigns to `combined_df`, in configuration order; a failed fund assigns nothing. */
  function Judged(funds: seq<Fund>): (js: seq<Option<Standing>>)
    requires ValidFunds(funds)
    ensures |js| == |funds|
    ensures forall k :: 0 <= k < |funds| ==> js[k] == Judge(funds[k])
  {
    seq(|funds|, k requires 0 <= k < |funds| => Judge(funds[k]))
  }

  /**
   * The columns of `combined_df`, one per distinct fund name: a later fund
   * with the name of an earlier one replaces that fund's column.
   */
  function Standings(funds: seq<Fund>): (ss: seq<Standing>)
    requires ValidFunds(funds)
    ensures |ss| <= |funds|
    ensures DistinctKeys(ss, Name)
  {
    ColumnsDistinct(Judged(funds), Name);
    Columns(Judged(funds), Name)
  }

  /**
   * Every fund with data has a standing under its name, and every standing
   * is the one of the LAST fund with data carrying that name.
   */
  lemma StandingsComplete(funds: seq<Fund>)
    requires ValidFunds(funds)
    ensures forall j :: 0 <= j < |funds| && |funds[j].prices| > 0 ==>
              exists s :: s in Standings(funds) && s.name == funds[j].name
    ensures forall s :: s in Standings(funds) ==>
              exists j :: 0 <= j < |funds| && Judge(funds[j]) == Some(s)
                          && forall m :: j < m < |funds| && |funds[m].prices| > 0 ==> funds[m].name != s.name
  {
    var js := Judged(funds);
    ColumnsCoverNames(js, Name);
    ColumnsHoldLast(js, Name);
    forall j | 0 <= j < |funds| && |funds[j].prices| > 0
      ensures exists s :: s in Standings(funds) && s.name == funds[j].name
    {
      assert js[j].Some? && Name(js[j].value) == funds[j].name;
    }
    forall s | s in Standings(funds)
      ensures exists j :: 0 <= j < |funds| && Judge(funds[j]) == Some(s)
                          && forall m :: j < m < |funds| && |funds[m].prices| > 0 ==> funds[m].name != s.name
    {
      var j :| 0 <= j < |js| && js[j] == Some(s) && LastWithKey(js, j, Name(s), Name);
      forall m | j < m < |funds| && |funds[m].prices| > 0
        ensures funds[m].name != s.name
      {
        assert js[m].Some? && Name(js[m].value) == funds[m].name;
      }
    }
  }

  /** With distinct fund names no column is replaced: one standing per fund with data, in order. */
  lemma DistinctNamesKeepEveryStanding(funds: seq<Fund>)
    requires ValidFunds(funds)
    requires forall i, j :: 0 <= i < j < |funds| ==> funds[i].name != funds[j].name
    ensures Standings(funds) == Somes(Judged(funds))
    ensures forall j :: 0 <= j < |funds| && |funds[j].prices| > 0 ==> Judge(funds[j]).value in Standings(funds)
  {
    var js := Judged(funds);
    DistinctColumnsKeepAll(js, Name);
    SomesComplete(js);
    forall j | 0 <= j < |funds| && |funds[j].prices| > 0
      ensures Judge(funds[j]).value in Standings(funds)
    {
      assert Some(Judge(funds[j]).value) == js[j];
    }
  }

  /** The ranking by total return, highest first: a permutation of the standings. */
  function Rank(funds: seq<Fund>): (r: seq<Standing>)
    requires ValidFunds(funds)
    ensures multiset(r) == multiset(Standings(funds))
    ensures NonIncreasing(r, Return)
  {
    SortDescending(Standings(funds), Return)
  }

  /** The champion has the greatest total return of all judged funds. */
  lemma ChampionHasBestReturn(funds: seq<Fund>)
    requires ValidFunds(funds)
    ensures Champion(Rank(funds)).Some? <==> |Standings(funds)| > 0
    ensures Champion(Rank(funds)).Some? ==> Champion(Rank(funds)).value in Standings(funds)
    ensures forall s :: s in Standings(funds) ==> Return(s) <= Return(Champion(Rank(funds)).value)
  {
    ChampionMaxLoserMin(Standings(funds), Return);
  }

  /** The macro comment printed for the champion. */
  datatype Theme = ComputeRace | SafeHaven | BatteryRebound

  /** First match: `AI` or `通信`, then `白银`, then `电池`; no keyword, no comment. */
  function Commentary(champion: string): (t: Option<Theme>)
    ensures t == Some(ComputeRace) <==> Contains(champion, "AI") || Contains(champion, "通信")
    ensures t == Some(SafeHaven) <==>
              !Contains(champion, "AI") && !Contains(champion, "通信") && Contains(champion, "白银")
    ensures t.None? <==>
              !Contains(champion, "AI") && !Contains(champion, "通信")
              && !Contains(champion, "白银") && !Contains(champion, "电池")
  {
    if Contains(champion, "AI") || Contains(champion, "通信") then Some(ComputeRace)
    else if Contains(champion, "白银") then Some(SafeHaven)
    else if Contains(champion, "电池") then Some(BatteryRebound)
    else None
  }
}
