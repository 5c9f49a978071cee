/**
 * The momentum ranking of the market radar: a 5-day and a 20-day percent
 * change per sector fund, their sum as the score, the funds sorted by score,
 * and the first and last of the ranking named champion and loser.
 */
module MarketRadar {
  import opened Numeric
  import opened Performance
  import opened Ranking

  datatype Entry = Entry(name: string, mom5: real, mom20: real, score: real)

  /** A fund's price history as fetched, in date order. */
  datatype Sector = Sector(name: string, prices: seq<real>)

  function Score(e: Entry): real
  {
    e.score
  }

  /**
   * The entry of one fund. Reading the price 20 rows back raises on a
   * history of fewer than 21 prices, and the fund is left out (`None`).
   */
  function Measure(s: Sector): (e: Option<Entry>)
    requires AllPositive(s.prices)
    ensures e.Some? <==> |s.prices| >= 21
    ensures e.Some? ==> e.value.name == s.name
    ensures e.Some? ==> e.value.score == e.value.mom5 + e.value.mom20
    ensures e.Some? ==> Some(e.value.mom5) == Momentum(s.prices, 5)
                        && Some(e.value.mom20) == Momentum(s.prices, 20)
  {
    match (Momentum(s.prices, 5), Momentum(s.prices, 20))
    case (Some(m5), Some(m20)) => Some(Entry(s.name, m5, m20, m5 + m20))
    case _ => None
  }

  ghost predicate ValidSectors(sectors: seq<Sector>)
  {
    forall k :: 0 <= k < |sectors| ==> AllPositive(sectors[k].prices)
  }

  /** The collected entries, in configuration order, of the funds with enough history. */
  function Collect(sectors: seq<Sector>): (es: seq<Entry>)
    requires ValidSectors(sectors)
    ensures |es| <= |sectors|
    ensures (forall k :: 0 <= k < |sectors| ==> |sectors[k].prices| >= 21) ==> |es| == |sectors|
  {
    Somes(seq(|sectors|, k requires 0 <= k < |sectors| => Measure(sectors[k])))
  }

  /**
   * Every fund with at least 21 prices has its entry among the collected
   * ones, and every collected entry is the entry of some fund.
   */
  lemma CollectComplete(sectors: seq<Sector>)
    requires ValidSectors(sectors)
    ensures forall j :: 0 <= j < |sectors| && |sectors[j].prices| >= 21 ==>
              Measure(sectors[j]).value in Collect(sectors)
    ensures forall e :: e in Collect(sectors) ==>
              exists j :: 0 <= j < |sectors| && Measure(sectors[j]) == Some(e)
  {
    var ms := seq(|sectors|, k requires 0 <= k < |sectors| => Measure(sectors[k]));
    SomesComplete(ms);
    forall j | 0 <= j < |sectors| && |sectors[j].prices| >= 21
      ensures Measure(sectors[j]).value in Collect(sectors)
    {
      assert ms[j] == Some(Measure(sectors[j]).value);
    }
    forall e | e in Collect(sectors)
      ensures exists j :: 0 <= j < |sectors| && Measure(sectors[j]) == Some(e)
    {
      var j :| 0 <= j < |ms| && ms[j] == Some(e);
      assert Measure(sectors[j]) == Some(e);
    }
  }

  /** The ranking: the collected entries sorted by score, highest first. */
  function Rank(sectors: seq<Sector>): (r: seq<Entry>)
    requires ValidSectors(sectors)
    ensures multiset(r) == multiset(Collect(sectors))
    ensures NonIncreasing(r, Score)
  {
    SortDescending(Collect(sectors), Score)
  }

  /**
   * The champion has the highest score of all collected entries and the
   * loser the lowest; there are none when no fund had enough history.
   */
  lemma ChampionAndLoser(sectors: seq<Sector>)
    requires ValidSectors(sectors)
    ensures Champion(Rank(sectors)).Some? <==> |Collect(sectors)| > 0
    ensures forall e :: e in Collect(sectors) ==>
              Score(Loser(Rank(sectors)).value) <= Score(e) <= Score(Champion(Rank(sectors)).value)
  {
    ChampionMaxLoserMin(Collect(sectors), Score);
  }
}
