/**
 * `Backtest.prepare_data` and `Backtest.run`: RSI over the whole history,
 * rows with a missing value dropped, then a replay of the kept rows with an
 * all-in / all-out position, one portfolio value per row, and the strategy's
 * return against buy-and-hold.
 */
module Backtest {
  import opened Numeric
  import opened Indicators

  const BuyBelow: real := 30.0
  const SellAbove: real := 70.0

  /** A row kept by `dropna()`: its date, price and RSI. */
  datatype Bar = Bar(date: int, price: real, rsi: real)

  /** The `rsi` column of a history; the only column `dropna()` finds missing past the first row. */
  function RsiColumn(h: seq<Point>): (c: seq<Option<real>>)
    ensures |c| == |h|
    ensures forall i :: 0 <= i < |h| && c[i].Some? ==> 0.0 <= c[i].value <= 100.0
  {
    var p := Values(h);
    seq(|h|, i requires 0 <= i < |h| => Rsi(p, i))
  }

  /** RSI values are percentages. */
  ghost predicate Percentages(rsi: seq<Option<real>>)
  {
    forall i :: 0 <= i < |rsi| && rsi[i].Some? ==> 0.0 <= rsi[i].value <= 100.0
  }

  /** Rows `i..` of the history that survive `dropna()`, in order. */
  function Keep(h: seq<Point>, rsi: seq<Option<real>>, i: nat): (bars: seq<Bar>)
    requires |rsi| == |h| && i <= |h|
    requires Percentages(rsi)
    ensures |bars| <= |h| - i
    ensures forall k :: 0 <= k < |bars| ==> 0.0 <= bars[k].rsi <= 100.0
    ensures AllPositive(Values(h)) ==> forall k :: 0 <= k < |bars| ==> bars[k].price > 0.0
    decreases |h| - i
  {
    if i == |h| then []
    else
      match rsi[i]
      case None => Keep(h, rsi, i + 1)
      case Some(r) => [Bar(h[i].date, h[i].value, r)] + Keep(h, rsi, i + 1)
  }

  /** `prepare_data`: the first row never survives, since its change is missing. */
  function Prepare(h: seq<Point>): (bars: seq<Bar>)
    ensures |h| > 0 ==> |bars| < |h|
    ensures forall k :: 0 <= k < |bars| ==> 0.0 <= bars[k].rsi <= 100.0
    ensures AllPositive(Values(h)) ==> forall k :: 0 <= k < |bars| ==> bars[k].price > 0.0
  {
    if |h| == 0 then [] else Keep(h, RsiColumn(h), 1)
  }

  /** Each row as `dropna()` sees it: the row with its RSI, or nothing when the RSI is missing. */
  function Candidates(h: seq<Point>, rsi: seq<Option<real>>): (cs: seq<Option<Bar>>)
    requires |rsi| == |h|
    ensures |cs| == |h|
    ensures forall j :: 0 <= j < |h| ==>
              cs[j] == if rsi[j].Some? then Some(Bar(h[j].date, h[j].value, rsi[j].value)) else None
  {
    seq(|h|, j requires 0 <= j < |h| => if rsi[j].Some? then Some(Bar(h[j].date, h[j].value, rsi[j].value)) else None)
  }

  /** `Keep` from row `i` is exactly the present candidates from row `i` on, in order. */
  lemma {:induction false} KeepIsSomes(h: seq<Point>, rsi: seq<Option<real>>, i: nat)
    requires |rsi| == |h| && i <= |h| && Percentages(rsi)
    ensures Keep(h, rsi, i) == Somes(Candidates(h, rsi)[i..])
    decreases |h| - i
  {
    var cs := Candidates(h, rsi);
    if i < |h| {
      KeepIsSomes(h, rsi, i + 1);
      assert cs[i..][1..] == cs[i + 1..];
    } else {
      assert cs[i..] == [];
    }
  }

  /**
   * `prepare_data` is `dropna()` on the RSI column: the kept bars are the
   * present candidates of the rows from the second on, in history order.
   */
  lemma PrepareIsDropna(h: seq<Point>)
    requires |h| > 0
    ensures Prepare(h) == Somes(Candidates(h, RsiColumn(h))[1..])
  {
    KeepIsSomes(h, RsiColumn(h), 1);
  }

  /**
   * A bar is kept exactly when it is some row after the first whose RSI is
   * defined, carrying that row's date, price and RSI.
   */
  lemma PrepareKeepsDefinedRows(h: seq<Point>, b: Bar)
    requires |h| > 0
    ensures b in Prepare(h) <==>
              exists j :: 1 <= j < |h| && RsiColumn(h)[j].Some?
                          && b == Bar(h[j].date, h[j].value, RsiColumn(h)[j].value)
  {
    var rsi := RsiColumn(h);
    var cs := Candidates(h, rsi)[1..];
    PrepareIsDropna(h);
    if b in Prepare(h) {
      KeptIsPresent(cs, b);
      var k :| 0 <= k < |cs| && cs[k] == Some(b);
      assert rsi[k + 1].Some?;
    }
    if j :| 1 <= j < |h| && rsi[j].Some? && b == Bar(h[j].date, h[j].value, rsi[j].value) {
      assert cs[j - 1] == Some(b);
      SomesComplete(cs);
    }
  }

  /** From row `i` on, every row with an RSI is kept. */
  lemma {:induction false} KeepAllDefined(h: seq<Point>, rsi: seq<Option<real>>, i: nat)
    requires |rsi| == |h| && i <= |h| && Percentages(rsi)
    requires forall j :: i <= j < |h| ==> rsi[j].Some?
    ensures |Keep(h, rsi, i)| == |h| - i
    ensures forall k :: 0 <= k < |h| - i ==>
              Keep(h, rsi, i)[k].date == h[i + k].date && Keep(h, rsi, i)[k].price == h[i + k].value
    decreases |h| - i
  {
    if i < |h| {
      KeepAllDefined(h, rsi, i + 1);
      var kept, rest := Keep(h, rsi, i), Keep(h, rsi, i + 1);
      assert kept == [Bar(h[i].date, h[i].value, rsi[i].value)] + rest;
      forall k | 1 <= k < |h| - i
        ensures kept[k].date == h[i + k].date && kept[k].price == h[i + k].value
      {
        assert kept[k] == rest[k - 1];
      }
    }
  }

  /**
   * Once the price has moved away from the first price, every later row is
   * kept: a history whose second price differs from the first keeps all its
   * rows but the first.
   */
  lemma KeepAfterFirstMove(h: seq<Point>)
    requires 2 <= |h|
    requires h[1].value != h[0].value
    ensures |Prepare(h)| == |h| - 1
    ensures forall k :: 0 <= k < |h| - 1 ==>
              Prepare(h)[k].date == h[k + 1].date && Prepare(h)[k].price == h[k + 1].value
  {
    var rsi := RsiColumn(h);
    forall j | 1 <= j < |h|
      ensures rsi[j].Some?
    {
      MovedRsiDefined(h, j);
    }
    KeepAllDefined(h, rsi, 1);
  }

  lemma MovedRsiDefined(h: seq<Point>, i: nat)
    requires 1 <= i < |h|
    requires h[1].value != h[0].value
    ensures RsiColumn(h)[i].Some?
  {
    var p := Values(h);
    RsiMissingIffFlat(p, i);
    assert p[1] != p[0];
  }

  datatype Position = Position(cash: real, share: real)

  datatype Side = Buy | Sell

  /** A recorded buy or sell signal: its side, date and price. */
  datatype Trade = Trade(side: Side, date: int, price: real)

  /** `cash + share * price`. */
  function Value(pos: Position, price: real): (v: real)
    ensures pos.share == 0.0 ==> v == pos.cash
    ensures pos.cash == 0.0 ==> v == pos.share * price
  {
    pos.cash + pos.share * price
  }

  /** All in cash. */
  predicate Flat(pos: Position)
  {
    pos.cash > 0.0 && pos.share == 0.0
  }

  /** All in the fund. */
  predicate Invested(pos: Position)
  {
    pos.cash == 0.0 && pos.share > 0.0
  }

  /**
   * One day of the strategy: buy with all cash below RSI 30, otherwise sell
   * everything above RSI 70, otherwise nothing.
   */
  function Step(pos: Position, b: Bar): (r: (Position, Option<Side>))
    requires b.price > 0.0
    ensures r.1 == Some(Buy) <==> b.rsi < BuyBelow && pos.cash > 0.0
    ensures r.1 == Some(Sell) <==>
              !(b.rsi < BuyBelow && pos.cash > 0.0) && b.rsi > SellAbove && pos.share > 0.0
    ensures r.1 == None ==> r.0 == pos
  {
    if b.rsi < BuyBelow && pos.cash > 0.0 then
      (Position(0.0, pos.share + pos.cash / b.price), Some(Buy))
    else if b.rsi > SellAbove && pos.share > 0.0 then
      (Position(pos.cash + pos.share * b.price, 0.0), Some(Sell))
    else
      (pos, None)
  }

  /** A trade at the day's price leaves the day's portfolio value unchanged. */
  lemma StepKeepsValue(pos: Position, b: Bar)
    requires b.price > 0.0
    ensures Value(Step(pos, b).0, b.price) == Value(pos, b.price)
  {
    if b.rsi < BuyBelow && pos.cash > 0.0 {
      var bought := pos.cash / b.price;
      assert bought * b.price == pos.cash;
      assert (pos.share + bought) * b.price == pos.share * b.price + bought * b.price;
    }
  }

  /** A trade moves a flat position to an invested one and back; a quiet day keeps the state. */
  lemma StepSwitchesState(pos: Position, b: Bar)
    requires b.price > 0.0
    requires Flat(pos) || Invested(pos)
    ensures var (next, act) := Step(pos, b);
      && (Flat(next) || Invested(next))
      && (act == Some(Buy) ==> Flat(pos) && Invested(next))
      && (act == Some(Sell) ==> Invested(pos) && Flat(next))
      && (act == None ==> next == pos)
  {
    if b.rsi < BuyBelow && pos.cash > 0.0 {
      assert pos.cash / b.price > 0.0;
    } else if b.rsi > SellAbove && pos.share > 0.0 {
      assert pos.share * b.price > 0.0;
    }
  }

  ghost predicate PricesPositive(bars: seq<Bar>)
  {
    forall k :: 0 <= k < |bars| ==> bars[k].price > 0.0
  }

  /** What a replay produces: one value per row, the trade log, and the final position. */
  datatype Trace = Trace(values: seq<real>, trades: seq<Trade>, last: Position)

  /** The trading loop of `run`, from position `pos` over `bars`. */
  function Replay(pos: Position, bars: seq<Bar>): (t: Trace)
    requires PricesPositive(bars)
    ensures |t.values| == |bars|
    ensures |t.trades| <= |bars|
    decreases |bars|
  {
    if |bars| == 0 then Trace([], [], pos)
    else
      var (next, act) := Step(pos, bars[0]);
      var rest := Replay(next, bars[1..]);
      var trades := match act
        case None => rest.trades
        case Some(side) => [Trade(side, bars[0].date, bars[0].price)] + rest.trades;
      Trace([Value(next, bars[0].price)] + rest.values, trades, rest.last)
  }

  function Opposite(s: Side): Side
  {
    if s == Buy then Sell else Buy
  }

  /** Trade `k` has side `first` for even `k` and the other side for odd `k`. */
  ghost predicate Alternating(trades: seq<Trade>, first: Side)
  {
    forall k :: 0 <= k < |trades| ==> trades[k].side == (if k % 2 == 0 then first else Opposite(first))
  }

  /** The number of trades on one side. */
  function Count(trades: seq<Trade>, side: Side): (n: nat)
    ensures n <= |trades|
    ensures n == 0 <==> forall k :: 0 <= k < |trades| ==> trades[k].side != side
    ensures n == |trades| <==> forall k :: 0 <= k < |trades| ==> trades[k].side == side
  {
    if |trades| == 0 then 0
    else (if trades[0].side == side then 1 else 0) + Count(trades[1..], side)
  }

  /** Every trade is a buy or a sell. */
  lemma {:induction false} CountSides(trades: seq<Trade>)
    ensures Count(trades, Buy) + Count(trades, Sell) == |trades|
  {
    if |trades| > 0 {
      CountSides(trades[1..]);
    }
  }

  /** Over a whole replay the position is always all cash or all fund. */
  lemma {:induction false} ReplayKeepsState(pos: Position, bars: seq<Bar>)
    requires PricesPositive(bars)
    requires Flat(pos) || Invested(pos)
    ensures Flat(Replay(pos, bars).last) || Invested(Replay(pos, bars).last)
    decreases |bars|
  {
    if |bars| > 0 {
      StepSwitchesState(pos, bars[0]);
      ReplayKeepsState(Step(pos, bars[0]).0, bars[1..]);
    }
  }

  /** The trades of a replay alternate, starting with the side the starting state allows. */
  lemma {:induction false} ReplayAlternates(pos: Position, bars: seq<Bar>)
    requires PricesPositive(bars)
    requires Flat(pos) || Invested(pos)
    ensures Alternating(Replay(pos, bars).trades, if Flat(pos) then Buy else Sell)
    decreases |bars|
  {
    if |bars| > 0 {
      var (next, act) := Step(pos, bars[0]);
      StepSwitchesState(pos, bars[0]);
      ReplayAlternates(next, bars[1..]);
      if act.Some? {
        var rest := Replay(next, bars[1..]).trades;
        var t := Replay(pos, bars).trades;
        assert t == [Trade(act.value, bars[0].date, bars[0].price)] + rest;
        var first := if Flat(pos) then Buy else Sell;
        assert (if Flat(next) then Buy else Sell) == Opposite(first);
        forall k | 0 <= k < |t|
          ensures t[k].side == (if k % 2 == 0 then first else Opposite(first))
        {
          if k > 0 {
            assert t[k] == rest[k - 1];
          }
        }
      }
    }
  }

  /** Buys minus sells is the change in "invested" from the start of a replay to its end. */
  lemma {:induction false} ReplayBalance(pos: Position, bars: seq<Bar>)
    requires PricesPositive(bars)
    requires Flat(pos) || Invested(pos)
    ensures var t := Replay(pos, bars);
      Count(t.trades, Buy) - Count(t.trades, Sell)
        == (if Invested(t.last) then 1 else 0) - (if Invested(pos) then 1 else 0)
    decreases |bars|
  {
    if |bars| > 0 {
      var (next, act) := Step(pos, bars[0]);
      StepSwitchesState(pos, bars[0]);
      ReplayBalance(next, bars[1..]);
      if act.Some? {
        var rest := Replay(next, bars[1..]).trades;
        var t := Replay(pos, bars).trades;
        assert t == [Trade(act.value, bars[0].date, bars[0].price)] + rest;
        assert t[1..] == rest;
      }
    }
  }

  /** Every portfolio value of a replay equals the value of the position held after that row's action. */
  lemma {:induction false} ValuesArePositionValues(pos: Position, bars: seq<Bar>, k: nat)
    requires PricesPositive(bars)
    requires k < |bars|
    ensures Replay(pos, bars).values[k] == Value(PositionAfter(pos, bars, k + 1), bars[k].price)
    decreases |bars|
  {
    if k > 0 {
      var next := Step(pos, bars[0]).0;
      ValuesArePositionValues(next, bars[1..], k - 1);
    }
  }

  /** The position after the first `n` rows. */
  function PositionAfter(pos: Position, bars: seq<Bar>, n: nat): Position
    requires PricesPositive(bars)
    requires n <= |bars|
    decreases n
  {
    if n == 0 then pos else PositionAfter(Step(pos, bars[0]).0, bars[1..], n - 1)
  }

  /** After every row of a replay the position is all cash or all fund, so cash and share are never both non-zero. */
  lemma {:induction false} EveryPositionFlatOrInvested(pos: Position, bars: seq<Bar>, n: nat)
    requires PricesPositive(bars)
    requires n <= |bars|
    requires Flat(pos) || Invested(pos)
    ensures var q := PositionAfter(pos, bars, n);
      (Flat(q) || Invested(q)) && q.cash >= 0.0 && q.share >= 0.0 && (q.cash == 0.0 || q.share == 0.0)
    decreases n
  {
    if n > 0 {
      StepSwitchesState(pos, bars[0]);
      EveryPositionFlatOrInvested(Step(pos, bars[0]).0, bars[1..], n - 1);
    }
  }

  /** Without a row below RSI 30 a flat start never trades, and every recorded value is the starting cash. */
  lemma {:induction false} NoDipNoTrade(pos: Position, bars: seq<Bar>)
    requires PricesPositive(bars)
    requires Flat(pos)
    requires forall k :: 0 <= k < |bars| ==> bars[k].rsi >= BuyBelow
    ensures Replay(pos, bars).trades == []
    ensures Replay(pos, bars).last == pos
    ensures forall k :: 0 <= k < |bars| ==> Replay(pos, bars).values[k] == pos.cash
    decreases |bars|
  {
    if |bars| > 0 {
      NoDipNoTrade(pos, bars[1..]);
    }
  }

  /** The log entry a day's action adds. */
  function Logged(act: Option<Side>, b: Bar): seq<Trade>
  {
    match act
    case None => []
    case Some(side) => [Trade(side, b.date, b.price)]
  }

  /** One row of a replay taken off the front. */
  lemma ReplayUnfold(pos: Position, bars: seq<Bar>, i: nat)
    requires PricesPositive(bars)
    requires i < |bars|
    ensures var (next, act) := Step(pos, bars[i]);
      var t := Replay(pos, bars[i..]);
      var rest := Replay(next, bars[i + 1..]);
      && t.values == [Value(next, bars[i].price)] + rest.values
      && t.trades == Logged(act, bars[i]) + rest.trades
      && t.last == rest.last
  {
    assert bars[i..][1..] == bars[i + 1..];
  }

  /** The outcome of one run. */
  datatype Outcome = Outcome(values: seq<real>, trades: seq<Trade>, finalValue: real,
                             profit: real, holdProfit: real, beatsHold: bool)

  /** Percent change from `a` to `b`. */
  function Growth(a: real, b: real): (g: real)
    requires a != 0.0
    ensures g * a == (b - a) * 100.0
  {
    (b - a) / a * 100.0
  }

  /**
   * `run` for one fund: replay from all cash, then the final value, the
   * strategy's return, the buy-and-hold return from first to last kept
   * price, and whether the strategy did strictly better. With no row kept,
   * reading the last row fails (`None`).
   */
  function Run(h: seq<Point>, initialCash: real): (o: Option<Outcome>)
    requires initialCash > 0.0
    requires AllPositive(Values(h))
    ensures o.Some? <==> |Prepare(h)| > 0
    ensures o.Some? ==> |o.value.values| == |Prepare(h)|
    ensures o.Some? ==> o.value.finalValue == o.value.values[|o.value.values| - 1]
    ensures o.Some? ==> o.value.values == Replay(Position(initialCash, 0.0), Prepare(h)).values
    ensures o.Some? ==> o.value.trades == Replay(Position(initialCash, 0.0), Prepare(h)).trades
    ensures o.Some? ==> o.value.profit == Growth(initialCash, o.value.finalValue)
    ensures o.Some? ==> o.value.holdProfit
                          == Growth(Prepare(h)[0].price, Prepare(h)[|Prepare(h)| - 1].price)
    ensures o.Some? ==> (o.value.beatsHold <==> o.value.profit > o.value.holdProfit)
  {
    var bars := Prepare(h);
    if |bars| == 0 then None
    else
      var t := Replay(Position(initialCash, 0.0), bars);
      var final := t.values[|t.values| - 1];
      var profit := Growth(initialCash, final);
      var hold := Growth(bars[0].price, bars[|bars| - 1].price);
      Some(Outcome(t.values, t.trades, final, profit, hold, profit > hold))
  }

  /** One percent change beats another exactly when the cross products of the ratios say so. */
  lemma GrowthBeats(c: real, f: real, p: real, l: real)
    requires c > 0.0 && p > 0.0
    ensures Growth(c, f) > Growth(p, l) <==> f * p > l * c
  {
    RatioLessOne(c, f);
    RatioLessOne(p, l);
    assert f / c > l / p <==> f * p > l * c by {
      assert f / c * (c * p) == f * p;
      assert l / p * (c * p) == l * c;
    }
  }

  lemma RatioLessOne(a: real, b: real)
    requires a > 0.0
    ensures Growth(a, b) == (b / a - 1.0) * 100.0
  {
    assert (b - a) / a == b / a - a / a;
  }

  /**
   * The final value grew from the cash by a greater ratio than the price
   * from the first to the last kept row: `final / cash > last / first`,
   * cleared of division.
   */
  predicate Outperforms(final: real, cash: real, first: real, last: real)
  {
    final * first > last * cash
  }

  /** An outcome built from the two returns compares its cross products. */
  lemma OutcomeBeatsHold(o: Outcome, cash: real, first: real, last: real)
    requires cash > 0.0 && first > 0.0
    requires o.profit == Growth(cash, o.finalValue) && o.holdProfit == Growth(first, last)
    requires o.beatsHold <==> o.profit > o.holdProfit
    ensures o.beatsHold <==> Outperforms(o.finalValue, cash, first, last)
  {
    GrowthBeats(cash, o.finalValue, first, last);
  }

  /**
   * The strategy beats buy-and-hold exactly when its final value over the
   * starting cash is a greater ratio than the last kept price over the
   * first.
   */
  lemma RunBeatsHoldIff(h: seq<Point>, initialCash: real)
    requires initialCash > 0.0
    requires AllPositive(Values(h))
    requires Run(h, initialCash).Some?
    ensures Run(h, initialCash).value.beatsHold
            <==> Outperforms(Run(h, initialCash).value.finalValue, initialCash,
                             Prepare(h)[0].price, Prepare(h)[|Prepare(h)| - 1].price)
  {
    var bars := Prepare(h);
    OutcomeBeatsHold(Run(h, initialCash).value, initialCash, bars[0].price, bars[|bars| - 1].price);
  }

  /** A run's trades alternate buy, sell, buy, ...; buys exceed sells by at most one. */
  lemma RunAlternates(h: seq<Point>, initialCash: real)
    requires initialCash > 0.0
    requires AllPositive(Values(h))
    requires Run(h, initialCash).Some?
    ensures Alternating(Run(h, initialCash).value.trades, Buy)
    ensures 0 <= Count(Run(h, initialCash).value.trades, Buy)
                 - Count(Run(h, initialCash).value.trades, Sell) <= 1
  {
    ReplayAlternates(Position(initialCash, 0.0), Prepare(h));
    ReplayBalance(Position(initialCash, 0.0), Prepare(h));
    ReplayKeepsState(Position(initialCash, 0.0), Prepare(h));
  }

  /** With no kept row below RSI 30 the strategy ends where it started: a return of exactly 0%. */
  lemma RunWithoutDipBreaksEven(h: seq<Point>, initialCash: real)
    requires initialCash > 0.0
    requires AllPositive(Values(h))
    requires Run(h, initialCash).Some?
    requires forall k :: 0 <= k < |Prepare(h)| ==> Prepare(h)[k].rsi >= BuyBelow
    ensures Run(h, initialCash).value.trades == []
    ensures Run(h, initialCash).value.finalValue == initialCash
    ensures Run(h, initialCash).value.profit == 0.0
  {
    var bars, start := Prepare(h), Position(initialCash, 0.0);
    NoDipNoTrade(start, bars);
    var t := Replay(start, bars);
    assert t.values[|bars| - 1] == initialCash;
    assert Run(h, initialCash).value.trades == t.trades;
    assert Run(h, initialCash).value.finalValue == initialCash;
    assert Growth(initialCash, initialCash) == 0.0;
  }

  /** The body of the trading loop as written, on mutable cash and share. */
  method Act(cash0: real, share0: real, b: Bar) returns (cash: real, share: real, logged: seq<Trade>)
    requires b.price > 0.0
    ensures Position(cash, share) == Step(Position(cash0, share0), b).0
    ensures logged == Logged(Step(Position(cash0, share0), b).1, b)
  {
    cash, share, logged := cash0, share0, [];
    if b.rsi < BuyBelow && cash > 0.0 {
      var buyShare := cash / b.price;
      share := share + buyShare;
      cash := 0.0;
      logged := [Trade(Buy, b.date, b.price)];
    } else if b.rsi > SellAbove && share > 0.0 {
      var sellAmount := share * b.price;
      cash := cash + sellAmount;
      share := 0.0;
      logged := [Trade(Sell, b.date, b.price)];
    }
  }

  /**
   * The loop of `run`: one action per row, the two signal lists kept as one
   * log, and the day's total value appended for every row.
   */
  method RunLoop(bars: seq<Bar>, initialCash: real)
    returns (values: seq<real>, trades: seq<Trade>, cash: real, share: real)
    requires PricesPositive(bars)
    ensures values == Replay(Position(initialCash, 0.0), bars).values
    ensures trades == Replay(Position(initialCash, 0.0), bars).trades
    ensures Position(cash, share) == Replay(Position(initialCash, 0.0), bars).last
  {
    cash, share := initialCash, 0.0;
    values, trades := [], [];
    var i := 0;
    while i < |bars|
      invariant 0 <= i <= |bars|
      invariant values + Replay(Position(cash, share), bars[i..]).values
             == Replay(Position(initialCash, 0.0), bars).values
      invariant trades + Replay(Position(cash, share), bars[i..]).trades
             == Replay(Position(initialCash, 0.0), bars).trades
      invariant Replay(Position(cash, share), bars[i..]).last
             == Replay(Position(initialCash, 0.0), bars).last
    {
      var b := bars[i];
      ReplayUnfold(Position(cash, share), bars, i);
      var logged;
      cash, share, logged := Act(cash, share, b);
      trades := trades + logged;
      values := values + [Value(Position(cash, share), b.price)];
      i := i + 1;
    }
    assert bars[|bars|..] == [];
  }
}
