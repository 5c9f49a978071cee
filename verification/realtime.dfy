/**
 * The intraday job: pulling the JSON body out of the estimate service's
 * JSONP reply, and the tactic board that turns a fund's name and estimated
 * growth into an action and a colour.
 */
module Realtime {
  import opened Numeric

  const Open: string := "jsonpgz("
  const Close: string := ");"

  /**
   * The lazy group of `jsonpgz\((.*?)\);` can run from `j` and stop at `k`:
   * `);` starts at `k`, and no position before it in the group holds a
   * newline (which `.` does not match) or an earlier `);`.
   */
  ghost predicate GroupEnd(text: string, j: int, k: int)
  {
    0 <= j <= k && OccursAt(text, Close, k)
    && forall m :: j <= m < k ==> text[m] != '\n' && !OccursAt(text, Close, m)
  }

  /** The pattern matches at `i` with its group ending at `k`. */
  ghost predicate MatchSpan(text: string, i: int, k: int)
  {
    OccursAt(text, Open, i) && GroupEnd(text, i + |Open|, k)
  }

  /** A group has at most one end. */
  lemma GroupEndUnique(text: string, j: int, k1: int, k2: int)
    requires GroupEnd(text, j, k1) && GroupEnd(text, j, k2)
    ensures k1 == k2
  {
  }

  /** The lazy scan for `);` from position `j`, failing at a newline. */
  function CloseFrom(text: string, j: nat): (r: Option<nat>)
    requires j <= |text|
    ensures r.Some? ==> GroupEnd(text, j, r.value)
    ensures r.None? ==> forall k :: !GroupEnd(text, j, k)
    decreases |text| - j
  {
    if OccursAt(text, Close, j) then Some(j)
    else if j == |text| || text[j] == '\n' then None
    else
      var r := CloseFrom(text, j + 1);
      assert forall k :: GroupEnd(text, j, k) ==> GroupEnd(text, j + 1, k);
      r
  }

  /** `re.search` from position `i`: the leftmost start at or after `i` where the pattern matches. */
  function LocateFrom(text: string, i: nat): (r: Option<(nat, nat)>)
    requires i <= |text|
    ensures r.Some? ==> i <= r.value.0 && MatchSpan(text, r.value.0, r.value.1)
    ensures r.Some? ==> forall s, k :: i <= s < r.value.0 ==> !MatchSpan(text, s, k)
    ensures r.None? ==> forall s, k :: i <= s ==> !MatchSpan(text, s, k)
    decreases |text| - i
  {
    if i == |text| then None
    else if OccursAt(text, Open, i) && CloseFrom(text, i + |Open|).Some? then
      Some((i, CloseFrom(text, i + |Open|).value))
    else
      NoMatchAt(text, i);
      LocateFrom(text, i + 1)
  }

  /** Where the scan from a start finds no end, the pattern does not match at that start. */
  lemma NoMatchAt(text: string, i: nat)
    requires i <= |text|
    requires !(OccursAt(text, Open, i) && CloseFrom(text, i + |Open|).Some?)
    ensures forall k :: !MatchSpan(text, i, k)
  {
  }

  /**
   * The JSON text of an estimate reply: the group of the leftmost match of
   * `jsonpgz\((.*?)\);`, or nothing when the pattern does not match. The
   * group never holds a newline or `);`.
   */
  function Extract(text: string): (r: Option<string>)
    ensures r.None? <==> forall i, k :: !MatchSpan(text, i, k)
    ensures r.Some? ==> exists i, k :: MatchSpan(text, i, k) && r.value == text[i + |Open|..k]
                                       && forall s, k' :: 0 <= s < i ==> !MatchSpan(text, s, k')
    ensures r.Some? ==> '\n' !in r.value && !Contains(r.value, Close)
  {
    match LocateFrom(text, 0)
    case None => None
    case Some((i, k)) =>
      var c := text[i + |Open|..k];
      GroupHasNoClose(text, i + |Open|, k);
      Some(c)
  }

  /** The text a group spans holds neither a newline nor `);`. */
  lemma GroupHasNoClose(text: string, j: int, k: int)
    requires GroupEnd(text, j, k)
    ensures '\n' !in text[j..k]
    ensures !Contains(text[j..k], Close)
  {
    var c := text[j..k];
    forall m | 0 <= m < |c|
      ensures c[m] != '\n'
    {
      assert c[m] == text[j + m];
    }
    forall m | 0 <= m <= |c| - |Close|
      ensures !OccursAt(c, Close, m)
    {
      assert !OccursAt(text, Close, j + m);
      assert c[m] == text[j + m] && c[m + 1] == text[j + m + 1];
      if c[m] == Close[0] {
        assert text[j + m + 1] != Close[1] by {
          assert text[j + m..j + m + |Close|] != Close;
          assert text[j + m..j + m + |Close|] == [text[j + m], text[j + m + 1]];
        }
      }
    }
  }

  /** Wrapping a newline-free text without `);` in the envelope and extracting gives it back. */
  lemma ExtractWrapped(c: string)
    requires '\n' !in c && !Contains(c, Close)
    ensures Extract(Open + c + Close) == Some(c)
  {
    var text := Open + c + Close;
    var j, k := |Open|, |Open| + |c|;
    assert text[..|Open|] == Open;
    assert OccursAt(text, Open, 0);
    assert text[k..k + |Close|] == Close;
    forall m | j <= m < k
      ensures text[m] != '\n' && !OccursAt(text, Close, m)
    {
      assert text[m] == c[m - j];
      if m + |Close| <= k {
        assert text[m..m + |Close|] == c[m - j..m - j + |Close|];
        assert !OccursAt(c, Close, m - j);
      } else {
        assert text[m + 1] == text[k..k + |Close|][0] == ')';
        assert text[m..m + |Close|][1] == text[m + 1] != Close[1];
      }
    }
    assert GroupEnd(text, j, k);
    var r := CloseFrom(text, j);
    GroupEndUnique(text, j, r.value, k);
    assert text[j..k] == c;
  }

  datatype Action = Watch | GoldenPit | BigRiseTakeProfit | DontCutLoss | TrimAndSwitch | HoldLongTerm

  datatype Color = Black | Green | Red

  datatype Tactic = Tactic(action: Action, color: Color)

  const Brokerage: string := "证券"
  const Coal: string := "煤炭"
  const Nasdaq: string := "纳"

  /** What the board shows when no rule fires. */
  const Default: Tactic := Tactic(Watch, Black)

  /**
   * The tactic board of `job_1450`: the first keyword the name contains
   * picks the rule set (brokerage, then coal, then Nasdaq), and within it the
   * first growth threshold crossed picks the action. Green always marks a
   * buy-side action, red a sell-side one.
   */
  function TacticFor(name: string, growth: real): (t: Tactic)
    ensures t.color == Green <==> t.action == GoldenPit || t.action == DontCutLoss
    ensures t.color == Red <==> t.action == BigRiseTakeProfit || t.action == TrimAndSwitch
  {
    if Contains(name, Brokerage) then
      if growth < -1.2 then Tactic(GoldenPit, Green)
      else if growth > 2.0 then Tactic(BigRiseTakeProfit, Red)
      else Default
    else if Contains(name, Coal) then
      if growth < -3.0 then Tactic(DontCutLoss, Green)
      else if growth > 0.1 then Tactic(TrimAndSwitch, Red)
      else Default
    else if Contains(name, Nasdaq) then Tactic(HoldLongTerm, Black)
    else Default
  }

  /** A name with none of the keywords always gets the default. */
  lemma NoKeywordWatches(name: string, growth: real)
    requires !Contains(name, Brokerage) && !Contains(name, Coal) && !Contains(name, Nasdaq)
    ensures TacticFor(name, growth) == Default
  {
  }

  /** The brokerage rule decides any name containing 证券, whatever else the name contains. */
  lemma BrokerageRule(name: string, growth: real)
    requires Contains(name, Brokerage)
    ensures TacticFor(name, growth).action == GoldenPit <==> growth < -1.2
    ensures TacticFor(name, growth).action == BigRiseTakeProfit <==> growth > 2.0
    ensures -1.2 <= growth <= 2.0 <==> TacticFor(name, growth) == Default
  {
  }

  /** The coal rule decides a name containing 煤炭 but not 证券. */
  lemma CoalRule(name: string, growth: real)
    requires !Contains(name, Brokerage) && Contains(name, Coal)
    ensures TacticFor(name, growth).action == DontCutLoss <==> growth < -3.0
    ensures TacticFor(name, growth).action == TrimAndSwitch <==> growth > 0.1
    ensures -3.0 <= growth <= 0.1 <==> TacticFor(name, growth) == Default
  {
  }

  /** A Nasdaq name is held long whatever the estimate, and keeps the default colour. */
  lemma NasdaqIgnoresGrowth(name: string, g1: real, g2: real)
    requires !Contains(name, Brokerage) && !Contains(name, Coal) && Contains(name, Nasdaq)
    ensures TacticFor(name, g1) == TacticFor(name, g2) == Tactic(HoldLongTerm, Black)
  {
  }

  /** An estimate: growth in percent and the service's timestamp. */
  datatype Estimate = Estimate(growth: real, time: string)

  /** A configured fund and the estimate fetched for it, if any. */
  datatype Quote = Quote(name: string, estimate: Option<Estimate>)

  /** One line of the message: name, estimated growth and the board's tactic. */
  datatype Line = Line(name: string, growth: real, tactic: Tactic)

  /** The funds that got an estimate, in configuration order. */
  function Estimated(quotes: seq<Quote>): (r: seq<Quote>)
    ensures |r| <= |quotes|
    ensures forall k :: 0 <= k < |r| ==> r[k].estimate.Some? && r[k] in quotes
  {
    if |quotes| == 0 then []
    else if quotes[0].estimate.None? then Estimated(quotes[1..])
    else [quotes[0]] + Estimated(quotes[1..])
  }

  /** A quote is kept exactly when it is one of the input quotes and has an estimate. */
  lemma {:induction false} EstimatedKeepsEveryEstimate(quotes: seq<Quote>, q: Quote)
    ensures q in Estimated(quotes) <==> q in quotes && q.estimate.Some?
  {
    if |quotes| > 0 {
      EstimatedKeepsEveryEstimate(quotes[1..], q);
      assert quotes == [quotes[0]] + quotes[1..];
    }
  }

  /** Skipping keeps configuration order: the estimated quotes of a concatenation are those of each part. */
  lemma {:induction false} EstimatedAppend(a: seq<Quote>, b: seq<Quote>)
    ensures Estimated(a + b) == Estimated(a) + Estimated(b)
  {
    if |a| > 0 {
      EstimatedAppend(a[1..], b);
      assert (a + b)[1..] == a[1..] + b;
    } else {
      assert a + b == b;
    }
  }

  /** The lines of the job: funds without an estimate are skipped. */
  function Lines(quotes: seq<Quote>): (ls: seq<Line>)
    ensures |ls| == |Estimated(quotes)|
    ensures forall k :: 0 <= k < |ls| ==>
              var q := Estimated(quotes)[k];
              ls[k] == Line(q.name, q.estimate.value.growth,
                            TacticFor(q.name, q.estimate.value.growth))
  {
    if |quotes| == 0 then []
    else
      var q := quotes[0];
      match q.estimate
      case None => Lines(quotes[1..])
      case Some(e) => [Line(q.name, e.growth, TacticFor(q.name, e.growth))] + Lines(quotes[1..])
  }

  /**
   * The message pushed at the end of the job, or nothing when no fund got an
   * estimate. Joining the lines with `<br>` is left to the text layer.
   */
  function Message(quotes: seq<Quote>): (m: Option<seq<Line>>)
    ensures m.Some? <==> exists k :: 0 <= k < |quotes| && quotes[k].estimate.Some?
    ensures m.Some? ==> |m.value| > 0 && m.value == Lines(quotes)
  {
    var ls := Lines(quotes);
    EstimatedNonEmpty(quotes);
    if |ls| == 0 then None else Some(ls)
  }

  lemma {:induction false} EstimatedNonEmpty(quotes: seq<Quote>)
    ensures |Estimated(quotes)| > 0 <==> exists k :: 0 <= k < |quotes| && quotes[k].estimate.Some?
  {
    if |quotes| > 0 {
      EstimatedNonEmpty(quotes[1..]);
      if quotes[0].estimate.None? {
        forall k | 1 <= k < |quotes|
          ensures quotes[k] == quotes[1..][k - 1]
        {
        }
      }
    }
  }
}
