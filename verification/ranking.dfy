/**
 * `sort_values(ascending=False)` as the practice scripts use it: a
 * descending order on a numeric key, with the first element the champion
 * and the last the loser. Ties may come out in any order, so only the order
 * of the keys and the permutation are stated.
 */
module Ranking {
  import opened Numeric

  ghost predicate NonIncreasing<T>(s: seq<T>, key: T -> real)
  {
    forall i, j :: 0 <= i < j < |s| ==> key(s[i]) >= key(s[j])
  }

  /** Putting an element no smaller than the head in front keeps the order. */
  lemma ConsNonIncreasing<T>(a: T, t: seq<T>, key: T -> real)
    requires NonIncreasing(t, key)
    requires |t| > 0 ==> key(a) >= key(t[0])
    ensures NonIncreasing([a] + t, key)
  {
    var r := [a] + t;
    forall i, j | 0 <= i < j < |r|
      ensures key(r[i]) >= key(r[j])
    {
      if i == 0 {
        assert r[j] == t[j - 1];
        if j > 1 {
          assert key(t[0]) >= key(t[j - 1]);
        }
      } else {
        assert r[i] == t[i - 1] && r[j] == t[j - 1];
      }
    }
  }

  /** `x` inserted into a non-increasing sequence at the first place that keeps it non-increasing. */
  function Insert<T(==)>(x: T, s: seq<T>, key: T -> real): (r: seq<T>)
    requires NonIncreasing(s, key)
    ensures |r| == |s| + 1
    ensures NonIncreasing(r, key)
    ensures multiset(r) == multiset(s) + multiset{x}
    ensures r[0] == x || (|s| > 0 && r[0] == s[0])
  {
    if |s| == 0 then [x]
    else if key(x) >= key(s[0]) then
      ConsNonIncreasing(x, s, key);
      [x] + s
    else
      var rest := Insert(x, s[1..], key);
      assert s == [s[0]] + s[1..];
      assert |s| > 1 ==> key(s[0]) >= key(s[1]);
      ConsNonIncreasing(s[0], rest, key);
      [s[0]] + rest
  }

  /** The entries in non-increasing order of `key`: a permutation of the input. */
  function SortDescending<T(==)>(s: seq<T>, key: T -> real): (r: seq<T>)
    ensures NonIncreasing(r, key)
    ensures multiset(r) == multiset(s)
    ensures |r| == |s|
  {
    if |s| == 0 then []
    else
      assert s == [s[0]] + s[1..];
      Insert(s[0], SortDescending(s[1..], key), key)
  }

  /** The first of a ranking, when there is one. */
  function Champion<T>(ranked: seq<T>): Option<T>
  {
    if |ranked| == 0 then None else Some(ranked[0])
  }

  /** The last of a ranking, when there is one. */
  function Loser<T>(ranked: seq<T>): Option<T>
  {
    if |ranked| == 0 then None else Some(ranked[|ranked| - 1])
  }

  /** The champion of a sorted list is an entry with the greatest key, the loser one with the least. */
  lemma ChampionMaxLoserMin<T>(s: seq<T>, key: T -> real)
    ensures Champion(SortDescending(s, key)).Some? <==> |s| > 0
    ensures |s| > 0 ==> Champion(SortDescending(s, key)).value in s
    ensures |s| > 0 ==> Loser(SortDescending(s, key)).value in s
    ensures forall e :: e in s ==>
              key(Loser(SortDescending(s, key)).value) <= key(e) <= key(Champion(SortDescending(s, key)).value)
  {
    var r := SortDescending(s, key);
    if |s| > 0 {
      RankedEnds(s, r, key);
    }
  }

  /** In a non-increasing permutation of `s`, the ends hold the greatest and the least key of `s`. */
  lemma RankedEnds<T>(s: seq<T>, r: seq<T>, key: T -> real)
    requires NonIncreasing(r, key) && multiset(r) == multiset(s) && |r| > 0
    ensures r[0] in s && r[|r| - 1] in s
    ensures forall e :: e in s ==> key(r[|r| - 1]) <= key(e) <= key(r[0])
  {
    SameElements(s, r);
    forall e | e in s
      ensures key(r[|r| - 1]) <= key(e) <= key(r[0])
    {
      var i :| 0 <= i < |r| && r[i] == e;
    }
  }

  /** Two sequences with the same multiset hold the same elements. */
  lemma SameElements<T>(s: seq<T>, r: seq<T>)
    requires multiset(r) == multiset(s)
    ensures forall e :: e in s <==> e in r
  {
    forall e
      ensures e in s <==> e in r
    {
      assert e in s <==> e in multiset(s);
      assert e in r <==> e in multiset(r);
    }
  }
}
