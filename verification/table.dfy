/**
 * Column assignment on a pandas DataFrame, `df[name] = series`, as the
 * radar scripts use it to collect one column per fund: assigning to a name
 * that is already a column replaces that column where it stands, and any
 * other name appends a new column. A fund whose fetch failed assigns
 * nothing.
 */
module Table {
  import opened Numeric

  /** No two columns share a name. */
  ghost predicate DistinctKeys<T>(cols: seq<T>, key: T -> string)
  {
    forall i, j :: 0 <= i < j < |cols| ==> key(cols[i]) != key(cols[j])
  }

  /** The position of the last column named `name`, if any (the only one when names are distinct). */
  function FindKey<T>(cols: seq<T>, name: string, key: T -> string): (i: Option<nat>)
    ensures i.Some? ==> i.value < |cols| && key(cols[i.value]) == name
    ensures i.None? ==> forall k :: 0 <= k < |cols| ==> key(cols[k]) != name
  {
    if |cols| == 0 then None
    else if key(cols[|cols| - 1]) == name then Some(|cols| - 1)
    else FindKey(cols[..|cols| - 1], name, key)
  }

  /** `df[key(x)] = x`: the column of that name is replaced, or `x` becomes a new last column. */
  function Assign<T>(cols: seq<T>, x: T, key: T -> string): (r: seq<T>)
    ensures |r| <= |cols| + 1
    ensures x in r
    ensures (forall k :: 0 <= k < |cols| ==> key(cols[k]) != key(x)) ==> r == cols + [x]
  {
    match FindKey(cols, key(x), key)
    case Some(i) => assert cols[i := x][i] == x; cols[i := x]
    case None => cols + [x]
  }

  /**
   * On columns with distinct names, assigning keeps every other column, adds
   * `x`, drops only the old column of its name, and keeps the names distinct.
   */
  lemma AssignReplaces<T>(cols: seq<T>, x: T, key: T -> string)
    requires DistinctKeys(cols, key)
    ensures forall c :: c in Assign(cols, x, key) <==> c == x || (c in cols && key(c) != key(x))
    ensures DistinctKeys(Assign(cols, x, key), key)
  {
    var r := Assign(cols, x, key);
    match FindKey(cols, key(x), key)
    case None =>
    case Some(i) =>
      assert r == cols[i := x];
      forall c | c in cols && key(c) != key(x)
        ensures c in r
      {
        var k :| 0 <= k < |cols| && cols[k] == c;
        assert r[k] == c;
      }
      forall c | c in r && c != x
        ensures c in cols && key(c) != key(x)
      {
        var k :| 0 <= k < |r| && r[k] == c;
        assert k != i && cols[k] == c;
      }
  }

  /** The columns after assigning every present value of `xs`, in order. */
  function Columns<T>(xs: seq<Option<T>>, key: T -> string): (r: seq<T>)
    ensures |r| <= |xs|
    ensures |xs| > 0 && xs[|xs| - 1].Some? ==> xs[|xs| - 1].value in r
    decreases |xs|
  {
    if |xs| == 0 then []
    else
      var cols := Columns(xs[..|xs| - 1], key);
      match xs[|xs| - 1]
      case None => cols
      case Some(x) => Assign(cols, x, key)
  }

  /** No later present value of `xs` after position `j` carries the key `name`. */
  ghost predicate LastWithKey<T>(xs: seq<Option<T>>, j: int, name: string, key: T -> string)
    requires 0 <= j < |xs|
  {
    forall m :: j < m < |xs| && xs[m].Some? ==> key(xs[m].value) != name
  }

  /** The columns have pairwise distinct names. */
  lemma {:induction false} ColumnsDistinct<T>(xs: seq<Option<T>>, key: T -> string)
    ensures DistinctKeys(Columns(xs, key), key)
    decreases |xs|
  {
    if |xs| > 0 {
      ColumnsDistinct(xs[..|xs| - 1], key);
      if xs[|xs| - 1].Some? {
        AssignReplaces(Columns(xs[..|xs| - 1], key), xs[|xs| - 1].value, key);
      }
    }
  }

  /** Every present value's name has a column. */
  lemma ColumnsCoverNames<T>(xs: seq<Option<T>>, key: T -> string)
    ensures forall j :: 0 <= j < |xs| && xs[j].Some? ==>
              exists c :: c in Columns(xs, key) && key(c) == key(xs[j].value)
  {
    forall j | 0 <= j < |xs| && xs[j].Some?
      ensures exists c :: c in Columns(xs, key) && key(c) == key(xs[j].value)
    {
      var c := NameHasColumn(xs, key, j);
    }
  }

  /** The column that carries the name of the present value at position `j`. */
  lemma {:induction false} NameHasColumn<T>(xs: seq<Option<T>>, key: T -> string, j: nat) returns (c: T)
    requires j < |xs| && xs[j].Some?
    ensures c in Columns(xs, key) && key(c) == key(xs[j].value)
    decreases |xs|
  {
    var n := |xs| - 1;
    var p := xs[..n];
    var cols := Columns(p, key);
    var r := Columns(xs, key);
    if xs[n].Some? && (j == n || key(xs[n].value) == key(xs[j].value)) {
      c := xs[n].value;
      assert c in r;
    } else {
      assert xs[j] == p[j];
      c := NameHasColumn(p, key, j);
      if xs[n].Some? {
        ColumnsDistinct(p, key);
        AssignReplaces(cols, xs[n].value, key);
      }
      assert c in r;
    }
  }

  /** Every column holds the LAST present value carrying its name. */
  lemma ColumnsHoldLast<T>(xs: seq<Option<T>>, key: T -> string)
    ensures forall c :: c in Columns(xs, key) ==>
              exists j :: 0 <= j < |xs| && xs[j] == Some(c) && LastWithKey(xs, j, key(c), key)
  {
    forall c | c in Columns(xs, key)
      ensures exists j :: 0 <= j < |xs| && xs[j] == Some(c) && LastWithKey(xs, j, key(c), key)
    {
      var j := ColumnHoldsLast(xs, key, c);
    }
  }

  /** The position of the value a column holds: the last present value carrying its name. */
  lemma {:induction false} ColumnHoldsLast<T>(xs: seq<Option<T>>, key: T -> string, c: T) returns (j: nat)
    requires c in Columns(xs, key)
    ensures j < |xs| && xs[j] == Some(c) && LastWithKey(xs, j, key(c), key)
    decreases |xs|
  {
    assert |xs| > 0;
    var n := |xs| - 1;
    var p := xs[..n];
    var cols := Columns(p, key);
    if xs[n] == Some(c) {
      j := n;
    } else {
      if xs[n].Some? {
        ColumnsDistinct(p, key);
        AssignReplaces(cols, xs[n].value, key);
      }
      assert c in cols && (xs[n].Some? ==> key(c) != key(xs[n].value));
      j := ColumnHoldsLast(p, key, c);
      assert xs[j] == p[j];
    }
  }

  /** Present values with pairwise distinct names. */
  ghost predicate DistinctPresent<T>(xs: seq<Option<T>>, key: T -> string)
  {
    forall i, j :: 0 <= i < j < |xs| && xs[i].Some? && xs[j].Some? ==> key(xs[i].value) != key(xs[j].value)
  }

  /** Without a repeated name no column is replaced: one column per present value, in order. */
  lemma {:induction false} DistinctColumnsKeepAll<T>(xs: seq<Option<T>>, key: T -> string)
    requires DistinctPresent(xs, key)
    ensures Columns(xs, key) == Somes(xs)
    decreases |xs|
  {
    if |xs| > 0 {
      var n := |xs| - 1;
      var p := xs[..n];
      assert DistinctPresent(p, key);
      DistinctColumnsKeepAll(p, key);
      SomesAppend(p, [xs[n]]);
      assert xs == p + [xs[n]];
      if xs[n].Some? {
        LastNameIsNew(p, xs[n].value, key);
      }
    }
  }

  /** With distinct names, the name of a present value appended to `p` is not among those of `p`. */
  lemma LastNameIsNew<T>(p: seq<Option<T>>, x: T, key: T -> string)
    requires DistinctPresent(p + [Some(x)], key)
    ensures forall k :: 0 <= k < |Somes(p)| ==> key(Somes(p)[k]) != key(x)
  {
    var xs := p + [Some(x)];
    forall k | 0 <= k < |Somes(p)|
      ensures key(Somes(p)[k]) != key(x)
    {
      var c := Somes(p)[k];
      assert c in Somes(p);
      KeptIsPresent(p, c);
      var j :| 0 <= j < |p| && p[j] == Some(c);
      assert xs[j] == Some(c) && xs[|p|] == Some(x);
    }
  }
}
