/** The monthly matrix: `df.groupby(['Month', 'Tag']).size().unstack(fill_value=0)`,
    months as rows and tags as columns, both in ascending order, absent pairs 0. */
module Aggregate {
  import opened Order
  import opened Records

  datatype Matrix = Matrix(months: seq<string>, tags: seq<string>, cells: seq<seq<nat>>)

  /** One row per month, one cell per tag in each row. */
  predicate Shaped(mx: Matrix)
  {
    |mx.cells| == |mx.months| && forall i :: 0 <= i < |mx.cells| ==> |mx.cells[i]| == |mx.tags|
  }

  function Sum(s: seq<nat>): nat
  {
    if s == [] then 0 else s[0] + Sum(s[1..])
  }

  /** The number of records of month `m` with tag `t`: the size of one (month, tag) group. */
  function CountPair(rs: seq<Record>, m: string, t: string): nat
  {
    if rs == [] then 0 else (if rs[0].month == m && rs[0].tag == t then 1 else 0) + CountPair(rs[1..], m, t)
  }

  /** The number of records of month `m`. */
  function CountMonth(rs: seq<Record>, m: string): nat
  {
    if rs == [] then 0 else (if rs[0].month == m then 1 else 0) + CountMonth(rs[1..], m)
  }

  /** The number of records of month `m` whose tag is one of `ts`. */
  function CountMonthTagIn(rs: seq<Record>, m: string, ts: seq<string>): nat
  {
    if rs == [] then 0 else (if rs[0].month == m && rs[0].tag in ts then 1 else 0) + CountMonthTagIn(rs[1..], m, ts)
  }

  /** The month keys of the records, in record order. */
  function MonthKeys(rs: seq<Record>): (keys: seq<string>)
    ensures forall m :: m in keys <==> exists r :: r in rs && r.month == m
  {
    if rs == [] then []
    else
      assert forall r :: r in rs <==> r == rs[0] || r in rs[1..] by { assert rs == [rs[0]] + rs[1..]; }
      [rs[0].month] + MonthKeys(rs[1..])
  }

  /** The tags of the records, in record order. */
  function TagNames(rs: seq<Record>): (names: seq<string>)
    ensures forall t :: t in names <==> exists r :: r in rs && r.tag == t
  {
    if rs == [] then []
    else
      assert forall r :: r in rs <==> r == rs[0] || r in rs[1..] by { assert rs == [rs[0]] + rs[1..]; }
      [rs[0].tag] + TagNames(rs[1..])
  }

  /** One matrix row: the group sizes of month `m` across the tags `ts`, zero where a pair has no record. */
  function Row(rs: seq<Record>, m: string, ts: seq<string>): (row: seq<nat>)
    ensures |row| == |ts| && forall j :: 0 <= j < |ts| ==> row[j] == CountPair(rs, m, ts[j])
  {
    if ts == [] then [] else [CountPair(rs, m, ts[0])] + Row(rs, m, ts[1..])
  }

  function Build(rs: seq<Record>): (mx: Matrix)
    ensures Shaped(mx)
    ensures StrictlySorted(mx.months, StrLess) && StrictlySorted(mx.tags, StrLess)
    ensures Distinct(mx.months) && Distinct(mx.tags)
    ensures forall m :: m in mx.months <==> exists r :: r in rs && r.month == m
    ensures forall t :: t in mx.tags <==> exists r :: r in rs && r.tag == t
    ensures forall i :: 0 <= i < |mx.months| ==> mx.cells[i] == Row(rs, mx.months[i], mx.tags)
  {
    StrLessIsStrictTotalOrder();
    var months := SortedUnique(MonthKeys(rs), StrLess);
    var tags := SortedUnique(TagNames(rs), StrLess);
    SortedIsDistinct(months, StrLess);
    SortedIsDistinct(tags, StrLess);
    Matrix(months, tags, seq(|months|, i requires 0 <= i < |months| => Row(rs, months[i], tags)))
  }

  lemma {:induction false} CountPairZero(rs: seq<Record>, m: string, t: string)
    ensures CountPair(rs, m, t) == 0 <==> forall r :: r in rs ==> !(r.month == m && r.tag == t)
  {
    if rs != [] {
      CountPairZero(rs[1..], m, t);
      assert forall r :: r in rs <==> r == rs[0] || r in rs[1..] by { assert rs == [rs[0]] + rs[1..]; }
    }
  }

  /** The matrix is zero-filled: a cell is 0 exactly when no record has that month and tag. */
  lemma ZeroFilled(rs: seq<Record>, i: nat, j: nat)
    requires i < |Build(rs).months| && j < |Build(rs).tags|
    ensures var mx := Build(rs);
      mx.cells[i][j] == 0 <==> forall r :: r in rs ==> !(r.month == mx.months[i] && r.tag == mx.tags[j])
  {
    var mx := Build(rs);
    CountPairZero(rs, mx.months[i], mx.tags[j]);
  }

  lemma {:induction false} CountSplit(rs: seq<Record>, m: string, t: string, ts: seq<string>)
    requires t !in ts
    ensures CountMonthTagIn(rs, m, [t] + ts) == CountPair(rs, m, t) + CountMonthTagIn(rs, m, ts)
  {
    if rs != [] {
      CountSplit(rs[1..], m, t, ts);
    }
  }

  /** Summing a row over distinct tags counts the month's records with one of those tags. */
  lemma {:induction false} SumRow(rs: seq<Record>, m: string, ts: seq<string>)
    requires Distinct(ts)
    ensures Sum(Row(rs, m, ts)) == CountMonthTagIn(rs, m, ts)
  {
    if ts == [] {
      CountNoTags(rs, m);
    } else {
      var row := Row(rs, m, ts);
      assert row[1..] == Row(rs, m, ts[1..]);
      assert ts == [ts[0]] + ts[1..];
      SumRow(rs, m, ts[1..]);
      CountSplit(rs, m, ts[0], ts[1..]);
    }
  }

  lemma {:induction false} CountNoTags(rs: seq<Record>, m: string)
    ensures CountMonthTagIn(rs, m, []) == 0
  {
    if rs != [] {
      CountNoTags(rs[1..], m);
    }
  }

  lemma {:induction false} CountAllTags(rs: seq<Record>, m: string, ts: seq<string>)
    requires forall r :: r in rs ==> r.tag in ts
    ensures CountMonthTagIn(rs, m, ts) == CountMonth(rs, m)
  {
    if rs != [] {
      assert rs[0] in rs;
      assert forall r :: r in rs[1..] ==> r in rs;
      CountAllTags(rs[1..], m, ts);
    }
  }

  /** Each row of the matrix sums to the number of records in that month. */
  lemma RowSumIsMonthCount(rs: seq<Record>, i: nat)
    requires i < |Build(rs).months|
    ensures Sum(Build(rs).cells[i]) == CountMonth(rs, Build(rs).months[i])
  {
    var mx := Build(rs);
    SumRow(rs, mx.months[i], mx.tags);
    forall r | r in rs
      ensures r.tag in mx.tags
    {
    }
    CountAllTags(rs, mx.months[i], mx.tags);
  }

  lemma {:induction false} CountMonthPositive(rs: seq<Record>, m: string)
    requires exists r :: r in rs && r.month == m
    ensures CountMonth(rs, m) > 0
  {
    if rs[0].month != m {
      assert exists r :: r in rs[1..] && r.month == m by {
        var r :| r in rs && r.month == m;
        assert rs == [rs[0]] + rs[1..];
        assert r in rs[1..];
      }
      CountMonthPositive(rs[1..], m);
    }
  }

  /** Every month of the matrix holds at least one record, so no row total is 0. */
  lemma RowTotalPositive(rs: seq<Record>, i: nat)
    requires i < |Build(rs).months|
    ensures Sum(Build(rs).cells[i]) > 0
  {
    var mx := Build(rs);
    assert mx.months[i] in mx.months;
    CountMonthPositive(rs, mx.months[i]);
    RowSumIsMonthCount(rs, i);
  }

  /** The matrix has no rows exactly when there are no records. */
  lemma NoMonthsIffNoRecords(rs: seq<Record>)
    ensures |Build(rs).months| == 0 <==> |rs| == 0
  {
    if |rs| > 0 {
      assert rs[0].month in Build(rs).months;
    }
  }
}
