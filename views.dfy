/** The per-tag views derived from the monthly matrix, and the latest-month pie. */
module Views {
  import opened Order
  import opened Aggregate
  import opened Ranking

  /** The payload of one tag in a view: `{"months": [...], "values": [...]}`. */
  datatype Series<V> = Series(tag: string, months: seq<string>, values: seq<V>)

  /** The parallel label and value lists of the pie chart. */
  datatype Pie = Pie(labels: seq<string>, values: seq<int>)

  /** `monthly_data[tag]`: the column of tag number `j`, one value per month. */
  function Column(mx: Matrix, j: nat): (col: seq<nat>)
    requires Shaped(mx) && j < |mx.tags|
    ensures |col| == |mx.months| && forall i :: 0 <= i < |col| ==> col[i] == mx.cells[i][j]
  {
    seq(|mx.months|, i requires 0 <= i < |mx.months| => mx.cells[i][j])
  }

  /** The values all series of a view hold for month `i`, in column order. */
  function AtMonth<V>(view: seq<Series<V>>, i: nat): (vals: seq<V>)
    requires forall j :: 0 <= j < |view| ==> i < |view[j].values|
    ensures |vals| == |view| && forall j :: 0 <= j < |view| ==> vals[j] == view[j].values[i]
  {
    seq(|view|, j requires 0 <= j < |view| => view[j].values[i])
  }

  // ---------------------------------------------------------------- count

  /** The count view: per tag, its column of the matrix against the month labels. */
  function CountView(mx: Matrix, labels: seq<string>): (view: seq<Series<nat>>)
    requires Shaped(mx) && |labels| == |mx.months|
    ensures |view| == |mx.tags|
    ensures forall j :: 0 <= j < |view| ==>
      view[j].tag == mx.tags[j] && view[j].months == labels && |view[j].values| == |labels|
    ensures forall j :: 0 <= j < |view| ==> view[j].values == Column(mx, j)
  {
    seq(|mx.tags|, j requires 0 <= j < |mx.tags| => Series(mx.tags[j], labels, Column(mx, j)))
  }

  /** In the count view, the values of one month over all tags add up to that month's records. */
  lemma CountViewMonthTotal(rs: seq<Records.Record>, labels: seq<string>, i: nat)
    requires |labels| == |Build(rs).months| && i < |labels|
    ensures Sum(AtMonth(CountView(Build(rs), labels), i)) == CountMonth(rs, Build(rs).months[i])
  {
    var mx := Build(rs);
    assert AtMonth(CountView(mx, labels), i) == mx.cells[i];
    RowSumIsMonthCount(rs, i);
  }

  // ----------------------------------------------------------- percentage

  /** `(val / total) * 100` guarded by `total != 0`; the rounding to 2 places is not modelled. */
  function Share(v: nat, total: nat): (s: real)
    ensures total == 0 ==> s == 0.0
    ensures total != 0 ==> s * total as real == v as real * 100.0
  {
    if total != 0 then (v as real / total as real) * 100.0 else 0.0
  }

  /** The shares of every value of a row in the row's total. */
  function Shares(row: seq<nat>, total: nat): (r: seq<real>)
    ensures |r| == |row| && forall j :: 0 <= j < |row| ==> r[j] == Share(row[j], total)
  {
    if row == [] then [] else [Share(row[0], total)] + Shares(row[1..], total)
  }

  /** The percentage view: per tag and month, its share of the month's total. */
  function PercentageView(mx: Matrix, labels: seq<string>): (view: seq<Series<real>>)
    requires Shaped(mx) && |labels| == |mx.months|
    ensures |view| == |mx.tags|
    ensures forall j :: 0 <= j < |view| ==>
      view[j].tag == mx.tags[j] && view[j].months == labels && |view[j].values| == |labels|
    ensures forall j, i :: 0 <= j < |view| && 0 <= i < |mx.months| ==>
      view[j].values[i] == Share(mx.cells[i][j], Sum(mx.cells[i]))
  {
    seq(|mx.tags|, j requires 0 <= j < |mx.tags| =>
      Series(mx.tags[j], labels,
        seq(|mx.months|, i requires 0 <= i < |mx.months| => Share(mx.cells[i][j], Sum(mx.cells[i])))))
  }

  function SumReal(s: seq<real>): real
  {
    if s == [] then 0.0 else s[0] + SumReal(s[1..])
  }

  lemma {:induction false} ElementAtMostSum(s: seq<nat>, j: nat)
    requires j < |s|
    ensures s[j] <= Sum(s)
  {
    if j > 0 {
      ElementAtMostSum(s[1..], j - 1);
    }
  }

  lemma ShareBounds(v: nat, total: nat)
    requires v <= total
    ensures 0.0 <= Share(v, total) <= 100.0
  {
    if total != 0 {
      var q := v as real / total as real;
      assert q * total as real == v as real;
      assert q <= 1.0;
    }
  }

  /** A month whose total is 0 has share 0 for every tag; otherwise each share lies in [0, 100]. */
  lemma PercentageGuardAndBounds(mx: Matrix, labels: seq<string>, j: nat, i: nat)
    requires Shaped(mx) && |labels| == |mx.months| && j < |mx.tags| && i < |mx.months|
    ensures Sum(mx.cells[i]) == 0 ==> PercentageView(mx, labels)[j].values[i] == 0.0
    ensures 0.0 <= PercentageView(mx, labels)[j].values[i] <= 100.0
  {
    ElementAtMostSum(mx.cells[i], j);
    ShareBounds(mx.cells[i][j], Sum(mx.cells[i]));
  }

  lemma {:induction false} SumShares(row: seq<nat>, total: nat)
    requires total > 0
    ensures SumReal(Shares(row, total)) == (Sum(row) as real / total as real) * 100.0
  {
    if row != [] {
      var r := Shares(row, total);
      assert r[1..] == Shares(row[1..], total);
      SumShares(row[1..], total);
      var t := total as real;
      assert (row[0] as real / t) + (Sum(row[1..]) as real / t) == (row[0] + Sum(row[1..])) as real / t;
    }
  }

  /** The shares of one month add up to 100 when the month has records, and to 0 otherwise. */
  lemma PercentagesSumTo100(mx: Matrix, labels: seq<string>, i: nat)
    requires Shaped(mx) && |labels| == |mx.months| && i < |mx.months|
    ensures SumReal(AtMonth(PercentageView(mx, labels), i)) == if Sum(mx.cells[i]) > 0 then 100.0 else 0.0
  {
    var row := mx.cells[i];
    var shares := AtMonth(PercentageView(mx, labels), i);
    assert shares == Shares(row, Sum(row)) by {
      var expected := Shares(row, Sum(row));
      forall j | 0 <= j < |shares|
        ensures shares[j] == expected[j]
      {
      }
    }
    if Sum(row) > 0 {
      SumShares(row, Sum(row));
      DivSelf(Sum(row) as real);
    } else {
      SharesOfZeroTotal(row);
    }
  }

  lemma DivSelf(t: real)
    requires t != 0.0
    ensures t / t == 1.0
  {
  }

  lemma {:induction false} SharesOfZeroTotal(row: seq<nat>)
    ensures SumReal(Shares(row, 0)) == 0.0
  {
    if row != [] {
      assert Shares(row, 0)[1..] == Shares(row[1..], 0);
      SharesOfZeroTotal(row[1..]);
    }
  }

  // ----------------------------------------------------------- volatility

  function Abs(x: int): nat
  {
    if x < 0 then -x else x
  }

  /** `col.diff().fillna(0).abs()`: the size of each month-over-month change, 0 for the first month. */
  function Changes(col: seq<nat>): (v: seq<nat>)
    ensures |v| == |col|
    ensures |col| > 0 ==> v[0] == 0
    ensures forall i {:trigger v[i]} :: 0 < i < |col| ==> col[i] == col[i - 1] + v[i] || col[i] + v[i] == col[i - 1]
  {
    seq(|col|, i requires 0 <= i < |col| => if i == 0 then 0 else Abs(col[i] as int - col[i - 1] as int))
  }

  /** The volatility view: per tag, the changes of its column against the month labels. */
  function VolatilityView(mx: Matrix, labels: seq<string>): (view: seq<Series<nat>>)
    requires Shaped(mx) && |labels| == |mx.months|
    ensures |view| == |mx.tags|
    ensures forall j :: 0 <= j < |view| ==>
      view[j].tag == mx.tags[j] && view[j].months == labels && |view[j].values| == |labels|
    ensures forall j :: 0 <= j < |view| ==> view[j].values == Changes(Column(mx, j))
  {
    seq(|mx.tags|, j requires 0 <= j < |mx.tags| => Series(mx.tags[j], labels, Changes(Column(mx, j))))
  }

  /** Each volatility value is the size of its tag's change from the month before, 0 for the first month. */
  lemma VolatilityValues(mx: Matrix, labels: seq<string>, j: nat, i: nat)
    requires Shaped(mx) && |labels| == |mx.months| && j < |mx.tags| && i < |mx.months|
    ensures VolatilityView(mx, labels)[j].values[i]
      == if i == 0 then 0 else Abs(mx.cells[i][j] as int - mx.cells[i - 1][j] as int)
  {
    var col := Column(mx, j);
    var v := Changes(col);
    assert VolatilityView(mx, labels)[j].values == v;
    if i > 0 {
      assert col[i] == col[i - 1] + v[i] || col[i] + v[i] == col[i - 1];
    }
  }

  lemma {:induction false} SumSnoc(s: seq<nat>)
    requires |s| > 0
    ensures Sum(s) == Sum(s[..|s| - 1]) + s[|s| - 1]
  {
    if |s| > 1 {
      assert s[1..][..|s| - 2] == s[..|s| - 1][1..];
      SumSnoc(s[1..]);
    }
  }

  lemma ChangesPrefix(col: seq<nat>)
    requires |col| > 1
    ensures Changes(col[..|col| - 1]) == Changes(col)[..|col| - 1]
  {
    var front := col[..|col| - 1];
    var a, b := Changes(front), Changes(col)[..|col| - 1];
    assert |a| == |b|;
    forall i | 0 <= i < |a|
      ensures a[i] == b[i]
    {
      if i > 0 {
        assert front[i] == col[i] && front[i - 1] == col[i - 1];
      }
    }
  }

  /** The volatilities of a series add up to at least the net change from its first to its last month. */
  lemma {:induction false} ChangesBoundNetChange(col: seq<nat>)
    requires |col| > 0
    ensures Sum(Changes(col)) >= Abs(col[|col| - 1] as int - col[0] as int)
  {
    var n := |col|;
    if n > 1 {
      var v := Changes(col);
      var front := col[..n - 1];
      ChangesPrefix(col);
      ChangesBoundNetChange(front);
      var first, before, last := col[0] as int, col[n - 2] as int, col[n - 1] as int;
      assert front[n - 2] == col[n - 2] && front[0] == col[0];
      assert Sum(v[..n - 1]) >= Abs(before - first);
      SumSnoc(v);
      assert v[n - 1] == Abs(last - before);
      assert Abs(last - first) <= Abs(before - first) + Abs(last - before);
    }
  }

  // --------------------------------------------------------------- growth

  /** `((curr / prev) - 1) * 100` guarded by `prev != 0`; the rounding is not modelled. */
  function Rate(prev: nat, curr: nat): (g: real)
    ensures prev == 0 ==> g == 0.0
    ensures prev != 0 ==> (g + 100.0) * prev as real == curr as real * 100.0
  {
    if prev != 0 then ((curr as real / prev as real) - 1.0) * 100.0 else 0.0
  }

  /** What a growth value means: 0 after a month with no records; otherwise the percentage
      change, positive for a rise, 0 for no change, negative for a fall and never below -100. */
  lemma RateMeaning(prev: nat, curr: nat)
    ensures prev == 0 ==> Rate(prev, curr) == 0.0
    ensures prev > 0 ==> Rate(prev, curr) * prev as real == (curr as real - prev as real) * 100.0
    ensures prev > 0 ==> (Rate(prev, curr) > 0.0 <==> curr > prev)
    ensures prev > 0 ==> (Rate(prev, curr) == 0.0 <==> curr == prev)
    ensures Rate(prev, curr) >= -100.0
  {
    if prev > 0 {
      var pr, cr := prev as real, curr as real;
      var q := cr / pr;
      var r := Rate(prev, curr);
      assert q * pr == cr;
      assert r == q * 100.0 - 100.0;
      assert r * pr == q * pr * 100.0 - 100.0 * pr;
      assert q >= 0.0;
      if curr > prev {
        assert q > 1.0;
      } else if curr == prev {
        assert q == 1.0;
      } else {
        assert q < 1.0;
      }
    }
  }

  /** The growth of each month over the one before: one value fewer than there are months. */
  function Rates(col: seq<nat>): (g: seq<real>)
    ensures |g| == if |col| == 0 then 0 else |col| - 1
    ensures forall i :: 0 <= i < |g| ==> g[i] == Rate(col[i], col[i + 1])
  {
    seq(if |col| == 0 then 0 else |col| - 1, i requires 0 <= i < |col| - 1 => Rate(col[i], col[i + 1]))
  }

  /** `formatted_months[1:]`. */
  function Tail(labels: seq<string>): seq<string>
  {
    if |labels| == 0 then [] else labels[1..]
  }

  /** The growth view: per tag, the rates of its column against all month labels but the first. */
  function GrowthView(mx: Matrix, labels: seq<string>): (view: seq<Series<real>>)
    requires Shaped(mx) && |labels| == |mx.months|
    ensures |view| == |mx.tags|
    ensures forall j :: 0 <= j < |view| ==> view[j].tag == mx.tags[j] && view[j].months == Tail(labels)
    ensures forall j :: 0 <= j < |view| ==> view[j].values == Rates(Column(mx, j))
  {
    seq(|mx.tags|, j requires 0 <= j < |mx.tags| => Series(mx.tags[j], Tail(labels), Rates(Column(mx, j))))
  }

  /** Growth lists are one shorter than the month labels (empty when there are none), aligned with
      `labels[1..]`, and 0 wherever the previous month's count is 0. */
  lemma GrowthShape(mx: Matrix, labels: seq<string>, j: nat)
    requires Shaped(mx) && |labels| == |mx.months| && j < |mx.tags|
    ensures var s := GrowthView(mx, labels)[j];
      && |s.values| == |s.months|
      && (|labels| > 0 ==> |s.values| == |labels| - 1 && s.months == labels[1..])
      && (forall i :: 0 <= i < |s.values| && mx.cells[i][j] == 0 ==> s.values[i] == 0.0)
  {
  }

  // ------------------------------------------------------------------ pie

  /** `{tag: int(monthly_data[tag][-1]) for tag in columns}`: the last row, as (tag, count) pairs. */
  function Latest(mx: Matrix): (items: seq<TagCount>)
    requires Shaped(mx) && |mx.months| > 0
    ensures |items| == |mx.tags|
    ensures forall j :: 0 <= j < |items| ==> items[j] == TagCount(mx.tags[j], mx.cells[|mx.months| - 1][j])
  {
    seq(|mx.tags|, j requires 0 <= j < |mx.tags| => TagCount(mx.tags[j], mx.cells[|mx.months| - 1][j]))
  }

  /** The top 15 tags of the latest month by count, ties in column order. */
  function PieView(mx: Matrix): (pie: Pie)
    requires Shaped(mx) && |mx.months| > 0
    ensures |pie.labels| == |pie.values| == if |mx.tags| <= 15 then |mx.tags| else 15
    ensures forall a, b :: 0 <= a < b < |pie.values| ==> pie.values[a] >= pie.values[b]
  {
    var sorted := SortDesc(Latest(mx));
    assert |multiset(sorted)| == |multiset(Latest(mx))|;
    var top := Take(sorted, 15);
    Pie(seq(|top|, k requires 0 <= k < |top| => top[k].tag), seq(|top|, k requires 0 <= k < |top| => top[k].count))
  }

  /** Every pie entry is a (tag, count) pair of the last matrix row. */
  lemma PieEntriesFromLatest(mx: Matrix, k: nat)
    requires Shaped(mx) && |mx.months| > 0 && k < |PieView(mx).labels|
    ensures TagCount(PieView(mx).labels[k], PieView(mx).values[k]) in Latest(mx)
  {
    var sorted := SortDesc(Latest(mx));
    var top := Take(sorted, 15);
    assert top[k] == sorted[k];
    assert sorted[k] in multiset(sorted);
  }

  /** Each pie value is its tag's count in the last matrix row. */
  lemma PieValueIsLatestCount(mx: Matrix, k: nat, j: nat)
    requires Shaped(mx) && |mx.months| > 0 && Distinct(mx.tags)
    requires k < |PieView(mx).labels| && j < |mx.tags| && PieView(mx).labels[k] == mx.tags[j]
    ensures PieView(mx).values[k] == mx.cells[|mx.months| - 1][j]
  {
    var pie := PieView(mx);
    var items := Latest(mx);
    PieEntriesFromLatest(mx, k);
    var j' :| 0 <= j' < |items| && items[j'] == TagCount(pie.labels[k], pie.values[k]);
    assert mx.tags[j'] == mx.tags[j];
  }

  /** A tag left out of the pie counts, in the latest month, no more than any tag shown. */
  lemma PieHoldsTheLargest(mx: Matrix, j: nat)
    requires Shaped(mx) && |mx.months| > 0 && j < |mx.tags| && mx.tags[j] !in PieView(mx).labels
    ensures forall k :: 0 <= k < |PieView(mx).values| ==> PieView(mx).values[k] >= mx.cells[|mx.months| - 1][j]
  {
    var items := Latest(mx);
    var top := Take(SortDesc(items), 15);
    var pie := PieView(mx);
    assert items[j] in items;
    forall k | 0 <= k < |top|
      ensures top[k] != items[j]
    {
      assert pie.labels[k] == top[k].tag;
      assert pie.labels[k] in pie.labels;
    }
    TopKeepsLargest(items, 15, items[j]);
    forall k | 0 <= k < |pie.values|
      ensures pie.values[k] >= mx.cells[|mx.months| - 1][j]
    {
      assert top[k] in top;
    }
  }

  /** A tag cut from the pie while tying with a shown value comes after that value's tag in
      column order, which is alphabetical tag order. */
  lemma PieTiesAtTheCut(mx: Matrix, j: nat)
    requires Shaped(mx) && |mx.months| > 0 && StrictlySorted(mx.tags, StrLess)
    requires j < |mx.tags| && mx.tags[j] !in PieView(mx).labels
    ensures forall k :: 0 <= k < |PieView(mx).values| && PieView(mx).values[k] == mx.cells[|mx.months| - 1][j] ==>
      StrLess(PieView(mx).labels[k], mx.tags[j])
  {
    var items := Latest(mx);
    var top := Take(SortDesc(items), 15);
    var pie := PieView(mx);
    StrLessIsStrictTotalOrder();
    SortedIsDistinct(mx.tags, StrLess);
    assert Distinct(items);
    assert items[j] in items;
    forall k | 0 <= k < |top|
      ensures top[k] != items[j]
    {
      assert pie.labels[k] == top[k].tag;
      assert pie.labels[k] in pie.labels;
    }
    TopKeepsFirstTied(items, 15, items[j]);
    assert IndexIn(items, items[j]) == j;
    forall k | 0 <= k < |pie.values| && pie.values[k] == mx.cells[|mx.months| - 1][j]
      ensures StrLess(pie.labels[k], mx.tags[j])
    {
      assert top[k] in top;
      var x := IndexIn(items, top[k]);
      assert mx.tags[x] == top[k].tag;
    }
  }

  /** Pie entries with equal counts keep column order, which is alphabetical tag order. */
  lemma PieTiesInTagOrder(mx: Matrix, a: nat, b: nat)
    requires Shaped(mx) && |mx.months| > 0 && StrictlySorted(mx.tags, StrLess)
    requires a < b < |PieView(mx).values| && PieView(mx).values[a] == PieView(mx).values[b]
    ensures StrLess(PieView(mx).labels[a], PieView(mx).labels[b])
  {
    var items := Latest(mx);
    var sorted := SortDesc(items);
    StrLessIsStrictTotalOrder();
    SortedIsDistinct(mx.tags, StrLess);
    assert Distinct(items);
    SortDescIsStable(items, a, b);
    var x, y := IndexIn(items, sorted[a]), IndexIn(items, sorted[b]);
    assert mx.tags[x] == sorted[a].tag && mx.tags[y] == sorted[b].tag;
  }
}
