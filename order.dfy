/** Orderings used by the aggregation: Python's ordering of `str` values, and the
    sorted, duplicate-free key sequences that pandas builds when it groups rows. */
module Order {

  /** Python's `<` on `str`: code point by code point, a proper prefix first. */
  predicate StrLess(a: string, b: string)
    decreases |a|
  {
    if |a| == 0 then |b| > 0
    else if |b| == 0 then false
    else if a[0] != b[0] then a[0] < b[0]
    else StrLess(a[1..], b[1..])
  }

  lemma {:induction false} StrLessIrreflexive(a: string)
    ensures !StrLess(a, a)
    decreases |a|
  {
    if |a| > 0 {
      StrLessIrreflexive(a[1..]);
    }
  }

  lemma {:induction false} StrLessTransitive(a: string, b: string, c: string)
    requires StrLess(a, b) && StrLess(b, c)
    ensures StrLess(a, c)
    decreases |a|
  {
    if |a| > 0 && a[0] == b[0] && b[0] == c[0] {
      StrLessTransitive(a[1..], b[1..], c[1..]);
    }
  }

  lemma {:induction false} StrLessTotal(a: string, b: string)
    ensures a == b || StrLess(a, b) || StrLess(b, a)
    decreases |a|
  {
    if |a| > 0 && |b| > 0 && a[0] == b[0] {
      StrLessTotal(a[1..], b[1..]);
      if a[1..] == b[1..] {
        assert a == [a[0]] + a[1..] && b == [b[0]] + b[1..];
      }
    }
  }

  /** `less` is irreflexive, transitive and relates every two distinct values. */
  ghost predicate StrictTotalOrder<T(!new)>(less: (T, T) -> bool)
  {
    && (forall a :: !less(a, a))
    && (forall a, b, c :: less(a, b) && less(b, c) ==> less(a, c))
    && (forall a, b :: a == b || less(a, b) || less(b, a))
  }

  lemma StrLessIsStrictTotalOrder()
    ensures StrictTotalOrder(StrLess)
  {
    forall a: string
      ensures !StrLess(a, a)
    {
      StrLessIrreflexive(a);
    }
    forall a: string, b: string, c: string | StrLess(a, b) && StrLess(b, c)
      ensures StrLess(a, c)
    {
      StrLessTransitive(a, b, c);
    }
    forall a: string, b: string
      ensures a == b || StrLess(a, b) || StrLess(b, a)
    {
      StrLessTotal(a, b);
    }
  }

  /** The order pandas uses for integer question ids. */
  predicate IntLess(a: int, b: int)
  {
    a < b
  }

  lemma IntLessIsStrictTotalOrder()
    ensures StrictTotalOrder(IntLess)
  {
  }

  ghost predicate StrictlySorted<T>(s: seq<T>, less: (T, T) -> bool)
  {
    forall i, j :: 0 <= i < j < |s| ==> less(s[i], s[j])
  }

  ghost predicate Distinct<T>(s: seq<T>)
  {
    forall i, j :: 0 <= i < j < |s| ==> s[i] != s[j]
  }

  lemma SortedIsDistinct<T(!new)>(s: seq<T>, less: (T, T) -> bool)
    requires StrictTotalOrder(less) && StrictlySorted(s, less)
    ensures Distinct(s)
  {
  }

  /** Adds `x` to a strictly sorted sequence; a value already present is not added again. */
  function Insert<T(==,!new)>(x: T, s: seq<T>, less: (T, T) -> bool): (r: seq<T>)
    ensures forall y :: y in r <==> y == x || y in s
    ensures StrictTotalOrder(less) && StrictlySorted(s, less) ==> StrictlySorted(r, less)
  {
    if s == [] then [x]
    else if x == s[0] then s
    else if less(x, s[0]) then [x] + s
    else
      var rest := Insert(x, s[1..], less);
      assert StrictTotalOrder(less) && StrictlySorted(s, less) ==>
        forall k :: 0 <= k < |rest| ==> rest[k] in rest && less(s[0], rest[k]);
      [s[0]] + rest
  }

  /** The distinct values of `xs` in ascending order: the index of a pandas group-by. */
  function SortedUnique<T(==,!new)>(xs: seq<T>, less: (T, T) -> bool): (r: seq<T>)
    ensures forall y :: y in r <==> y in xs
    ensures StrictTotalOrder(less) ==> StrictlySorted(r, less)
  {
    if xs == [] then []
    else
      assert xs == xs[..|xs| - 1] + [xs[|xs| - 1]];
      Insert(xs[|xs| - 1], SortedUnique(xs[..|xs| - 1], less), less)
  }
}
