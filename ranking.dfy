/** Ranking (tag, count) pairs: Python's stable `sorted(..., key=count, reverse=True)`
    and the `[:k]` slice that keeps the top entries. */
module Ranking {
  import opened Order

  datatype TagCount = TagCount(tag: string, count: int)

  ghost predicate NonIncreasing(s: seq<TagCount>)
  {
    forall i, j :: 0 <= i < j < |s| ==> s[i].count >= s[j].count
  }

  /** The entries whose count is `c`, in the order they have in `s`. */
  function WithCount(s: seq<TagCount>, c: int): seq<TagCount>
  {
    if s == [] then [] else (if s[0].count == c then [s[0]] else []) + WithCount(s[1..], c)
  }

  /** Places `p` in front of the first entry whose count is not larger than its own. */
  function InsertDesc(p: TagCount, s: seq<TagCount>): (r: seq<TagCount>)
    ensures multiset(r) == multiset(s) + multiset{p}
  {
    if s == [] then [p]
    else if s[0].count <= p.count then [p] + s
    else
      assert s == [s[0]] + s[1..];
      [s[0]] + InsertDesc(p, s[1..])
  }

  /** Inserting below a bound keeps every count below it. */
  lemma {:induction false} InsertDescBounded(p: TagCount, s: seq<TagCount>, b: int)
    requires p.count <= b
    requires forall i :: 0 <= i < |s| ==> s[i].count <= b
    ensures forall i :: 0 <= i < |InsertDesc(p, s)| ==> InsertDesc(p, s)[i].count <= b
  {
    var r := InsertDesc(p, s);
    if s == [] {
      assert r == [p];
    } else if s[0].count <= p.count {
      assert r == [p] + s;
      assert forall i :: 1 <= i < |r| ==> r[i] == s[i - 1];
    } else {
      var rest := InsertDesc(p, s[1..]);
      InsertDescBounded(p, s[1..], b);
      assert r == [s[0]] + rest;
      assert forall i :: 1 <= i < |r| ==> r[i] == rest[i - 1];
    }
  }

  lemma {:induction false} InsertDescSorted(p: TagCount, s: seq<TagCount>)
    requires NonIncreasing(s)
    ensures NonIncreasing(InsertDesc(p, s))
  {
    var r := InsertDesc(p, s);
    if s == [] {
      assert r == [p];
    } else if s[0].count <= p.count {
      assert r == [p] + s;
      forall i, j | 0 <= i < j < |r|
        ensures r[i].count >= r[j].count
      {
        assert r[j] == s[j - 1];
        if i > 0 {
          assert r[i] == s[i - 1];
        }
      }
    } else {
      var tail := s[1..];
      assert NonIncreasing(tail) by {
        forall i, j | 0 <= i < j < |tail|
          ensures tail[i].count >= tail[j].count
        {
          assert tail[i] == s[i + 1] && tail[j] == s[j + 1];
        }
      }
      InsertDescSorted(p, tail);
      assert forall i :: 0 <= i < |tail| ==> tail[i] == s[i + 1];
      InsertDescBounded(p, tail, s[0].count);
      var rest := InsertDesc(p, tail);
      assert r == [s[0]] + rest;
      forall i, j | 0 <= i < j < |r|
        ensures r[i].count >= r[j].count
      {
        assert r[j] == rest[j - 1];
        if i > 0 {
          assert r[i] == rest[i - 1];
        }
      }
    }
  }

  lemma WithCountCons(x: TagCount, s: seq<TagCount>, c: int)
    ensures WithCount([x] + s, c) == (if x.count == c then [x] else []) + WithCount(s, c)
  {
    assert ([x] + s)[0] == x && ([x] + s)[1..] == s;
  }

  /** Among the entries of one count, the inserted entry comes first and the others keep their order. */
  lemma {:induction false} InsertDescWithCount(p: TagCount, s: seq<TagCount>, c: int)
    ensures WithCount(InsertDesc(p, s), c) == if c == p.count then [p] + WithCount(s, c) else WithCount(s, c)
  {
    if s == [] {
      WithCountCons(p, [], c);
    } else if s[0].count <= p.count {
      WithCountCons(p, s, c);
    } else {
      var rest := InsertDesc(p, s[1..]);
      assert InsertDesc(p, s) == [s[0]] + rest;
      WithCountCons(s[0], rest, c);
      InsertDescWithCount(p, s[1..], c);
      assert s == [s[0]] + s[1..];
      WithCountCons(s[0], s[1..], c);
    }
  }

  /** `sorted(items, key=lambda x: x[1], reverse=True)`: a permutation in non-increasing
      count order in which the entries of any one count keep their input order. */
  function SortDesc(s: seq<TagCount>): (r: seq<TagCount>)
    ensures multiset(r) == multiset(s)
    ensures NonIncreasing(r)
    ensures forall c :: WithCount(r, c) == WithCount(s, c)
  {
    if s == [] then []
    else
      var tail := SortDesc(s[1..]);
      assert s == [s[0]] + s[1..];
      InsertDescSorted(s[0], tail);
      assert forall c :: WithCount(InsertDesc(s[0], tail), c) == WithCount(s, c) by {
        forall c
          ensures WithCount(InsertDesc(s[0], tail), c) == WithCount(s, c)
        {
          InsertDescWithCount(s[0], tail, c);
        }
      }
      InsertDesc(s[0], tail)
  }

  /** The slice `s[:k]`. */
  function Take(s: seq<TagCount>, k: nat): (r: seq<TagCount>)
    ensures |r| == if |s| <= k then |s| else k
    ensures r == s[..|r|]
    ensures |s| <= k ==> r == s
  {
    if |s| <= k then s else s[..k]
  }

  /** After sorting, an entry that the `[:k]` slice cuts off counts no more than any entry it keeps. */
  lemma TopKeepsLargest(s: seq<TagCount>, k: nat, e: TagCount)
    requires e in s && e !in Take(SortDesc(s), k)
    ensures forall x :: x in Take(SortDesc(s), k) ==> x.count >= e.count
  {
    var r := SortDesc(s);
    var top := Take(r, k);
    assert e in multiset(s);
    assert e in r;
    var i :| 0 <= i < |r| && r[i] == e;
    assert i >= |top|;
    forall x | x in top
      ensures x.count >= e.count
    {
      var j :| 0 <= j < |top| && top[j] == x;
      assert r[j] == x;
    }
  }

  /** The position of the first `e` in `s`. */
  /** Of the entries tied with one the slice cuts off, the slice keeps those earlier in the input. */
  lemma TopKeepsFirstTied(s: seq<TagCount>, k: nat, e: TagCount)
    requires Distinct(s) && e in s && e !in Take(SortDesc(s), k)
    ensures forall x :: x in Take(SortDesc(s), k) && x.count == e.count ==> x in s && IndexIn(s, x) < IndexIn(s, e)
  {
    var r := SortDesc(s);
    var top := Take(r, k);
    assert e in multiset(s);
    assert e in r;
    var i :| 0 <= i < |r| && r[i] == e;
    assert i >= |top|;
    forall x | x in top && x.count == e.count
      ensures x in s && IndexIn(s, x) < IndexIn(s, e)
    {
      var j :| 0 <= j < |top| && top[j] == x;
      assert r[j] == x;
      SortDescIsStable(s, j, i);
    }
  }

  function IndexIn(s: seq<TagCount>, e: TagCount): (i: nat)
    requires e in s
    ensures i < |s| && s[i] == e && e !in s[..i]
  {
    if s[0] == e then 0
    else
      var i := 1 + IndexIn(s[1..], e);
      assert s[..i] == [s[0]] + s[1..][..i - 1];
      i
  }

  lemma {:induction false} WithCountAppend(x: seq<TagCount>, y: seq<TagCount>, c: int)
    ensures WithCount(x + y, c) == WithCount(x, c) + WithCount(y, c)
  {
    if x == [] {
      assert x + y == y;
    } else {
      assert (x + y)[0] == x[0] && (x + y)[1..] == x[1..] + y;
      var head := if x[0].count == c then [x[0]] else [];
      calc {
        WithCount(x + y, c);
        head + WithCount(x[1..] + y, c);
        { WithCountAppend(x[1..], y, c); }
        head + (WithCount(x[1..], c) + WithCount(y, c));
        { assert head + (WithCount(x[1..], c) + WithCount(y, c)) == (head + WithCount(x[1..], c)) + WithCount(y, c); }
        WithCount(x, c) + WithCount(y, c);
      }
    }
  }

  lemma {:induction false} WithCountMembers(s: seq<TagCount>, c: int)
    ensures forall e :: e in WithCount(s, c) ==> e in s && e.count == c
  {
    if s != [] {
      WithCountMembers(s[1..], c);
      assert forall e :: e in s[1..] ==> e in s;
    }
  }

  lemma {:induction false} WithCountDistinct(s: seq<TagCount>, c: int)
    requires Distinct(s)
    ensures Distinct(WithCount(s, c))
  {
    if s != [] {
      WithCountDistinct(s[1..], c);
      WithCountMembers(s[1..], c);
      assert s[0] !in s[1..];
    }
  }

  /** Where `s[a]` stands among the entries of its count: how many entries of that count precede it. */
  function Rank(s: seq<TagCount>, a: nat): nat
    requires a < |s|
  {
    |WithCount(s[..a], s[a].count)|
  }

  lemma RankAt(s: seq<TagCount>, a: nat)
    requires a < |s|
    ensures Rank(s, a) < |WithCount(s, s[a].count)| && WithCount(s, s[a].count)[Rank(s, a)] == s[a]
  {
    var c := s[a].count;
    assert s == s[..a] + s[a..];
    WithCountAppend(s[..a], s[a..], c);
    assert s[a..][0] == s[a];
  }

  /** Among entries of equal count, a later position has a larger rank. */
  lemma RankIncreasing(s: seq<TagCount>, a: nat, b: nat)
    requires a < b < |s| && s[a].count == s[b].count
    ensures Rank(s, a) < Rank(s, b)
  {
    var c := s[a].count;
    assert s[..b] == s[..a] + s[a..b];
    WithCountAppend(s[..a], s[a..b], c);
    assert s[a..b][0] == s[a];
  }

  lemma SamePosition(w: seq<TagCount>, i: nat, j: nat)
    requires Distinct(w) && i < |w| && j < |w| && w[i] == w[j]
    ensures i == j
  {
  }

  /** Ranks among equal counts are the same in the input and the output of the sort. */
  lemma SortKeepsRank(s: seq<TagCount>, a: nat) returns (x: nat)
    requires Distinct(s) && a < |SortDesc(s)|
    ensures x < |s| && s[x] == SortDesc(s)[a] && x == IndexIn(s, SortDesc(s)[a])
    ensures Rank(SortDesc(s), a) == Rank(s, x)
  {
    var r := SortDesc(s);
    var c := r[a].count;
    assert r[a] in multiset(s);
    x := IndexIn(s, r[a]);
    var w := WithCount(s, c);
    assert WithCount(r, c) == w;
    WithCountDistinct(s, c);
    RankAt(r, a);
    RankAt(s, x);
    SamePosition(w, Rank(r, a), Rank(s, x));
  }

  /** The sort is stable: of two entries with equal counts, the one first in the input is first in the output. */
  lemma SortDescIsStable(s: seq<TagCount>, a: nat, b: nat)
    requires Distinct(s)
    requires a < b < |SortDesc(s)| && SortDesc(s)[a].count == SortDesc(s)[b].count
    ensures SortDesc(s)[a] in s && SortDesc(s)[b] in s
    ensures IndexIn(s, SortDesc(s)[a]) < IndexIn(s, SortDesc(s)[b])
  {
    var x := SortKeepsRank(s, a);
    var y := SortKeepsRank(s, b);
    RankIncreasing(SortDesc(s), a, b);
    if y < x {
      RankIncreasing(s, y, x);
    }
  }
}
