/** Co-occurrence with the anchor tag: for the questions tagged "python", how often every
    other tag appears on them, ranked by count, top 10. */
module CoOccurrence {
  import opened Order
  import opened Records
  import opened Ranking

  const Anchor: string := "python"

  /** The question ids of the records, in record order. */
  function Qids(rs: seq<Record>): (ids: seq<int>)
    ensures forall q :: q in ids <==> exists r :: r in rs && r.qid == q
  {
    if rs == [] then []
    else
      assert forall r :: r in rs <==> r == rs[0] || r in rs[1..] by { assert rs == [rs[0]] + rs[1..]; }
      [rs[0].qid] + Qids(rs[1..])
  }

  /** The index of `df.groupby('Question ID')`: every question id once, ascending. */
  function GroupIds(rs: seq<Record>): (ids: seq<int>)
    ensures StrictlySorted(ids, IntLess) && Distinct(ids)
    ensures forall q :: q in ids <==> exists r :: r in rs && r.qid == q
  {
    IntLessIsStrictTotalOrder();
    var ids := SortedUnique(Qids(rs), IntLess);
    SortedIsDistinct(ids, IntLess);
    ids
  }

  /** `['Tag'].apply(list)` for one question: its tags in record order, repeats kept. */
  function TagsOf(rs: seq<Record>, q: int): seq<string>
  {
    if rs == [] then [] else (if rs[0].qid == q then [rs[0].tag] else []) + TagsOf(rs[1..], q)
  }

  /** The tag lists of the questions `ids`, in that order. */
  function GroupLists(rs: seq<Record>, ids: seq<int>): (groups: seq<seq<string>>)
    ensures |groups| == |ids|
  {
    if ids == [] then [] else [TagsOf(rs, ids[0])] + GroupLists(rs, ids[1..])
  }

  /** `grouped[grouped.apply(lambda x: 'python' in x)]`: the lists holding the anchor, in order. */
  function WithAnchor(groups: seq<seq<string>>): (kept: seq<seq<string>>)
    ensures forall g :: g in kept <==> g in groups && Anchor in g
    ensures forall g :: multiset(kept)[g] == if Anchor in g then multiset(groups)[g] else 0
  {
    if groups == [] then []
    else
      assert forall g :: g in groups <==> g == groups[0] || g in groups[1..] by {
        assert groups == [groups[0]] + groups[1..];
      }
      (if Anchor in groups[0] then [groups[0]] else []) + WithAnchor(groups[1..])
  }

  /** Selecting distributes over concatenation: the kept lists stay in their order. */
  lemma {:induction false} WithAnchorAppend(a: seq<seq<string>>, b: seq<seq<string>>)
    ensures WithAnchor(a + b) == WithAnchor(a) + WithAnchor(b)
  {
    if a == [] {
      assert a + b == b;
    } else {
      var ab := a + b;
      assert ab[0] == a[0] && ab[1..] == a[1..] + b;
      WithAnchorAppend(a[1..], b);
      var head := if Anchor in a[0] then [a[0]] else [];
      calc {
        WithAnchor(ab);
        head + WithAnchor(a[1..] + b);
        head + (WithAnchor(a[1..]) + WithAnchor(b));
        (head + WithAnchor(a[1..])) + WithAnchor(b);
      }
    }
  }

  function Flatten(groups: seq<seq<string>>): seq<string>
  {
    if groups == [] then [] else groups[0] + Flatten(groups[1..])
  }

  /** The tags the counting loop visits, in visiting order: every tag of every anchor question,
      question by question in id order. */
  function Stream(rs: seq<Record>): seq<string>
  {
    Flatten(WithAnchor(GroupLists(rs, GroupIds(rs))))
  }

  function Occurrences(s: seq<string>, t: string): nat
  {
    if s == [] then 0 else (if s[0] == t then 1 else 0) + Occurrences(s[1..], t)
  }

  /** The tags of `s` other than the anchor, each once, in order of first occurrence:
      the key order of a dict filled while walking `s`. */
  function FirstSeen(s: seq<string>): (keys: seq<string>)
    ensures Distinct(keys)
    ensures forall t :: t in keys <==> t in s && t != Anchor
    decreases |s|
  {
    if s == [] then []
    else
      var keys := FirstSeen(s[..|s| - 1]);
      var x := s[|s| - 1];
      assert s == s[..|s| - 1] + [x];
      if x == Anchor || x in keys then keys else keys + [x]
  }

  /** `co_occurrence_counts.items()` once the walk over `s` is done. */
  function Tally(s: seq<string>): (items: seq<TagCount>)
    ensures |items| == |FirstSeen(s)|
    ensures forall k :: 0 <= k < |items| ==> items[k] == TagCount(FirstSeen(s)[k], Occurrences(s, FirstSeen(s)[k]))
  {
    var keys := FirstSeen(s);
    seq(|keys|, k requires 0 <= k < |keys| => TagCount(keys[k], Occurrences(s, keys[k])))
  }

  lemma {:induction false} OccurrencesAppend(a: seq<string>, b: seq<string>, t: string)
    ensures Occurrences(a + b, t) == Occurrences(a, t) + Occurrences(b, t)
  {
    if a == [] {
      assert a + b == b;
    } else {
      assert (a + b)[0] == a[0] && (a + b)[1..] == a[1..] + b;
      OccurrencesAppend(a[1..], b, t);
    }
  }

  lemma {:induction false} OccurrencesAbsent(s: seq<string>, t: string)
    requires t !in s
    ensures Occurrences(s, t) == 0
  {
    if s != [] {
      assert s[0] != t;
      assert forall x :: x in s[1..] ==> x in s;
      OccurrencesAbsent(s[1..], t);
    }
  }

  lemma FlattenSnoc(groups: seq<seq<string>>, i: nat)
    requires i < |groups|
    ensures Flatten(groups[..i + 1]) == Flatten(groups[..i]) + groups[i]
    decreases i
  {
    if i > 0 {
      assert groups[..i + 1][1..] == groups[1..][..i];
      assert groups[..i][1..] == groups[1..][..i - 1];
      FlattenSnoc(groups[1..], i - 1);
    } else {
      assert groups[..1] == [groups[0]] && groups[..0] == [];
      assert Flatten(groups[..1]) == groups[0] + Flatten([]);
    }
  }

  /** The dict `counts`, with key order `keys`, is the tally of the tags walked so far. */
  ghost predicate Tracks(counts: map<string, nat>, keys: seq<string>, seen: seq<string>)
  {
    && keys == FirstSeen(seen)
    && (forall t :: t in counts <==> t in keys)
    && (forall t :: t in counts ==> counts[t] == Occurrences(seen, t))
  }

  lemma FirstSeenSnoc(seen: seq<string>, tag: string)
    ensures FirstSeen(seen + [tag]) == if tag == Anchor || tag in FirstSeen(seen) then FirstSeen(seen) else FirstSeen(seen) + [tag]
  {
    var seen' := seen + [tag];
    assert seen'[..|seen'| - 1] == seen && seen'[|seen'| - 1] == tag;
  }

  /** Walking past the anchor leaves the dict as it was. */
  lemma TrackAnchor(counts: map<string, nat>, keys: seq<string>, seen: seq<string>)
    requires Tracks(counts, keys, seen)
    ensures Tracks(counts, keys, seen + [Anchor])
  {
    FirstSeenSnoc(seen, Anchor);
    forall t | t in counts
      ensures counts[t] == Occurrences(seen + [Anchor], t)
    {
      OccurrencesOfSnoc(seen, Anchor, t);
    }
  }

  lemma TrackOtherKeys(counts: map<string, nat>, keys: seq<string>, seen: seq<string>, tag: string,
                       counts': map<string, nat>, keys': seq<string>)
    requires keys == FirstSeen(seen) && (forall t :: t in counts <==> t in keys)
    requires tag != Anchor
    requires counts'.Keys == counts.Keys + {tag}
    requires keys' == if tag in counts then keys else keys + [tag]
    ensures keys' == FirstSeen(seen + [tag])
    ensures forall t :: t in counts' <==> t in keys'
  {
    FirstSeenSnoc(seen, tag);
  }

  lemma TrackOtherCounts(counts: map<string, nat>, seen: seq<string>, tag: string, counts': map<string, nat>)
    requires forall t :: t in counts ==> counts[t] == Occurrences(seen, t)
    requires tag !in counts ==> tag !in seen
    requires counts' == counts[tag := (if tag in counts then counts[tag] else 0) + 1]
    ensures forall t :: t in counts' ==> counts'[t] == Occurrences(seen + [tag], t)
  {
    forall t | t in counts'
      ensures counts'[t] == Occurrences(seen + [tag], t)
    {
      OccurrencesOfSnoc(seen, tag, t);
      if t != tag {
        assert counts'[t] == counts[t];
      } else if tag !in counts {
        OccurrencesAbsent(seen, tag);
      }
    }
  }

  /** Walking past another tag adds one to its count, making it a new last key if it was absent. */
  lemma TrackOther(counts: map<string, nat>, keys: seq<string>, seen: seq<string>, tag: string)
    requires Tracks(counts, keys, seen)
    requires tag != Anchor
    ensures Tracks(counts[tag := (if tag in counts then counts[tag] else 0) + 1],
                   if tag in counts then keys else keys + [tag], seen + [tag])
  {
    var counts' := counts[tag := (if tag in counts then counts[tag] else 0) + 1];
    var keys' := if tag in counts then keys else keys + [tag];
    assert counts'.Keys == counts.Keys + {tag};
    TrackOtherKeys(counts, keys, seen, tag, counts', keys');
    assert tag !in counts ==> tag !in seen by {
      if tag !in counts {
        assert tag !in keys;
      }
    }
    TrackOtherCounts(counts, seen, tag, counts');
    assert Tracks(counts', keys', seen + [tag]);
  }

  lemma TrackedItems(counts: map<string, nat>, keys: seq<string>, seen: seq<string>)
    requires Tracks(counts, keys, seen)
    ensures forall k :: 0 <= k < |keys| ==> keys[k] in counts
    ensures seq(|keys|, k requires 0 <= k < |keys| && keys[k] in counts => TagCount(keys[k], counts[keys[k]])) == Tally(seen)
  {
  }

  /** The result `calculate_co_occurrence` returns: the dict's items ranked by count, first 10. */
  function CoOccurring(rs: seq<Record>): (top: seq<TagCount>)
    ensures |top| == if |FirstSeen(Stream(rs))| <= 10 then |FirstSeen(Stream(rs))| else 10
    ensures NonIncreasing(top)
  {
    var sorted := SortDesc(Tally(Stream(rs)));
    assert |multiset(sorted)| == |multiset(Tally(Stream(rs)))|;
    Take(sorted, 10)
  }

  /** The loop body: `counts[tag] = counts.get(tag, 0) + 1` unless `tag` is the anchor; a new
      key goes to the end of the key order. */
  method CountTag(counts0: map<string, nat>, keys0: seq<string>, ghost before: seq<string>, tag: string)
    returns (counts: map<string, nat>, keys: seq<string>)
    requires Tracks(counts0, keys0, before)
    ensures Tracks(counts, keys, before + [tag])
  {
    counts, keys := counts0, keys0;
    if tag == Anchor {
      TrackAnchor(counts0, keys0, before);
    } else {
      TrackOther(counts0, keys0, before, tag);
      if tag !in counts {
        keys := keys + [tag];
      }
      counts := counts[tag := (if tag in counts then counts[tag] else 0) + 1];
    }
  }

  /** The inner loop: counts the tags of one question, other than the anchor, into the dict. */
  method CountTags(counts0: map<string, nat>, keys0: seq<string>, ghost before: seq<string>, tags: seq<string>)
    returns (counts: map<string, nat>, keys: seq<string>)
    requires Tracks(counts0, keys0, before)
    ensures Tracks(counts, keys, before + tags)
  {
    counts, keys := counts0, keys0;
    ghost var seen := before;
    var j := 0;
    while j < |tags|
      invariant 0 <= j <= |tags|
      invariant seen == before + tags[..j]
      invariant Tracks(counts, keys, seen)
    {
      var tag := tags[j];
      counts, keys := CountTag(counts, keys, seen, tag);
      seen := seen + [tag];
      assert tags[..j + 1] == tags[..j] + [tag];
      j := j + 1;
    }
    assert tags[..j] == tags;
  }

  /** The outer loop: counts the tags of every anchor question, question after question. */
  method CountGroups(groups: seq<seq<string>>) returns (counts: map<string, nat>, keys: seq<string>)
    ensures Tracks(counts, keys, Flatten(groups))
  {
    counts, keys := map[], [];
    var i := 0;
    while i < |groups|
      invariant 0 <= i <= |groups|
      invariant Tracks(counts, keys, Flatten(groups[..i]))
    {
      counts, keys := CountTags(counts, keys, Flatten(groups[..i]), groups[i]);
      FlattenSnoc(groups, i);
      i := i + 1;
    }
    assert groups[..i] == groups;
  }

  /** `calculate_co_occurrence`: tallies the non-anchor tags of every anchor question into a
      dict, then ranks the dict's items by count, stably, and keeps the first 10. */
  method CalculateCoOccurrence(rs: seq<Record>) returns (top: seq<TagCount>)
    ensures top == CoOccurring(rs)
  {
    var groups := WithAnchor(GroupLists(rs, GroupIds(rs)));
    var counts, keys := CountGroups(groups);
    TrackedItems(counts, keys, Flatten(groups));
    var items := seq(|keys|, k requires 0 <= k < |keys| && keys[k] in counts => TagCount(keys[k], counts[keys[k]]));
    top := Take(SortDesc(items), 10);
  }

  lemma OccurrencesOfSnoc(s: seq<string>, x: string, t: string)
    ensures Occurrences(s + [x], t) == Occurrences(s, t) + (if x == t then 1 else 0)
  {
    OccurrencesAppend(s, [x], t);
    assert [x][1..] == [];
  }

  // ------------------------------------------------------------ properties

  lemma {:induction false} OccurrencesPresent(s: seq<string>, t: string)
    requires t in s
    ensures Occurrences(s, t) > 0
  {
    if s[0] != t {
      OccurrencesPresent(s[1..], t);
    }
  }

  lemma TallyDistinct(s: seq<string>)
    ensures Distinct(Tally(s))
  {
  }

  /** At most 10 entries, none for the anchor, each counting its tag's occurrences (at least one),
      in non-increasing count order. */
  lemma CoOccurringShape(rs: seq<Record>)
    ensures |CoOccurring(rs)| == if |FirstSeen(Stream(rs))| <= 10 then |FirstSeen(Stream(rs))| else 10
    ensures NonIncreasing(CoOccurring(rs))
    ensures forall k :: 0 <= k < |CoOccurring(rs)| ==>
      && CoOccurring(rs)[k].tag != Anchor
      && CoOccurring(rs)[k].count == Occurrences(Stream(rs), CoOccurring(rs)[k].tag)
      && CoOccurring(rs)[k].count > 0
  {
    var s := Stream(rs);
    var items := Tally(s);
    var sorted := SortDesc(items);
    var top := CoOccurring(rs);
    forall k | 0 <= k < |top|
      ensures top[k].tag != Anchor && top[k].count == Occurrences(s, top[k].tag) && top[k].count > 0
    {
      assert top[k] == sorted[k];
      assert sorted[k] in multiset(items);
      var x := IndexIn(items, sorted[k]);
      assert FirstSeen(s)[x] in FirstSeen(s);
      OccurrencesPresent(s, top[k].tag);
    }
  }

  /** The position of the first `t` in `s`. */
  function FirstIndex(s: seq<string>, t: string): (i: nat)
    requires t in s
    ensures i < |s| && s[i] == t
  {
    if s[0] == t then 0 else 1 + FirstIndex(s[1..], t)
  }

  lemma {:induction false} FirstIndexAppend(a: seq<string>, b: seq<string>, t: string)
    requires t in a + b
    ensures t in a ==> FirstIndex(a + b, t) == FirstIndex(a, t)
    ensures t !in a ==> t in b && FirstIndex(a + b, t) == |a| + FirstIndex(b, t)
  {
    if a == [] {
      assert a + b == b;
    } else {
      assert (a + b)[0] == a[0] && (a + b)[1..] == a[1..] + b;
      if a[0] != t {
        assert t in a[1..] + b;
        FirstIndexAppend(a[1..], b, t);
      }
    }
  }

  /** The dict's keys come in the order in which their tags first occur. */
  lemma {:induction false} FirstSeenOrder(s: seq<string>, x: nat, y: nat)
    requires x < y < |FirstSeen(s)|
    ensures FirstSeen(s)[x] in s && FirstSeen(s)[y] in s
    ensures FirstIndex(s, FirstSeen(s)[x]) < FirstIndex(s, FirstSeen(s)[y])
    decreases |s|
  {
    var keys := FirstSeen(s);
    assert keys[x] in keys && keys[y] in keys;
    var n := |s|;
    var front, last := s[..n - 1], s[n - 1];
    assert s == front + [last];
    var before := FirstSeen(front);
    assert keys[x] == before[x];
    assert before[x] in before;
    FirstIndexAppend(front, [last], keys[x]);
    if y < |before| {
      FirstSeenOrder(front, x, y);
      assert keys[y] == before[y];
      assert before[y] in before;
      FirstIndexAppend(front, [last], keys[y]);
    } else {
      assert keys[y] == last && last !in before;
      FirstIndexAppend(front, [last], last);
    }
  }

  /** Entries with equal counts keep the dict's order: the tag that occurs first comes first. */
  lemma CoOccurringTies(rs: seq<Record>, a: nat, b: nat)
    requires a < b < |CoOccurring(rs)| && CoOccurring(rs)[a].count == CoOccurring(rs)[b].count
    ensures CoOccurring(rs)[a].tag in Stream(rs) && CoOccurring(rs)[b].tag in Stream(rs)
    ensures FirstIndex(Stream(rs), CoOccurring(rs)[a].tag) < FirstIndex(Stream(rs), CoOccurring(rs)[b].tag)
  {
    var s := Stream(rs);
    var items := Tally(s);
    var sorted := SortDesc(items);
    TallyDistinct(s);
    SortDescIsStable(items, a, b);
    var x, y := IndexIn(items, sorted[a]), IndexIn(items, sorted[b]);
    FirstSeenOrder(s, x, y);
  }

  /** A tag that co-occurs but missed the top 10 counts no more than any tag in it. */
  lemma CoOccurringKeepsLargest(rs: seq<Record>, t: string)
    requires t != Anchor && t in Stream(rs)
    requires forall k :: 0 <= k < |CoOccurring(rs)| ==> CoOccurring(rs)[k].tag != t
    ensures forall k :: 0 <= k < |CoOccurring(rs)| ==> CoOccurring(rs)[k].count >= Occurrences(Stream(rs), t)
  {
    var s := Stream(rs);
    var items := Tally(s);
    var keys := FirstSeen(s);
    var x :| 0 <= x < |keys| && keys[x] == t;
    var e := items[x];
    assert e in items;
    var top := CoOccurring(rs);
    forall k | 0 <= k < |top|
      ensures top[k] != e
    {
    }
    TopKeepsLargest(items, 10, e);
    forall k | 0 <= k < |top|
      ensures top[k].count >= e.count
    {
      assert top[k] in top;
    }
  }

  /** A co-occurring tag that missed the top 10 while tying with a tag in it was met later in the
      walk than that tag. */
  lemma CoOccurringTiesAtTheCut(rs: seq<Record>, t: string)
    requires t != Anchor && t in Stream(rs)
    requires forall k :: 0 <= k < |CoOccurring(rs)| ==> CoOccurring(rs)[k].tag != t
    ensures forall k :: 0 <= k < |CoOccurring(rs)| && CoOccurring(rs)[k].count == Occurrences(Stream(rs), t) ==>
      CoOccurring(rs)[k].tag in Stream(rs) && FirstIndex(Stream(rs), CoOccurring(rs)[k].tag) < FirstIndex(Stream(rs), t)
  {
    var s := Stream(rs);
    var items := Tally(s);
    var keys := FirstSeen(s);
    var x :| 0 <= x < |keys| && keys[x] == t;
    var e := items[x];
    assert e in items;
    var top := CoOccurring(rs);
    forall k | 0 <= k < |top|
      ensures top[k] != e
    {
    }
    TallyDistinct(s);
    TopKeepsFirstTied(items, 10, e);
    assert IndexIn(items, e) == x;
    forall k | 0 <= k < |top| && top[k].count == Occurrences(s, t)
      ensures top[k].tag in s && FirstIndex(s, top[k].tag) < FirstIndex(s, t)
    {
      assert top[k] in top;
      var y := IndexIn(items, top[k]);
      FirstSeenOrder(s, y, x);
    }
  }

  /** When no question carries the anchor tag the result is empty, not an error. */
  lemma NoAnchorNoCoOccurrence(rs: seq<Record>)
    requires forall r :: r in rs ==> Anchor !in TagsOf(rs, r.qid)
    ensures CoOccurring(rs) == []
  {
    var groups := GroupLists(rs, GroupIds(rs));
    forall g | g in groups
      ensures Anchor !in g
    {
      var k :| 0 <= k < |groups| && groups[k] == g;
      var q := GroupIds(rs)[k];
      GroupListAt(rs, GroupIds(rs), k);
      assert q in GroupIds(rs);
    }
    assert WithAnchor(groups) == [] by {
      if WithAnchor(groups) != [] {
        assert WithAnchor(groups)[0] in WithAnchor(groups);
      }
    }
  }

  lemma {:induction false} GroupListAt(rs: seq<Record>, ids: seq<int>, k: nat)
    requires k < |ids|
    ensures GroupLists(rs, ids)[k] == TagsOf(rs, ids[k])
  {
    if k > 0 {
      GroupListAt(rs, ids[1..], k - 1);
    }
  }

  // ---------------------------------------------- counts in terms of records

  /** The number of records of `sub` with question id `q` and tag `t`. */
  function CountQuestionTag(sub: seq<Record>, q: int, t: string): nat
  {
    if sub == [] then 0 else (if sub[0].qid == q && sub[0].tag == t then 1 else 0) + CountQuestionTag(sub[1..], q, t)
  }

  /** The number of records of `sub` tagged `t` whose question (among the questions `ids`)
      carries the anchor tag somewhere in `rs`. */
  function AnchoredAmong(rs: seq<Record>, sub: seq<Record>, t: string, ids: seq<int>): nat
  {
    if sub == [] then 0
    else
      var hit := sub[0].tag == t && sub[0].qid in ids && Anchor in TagsOf(rs, sub[0].qid);
      (if hit then 1 else 0) + AnchoredAmong(rs, sub[1..], t, ids)
  }

  /** The number of records of `sub` tagged `t` whose question carries the anchor tag in `rs`. */
  function CoCount(rs: seq<Record>, sub: seq<Record>, t: string): nat
  {
    if sub == [] then 0
    else (if sub[0].tag == t && Anchor in TagsOf(rs, sub[0].qid) then 1 else 0) + CoCount(rs, sub[1..], t)
  }

  /** Question by question over `ids`: the records of `sub` tagged `t`, for anchor questions only. */
  function GroupSum(rs: seq<Record>, sub: seq<Record>, ids: seq<int>, t: string): nat
  {
    if ids == [] then 0
    else (if Anchor in TagsOf(rs, ids[0]) then CountQuestionTag(sub, ids[0], t) else 0) + GroupSum(rs, sub, ids[1..], t)
  }

  lemma {:induction false} OccurrencesInGroup(sub: seq<Record>, q: int, t: string)
    ensures Occurrences(TagsOf(sub, q), t) == CountQuestionTag(sub, q, t)
  {
    if sub != [] {
      OccurrencesInGroup(sub[1..], q, t);
      var head: seq<string> := if sub[0].qid == q then [sub[0].tag] else [];
      OccurrencesAppend(head, TagsOf(sub[1..], q), t);
      if head != [] {
        assert head[1..] == [];
      }
    }
  }

  /** The walked tags hold `t` once per record of an anchor question, question by question. */
  lemma {:induction false} StreamIsGroupSum(rs: seq<Record>, ids: seq<int>, t: string)
    ensures Occurrences(Flatten(WithAnchor(GroupLists(rs, ids))), t) == GroupSum(rs, rs, ids, t)
  {
    if ids != [] {
      var g := TagsOf(rs, ids[0]);
      var rest := GroupLists(rs, ids[1..]);
      var groups := GroupLists(rs, ids);
      assert groups[0] == g && groups[1..] == rest;
      StreamIsGroupSum(rs, ids[1..], t);
      if Anchor in g {
        var kept := WithAnchor(groups);
        assert kept == [g] + WithAnchor(rest);
        assert kept[0] == g && kept[1..] == WithAnchor(rest);
        OccurrencesAppend(g, Flatten(WithAnchor(rest)), t);
        OccurrencesInGroup(rs, ids[0], t);
      } else {
        assert WithAnchor(groups) == WithAnchor(rest);
      }
    }
  }

  lemma {:induction false} AnchoredAmongNone(rs: seq<Record>, sub: seq<Record>, t: string)
    ensures AnchoredAmong(rs, sub, t, []) == 0
  {
    if sub != [] {
      AnchoredAmongNone(rs, sub[1..], t);
    }
  }

  lemma {:induction false} AnchoredAmongSplit(rs: seq<Record>, sub: seq<Record>, t: string, q: int, ids: seq<int>)
    requires q !in ids
    ensures AnchoredAmong(rs, sub, t, [q] + ids)
      == (if Anchor in TagsOf(rs, q) then CountQuestionTag(sub, q, t) else 0) + AnchoredAmong(rs, sub, t, ids)
  {
    if sub != [] {
      AnchoredAmongSplit(rs, sub[1..], t, q, ids);
    }
  }

  lemma {:induction false} GroupSumIsAnchoredAmong(rs: seq<Record>, sub: seq<Record>, ids: seq<int>, t: string)
    requires Distinct(ids)
    ensures GroupSum(rs, sub, ids, t) == AnchoredAmong(rs, sub, t, ids)
  {
    if ids == [] {
      AnchoredAmongNone(rs, sub, t);
    } else {
      assert ids == [ids[0]] + ids[1..];
      GroupSumIsAnchoredAmong(rs, sub, ids[1..], t);
      AnchoredAmongSplit(rs, sub, t, ids[0], ids[1..]);
    }
  }

  lemma {:induction false} AnchoredAmongAll(rs: seq<Record>, sub: seq<Record>, t: string, ids: seq<int>)
    requires forall r :: r in sub ==> r.qid in ids
    ensures AnchoredAmong(rs, sub, t, ids) == CoCount(rs, sub, t)
  {
    if sub != [] {
      assert sub[0] in sub;
      assert forall r :: r in sub[1..] ==> r in sub;
      AnchoredAmongAll(rs, sub[1..], t, ids);
    }
  }

  /** A tag's co-occurrence count is the number of its records whose question also carries the
      anchor tag: every such record counts once, repeats within one question included. */
  lemma CoOccurrenceCountsRecords(rs: seq<Record>, t: string)
    ensures Occurrences(Stream(rs), t) == CoCount(rs, rs, t)
  {
    var ids := GroupIds(rs);
    StreamIsGroupSum(rs, ids, t);
    GroupSumIsAnchoredAmong(rs, rs, ids, t);
    forall r | r in rs
      ensures r.qid in ids
    {
    }
    AnchoredAmongAll(rs, rs, t, ids);
  }
}
