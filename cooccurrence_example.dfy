/** A worked instance of the co-occurrence ranking on five records. */
module CoOccurrenceExample {
  import opened Order
  import opened Records
  import opened Ranking
  import opened CoOccurrence

  /** Question 1 is tagged python and pandas, question 2 flask and python, question 3 java.
      The rows are not grouped by question, and flask's row comes first. */
  const Sample: seq<Record> := [Record(2, "flask", "2021-11"), Record(1, "python", "2021-11"),
    Record(2, "python", "2021-11"), Record(1, "pandas", "2021-11"), Record(3, "java", "2021-11")]

  lemma SampleQids()
    ensures Qids(Sample) == [2, 1, 2, 1, 3]
  {
    var s := Sample;
    assert s[1..][1..][1..][1..][1..] == [];
  }

  lemma UniqueTwo()
    ensures SortedUnique([2, 1], IntLess) == [1, 2]
  {
    assert [2, 1][..1] == [2];
    assert SortedUnique([2], IntLess) == [2] by {
      assert [2][..0] == [];
    }
  }

  lemma UniqueFour()
    ensures SortedUnique([2, 1, 2, 1], IntLess) == [1, 2]
  {
    UniqueTwo();
    assert [2, 1, 2][..2] == [2, 1];
    assert Insert(2, [1, 2], IntLess) == [1, 2];
    assert [2, 1, 2, 1][..3] == [2, 1, 2];
    assert Insert(1, [1, 2], IntLess) == [1, 2];
  }

  lemma SampleIds()
    ensures GroupIds(Sample) == [1, 2, 3]
  {
    SampleQids();
    UniqueFour();
    assert [2, 1, 2, 1, 3][..4] == [2, 1, 2, 1];
    assert Insert(3, [1, 2], IntLess) == [1, 2, 3];
  }

  lemma SampleQuestionOne()
    ensures TagsOf(Sample, 1) == ["python", "pandas"]
  {
    var s := Sample;
    assert TagsOf(s[4..], 1) == [];
    assert TagsOf(s[3..], 1) == ["pandas"];
    assert TagsOf(s[2..], 1) == ["pandas"];
    assert TagsOf(s[1..], 1) == ["python", "pandas"];
  }

  lemma SampleQuestionTwo()
    ensures TagsOf(Sample, 2) == ["flask", "python"]
  {
    var s := Sample;
    assert TagsOf(s[4..], 2) == [];
    assert TagsOf(s[3..], 2) == [];
    assert TagsOf(s[2..], 2) == ["python"];
    assert TagsOf(s[1..], 2) == ["python"];
  }

  lemma SampleQuestionThree()
    ensures TagsOf(Sample, 3) == ["java"]
  {
    var s := Sample;
    assert TagsOf(s[4..], 3) == ["java"];
    assert TagsOf(s[2..], 3) == ["java"];
  }

  lemma SampleGroups()
    ensures GroupLists(Sample, [1, 2, 3]) == [["python", "pandas"], ["flask", "python"], ["java"]]
  {
    SampleQuestionOne();
    SampleQuestionTwo();
    SampleQuestionThree();
    var ids: seq<int> := [1, 2, 3];
    assert ids[1..] == [2, 3] && ids[1..][1..] == [3] && ids[1..][1..][1..] == [];
    assert GroupLists(Sample, [3]) == [["java"]];
    assert GroupLists(Sample, [2, 3]) == [["flask", "python"], ["java"]];
  }

  lemma SampleKept()
    ensures WithAnchor([["python", "pandas"], ["flask", "python"], ["java"]])
      == [["python", "pandas"], ["flask", "python"]]
  {
    var g1: seq<string>, g2: seq<string>, g3: seq<string> := ["python", "pandas"], ["flask", "python"], ["java"];
    assert [g1, g2, g3][1..] == [g2, g3];
    assert [g2, g3][1..] == [g3];
    assert [g3][1..] == [];
  }

  lemma SampleFlatten()
    ensures Flatten([["python", "pandas"], ["flask", "python"]]) == ["python", "pandas", "flask", "python"]
  {
    var g1: seq<string>, g2: seq<string> := ["python", "pandas"], ["flask", "python"];
    assert [g1, g2][1..] == [g2];
    assert [g2][1..] == [];
    assert Flatten([g2]) == g2 + [] == g2;
  }

  /** The walk visits questions 1 and 2 (both carry python) in id order and skips question 3. */
  lemma SampleStream()
    ensures Stream(Sample) == ["python", "pandas", "flask", "python"]
  {
    SampleIds();
    SampleGroups();
    SampleKept();
    SampleFlatten();
  }

  lemma SampleKeys()
    ensures FirstSeen(["python", "pandas", "flask", "python"]) == ["pandas", "flask"]
  {
    var s: seq<string> := ["python", "pandas", "flask", "python"];
    assert s[..3] == ["python", "pandas", "flask"];
    assert s[..3][..2] == ["python", "pandas"];
    assert s[..3][..2][..1] == ["python"];
    assert FirstSeen(["python"]) == [] by {
      assert ["python"][..0] == [];
    }
    assert FirstSeen(["python", "pandas"]) == ["pandas"];
    assert FirstSeen(["python", "pandas", "flask"]) == ["pandas", "flask"];
  }

  lemma SampleTally()
    ensures Tally(["python", "pandas", "flask", "python"]) == [TagCount("pandas", 1), TagCount("flask", 1)]
  {
    var s: seq<string> := ["python", "pandas", "flask", "python"];
    SampleKeys();
    assert s[1..] == ["pandas", "flask", "python"];
    assert s[1..][1..] == ["flask", "python"];
    assert s[1..][1..][1..] == ["python"];
    assert s[1..][1..][1..][1..] == [];
    assert Occurrences(s, "pandas") == 1;
    assert Occurrences(s, "flask") == 1;
  }

  lemma SampleSort()
    ensures SortDesc([TagCount("pandas", 1), TagCount("flask", 1)]) == [TagCount("pandas", 1), TagCount("flask", 1)]
  {
    var items := [TagCount("pandas", 1), TagCount("flask", 1)];
    assert items[1..] == [TagCount("flask", 1)];
    assert items[1..][1..] == [];
    assert SortDesc(items[1..]) == [TagCount("flask", 1)];
  }

  /** pandas and flask each share one question with python and tie; pandas, met first in the
      walk, stays first although flask's row comes first in the data and sorts first by name.
      java shares no question with python, and python itself is never counted. */
  lemma SampleRanking()
    ensures CoOccurring(Sample) == [TagCount("pandas", 1), TagCount("flask", 1)]
  {
    SampleStream();
    SampleTally();
    SampleSort();
  }
}
