/** The tagged question records, how they are loaded, and the cutoff-month filter. */
module Records {
  import opened Base
  import opened Order

  /** One row of the dataset: a question id, one of its tags, and the "YYYY-MM"
      month key derived from the row's timestamp. */
  datatype Record = Record(qid: int, tag: string, month: string)

  /** Rows whose month key is below this one, in string order, are dropped. */
  const Cutoff: string := "2021-10"

  const NoFilesMessage: string := "No parquet files found in monthly_data/"

  /** The rows of all frames, frame after frame, as `pd.concat(..., ignore_index=True)` gives them. */
  function Concat(frames: seq<seq<Record>>): (rs: seq<Record>)
    ensures forall r :: r in rs <==> exists f :: f in frames && r in f
    ensures |frames| > 0 ==> rs == frames[0] + Concat(frames[1..])
  {
    if frames == [] then []
    else
      var rest := Concat(frames[1..]);
      assert forall f :: f in frames <==> f == frames[0] || f in frames[1..];
      frames[0] + rest
  }

  /** Loading: one frame per parquet file found; none at all is an error. */
  function Load(frames: seq<seq<Record>>): (loaded: Result<seq<Record>>)
    ensures loaded.Err? <==> |frames| == 0
    ensures loaded.Err? ==> loaded.message == NoFilesMessage
    ensures loaded.Ok? ==> loaded.value == Concat(frames)
    ensures loaded.Ok? ==> forall r :: r in loaded.value <==> exists f :: f in frames && r in f
  {
    if |frames| == 0 then Err(NoFilesMessage) else Ok(Concat(frames))
  }

  /** The boolean mask `df['Month'] >= '2021-10'`. */
  predicate Retained(r: Record)
  {
    !StrLess(r.month, Cutoff)
  }

  /** The rows that pass the mask, in their original order. */
  function Filter(rs: seq<Record>): (kept: seq<Record>)
    ensures forall r :: r in kept <==> r in rs && Retained(r)
    ensures forall r :: multiset(kept)[r] == if Retained(r) then multiset(rs)[r] else 0
  {
    if rs == [] then []
    else
      assert rs == [rs[0]] + rs[1..];
      if Retained(rs[0]) then [rs[0]] + Filter(rs[1..]) else Filter(rs[1..])
  }

  /** Filtering commutes with concatenation: rows keep their relative order. */
  lemma {:induction false} FilterAppend(a: seq<Record>, b: seq<Record>)
    ensures Filter(a + b) == Filter(a) + Filter(b)
  {
    if a == [] {
      assert a + b == b;
    } else {
      var ab := a + b;
      assert ab[0] == a[0] && ab[1..] == a[1..] + b;
      FilterAppend(a[1..], b);
      if Retained(a[0]) {
        calc {
          Filter(ab);
          [a[0]] + Filter(a[1..] + b);
          [a[0]] + (Filter(a[1..]) + Filter(b));
          ([a[0]] + Filter(a[1..])) + Filter(b);
        }
      }
    }
  }

  /** A retained key is at or above the cutoff in string order, a dropped one strictly below it. */
  lemma FilterSplitsAtCutoff(rs: seq<Record>, r: Record)
    requires r in rs
    ensures r in Filter(rs) ==> r.month == Cutoff || StrLess(Cutoff, r.month)
    ensures r !in Filter(rs) ==> StrLess(r.month, Cutoff)
  {
    StrLessTotal(r.month, Cutoff);
  }
}
