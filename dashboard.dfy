/** The `/data` endpoint: load, filter from the cutoff month, aggregate by month and tag, and
    answer with the five views plus the python co-occurrence ranking, or with an error. */
module Dashboard {
  import opened Base
  import opened Order
  import opened Records
  import opened MonthLabel
  import opened Aggregate
  import opened Ranking
  import opened Views
  import opened CoOccurrence

  /** The JSON object the endpoint answers with when nothing goes wrong. */
  datatype Payload = Payload(
    count: seq<Series<nat>>,
    percentage: seq<Series<real>>,
    volatile: seq<Series<nat>>,
    growth: seq<Series<real>>,
    pie: Pie,
    pythonTags: seq<TagCount>)

  /** `str(e)` of the IndexError that `formatted_months[-1]` raises when no month is left. */
  const NoMonthsMessage: string := "list index out of range"

  /** The failure of `pd.to_datetime` on a month key that is not "YYYY-MM". */
  const BadMonthMessage: string := "unparseable month key"

  /** `formatted_months`: the label of every month key, or None as soon as one key is not valid. */
  function Labels(keys: seq<string>): (texts: Option<seq<string>>)
    ensures texts.Some? <==> forall i :: 0 <= i < |keys| ==> ValidKey(keys[i])
    ensures texts.Some? ==>
      |texts.value| == |keys| && forall i :: 0 <= i < |keys| ==> FormatMonth(keys[i]) == Some(texts.value[i])
  {
    if keys == [] then Some([])
    else
      var rest := Labels(keys[1..]);
      match FormatMonth(keys[0])
      case None => None
      case Some(text) =>
        if rest.None? then None
        else
          assert forall i :: 1 <= i < |keys| ==> keys[i] == keys[1..][i - 1];
          Some([text] + rest.value)
  }

  /** What the endpoint answers for the given parquet frames. */
  function Respond(frames: seq<seq<Record>>): (response: Result<Payload>)
    ensures |frames| == 0 ==> response == Err(NoFilesMessage)
    ensures response.Ok? ==>
      && |response.value.count| == |response.value.percentage| == |response.value.volatile|
         == |response.value.growth| == |Build(Filter(Concat(frames))).tags|
      && |response.value.pie.labels| <= 15 && |response.value.pythonTags| <= 10
  {
    match Load(frames)
    case Err(message) => Err(message)
    case Ok(loaded) =>
      var rs := Filter(loaded);
      var mx := Build(rs);
      match Labels(mx.months)
      case None => Err(BadMonthMessage)
      case Some(labels) =>
        if |mx.months| == 0 then Err(NoMonthsMessage)
        else
          Ok(Payload(CountView(mx, labels), PercentageView(mx, labels), VolatilityView(mx, labels),
            GrowthView(mx, labels), PieView(mx), CoOccurring(rs)))
  }

  /** The month keys of the matrix can all be labelled exactly when every record's key is valid. */
  lemma LabelsOfMonths(rs: seq<Record>)
    ensures Labels(Build(rs).months).Some? <==> forall r :: r in rs ==> ValidKey(r.month)
  {
    var mx := Build(rs);
    assert forall r :: r in rs ==> r.month in mx.months;
    if forall r :: r in rs ==> ValidKey(r.month) {
      forall i | 0 <= i < |mx.months|
        ensures ValidKey(mx.months[i])
      {
        assert mx.months[i] in mx.months;
      }
    } else {
      var r :| r in rs && !ValidKey(r.month);
      var i :| 0 <= i < |mx.months| && mx.months[i] == r.month;
    }
  }

  /** The endpoint fails exactly when there are no files, a kept row has a malformed month key,
      or no row is kept; otherwise it answers with the views of the kept rows' matrix. */
  lemma RespondOutcome(frames: seq<seq<Record>>)
    ensures Respond(frames).Err? <==>
      (|frames| == 0
       || (exists r :: r in Filter(Concat(frames)) && !ValidKey(r.month))
       || |Filter(Concat(frames))| == 0)
    ensures |frames| == 0 ==> Respond(frames) == Err(NoFilesMessage)
    ensures |frames| > 0 && |Filter(Concat(frames))| == 0 ==> Respond(frames) == Err(NoMonthsMessage)
    ensures Respond(frames).Ok? ==>
      var rs := Filter(Concat(frames));
      var mx := Build(rs);
      && Labels(mx.months).Some?
      && |mx.months| > 0
      && var labels := Labels(mx.months).value;
      Respond(frames).value == Payload(CountView(mx, labels), PercentageView(mx, labels),
        VolatilityView(mx, labels), GrowthView(mx, labels), PieView(mx), CoOccurring(rs))
  {
    if |frames| > 0 {
      var rs := Filter(Concat(frames));
      LabelsOfMonths(rs);
      NoMonthsIffNoRecords(rs);
    }
  }

  /** `get_data`: the same steps in the endpoint's order, the co-occurrence by its counting loop. */
  method GetData(frames: seq<seq<Record>>) returns (response: Result<Payload>)
    ensures response == Respond(frames)
  {
    var loaded := Load(frames);
    if loaded.Err? {
      return Err(loaded.message);
    }
    var rs := Filter(loaded.value);
    var mx := Build(rs);
    var labels := Labels(mx.months);
    if labels.None? {
      return Err(BadMonthMessage);
    }
    var pythonTags := CalculateCoOccurrence(rs);
    var count := CountView(mx, labels.value);
    var percentage := PercentageView(mx, labels.value);
    var volatile := VolatilityView(mx, labels.value);
    var growth := GrowthView(mx, labels.value);
    if |mx.months| == 0 {
      return Err(NoMonthsMessage);
    }
    response := Ok(Payload(count, percentage, volatile, growth, PieView(mx), pythonTags));
  }

  /** Files whose rows all fall before the cutoff month give the error payload, not empty views. */
  lemma NothingRetainedIsError(frames: seq<seq<Record>>)
    requires |frames| > 0
    requires forall f, r :: f in frames && r in f ==> StrLess(r.month, Cutoff)
    ensures Respond(frames) == Err(NoMonthsMessage)
  {
    var rs := Filter(Concat(frames));
    if rs != [] {
      assert rs[0] in rs;
    }
  }

  /** With well-formed month keys, the only errors are "no files" and "no month left". */
  lemma ErrorCases(frames: seq<seq<Record>>)
    requires forall f, r :: f in frames && r in f ==> ValidKey(r.month)
    ensures Respond(frames).Err? <==> |frames| == 0 || |Filter(Concat(frames))| == 0
  {
    RespondOutcome(frames);
    forall r | r in Filter(Concat(frames))
      ensures ValidKey(r.month)
    {
      assert r in Concat(frames);
    }
  }

  /** The payload's month labels, shared by the count, percentage and volatility series, are
      those of the matrix's month keys: each key is well formed and not before the cutoff month,
      its label reads back as the key, and later keys are later calendar months. */
  lemma PayloadMonths(frames: seq<seq<Record>>, i: nat)
    requires Respond(frames).Ok? && i < |Build(Filter(Concat(frames))).months|
    ensures var mx := Build(Filter(Concat(frames)));
      && Labels(mx.months).Some?
      && (forall j :: 0 <= j < |Respond(frames).value.count| ==>
            Respond(frames).value.count[j].months == Labels(mx.months).value)
      && ValidKey(mx.months[i])
      && !StrLess(mx.months[i], Cutoff)
      && ParseLabel(Labels(mx.months).value[i]) == Some(mx.months[i])
      && forall k :: i < k < |mx.months| ==> ValidKey(mx.months[k]) && Chrono(mx.months[i]) < Chrono(mx.months[k])
  {
    RespondOutcome(frames);
    var rs := Filter(Concat(frames));
    var mx := Build(rs);
    assert mx.months[i] in mx.months;
    var r :| r in rs && r.month == mx.months[i];
    FormatThenParse(mx.months[i]);
    forall k | i < k < |mx.months|
      ensures ValidKey(mx.months[k]) && Chrono(mx.months[i]) < Chrono(mx.months[k])
    {
      KeyOrderIsChronological(mx.months[i], mx.months[k]);
    }
  }
}
