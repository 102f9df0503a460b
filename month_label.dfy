/** Month keys ("2021-10") and the labels the dashboard shows for them ("Oct-2021"). */
module MonthLabel {
  import opened Base
  import opened Order
  import Records

  /** The `%b` abbreviations of the C locale, January first. */
  const MonthAbbrev: seq<string> :=
    ["Jan", "Feb", "Mar", "Apr", "May", "Jun", "Jul", "Aug", "Sep", "Oct", "Nov", "Dec"]

  predicate IsDigit(c: char)
  {
    '0' <= c <= '9'
  }

  predicate AllDigits(s: string)
  {
    forall i :: 0 <= i < |s| ==> IsDigit(s[i])
  }

  function DigitValue(c: char): nat
    requires IsDigit(c)
  {
    c as int - '0' as int
  }

  function DigitChar(d: nat): char
    requires d < 10
  {
    ('0' as int + d) as char
  }

  function Pow10(n: nat): (p: nat)
    ensures p >= 1
  {
    if n == 0 then 1 else 10 * Pow10(n - 1)
  }

  /** The number a string of decimal digits denotes, most significant digit first. */
  function DigitsValue(s: string): nat
    requires AllDigits(s)
    decreases |s|
  {
    if s == [] then 0 else DigitValue(s[0]) * Pow10(|s| - 1) + DigitsValue(s[1..])
  }

  /** A key as `to_period('M').astype(str)` writes it: four year digits, '-', a month 01 to 12. */
  predicate ValidKey(k: string)
  {
    && |k| == 7
    && AllDigits(k[..4])
    && k[4] == '-'
    && AllDigits(k[5..])
    && 1 <= DigitsValue(k[5..]) <= 12
  }

  function Year(k: string): nat
    requires ValidKey(k)
  {
    DigitsValue(k[..4])
  }

  function MonthNumber(k: string): nat
    requires ValidKey(k)
  {
    DigitsValue(k[5..])
  }

  /** The month's position on the calendar, counted in months. */
  function Chrono(k: string): int
    requires ValidKey(k)
  {
    Year(k) * 12 + MonthNumber(k) - 1
  }

  /** `pd.to_datetime(key).strftime('%b-%Y')`; a key pandas cannot parse is a failure. */
  function FormatMonth(key: string): (text: Option<string>)
    ensures text.Some? <==> ValidKey(key)
  {
    if ValidKey(key) then Some(MonthAbbrev[MonthNumber(key) - 1] + "-" + key[..4]) else None
  }

  /** The month number a `%b` abbreviation stands for, 0 for any other text. */
  function AbbrevMonth(name: string): (m: nat)
    ensures m <= 12 && (m > 0 ==> MonthAbbrev[m - 1] == name)
  {
    if name == "Jan" then 1 else if name == "Feb" then 2 else if name == "Mar" then 3
    else if name == "Apr" then 4 else if name == "May" then 5 else if name == "Jun" then 6
    else if name == "Jul" then 7 else if name == "Aug" then 8 else if name == "Sep" then 9
    else if name == "Oct" then 10 else if name == "Nov" then 11 else if name == "Dec" then 12
    else 0
  }

  /** The inverse of FormatMonth: reads a "Mon-YYYY" text back into its "YYYY-MM" key. */
  function ParseLabel(text: string): (key: Option<string>)
  {
    if |text| == 8 && AbbrevMonth(text[..3]) > 0 && text[3] == '-' && AllDigits(text[4..]) then
      var m := AbbrevMonth(text[..3]);
      Some(text[4..] + "-" + [DigitChar(m / 10), DigitChar(m % 10)])
    else None
  }

  lemma FormatExample()
    ensures FormatMonth("2021-10") == Some("Oct-2021")
  {
    var k := "2021-10";
    assert k[..4] == "2021" && k[5..] == "10";
    assert AllDigits(k[..4]) && AllDigits(k[5..]);
    TwoDigits(k[5..]);
    assert ValidKey(k) && MonthNumber(k) == 10;
    assert MonthAbbrev[9] + "-" + "2021" == "Oct-2021";
  }

  lemma TwoDigits(s: string)
    requires |s| == 2 && AllDigits(s)
    ensures DigitsValue(s) == DigitValue(s[0]) * 10 + DigitValue(s[1])
  {
    var t := s[1..];
    assert t[0] == s[1] && t[1..] == [];
    assert DigitsValue(t) == DigitValue(s[1]) * Pow10(0) + DigitsValue(t[1..]);
    assert Pow10(1) == 10;
  }

  lemma AbbrevMonthOf(m: nat)
    requires 1 <= m <= 12
    ensures AbbrevMonth(MonthAbbrev[m - 1]) == m
  {
    match m
    case 1 => assert MonthAbbrev[0] == "Jan";
    case 2 => assert MonthAbbrev[1] == "Feb";
    case 3 => assert MonthAbbrev[2] == "Mar";
    case 4 => assert MonthAbbrev[3] == "Apr";
    case 5 => assert MonthAbbrev[4] == "May";
    case 6 => assert MonthAbbrev[5] == "Jun";
    case 7 => assert MonthAbbrev[6] == "Jul";
    case 8 => assert MonthAbbrev[7] == "Aug";
    case 9 => assert MonthAbbrev[8] == "Sep";
    case 10 => assert MonthAbbrev[9] == "Oct";
    case 11 => assert MonthAbbrev[10] == "Nov";
    case 12 => assert MonthAbbrev[11] == "Dec";
  }

  /** Formatting a valid key and parsing the text gives the key back. */
  lemma FormatThenParse(k: string)
    requires ValidKey(k)
    ensures FormatMonth(k).Some? && ParseLabel(FormatMonth(k).value) == Some(k)
  {
    var m := MonthNumber(k);
    var text := FormatMonth(k).value;
    assert |MonthAbbrev[m - 1]| == 3;
    assert text[..3] == MonthAbbrev[m - 1];
    assert text[4..] == k[..4];
    AbbrevMonthOf(m);
    TwoDigits(k[5..]);
    assert DigitChar(m / 10) == k[5] && DigitChar(m % 10) == k[6];
    assert k == k[..4] + "-" + [k[5], k[6]];
  }

  /** A text that parses is exactly the text of the key it parses to. */
  lemma ParseThenFormat(text: string, k: string)
    requires ParseLabel(text) == Some(k)
    ensures ValidKey(k) && FormatMonth(k) == Some(text)
  {
    var m := AbbrevMonth(text[..3]);
    assert k == text[4..] + "-" + [DigitChar(m / 10), DigitChar(m % 10)];
    assert k[..4] == text[4..];
    assert k[5..] == [DigitChar(m / 10), DigitChar(m % 10)];
    TwoDigits(k[5..]);
    assert MonthNumber(k) == m;
    assert text == text[..3] + "-" + text[4..];
  }

  lemma {:induction false} DigitsBound(s: string)
    requires AllDigits(s)
    ensures DigitsValue(s) < Pow10(|s|)
    decreases |s|
  {
    if s != [] {
      DigitsBound(s[1..]);
      var p := Pow10(|s| - 1);
      MulMono(DigitValue(s[0]), 9, p);
      assert Pow10(|s|) == 10 * p;
    }
  }

  lemma MulMono(a: nat, b: nat, p: nat)
    requires a <= b
    ensures a * p <= b * p
  {
    var d := b - a;
    assert b * p == a * p + d * p;
  }

  /** A smaller leading digit gives a smaller number, whatever follows. */
  lemma LeadingDigitDecides(a: string, b: string)
    requires AllDigits(a) && AllDigits(b) && |a| == |b| > 0
    requires DigitValue(a[0]) < DigitValue(b[0])
    ensures DigitsValue(a) < DigitsValue(b)
  {
    var p := Pow10(|a| - 1);
    var da, db := DigitValue(a[0]), DigitValue(b[0]);
    var va, vb := DigitsValue(a[1..]), DigitsValue(b[1..]);
    assert DigitsValue(a) == da * p + va;
    assert DigitsValue(b) == db * p + vb;
    assert |a[1..]| == |a| - 1;
    DigitsBound(a[1..]);
    PlaceValue(da, db, va, vb, p);
  }

  /** With place value `p` and a lower part below `p`, the larger leading digit wins. */
  lemma PlaceValue(da: nat, db: nat, va: nat, vb: nat, p: nat)
    requires da < db && va < p
    ensures da * p + va < db * p + vb
  {
    MulMono(da + 1, db, p);
    assert (da + 1) * p == da * p + p;
  }

  /** On digit strings of one length, string order is numeric order. */
  lemma {:induction false} DigitsOrder(a: string, b: string)
    requires AllDigits(a) && AllDigits(b) && |a| == |b|
    ensures StrLess(a, b) <==> DigitsValue(a) < DigitsValue(b)
    ensures a == b <==> DigitsValue(a) == DigitsValue(b)
    decreases |a|
  {
    if a != [] {
      if a[0] < b[0] {
        LeadingDigitDecides(a, b);
      } else if b[0] < a[0] {
        LeadingDigitDecides(b, a);
      } else {
        DigitsOrder(a[1..], b[1..]);
        assert a == [a[0]] + a[1..] && b == [b[0]] + b[1..];
      }
    }
  }

  lemma {:induction false} StrLessAppend(p: string, q: string, p': string, q': string)
    requires |p| == |p'|
    ensures StrLess(p + q, p' + q') <==> StrLess(p, p') || (p == p' && StrLess(q, q'))
    decreases |p|
  {
    if p == [] {
      assert p + q == q && p' + q' == q';
    } else {
      assert (p + q)[0] == p[0] && (p' + q')[0] == p'[0];
      assert (p + q)[1..] == p[1..] + q && (p' + q')[1..] == p'[1..] + q';
      StrLessAppend(p[1..], q, p'[1..], q');
      if p[0] == p'[0] {
        assert p == p' <==> p[1..] == p'[1..] by {
          assert p == [p[0]] + p[1..] && p' == [p'[0]] + p'[1..];
        }
      } else {
        assert p != p';
      }
    }
  }

  /** For valid keys, string order is calendar order: sorting keys sorts months in time. */
  lemma KeyOrderIsChronological(a: string, b: string)
    requires ValidKey(a) && ValidKey(b)
    ensures StrLess(a, b) <==> Chrono(a) < Chrono(b)
  {
    assert a == a[..4] + ([a[4]] + a[5..]);
    assert b == b[..4] + ([b[4]] + b[5..]);
    StrLessAppend(a[..4], [a[4]] + a[5..], b[..4], [b[4]] + b[5..]);
    StrLessAppend([a[4]], a[5..], [b[4]], b[5..]);
    StrLessIrreflexive([a[4]]);
    DigitsOrder(a[..4], b[..4]);
    DigitsOrder(a[5..], b[5..]);
  }

  /** The cutoff, read on the calendar: a valid key is kept exactly when it is October 2021 or later. */
  lemma CutoffIsOctober2021(k: string)
    requires ValidKey(k)
    ensures Records.Retained(Records.Record(0, "", k)) <==> Year(k) * 12 + MonthNumber(k) >= 2021 * 12 + 10
  {
    var c := Records.Cutoff;
    assert c[..4] == "2021" && c[5..] == "10";
    assert DigitsValue("10") == 10 by {
      assert "10"[1..] == "0";
      assert DigitsValue("0") == 0 by { assert "0"[1..] == ""; }
    }
    assert DigitsValue("2021") == 2021 by {
      assert "2021"[1..] == "021" && "021"[1..] == "21" && "21"[1..] == "1" && "1"[1..] == "";
      assert Pow10(3) == 1000 && Pow10(2) == 100 && Pow10(1) == 10;
    }
    assert ValidKey(c);
    KeyOrderIsChronological(k, c);
    StrLessTotal(k, c);
    if k == c {
      StrLessIrreflexive(k);
    }
  }
}
