/** Calendar dates as text, "2006-01-02", and as day numbers of the Gregorian calendar. */
module Dates {
  import opened Wrappers
  import opened Text

  datatype Date = Date(year: nat, month: nat, day: nat)

  predicate Leap(year: nat) {
    year % 4 == 0 && (year % 100 != 0 || year % 400 == 0)
  }

  /** Month lengths, as in the table of section 5.7 of RFC 3339. */
  function DaysIn(year: nat, month: nat): (n: nat)
    ensures 28 <= n <= 31
  {
    if month == 2 then (if Leap(year) then 29 else 28)
    else if month == 4 || month == 6 || month == 9 || month == 11 then 30
    else 31
  }

  predicate Valid(d: Date) {
    d.year <= 9999 && 1 <= d.month <= 12 && 1 <= d.day <= DaysIn(d.year, d.month)
  }

  function YearLength(year: nat): nat {
    if Leap(year) then 366 else 365
  }

  function DaysBeforeYear(year: nat): nat {
    if year == 0 then 0 else DaysBeforeYear(year - 1) + YearLength(year - 1)
  }

  function DaysBeforeMonth(year: nat, month: nat): nat
    requires month >= 1
  {
    if month == 1 then 0 else DaysBeforeMonth(year, month - 1) + DaysIn(year, month - 1)
  }

  /** Days since the first of January of the year 0. */
  function DayNumber(d: Date): nat
    requires Valid(d)
  {
    DaysBeforeYear(d.year) + DaysBeforeMonth(d.year, d.month) + d.day - 1
  }

  /** time.Parse with the layout "2006-01-02". */
  function ParseDate(s: string): (d: Option<Date>)
    ensures d.Some? ==> Valid(d.value)
  {
    if |s| != 10 || s[4] != '-' || s[7] != '-' then None
    else if !AllDigits(s[..4]) || !AllDigits(s[5..7]) || !AllDigits(s[8..]) then None
    else
      var d := Date(DigitsValue(s[..4]), DigitsValue(s[5..7]), DigitsValue(s[8..]));
      if Valid(d) then Some(d) else None
  }

  // ---------------------------------------------------------------- the order

  /** Go's < on strings: at the first difference a has the lesser character, or a ends. */
  predicate Less(a: string, b: string) {
    exists i: nat :: i < |b| && LessAt(a, b, i)
  }

  predicate LessAt(a: string, b: string, i: nat) {
    i <= |a| && i < |b| && a[..i] == b[..i] && (i == |a| || a[i] < b[i])
  }

  predicate Earlier(a: Date, b: Date) {
    a.year < b.year || (a.year == b.year && (a.month < b.month || (a.month == b.month && a.day < b.day)))
  }

  lemma LessInHead(a: string, b: string, k: nat, i: nat)
    requires |a| == |b| && i < k <= |a|
    ensures LessAt(a, b, i) <==> LessAt(a[..k], b[..k], i)
  {
    assert a[..k][..i] == a[..i] && b[..k][..i] == b[..i];
  }

  lemma LessInTail(a: string, b: string, k: nat, i: nat)
    requires |a| == |b| && k <= i <= |a|
    ensures LessAt(a, b, i) <==> a[..k] == b[..k] && LessAt(a[k..], b[k..], i - k)
  {
    assert a[..i] == a[..k] + a[k..][..i - k] && b[..i] == b[..k] + b[k..][..i - k];
  }

  /** Strings of equal length are compared piece by piece. */
  lemma LessByPieces(a: string, b: string, k: nat)
    requires |a| == |b| && k <= |a|
    ensures Less(a, b) <==> Less(a[..k], b[..k]) || (a[..k] == b[..k] && Less(a[k..], b[k..]))
  {
    forall i: nat | i < |b|
      ensures LessAt(a, b, i) <==> if i < k then LessAt(a[..k], b[..k], i)
                                   else a[..k] == b[..k] && LessAt(a[k..], b[k..], i - k)
    {
      if i < k { LessInHead(a, b, k, i); } else { LessInTail(a, b, k, i); }
    }
    if i: nat :| i < |b[..k]| && LessAt(a[..k], b[..k], i) {
      assert LessAt(a, b, i);
    }
    if a[..k] == b[..k] {
      if i: nat :| i < |b[k..]| && LessAt(a[k..], b[k..], i) {
        assert LessAt(a, b, k + i);
      }
    }
  }

  lemma LessSingle(a: string, b: string)
    requires |a| == |b| <= 1
    ensures Less(a, b) <==> |a| == 1 && a[0] < b[0]
  {
    if |a| == 1 && a[0] < b[0] {
      assert LessAt(a, b, 0);
    }
  }

  lemma {:induction false} DigitsInOrder(a: string, b: string)
    requires AllDigits(a) && AllDigits(b) && |a| == |b|
    ensures Less(a, b) <==> DigitsValue(a) < DigitsValue(b)
    ensures a == b <==> DigitsValue(a) == DigitsValue(b)
    decreases |a|
  {
    if a == "" {
    } else {
      var n := |a| - 1;
      DigitsInOrder(a[..n], b[..n]);
      LessByPieces(a, b, n);
      LessSingle(a[n..], b[n..]);
      assert a == a[..n] + [a[n]] && b == b[..n] + [b[n]];
    }
  }

  lemma DateTextOrder(a: string, b: string)
    requires ParseDate(a).Some? && ParseDate(b).Some?
    ensures Less(a, b) <==> Earlier(ParseDate(a).value, ParseDate(b).value)
    ensures a == b <==> ParseDate(a) == ParseDate(b)
  {
    var monthA, monthB := a[4..], b[4..];
    var dayA, dayB := monthA[3..], monthB[3..];
    LessByPieces(a, b, 4);
    DigitsInOrder(a[..4], b[..4]);
    MonthTextOrder(a, b);
    assert dayA == a[7..] && dayB == b[7..];
    assert a == a[..4] + ("-" + a[5..7] + "-" + a[8..]) && b == b[..4] + ("-" + b[5..7] + "-" + b[8..]);
    DigitsInOrder(a[5..7], b[5..7]);
    DigitsInOrder(a[8..], b[8..]);
  }

  lemma MonthTextOrder(a: string, b: string)
    requires ParseDate(a).Some? && ParseDate(b).Some?
    ensures
      var x, y := ParseDate(a).value, ParseDate(b).value;
      Less(a[4..], b[4..]) <==> x.month < y.month || (x.month == y.month && x.day < y.day)
  {
    var p, q := a[4..], b[4..];
    LessByPieces(p, q, 1);
    LessSingle(p[..1], q[..1]);
    var r, s := p[1..], q[1..];
    assert r == a[5..] && s == b[5..];
    LessByPieces(r, s, 2);
    assert r[..2] == a[5..7] && s[..2] == b[5..7];
    DigitsInOrder(a[5..7], b[5..7]);
    var t, u := r[2..], s[2..];
    assert t == a[7..] && u == b[7..];
    LessByPieces(t, u, 1);
    LessSingle(t[..1], u[..1]);
    assert t[1..] == a[8..] && u[1..] == b[8..];
    DigitsInOrder(a[8..], b[8..]);
  }

  lemma {:induction false} MonthsFill(year: nat, lo: nat, hi: nat)
    requires 1 <= lo < hi
    ensures DaysBeforeMonth(year, lo) + DaysIn(year, lo) <= DaysBeforeMonth(year, hi)
    decreases hi
  {
    if lo < hi - 1 {
      MonthsFill(year, lo, hi - 1);
    }
  }

  lemma YearIsTwelveMonths(year: nat)
    ensures DaysBeforeMonth(year, 12) + DaysIn(year, 12) == YearLength(year)
  {
    var feb := DaysIn(year, 2);
    assert DaysBeforeMonth(year, 2) == 31;
    assert DaysBeforeMonth(year, 3) == 31 + feb;
    assert DaysBeforeMonth(year, 4) == 62 + feb;
    assert DaysBeforeMonth(year, 5) == 92 + feb;
    assert DaysBeforeMonth(year, 6) == 123 + feb;
    assert DaysBeforeMonth(year, 7) == 153 + feb;
    assert DaysBeforeMonth(year, 8) == 184 + feb;
    assert DaysBeforeMonth(year, 9) == 215 + feb;
    assert DaysBeforeMonth(year, 10) == 245 + feb;
    assert DaysBeforeMonth(year, 11) == 276 + feb;
  }

  lemma {:induction false} YearsFill(lo: nat, hi: nat)
    requires lo < hi
    ensures DaysBeforeYear(lo) + YearLength(lo) <= DaysBeforeYear(hi)
    decreases hi
  {
    if lo < hi - 1 {
      YearsFill(lo, hi - 1);
    }
  }

  lemma EarlierMeansFewerDays(a: Date, b: Date)
    requires Valid(a) && Valid(b) && Earlier(a, b)
    ensures DayNumber(a) < DayNumber(b)
  {
    if a.year < b.year {
      YearsFill(a.year, b.year);
      YearIsTwelveMonths(a.year);
      if a.month < 12 {
        MonthsFill(a.year, a.month, 12);
      }
    } else if a.month < b.month {
      MonthsFill(a.year, a.month, b.month);
    }
  }

  /** On valid dates the order of the strings is the order of the days. */
  lemma TextOrderIsDayOrder(a: string, b: string)
    requires ParseDate(a).Some? && ParseDate(b).Some?
    ensures Less(a, b) <==> DayNumber(ParseDate(a).value) < DayNumber(ParseDate(b).value)
    ensures a == b <==> DayNumber(ParseDate(a).value) == DayNumber(ParseDate(b).value)
  {
    var x, y := ParseDate(a).value, ParseDate(b).value;
    DateTextOrder(a, b);
    if Earlier(x, y) {
      EarlierMeansFewerDays(x, y);
    } else if Earlier(y, x) {
      EarlierMeansFewerDays(y, x);
    }
  }

  /** Less is a strict total order on all strings. */
  lemma LessIsTotal(a: string, b: string)
    ensures !Less(a, a)
    ensures a != b ==> Less(a, b) || Less(b, a)
  {
    if a != b {
      var i := CommonPrefix(a, b);
      assert i < |b| ==> LessAt(a, b, i) || (i < |a| && LessAt(b, a, i));
      assert i == |b| ==> i < |a| && LessAt(b, a, i);
    }
  }

  function CommonPrefix(a: string, b: string): (i: nat)
    ensures i <= |a| && i <= |b| && a[..i] == b[..i]
    ensures i < |a| && i < |b| ==> a[i] != b[i]
    ensures i == |a| == |b| ==> a == b
  {
    if a == "" || b == "" || a[0] != b[0] then 0
    else
      var i := CommonPrefix(a[1..], b[1..]);
      assert a[..1 + i] == [a[0]] + a[1..][..i] && b[..1 + i] == [b[0]] + b[1..][..i];
      1 + i
  }

  lemma LessIsTransitive(a: string, b: string, c: string)
    requires Less(a, b) && Less(b, c)
    ensures Less(a, c)
  {
    var i: nat :| i < |b| && LessAt(a, b, i);
    var j: nat :| j < |c| && LessAt(b, c, j);
    var k := if i < j then i else j;
    assert a[..i][..k] == a[..k] && b[..i][..k] == b[..k];
    assert b[..j][..k] == b[..k] && c[..j][..k] == c[..k];
    if i < j {
      assert b[i] == b[..j][i] == c[..j][i] == c[i];
    } else if j < i {
      assert a[j] == a[..i][j] == b[..i][j] == b[j];
    }
    assert LessAt(a, c, k);
  }

  // ------------------------------------------------------------- the calendar

  lemma ValidIff(y: nat, m: nat, d: nat)
    requires y <= 9999
    ensures
      var longest := if m == 4 || m == 6 || m == 9 || m == 11 then 30
                     else if m != 2 then 31
                     else if y % 400 == 0 || (y % 4 == 0 && y % 100 != 0) then 29 else 28;
      Valid(Date(y, m, d)) <==> 1 <= m <= 12 && 1 <= d <= longest
  {
    assert y % 400 == 0 ==> y % 4 == 0;
  }

  /** Which texts of the layout are dates, and of which year, month and day. */
  lemma DateReads(year: string, month: string, day: string, s: string)
    requires |year| == 4 && |month| == 2 && |day| == 2 && s == year + "-" + month + "-" + day
    requires AllDigits(year) && AllDigits(month) && AllDigits(day)
    ensures
      var y, m, d := DigitsValue(year), DigitsValue(month), DigitsValue(day);
      var longest := if m == 4 || m == 6 || m == 9 || m == 11 then 30
                     else if m != 2 then 31
                     else if y % 400 == 0 || (y % 4 == 0 && y % 100 != 0) then 29 else 28;
      ParseDate(s) == if 1 <= m <= 12 && 1 <= d <= longest then Some(Date(y, m, d)) else None
  {
    FourDigits(year);
    ValidIff(DigitsValue(year), DigitsValue(month), DigitsValue(day));
    DateOfParts(year, month, day, s);
  }

  lemma DateOfParts(year: string, month: string, day: string, s: string)
    requires |year| == 4 && |month| == 2 && |day| == 2 && s == year + "-" + month + "-" + day
    requires AllDigits(year) && AllDigits(month) && AllDigits(day)
    ensures
      var date := Date(DigitsValue(year), DigitsValue(month), DigitsValue(day));
      ParseDate(s) == if Valid(date) then Some(date) else None
  {
    assert s[..4] == year && s[5..7] == month && s[8..] == day;
    assert s[4] == '-' && s[7] == '-';
  }

  lemma FourDigits(s: string)
    requires |s| == 4 && AllDigits(s)
    ensures DigitsValue(s) <= 9999
  {
    assert s[..3][..2] == s[..2] && s[..2][..1] == s[..1] && s[..1][..0] == "";
    assert DigitsValue(s[..1]) <= 9;
    assert DigitsValue(s[..2]) <= 99;
    assert DigitsValue(s[..3]) <= 999;
  }

  lemma NextFourth(year: nat)
    ensures (year + 4) / 4 == (year + 3) / 4 + if year % 4 == 0 then 1 else 0
  {
    assert year == 4 * (year / 4) + year % 4;
  }

  lemma NextHundredth(year: nat)
    ensures (year + 100) / 100 == (year + 99) / 100 + if year % 100 == 0 then 1 else 0
  {
    assert year == 100 * (year / 100) + year % 100;
  }

  lemma NextFourHundredth(year: nat)
    ensures (year + 400) / 400 == (year + 399) / 400 + if year % 400 == 0 then 1 else 0
  {
    assert year == 400 * (year / 400) + year % 400;
  }

  lemma YearLengthIs(year: nat)
    ensures YearLength(year)
         == 365 + (if year % 4 == 0 then 1 else 0) - (if year % 100 == 0 then 1 else 0)
            + if year % 400 == 0 then 1 else 0
  {
    assert year % 400 == 0 ==> year % 100 == 0;
    assert year % 100 == 0 ==> year % 4 == 0;
  }

  /** The days before a year, without counting year by year. */
  lemma {:induction false} DaysBeforeYearIs(year: nat)
    ensures DaysBeforeYear(year) == 365 * year + (year + 3) / 4 - (year + 99) / 100 + (year + 399) / 400
  {
    if year > 0 {
      DaysBeforeYearIs(year - 1);
      NextFourth(year - 1);
      NextHundredth(year - 1);
      NextFourHundredth(year - 1);
      YearLengthIs(year - 1);
    }
  }

  /** The days before a month of a year, counted out. */
  lemma DaysBeforeMonthIs(year: nat, month: nat)
    requires 1 <= month <= 12
    ensures DaysBeforeMonth(year, month)
         == [0, 31, 59, 90, 120, 151, 181, 212, 243, 273, 304, 334][month - 1]
            + if month > 2 && (year % 400 == 0 || (year % 4 == 0 && year % 100 != 0)) then 1 else 0
  {
    var leap := if Leap(year) then 1 else 0;
    assert DaysBeforeMonth(year, 2) == 31;
    assert DaysBeforeMonth(year, 3) == 59 + leap;
    assert DaysBeforeMonth(year, 4) == 90 + leap;
    assert DaysBeforeMonth(year, 5) == 120 + leap;
    assert DaysBeforeMonth(year, 6) == 151 + leap;
    assert DaysBeforeMonth(year, 7) == 181 + leap;
    assert DaysBeforeMonth(year, 8) == 212 + leap;
    assert DaysBeforeMonth(year, 9) == 243 + leap;
    assert DaysBeforeMonth(year, 10) == 273 + leap;
    assert DaysBeforeMonth(year, 11) == 304 + leap;
  }

  /** So the number of any day can be written down. */
  lemma DayNumberIs(d: Date)
    requires Valid(d)
    ensures DayNumber(d)
         == 365 * d.year + (d.year + 3) / 4 - (d.year + 99) / 100 + (d.year + 399) / 400
            + [0, 31, 59, 90, 120, 151, 181, 212, 243, 273, 304, 334][d.month - 1]
            + (if d.month > 2 && (d.year % 400 == 0 || (d.year % 4 == 0 && d.year % 100 != 0)) then 1 else 0)
            + d.day - 1
  {
    DaysBeforeYearIs(d.year);
    DaysBeforeMonthIs(d.year, d.month);
  }

  // ------------------------------------------------------------ monthly dates

  /** The date in a month for a monthly charge on day `day`, clamped to the month's end. */
  function Billing(year: nat, month: nat, day: nat): Date {
    Date(year, month, if day <= DaysIn(year, month) then day else DaysIn(year, month))
  }

  function NextMonth(year: nat, month: nat): (nat, nat) {
    if month == 12 then (year + 1, 1) else (year, month + 1)
  }

  /** Consecutive monthly charges are 28 to 31 days apart, over every month end, leap day and
      turn of the year. */
  lemma MonthlyGap(year: nat, month: nat, day: nat)
    requires 1 <= month <= 12 && 1 <= day <= 31
    requires NextMonth(year, month).0 <= 9999
    ensures
      var (nextYear, nextMonth) := NextMonth(year, month);
      var a, b := Billing(year, month, day), Billing(nextYear, nextMonth, day);
      Valid(a) && Valid(b) && DayNumber(a) + 28 <= DayNumber(b) <= DayNumber(a) + 31
  {
    if month == 12 {
      YearIsTwelveMonths(year);
    }
  }
}
