/**
 * Calendar dates as the voter loader reads and prints them: Python's
 * `datetime.strptime(text, '%Y-%m-%d').date()` and `str(date)`.
 */
module Dates {
  import opened Wrappers
  import opened Text

  datatype Date = Date(year: nat, month: nat, day: nat)

  predicate IsLeapYear(y: int)
  {
    y % 4 == 0 && (y % 100 != 0 || y % 400 == 0)
  }

  /** Days in month `m` of year `y` in the proleptic Gregorian calendar. */
  function DaysInMonth(y: int, m: int): (n: int)
    requires 1 <= m <= 12
    ensures 28 <= n <= 31
  {
    if m == 2 then (if IsLeapYear(y) then 29 else 28)
    else if m == 4 || m == 6 || m == 9 || m == 11 then 30
    else 31
  }

  /** A date Python's `datetime.date` can represent (years 1 through 9999). */
  predicate ValidDate(d: Date)
  {
    1 <= d.year <= 9999 && 1 <= d.month <= 12 && 1 <= d.day <= DaysInMonth(d.year, d.month)
  }

  predicate AllDigits(s: string)
  {
    forall i :: 0 <= i < |s| ==> IsDigit(s[i])
  }

  /** Text `%m` accepts: `1`..`9`, `01`..`09` or `10`..`12`. */
  predicate IsMonthToken(m: string)
  {
    1 <= |m| <= 2 && AllDigits(m) && 1 <= DigitsValue(m) <= 12
  }

  /** Text `%d` accepts: `1`..`9`, `01`..`31`, or a space and one non-zero digit. */
  predicate IsDayToken(d: string)
  {
    || (1 <= |d| <= 2 && AllDigits(d) && 1 <= DigitsValue(d) <= 31)
    || (|d| == 2 && d[0] == ' ' && '1' <= d[1] <= '9')
  }

  function DayValue(d: string): nat
    requires IsDayToken(d)
  {
    if d[0] == ' ' then DigitsValue(d[1..]) else DigitsValue(d)
  }

  /**
   * `strptime(s, '%Y-%m-%d').date()`: exactly four digits of year, a dash, a
   * month, a dash and a day, nothing after; `None` is the `ValueError` it
   * raises, also for a year 0 or a day the month does not have.
   */
  function ParseDate(s: string): (r: Option<Date>)
    ensures r.Some? ==> ValidDate(r.value)
  {
    if |s| < 5 || !AllDigits(s[..4]) || s[4] != '-' then None
    else
      var parts := Split(s[5..], '-');
      if |parts| != 2 || !IsMonthToken(parts[0]) || !IsDayToken(parts[1]) then None
      else
        var d := Date(DigitsValue(s[..4]), DigitsValue(parts[0]), DayValue(parts[1]));
        if ValidDate(d) then Some(d) else None
  }

  function Zeros(k: nat): (z: string)
    ensures |z| == k && forall i :: 0 <= i < k ==> z[i] == '0'
  {
    seq(k, _ => '0')
  }

  /** `n` in decimal, zero-padded on the left to at least `w` digits (`%0wd`). */
  function Pad(n: nat, w: nat): (r: string)
    ensures AllDigits(r)
  {
    var s := ShowNat(n);
    if |s| >= w then s else Zeros(w - |s|) + s
  }

  /**
   * `str(d)` for a `datetime.date`: `YYYY-MM-DD`, each part its value in
   * decimal, zero-padded to four, two and two digits.
   */
  function DateToString(d: Date): (r: string)
    ensures forall i :: 0 <= i < |r| ==> IsDigit(r[i]) || r[i] == '-'
    ensures ValidDate(d) ==> |r| == 10 && r[4] == '-' && r[7] == '-'
    ensures ValidDate(d) ==>
      && DigitsValue(r[..4]) == d.year
      && DigitsValue(r[5..7]) == d.month
      && DigitsValue(r[8..]) == d.day
    ensures ValidDate(d) ==> AllDigits(r[..4]) && AllDigits(r[5..7]) && AllDigits(r[8..])
  {
    var y, m, dd := Pad(d.year, 4), Pad(d.month, 2), Pad(d.day, 2);
    DashedLayout(y, m, dd);
    var r := y + "-" + m + "-" + dd;
    if ValidDate(d) then PadsFit(d); r else r
  }

  /** Three digit runs joined by dashes: each run sits between the dashes, and nothing else is there. */
  lemma DashedLayout(y: string, m: string, dd: string)
    requires AllDigits(y) && AllDigits(m) && AllDigits(dd)
    ensures var s := y + "-" + m + "-" + dd;
      && (forall i :: 0 <= i < |s| ==> IsDigit(s[i]) || s[i] == '-')
      && s[..|y|] == y && s[|y|] == '-'
      && s[|y| + 1..|y| + 1 + |m|] == m && s[|y| + 1 + |m|] == '-'
      && s[|y| + 2 + |m|..] == dd
  {
    var s1 := y + "-";
    var s2 := s1 + m;
    var s3 := s2 + "-";
    var s := s3 + dd;
    assert s[..|s2|] == s2 by { assert s3[..|s2|] == s2; }
    assert s[|s1|..|s2|] == m by { assert s[..|s2|][|s1|..] == m; }
  }

  /** The parts of a valid date fit their widths, so padding gives exactly four, two and two digits of the right values. */
  lemma PadsFit(d: Date)
    requires ValidDate(d)
    ensures |Pad(d.year, 4)| == 4 && DigitsValue(Pad(d.year, 4)) == d.year
    ensures |Pad(d.month, 2)| == 2 && DigitsValue(Pad(d.month, 2)) == d.month
    ensures |Pad(d.day, 2)| == 2 && DigitsValue(Pad(d.day, 2)) == d.day
  {
    ShowNatLength(d.year);
    ShowNatLength(d.month);
    ShowNatLength(d.day);
    PadFacts(d.year, 4);
    PadFacts(d.month, 2);
    PadFacts(d.day, 2);
  }

  lemma ShowNatLength(n: nat)
    ensures n < 100 ==> |ShowNat(n)| <= 2
    ensures n < 10000 ==> |ShowNat(n)| <= 4
  {
    if n >= 10 {
      var m := n / 10;
      if m >= 10 {
        if m / 10 >= 10 {
          assert |ShowNat(m / 10)| == |ShowNat(m / 100)| + 1;
        }
      }
    }
  }

  lemma {:induction false} DigitsValueZeros(k: nat)
    ensures DigitsValue(Zeros(k)) == 0
  {
    if k > 0 {
      assert Zeros(k)[..k - 1] == Zeros(k - 1);
      DigitsValueZeros(k - 1);
    }
  }

  /** Leading zeros do not change the value of a digit string. */
  lemma {:induction false} DigitsValueLeadingZeros(k: nat, s: string)
    ensures DigitsValue(Zeros(k) + s) == DigitsValue(s)
  {
    if s == [] {
      assert Zeros(k) + s == Zeros(k);
      DigitsValueZeros(k);
    } else {
      var t := Zeros(k) + s;
      assert t[..|t| - 1] == Zeros(k) + s[..|s| - 1];
      DigitsValueLeadingZeros(k, s[..|s| - 1]);
    }
  }

  lemma PadFacts(n: nat, w: nat)
    requires |ShowNat(n)| <= w
    ensures |Pad(n, w)| == w
    ensures DigitsValue(Pad(n, w)) == n
  {
    var s := ShowNat(n);
    DigitsOfShowNat(n);
    if |s| < w {
      assert Pad(n, w) == Zeros(w - |s|) + s;
      DigitsValueLeadingZeros(w - |s|, s);
    } else {
      assert Pad(n, w) == s;
    }
  }

  /** The loader reads back every date Python prints: `strptime(str(d), '%Y-%m-%d') == d`. */
  lemma ParseDateToString(d: Date)
    requires ValidDate(d)
    ensures ParseDate(DateToString(d)) == Some(d)
  {
    ShowNatLength(d.year);
    ShowNatLength(d.month);
    ShowNatLength(d.day);
    PadFacts(d.year, 4);
    PadFacts(d.month, 2);
    PadFacts(d.day, 2);
    var y, m, dd := Pad(d.year, 4), Pad(d.month, 2), Pad(d.day, 2);
    var s := DateToString(d);
    assert s[..4] == y;
    assert s[4] == '-';
    assert s[5..] == m + ['-'] + dd;
    assert '-' !in m && '-' !in dd by {
      assert AllDigits(m) && AllDigits(dd);
    }
    SplitAfterSeparator(m, dd, '-');
    SplitNoSeparator(dd, '-');
    assert Split(s[5..], '-') == [m, dd];
  }

  lemma DigitsValueOne(a: char)
    requires IsDigit(a)
    ensures DigitsValue([a]) == a as int - '0' as int
  {
    assert [a][..0] == [];
  }

  lemma DigitsValueTwo(a: char, b: char)
    requires IsDigit(a) && IsDigit(b)
    ensures DigitsValue([a, b]) == 10 * (a as int - '0' as int) + (b as int - '0' as int)
  {
    assert [a, b][..1] == [a];
    DigitsValueOne(a);
  }

  lemma DigitsValueFour(a: char, b: char, c: char, d: char)
    requires IsDigit(a) && IsDigit(b) && IsDigit(c) && IsDigit(d)
    ensures DigitsValue([a, b, c, d])
         == 1000 * (a as int - '0' as int) + 100 * (b as int - '0' as int)
          + 10 * (c as int - '0' as int) + (d as int - '0' as int)
  {
    assert [a, b, c, d][..3] == [a, b, c];
    assert [a, b, c][..2] == [a, b];
    DigitsValueTwo(a, b);
  }

  /** `%m` and `%d` accept a single digit. */
  lemma ParseDateShortFields()
    ensures ParseDate("1990-7-4") == Some(Date(1990, 7, 4))
  {
    var s := "1990-7-4";
    assert s[..4] == ['1', '9', '9', '0'];
    DigitsValueFour('1', '9', '9', '0');
    DigitsValueOne('7');
    DigitsValueOne('4');
    SplitAfterSeparator("7", "4", '-');
    SplitNoSeparator("4", '-');
    assert s[5..] == "7" + ['-'] + "4";
  }

  /** `%d` accepts a space followed by one non-zero digit. */
  lemma ParseDateSpacedDay()
    ensures ParseDate("2023-01- 5") == Some(Date(2023, 1, 5))
  {
    var s := "2023-01- 5";
    assert s[..4] == ['2', '0', '2', '3'];
    DigitsValueFour('2', '0', '2', '3');
    DigitsValueTwo('0', '1');
    assert " 5"[1..] == "5";
    DigitsValueOne('5');
    SplitAfterSeparator("01", " 5", '-');
    SplitNoSeparator(" 5", '-');
    assert s[5..] == "01" + ['-'] + " 5";
  }

  /** `datetime.date` refuses a 29 February outside a leap year. */
  lemma ParseDateNotLeap()
    ensures ParseDate("2023-02-29") == None
  {
    var s := "2023-02-29";
    assert s[..4] == ['2', '0', '2', '3'];
    DigitsValueFour('2', '0', '2', '3');
    DigitsValueTwo('0', '2');
    DigitsValueTwo('2', '9');
    SplitAfterSeparator("02", "29", '-');
    SplitNoSeparator("29", '-');
    assert s[5..] == "02" + ['-'] + "29";
  }

  /** `datetime.date` refuses year 0. */
  lemma ParseDateYearZero()
    ensures ParseDate("0000-01-01") == None
  {
    var s := "0000-01-01";
    assert s[..4] == ['0', '0', '0', '0'];
    DigitsValueFour('0', '0', '0', '0');
  }
}
