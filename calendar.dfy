/**
 * Calendar dates as the application stores them, and the text the monthly
 * report compares: SQLite's `strftime('%m', tanggal)` and `strftime('%Y', tanggal)`
 * on the stored ISO date, against Python's `f"{bulan:02}"` and `str(tahun)`.
 */
module Calendar {

  datatype YearMonthDay = YearMonthDay(year: int, month: int, day: int)

  predicate IsLeapYear(y: int) {
    y % 4 == 0 && (y % 100 != 0 || y % 400 == 0)
  }

  function DaysInMonth(y: int, m: int): (n: int)
    requires 1 <= m <= 12
    ensures 28 <= n <= 31
  {
    if m == 2 then (if IsLeapYear(y) then 29 else 28)
    else if m == 4 || m == 6 || m == 9 || m == 11 then 30
    else 31
  }

  /** The dates a Python `date` can hold (years 1 to 9999). */
  predicate ValidDate(d: YearMonthDay) {
    1 <= d.year <= 9999 && 1 <= d.month <= 12 && 1 <= d.day <= DaysInMonth(d.year, d.month)
  }

  /** A value of the `tanggal` column: every date comes from a date picker. */
  type Date = d: YearMonthDay | ValidDate(d) witness YearMonthDay(2000, 1, 1)

  predicate IsDigit(c: char) {
    '0' <= c <= '9'
  }

  function DigitChar(n: int): (c: char)
    requires 0 <= n < 10
    ensures IsDigit(c)
    ensures c as int - '0' as int == n
  {
    ('0' as int + n) as char
  }

  /** `f"{n:02}"` for 0 <= n < 100, and `strftime('%m')`. */
  function TwoDigits(n: int): (s: string)
    requires 0 <= n < 100
    ensures |s| == 2
  {
    [DigitChar(n / 10), DigitChar(n % 10)]
  }

  /** `strftime('%Y')`: the year zero-padded to four digits. */
  function FourDigits(n: int): (s: string)
    requires 0 <= n < 10000
    ensures |s| == 4
  {
    [DigitChar(n / 10 / 10 / 10), DigitChar(n / 10 / 10 % 10), DigitChar(n / 10 % 10), DigitChar(n % 10)]
  }

  /** Decimal digits of a natural number, without leading zeros. */
  function NatText(n: nat): (s: string)
    ensures |s| >= 1
    ensures (|s| == 1) == (n < 10)
    ensures forall i :: 0 <= i < |s| ==> IsDigit(s[i])
    ensures (s[0] == '0') == (n == 0)
    decreases n
  {
    if n < 10 then [DigitChar(n)] else NatText(n / 10) + [DigitChar(n % 10)]
  }

  /** Python's `str(n)` for an integer. */
  function IntText(n: int): (s: string)
    ensures |s| >= 1
    ensures (s[0] == '-') == (n < 0)
  {
    if n < 0 then "-" + NatText(-n) else NatText(n)
  }

  function MonthField(d: Date): string {
    TwoDigits(d.month)
  }

  function YearField(d: Date): string {
    FourDigits(d.year)
  }

  lemma DigitCharInjective(a: int, b: int)
    requires 0 <= a < 10 && 0 <= b < 10
    requires DigitChar(a) == DigitChar(b)
    ensures a == b
  {
  }

  lemma TwoDigitsInjective(a: int, b: int)
    requires 0 <= a < 100 && 0 <= b < 100
    requires TwoDigits(a) == TwoDigits(b)
    ensures a == b
  {
    assert TwoDigits(a)[0] == TwoDigits(b)[0] && TwoDigits(a)[1] == TwoDigits(b)[1];
    DigitCharInjective(a / 10, b / 10);
    DigitCharInjective(a % 10, b % 10);
  }

  lemma {:induction false} NatTextInjective(a: nat, b: nat)
    requires NatText(a) == NatText(b)
    ensures a == b
    decreases a
  {
    var s := NatText(a);
    if a < 10 {
      assert |NatText(b)| == 1;
      DigitCharInjective(a, b);
    } else {
      assert b >= 10;
      assert s == NatText(a / 10) + [DigitChar(a % 10)];
      assert s == NatText(b / 10) + [DigitChar(b % 10)];
      assert s[|s| - 1] == DigitChar(a % 10) == DigitChar(b % 10);
      DigitCharInjective(a % 10, b % 10);
      assert NatText(a / 10) == s[..|s| - 1] == NatText(b / 10);
      NatTextInjective(a / 10, b / 10);
    }
  }

  /** From 1000 on, zero-padding to four digits adds nothing. */
  lemma FourDigitsIsNatText(n: int)
    requires 1000 <= n < 10000
    ensures FourDigits(n) == NatText(n)
  {
    var n1, n2, n3 := n / 10, n / 10 / 10, n / 10 / 10 / 10;
    assert 1 <= n3 < 10 && 10 <= n2 && 100 <= n1;
    assert NatText(n3) == [DigitChar(n3)];
    assert NatText(n2) == [DigitChar(n3), DigitChar(n2 % 10)];
    assert NatText(n1) == [DigitChar(n3), DigitChar(n2 % 10), DigitChar(n1 % 10)];
  }

  /** The monthly report's month test is equality of months. */
  lemma MonthFieldMatches(d: Date, bulan: int)
    requires 1 <= bulan <= 12
    ensures MonthField(d) == TwoDigits(bulan) <==> d.month == bulan
  {
    if MonthField(d) == TwoDigits(bulan) {
      TwoDigitsInjective(d.month, bulan);
    }
  }

  /** The year test is equality of years when the stored year has four digits. */
  lemma YearFieldMatches(d: Date, tahun: int)
    requires 1000 <= d.year
    ensures YearField(d) == IntText(tahun) <==> tahun == d.year
  {
    FourDigitsIsNatText(d.year);
    if YearField(d) == IntText(tahun) {
      assert !IsDigit('-');
      assert IntText(tahun)[0] == NatText(d.year)[0];
      assert tahun >= 0;
      NatTextInjective(tahun, d.year);
    }
  }

  /**
   * `str(tahun)` never has a leading zero, while `strftime('%Y')` pads: a
   * date before the year 1000 is in no monthly report.
   */
  lemma YearBelow1000NeverMatches(d: Date, tahun: int)
    requires d.year < 1000
    ensures YearField(d) != IntText(tahun)
  {
    var y := YearField(d);
    assert y[0] == '0';
    if tahun >= 0 {
      assert IntText(tahun) == NatText(tahun);
      if NatText(tahun)[0] == '0' {
        assert |NatText(tahun)| == 1;
      }
    }
  }

  /** Both halves together: the exact rows the year test lets through. */
  lemma YearFieldExactly(d: Date, tahun: int)
    ensures YearField(d) == IntText(tahun) <==> tahun == d.year && 1000 <= tahun
  {
    if d.year < 1000 {
      YearBelow1000NeverMatches(d, tahun);
    } else {
      YearFieldMatches(d, tahun);
    }
  }
}
