/**
  Gregorian calendar dates as the program uses them: month lengths
  (`daysIn` in cmd/root.go and in Go's time package), the `YYYY-MM-DD`
  rendering `t.Format("2006-01-02")` and its inverse
  `time.Parse("2006-01-02", s)`. Years are limited to 0..9999, the range in
  which that rendering has four digits.
*/
module Calendar {
  import opened Wrappers
  import opened Strings

  predicate IsLeap(y: int) {
    y % 4 == 0 && (y % 100 != 0 || y % 400 == 0)
  }

  function YearLength(y: int): nat {
    if IsLeap(y) then 366 else 365
  }

  /** Days of a common year before the first of each month, and the year's length. */
  const CumulativeDays: seq<nat> := [0, 31, 59, 90, 120, 151, 181, 212, 243, 273, 304, 334, 365]

  /** The number of days of year y before the first of month m. */
  function DaysBefore(m: int, y: int): nat
    requires 1 <= m <= 12
  {
    CumulativeDays[m - 1] + (if m > 2 && IsLeap(y) then 1 else 0)
  }

  /**
    `daysIn(m, y)`: the day of month of `time.Date(y, m+1, 0)`, i.e. of the
    day before the first of month m+1. That day lies firstOfNext - 1 days
    after January 1; month 13 is January of year y+1, which begins
    YearLength(y) days after January 1 of year y.
  */
  function DaysIn(m: int, y: int): (n: nat)
    requires 1 <= m <= 12
    ensures m == 2 ==> n == (if IsLeap(y) then 29 else 28)
    ensures m in {4, 6, 9, 11} ==> n == 30
    ensures m in {1, 3, 5, 7, 8, 10, 12} ==> n == 31
  {
    var firstOfNext := if m == 12 then YearLength(y) else DaysBefore(m + 1, y);
    firstOfNext - DaysBefore(m, y)
  }

  datatype Date = Date(year: int, month: int, day: int)

  /** A calendar date whose year has four digits. */
  predicate Valid(d: Date) {
    0 <= d.year <= 9999 && 1 <= d.month <= 12 && 1 <= d.day <= DaysIn(d.month, d.year)
  }

  type ValidDate = d: Date | Valid(d) witness Date(1970, 1, 1)

  /** Calendar order: -1, 0 or +1 as a is earlier than, equal to or later than b. */
  function DateCompare(a: Date, b: Date): int {
    if a.year != b.year then Sign(a.year - b.year)
    else if a.month != b.month then Sign(a.month - b.month)
    else Sign(a.day - b.day)
  }

  function Sign(x: int): int {
    if x < 0 then -1 else if x == 0 then 0 else 1
  }

  /** a is the same day as or an earlier day than b. */
  predicate OnOrBefore(a: Date, b: Date) {
    a.year < b.year || (a.year == b.year && (a.month < b.month || (a.month == b.month && a.day <= b.day)))
  }

  predicate IsDigit(c: char) {
    '0' <= c <= '9'
  }

  predicate AllDigits(s: string) {
    forall i :: 0 <= i < |s| ==> IsDigit(s[i])
  }

  function DigitChar(n: int): char
    requires 0 <= n <= 9
  {
    ('0' as int + n) as char
  }

  function Pow10(k: nat): nat {
    if k == 0 then 1 else 10 * Pow10(k - 1)
  }

  /** The lowest `width` decimal digits of x, zero-padded (Go's "2006", "01", "02" fields). */
  function Digits(x: nat, width: nat): (s: string)
    ensures |s| == width && AllDigits(s)
  {
    if width == 0 then []
    else Digits(x / 10, width - 1) + [DigitChar(x % 10)]
  }

  /** The number a string of decimal digits denotes. */
  function Value(s: string): (n: nat)
    requires AllDigits(s)
    ensures n < Pow10(|s|)
  {
    if s == [] then 0
    else 10 * Value(s[..|s| - 1]) + (s[|s| - 1] as int - '0' as int)
  }

  /** `t.Format("2006-01-02")` for a date t. */
  function Format(d: ValidDate): (s: string)
    ensures |s| == 10
  {
    Digits(d.year, 4) + "-" + Digits(d.month, 2) + "-" + Digits(d.day, 2)
  }

  /**
    `time.Parse("2006-01-02", s)`: exactly four digits, '-', two digits,
    '-', two digits and nothing more; the month must lie in 1..12 and the
    day in 1..daysIn(month, year).
  */
  function ParseDate(s: string): (r: Option<ValidDate>)
    ensures r.Some? ==> |s| == 10 && s[4] == '-' && s[7] == '-'
  {
    if |s| == 10 && AllDigits(s[..4]) && s[4] == '-' && AllDigits(s[5..7]) && s[7] == '-' && AllDigits(s[8..]) then
      Pow10Small();
      var d := Date(Value(s[..4]), Value(s[5..7]), Value(s[8..]));
      if 1 <= d.month <= 12 && 1 <= d.day <= DaysIn(d.month, d.year) then Some(d) else None
    else None
  }

  lemma {:induction false} Pow10Small()
    ensures Pow10(2) == 100 && Pow10(4) == 10000
  {
    assert Pow10(1) == 10;
    assert Pow10(3) == 1000;
  }

  lemma {:induction false} ValueOfDigits(x: nat, width: nat)
    requires x < Pow10(width)
    ensures Value(Digits(x, width)) == x
  {
    if width > 0 {
      ValueOfDigits(x / 10, width - 1);
      var s := Digits(x, width);
      assert s[..|s| - 1] == Digits(x / 10, width - 1);
    }
  }

  lemma {:induction false} DigitsOfValue(s: string)
    requires AllDigits(s)
    ensures Digits(Value(s), |s|) == s
  {
    if s != [] {
      var init := s[..|s| - 1];
      DigitsOfValue(init);
      var d := s[|s| - 1] as int - '0' as int;
      assert Value(s) == 10 * Value(init) + d;
      assert Value(s) / 10 == Value(init);
      assert Value(s) % 10 == d;
      assert s == init + [s[|s| - 1]];
    }
  }

  /** For digit strings of equal length, string order is numeric order. */
  lemma {:induction false} CompareDigitStrings(s: string, t: string)
    requires AllDigits(s) && AllDigits(t) && |s| == |t|
    ensures Compare(s, t) == Sign(Value(s) - Value(t))
  {
    if s != [] {
      CompareDigitStrings(s[..|s| - 1], t[..|t| - 1]);
      CompareDigitStep(s, t);
    }
  }

  lemma {:induction false} CompareDigitStep(s: string, t: string)
    requires AllDigits(s) && AllDigits(t) && |s| == |t| > 0
    requires Compare(s[..|s| - 1], t[..|t| - 1]) == Sign(Value(s[..|s| - 1]) - Value(t[..|t| - 1]))
    ensures Compare(s, t) == Sign(Value(s) - Value(t))
  {
    var ps, pt := s[..|s| - 1], t[..|t| - 1];
    var c, d := s[|s| - 1], t[|t| - 1];
    CompareLast(s, t);
    ValueLast(s);
    ValueLast(t);
    DigitStep(Compare(s, t), Compare(ps, pt), Sign(c as int - d as int),
              Value(s), Value(t), Value(ps), Value(pt), c as int - '0' as int, d as int - '0' as int);
  }

  /** The arithmetic of one more digit: the front decides unless the fronts are equal. */
  lemma {:induction false} DigitStep(whole: int, front: int, last: int, vs: int, vt: int, a: int, b: int, x: int, y: int)
    requires 0 <= x <= 9 && 0 <= y <= 9
    requires whole == if front == 0 then last else front
    requires front == Sign(a - b) && last == Sign(x - y)
    requires vs == 10 * a + x && vt == 10 * b + y
    ensures whole == Sign(vs - vt)
  {
    if a != b {
      SignOfShift(a, b, x, y);
    }
  }

  lemma {:induction false} ValueLast(s: string)
    requires AllDigits(s) && s != []
    ensures Value(s) == 10 * Value(s[..|s| - 1]) + (s[|s| - 1] as int - '0' as int)
  {
  }

  /** Strings of one length compare by their fronts, or by their last characters when the fronts compare equal. */
  lemma {:induction false} CompareLast(s: string, t: string)
    requires |s| == |t| > 0
    ensures var front := Compare(s[..|s| - 1], t[..|t| - 1]);
      Compare(s, t) == if front == 0 then Sign(s[|s| - 1] as int - t[|t| - 1] as int) else front
  {
    var ps, pt := s[..|s| - 1], t[..|t| - 1];
    var c, d := s[|s| - 1], t[|t| - 1];
    LastSplit(s);
    LastSplit(t);
    CompareConcat(ps, [c], pt, [d]);
    CompareSingle(c, d);
    CompareZero(ps, pt);
  }

  lemma {:induction false} CompareSingle(c: char, d: char)
    ensures Compare([c], [d]) == Sign(c as int - d as int)
  {
    if c == d {
      assert [c][1..] == [] && [d][1..] == [];
    }
  }

  /** A difference in a higher digit outweighs the last digits. */
  lemma {:induction false} SignOfShift(a: int, b: int, x: int, y: int)
    requires a != b && 0 <= x <= 9 && 0 <= y <= 9
    ensures Sign(10 * a + x - (10 * b + y)) == Sign(a - b)
  {
  }

  /** The fields of a string laid out as `YYYY-MM-DD`. */
  lemma {:induction false} FieldsOf(s: string, y: string, m: string, d: string)
    requires s == y + "-" + m + "-" + d && |y| == 4 && |m| == 2 && |d| == 2
    ensures |s| == 10 && s[..4] == y && s[4] == '-' && s[5..7] == m && s[7] == '-' && s[8..] == d
  {
  }

  /** Parsing a rendered date gives the date back. */
  lemma {:induction false} ParseFormat(d: ValidDate)
    ensures ParseDate(Format(d)) == Some(d)
  {
    var s := Format(d);
    var y, m, dd := Digits(d.year, 4), Digits(d.month, 2), Digits(d.day, 2);
    FieldsOf(s, y, m, dd);
    Pow10Small();
    ValueOfDigits(d.year, 4);
    ValueOfDigits(d.month, 2);
    ValueOfDigits(d.day, 2);
    assert Value(s[..4]) == d.year && Value(s[5..7]) == d.month && Value(s[8..]) == d.day;
  }

  /** A string that parses is the rendering of the date it parses to. */
  lemma {:induction false} FormatParse(s: string)
    requires ParseDate(s).Some?
    ensures Format(ParseDate(s).value) == s
  {
    var d := ParseDate(s).value;
    assert d.year == Value(s[..4]) && d.month == Value(s[5..7]) && d.day == Value(s[8..]);
    DigitsOfValue(s[..4]);
    DigitsOfValue(s[5..7]);
    DigitsOfValue(s[8..]);
    Reassemble(s);
  }

  /** A string of length 10 with dashes at 4 and 7 is its fields joined by dashes. */
  lemma {:induction false} Reassemble(s: string)
    requires |s| == 10 && s[4] == '-' && s[7] == '-'
    ensures s == s[..4] + "-" + s[5..7] + "-" + s[8..]
  {
  }

  /** `time.Parse` accepts exactly the renderings of valid dates. */
  lemma {:induction false} ParseDateIff(s: string, d: ValidDate)
    ensures ParseDate(s) == Some(d) <==> s == Format(d)
  {
    if s == Format(d) {
      ParseFormat(d);
    }
    if ParseDate(s) == Some(d) {
      FormatParse(s);
    }
  }

  /** Zero-padded fields of one width compare as the numbers they render. */
  lemma {:induction false} DigitFieldCompare(x: nat, y: nat, width: nat)
    requires x < Pow10(width) && y < Pow10(width)
    ensures Compare(Digits(x, width), Digits(y, width)) == Sign(x - y)
    ensures Digits(x, width) == Digits(y, width) <==> x == y
  {
    ValueOfDigits(x, width);
    ValueOfDigits(y, width);
    CompareDigitStrings(Digits(x, width), Digits(y, width));
  }

  /** The part of a rendering after the year: "-MM-DD". */
  lemma {:induction false} MonthDayCompare(ma: string, da: string, mb: string, db: string)
    requires |ma| == 2 && |mb| == 2
    ensures Compare("-" + ma + "-" + da, "-" + mb + "-" + db)
         == if ma == mb then Compare(da, db) else Compare(ma, mb)
  {
    var dash := "-";
    var ta, tb := ma + (dash + da), mb + (dash + db);
    assert dash + ma + dash + da == dash + ta;
    assert dash + mb + dash + db == dash + tb;
    CompareCommonPrefix(dash, ta, tb);
    CompareConcat(ma, dash + da, mb, dash + db);
    CompareCommonPrefix(dash, da, db);
  }

  /** Renderings with fields of equal widths compare field by field. */
  lemma {:induction false} RenderCompare(ya: string, ma: string, da: string, yb: string, mb: string, db: string)
    requires |ya| == |yb| && |ma| == 2 && |mb| == 2
    ensures Compare(ya + "-" + ma + "-" + da, yb + "-" + mb + "-" + db)
         == if ya != yb then Compare(ya, yb) else if ma != mb then Compare(ma, mb) else Compare(da, db)
  {
    var ra, rb := "-" + ma + "-" + da, "-" + mb + "-" + db;
    assert ya + "-" + ma + "-" + da == ya + ra;
    assert yb + "-" + mb + "-" + db == yb + rb;
    CompareConcat(ya, ra, yb, rb);
    MonthDayCompare(ma, da, mb, db);
  }

  /** String order on rendered dates is calendar order. */
  lemma {:induction false} FormatCompare(a: ValidDate, b: ValidDate)
    ensures Compare(Format(a), Format(b)) == DateCompare(a, b)
  {
    Pow10Small();
    DigitFieldCompare(a.year, b.year, 4);
    DigitFieldCompare(a.month, b.month, 2);
    DigitFieldCompare(a.day, b.day, 2);
    RenderCompare(Digits(a.year, 4), Digits(a.month, 2), Digits(a.day, 2),
                  Digits(b.year, 4), Digits(b.month, 2), Digits(b.day, 2));
  }

  /** Inclusive string comparison of rendered dates is calendar comparison. */
  lemma {:induction false} FormatOrder(a: ValidDate, b: ValidDate)
    ensures LexLe(Format(a), Format(b)) <==> OnOrBefore(a, b)
  {
    FormatCompare(a, b);
  }

  /** Example: the flag "2018-13-40", with month 13, is rejected. */
  lemma {:induction false} MonthThirteenRejected()
    ensures ParseDate("2018-13-40") == None
  {
    var s := "2018-13-40";
    assert AllDigits(s[5..7]);
    assert s[5..7] == "13";
    assert Value("13") == 13 by {
      assert "13"[..1] == "1";
    }
  }
}
