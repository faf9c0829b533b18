/** The Jalali date value (src/JalaliDate.php): a Carbon object paired with
    the Jalali (year, month, day) it stood for when the value was made,
    the month-length and leap-year rule, and the `YYYY/MM/DD` format. */
module Jalali {
  import opened Wrappers
  import opened Foreign
  import opened Text

  // ---------------------------------------------------------------------
  // Leap years and month lengths

  /** The leap-year rule: every eighth year. */
  predicate LeapYear(year: int) {
    year % 8 == 0
  }

  /** PHP's `(int)` cast of a number: truncation toward zero. */
  function Truncate(r: real): int {
    if r >= 0.0 then r.Floor else -((-r).Floor)
  }

  /** The source's formula `(int)(($y * 0.125 - floor($y * 0.125)) * 8) === 0`,
      evaluated over exact rationals. */
  predicate LeapFormula(year: int) {
    var x := year as real * 0.125;
    Truncate((x - x.Floor as real) * 8.0) == 0
  }

  /** The formula is exactly the every-eighth-year rule. */
  lemma LeapFormulaIsEveryEighthYear(year: int)
    ensures LeapFormula(year) <==> LeapYear(year)
  {
    var q := year / 8;
    var r := year % 8;
    var x := year as real * 0.125;
    assert year == 8 * q + r;
    assert x == q as real + r as real * 0.125;
    assert q as real <= x < q as real + 1.0;
    assert x.Floor == q;
    assert (x - x.Floor as real) * 8.0 == r as real;
    assert Truncate(r as real) == r;
  }

  /** Year 1400 is a leap year under the formula and 1403 is not. */
  lemma LeapFormulaExamples()
    ensures LeapFormula(1400) && !LeapFormula(1403) && !LeapFormula(1399)
  {
    LeapFormulaIsEveryEighthYear(1400);
    LeapFormulaIsEveryEighthYear(1403);
    LeapFormulaIsEveryEighthYear(1399);
  }

  /** `daysInMonth`: no range check on the month, so month 0 and negative
      months have 31 days and every month from 12 on is the last month. */
  function MonthLength(month: int, year: int): (r: int)
    ensures 29 <= r <= 31
    ensures r == 31 <==> month <= 6
    ensures r == 30 <==> (7 <= month <= 11 || (month >= 12 && LeapYear(year)))
    ensures r == 29 <==> (month >= 12 && !LeapYear(year))
  {
    if month <= 6 then 31
    else if month <= 11 then 30
    else if LeapYear(year) then 30 else 29
  }

  /** A Jalali year has 366 days in leap years and 365 otherwise. */
  lemma {:induction false} YearLength(year: int)
    ensures SumOfMonths(12, year) == if LeapYear(year) then 366 else 365
  {
    assert SumOfMonths(6, year) == 186 by {
      assert SumOfMonths(1, year) == 31;
      assert SumOfMonths(2, year) == 62;
      assert SumOfMonths(3, year) == 93;
      assert SumOfMonths(4, year) == 124;
      assert SumOfMonths(5, year) == 155;
    }
    assert SumOfMonths(11, year) == 336 by {
      assert SumOfMonths(7, year) == 216;
      assert SumOfMonths(8, year) == 246;
      assert SumOfMonths(9, year) == 276;
      assert SumOfMonths(10, year) == 306;
    }
  }

  /** The 33-year arithmetic cycle of the Jalali calendar: eight leap
      years in each cycle, at these positions. */
  predicate CycleLeapYear(year: int) {
    var r := year % 33;
    r == 1 || r == 5 || r == 9 || r == 13 || r == 17 || r == 22 || r == 26 || r == 30
  }

  /** The number of cycle leap years among year, year + 1, ..., year + n - 1. */
  function CycleLeapCount(year: int, n: nat): nat {
    if n == 0 then 0
    else (if CycleLeapYear(year + n - 1) then 1 else 0) + CycleLeapCount(year, n - 1)
  }

  /** The every-eighth-year rule disagrees with the calendar: it makes 1400
      a leap year and 1403 a common one, where the cycle (and the calendar
      in use) has 1399 and 1403 as leap years and 1400 as a common one. */
  lemma EveryEighthYearMisplacesLeapYears()
    ensures LeapFormula(1400) && !CycleLeapYear(1400)
    ensures !LeapFormula(1403) && CycleLeapYear(1403)
    ensures !LeapFormula(1399) && CycleLeapYear(1399)
  {
    LeapFormulaExamples();
  }

  /** The cycle repeats every 33 years. */
  lemma CycleRepeats(year: int)
    ensures CycleLeapYear(year + 33) <==> CycleLeapYear(year)
  {
    assert year + 33 == 33 * (year / 33 + 1) + year % 33;
  }

  /** Moving a window of n years on by one year drops its first year and
      adds the year after its end. */
  lemma {:induction false} ShiftCount(year: int, n: nat)
    ensures CycleLeapCount(year + 1, n) + (if CycleLeapYear(year) then 1 else 0) ==
            CycleLeapCount(year, n) + (if CycleLeapYear(year + n) then 1 else 0)
  {
    if n > 0 {
      ShiftCount(year, n - 1);
    }
  }

  /** Every window of 33 consecutive years holds the same number of leap years. */
  lemma CountIsPeriodic(year: int)
    ensures CycleLeapCount(year + 1, 33) == CycleLeapCount(year, 33)
  {
    ShiftCount(year, 33);
    CycleRepeats(year);
  }

  /** Counting a window in two consecutive parts. */
  lemma {:induction false} CountSplit(year: int, n: nat, m: nat)
    ensures CycleLeapCount(year, n + m) == CycleLeapCount(year, n) + CycleLeapCount(year + n, m)
  {
    if m > 0 {
      CountSplit(year, n, m - 1);
    }
  }

  // The three thirds of the first cycle: leap years 1, 5, 9; then 13, 17;
  // then 22, 26, 30.
  lemma FirstThird()
    ensures CycleLeapCount(0, 11) == 3
  {
  }

  lemma SecondThird()
    ensures CycleLeapCount(11, 11) == 2
  {
  }

  lemma LastThird()
    ensures CycleLeapCount(22, 11) == 3
  {
  }

  /** Years 0 to 32 hold eight leap years. */
  lemma FirstCycle()
    ensures CycleLeapCount(0, 33) == 8
  {
    FirstThird();
    SecondThird();
    LastThird();
    CountSplit(0, 11, 11);
    CountSplit(0, 22, 11);
  }

  /** Any 33 consecutive years hold exactly eight leap years. */
  lemma {:induction false} EightLeapYearsPerCycle(year: int)
    ensures CycleLeapCount(year, 33) == 8
    decreases if year < 0 then -year else year
  {
    if year == 0 {
      FirstCycle();
    } else if year > 0 {
      EightLeapYearsPerCycle(year - 1);
      CountIsPeriodic(year - 1);
    } else {
      EightLeapYearsPerCycle(year + 1);
      CountIsPeriodic(year);
    }
  }

  /** The days in months 1..n of a year. */
  function SumOfMonths(n: nat, year: int): int {
    if n == 0 then 0 else SumOfMonths(n - 1, year) + MonthLength(n, year)
  }

  // ---------------------------------------------------------------------
  // The YYYY/MM/DD format

  /** `sprintf('%04d/%02d/%02d', $year, $month, $day)`. */
  function FormatDate(t: Triple): string {
    FormatInt(t.year, 4) + "/" + FormatInt(t.month, 2) + "/" + FormatInt(t.day, 2)
  }

  /** `[$y, $m, $d] = array_map('intval', explode('/', $s))` assigned to
      three `int` properties: with fewer than three fields the destructuring
      reads a missing array key, which the framework raises as an error;
      extra fields are dropped. */
  function ParseDate(s: string): (r: Result<Triple>)
    ensures r.Err? <==> |Explode(s, '/')| < 3
    ensures r.Err? ==> r.error == TooFewFields
  {
    var fields := Explode(s, '/');
    if |fields| < 3 then Err(TooFewFields)
    else Ok(Triple(IntVal(fields[0]), IntVal(fields[1]), IntVal(fields[2])))
  }

  /** The position of an ISO weekday (Monday = 1 .. Sunday = 7) in a week
      that starts on Saturday, the order of the Persian day-name lists. */
  function PersianWeekdayIndex(iso: int): (p: int)
    ensures 0 <= p <= 6
    ensures 1 <= iso <= 7 ==> (p == 0 <==> iso == 6)
  {
    (iso + 1) % 7
  }

  /** Parsing the formatted triple gives it back, for every integer triple. */
  lemma ParseFormatRoundTrip(t: Triple)
    ensures ParseDate(FormatDate(t)) == Ok(t)
  {
    FormattedFields(t);
    FormattedIntVal(t.year, 4);
    FormattedIntVal(t.month, 2);
    FormattedIntVal(t.day, 2);
  }

  /** The formatted triple splits at '/' into its three fields. */
  lemma FormattedFields(t: Triple)
    ensures Explode(FormatDate(t), '/') == [FormatInt(t.year, 4), FormatInt(t.month, 2), FormatInt(t.day, 2)]
  {
    FormatIntHasNoSeparator(t.year, 4, '/');
    FormatIntHasNoSeparator(t.month, 2, '/');
    FormatIntHasNoSeparator(t.day, 2, '/');
    ThreeFields(FormatInt(t.year, 4), FormatInt(t.month, 2), FormatInt(t.day, 2));
  }

  /** Three pieces without '/' joined by '/' split back into themselves. */
  lemma ThreeFields(a: string, b: string, c: string)
    requires '/' !in a && '/' !in b && '/' !in c
    ensures Explode(a + "/" + b + "/" + c, '/') == [a, b, c]
  {
    assert a + "/" + b + "/" + c == a + ['/'] + (b + ['/'] + c);
    ExplodeWithoutSeparator(c, '/');
    ExplodeFirstPiece(b, '/', c);
    ExplodeFirstPiece(a, '/', b + ['/'] + c);
  }

  /** `intval` reads a formatted field back. */
  lemma FormattedIntVal(n: int, width: nat)
    ensures IntVal(FormatInt(n, width)) == n
  {
    FormatIntRoundTrip(n, width, "");
    assert FormatInt(n, width) + "" == FormatInt(n, width);
  }

  /** Fields after the third are ignored. */
  lemma {:induction false} ParseIgnoresExtraFields(s: string, extra: string)
    requires |Explode(s, '/')| >= 3
    ensures ParseDate(s + "/" + extra) == ParseDate(s)
  {
    ExplodeAppend(s, '/', extra);
    assert s + "/" + extra == s + ['/'] + extra;
  }

  /** A field without any digit reads as 0. */
  lemma NonNumericFieldIsZero(f: string)
    requires forall i :: 0 <= i < |f| ==> !IsDigit(f[i])
    ensures IntVal(f) == 0
  {
    var t := SkipSpaces(f);
    if t != [] {
      assert !IsDigit(t[0]);
      assert |t| > 1 ==> !IsDigit(t[1..][0]);
    }
  }

  /** `Jalalian::fromFormat('Y/m/d', sprintf(...))->toCarbon()`: the
      Gregorian instant for a triple (`convertToGregorian`). */
  function ToCarbon(t: Triple, lib: Library): Instant {
    lib.parseJalali(FormatDate(t))
  }

  // ---------------------------------------------------------------------
  // The date object

  /** An argument of `new JalaliDate($year, ...)`, by its PHP shape. */
  datatype Arg = NoArg | IntArg(i: int) | TextArg(s: string) | CarbonArg(c: Carbon)

  class JalaliDate {
    var gregorian: Carbon
    var year: int
    var month: int
    var day: int

    /** `initializeFromGregorian`: keeps the very Carbon object it is given. */
    constructor FromGregorian(date: Carbon, lib: Library)
      ensures gregorian == date
      ensures ToJalali() == lib.jalaliOf(date.Value())
    {
      gregorian := date;
      var t := lib.jalaliOf(date.Value());
      year := t.year;
      month := t.month;
      day := t.day;
    }

    /** Construction from a triple: the Gregorian side is a fresh Carbon. */
    constructor FromJalali(y: int, m: int, d: int, lib: Library)
      ensures ToJalali() == Triple(y, m, d)
      ensures fresh(gregorian) && gregorian.Value() == ToCarbon(Triple(y, m, d), lib)
    {
      year := y;
      month := m;
      day := d;
      gregorian := new Carbon(ToCarbon(Triple(y, m, d), lib));
    }

    /** PHP's `clone`: a new date sharing the same Carbon object. */
    constructor Clone(src: JalaliDate)
      ensures gregorian == src.gregorian && ToJalali() == src.ToJalali()
    {
      gregorian := src.gregorian;
      year, month, day := src.year, src.month, src.day;
    }

    /** `fromString` (`initializeFromString`). */
    static method FromString(s: string, lib: Library) returns (r: Result<JalaliDate>)
      ensures r.Ok? <==> ParseDate(s).Ok?
      ensures r.Err? ==> r.error == TooFewFields
      ensures r.Ok? ==> fresh(r.value) && fresh(r.value.gregorian)
      ensures r.Ok? ==> r.value.ToJalali() == ParseDate(s).value
      ensures r.Ok? ==> r.value.gregorian.Value() == ToCarbon(ParseDate(s).value, lib)
    {
      var p := ParseDate(s);
      if p.Err? {
        return Err(p.error);
      }
      var d := new JalaliDate.FromJalali(p.value.year, p.value.month, p.value.day, lib);
      return Ok(d);
    }

    /** `__construct($year, $month, $day)`: a Carbon, then a string, then
        three non-null values, and otherwise the current moment. */
    static method Create(y: Arg, m: Option<int>, d: Option<int>, now: Instant, lib: Library)
      returns (r: Result<JalaliDate>)
      ensures y.CarbonArg? ==> r.Ok? && r.value.gregorian == y.c && r.value.ToJalali() == lib.jalaliOf(y.c.Value())
      ensures y.TextArg? ==> (r.Ok? <==> ParseDate(y.s).Ok?)
      ensures y.TextArg? && r.Ok? ==> r.value.ToJalali() == ParseDate(y.s).value
      ensures y.TextArg? && r.Ok? ==> r.value.gregorian.Value() == ToCarbon(ParseDate(y.s).value, lib)
      ensures y.IntArg? && m.Some? && d.Some? ==>
        r.Ok? && r.value.ToJalali() == Triple(y.i, m.value, d.value) &&
        r.value.gregorian.Value() == ToCarbon(r.value.ToJalali(), lib)
      ensures (y.NoArg? || (y.IntArg? && (m.None? || d.None?))) ==>
        r.Ok? && r.value.gregorian.Value() == now && r.value.ToJalali() == lib.jalaliOf(now)
      ensures r.Ok? ==> fresh(r.value)
      ensures r.Ok? && !y.CarbonArg? ==> fresh(r.value.gregorian)
    {
      if y.CarbonArg? {
        var date := new JalaliDate.FromGregorian(y.c, lib);
        r := Ok(date);
      } else if y.TextArg? {
        r := FromString(y.s, lib);
      } else if y.IntArg? && m.Some? && d.Some? {
        var date := new JalaliDate.FromJalali(y.i, m.value, d.value, lib);
        r := Ok(date);
      } else {
        var c := new Carbon(now);
        var date := new JalaliDate.FromGregorian(c, lib);
        r := Ok(date);
      }
    }

    /** `toJalali`, and the cached fields behind year(), month(), day(). */
    function ToJalali(): Triple
      reads this
    {
      Triple(year, month, day)
    }

    /** `toDateString` (also `__toString`): the triple, not the Carbon. */
    function ToDateString(): (s: string)
      reads this
      ensures ParseDate(s) == Ok(ToJalali())
    {
      ParseFormatRoundTrip(ToJalali());
      FormatDate(ToJalali())
    }

    /** `daysInMonth`: the month-length table for the cached triple. */
    function DaysInMonth(): (r: int)
      reads this
      ensures r == 31 <==> month <= 6
      ensures r == 29 <==> month >= 12 && !IsLeapYear()
      ensures r == 30 <==> (7 <= month <= 11 || (month >= 12 && IsLeapYear()))
    {
      MonthLength(month, year)
    }

    /** `isLeapYear`: the source's formula, which is every eighth year. */
    predicate IsLeapYear()
      reads this
      ensures IsLeapYear() <==> year % 8 == 0
    {
      LeapFormulaIsEveryEighthYear(year);
      LeapFormula(year)
    }

    /** `dayOfWeek`: the ISO weekday of the Carbon object, Monday = 1. */
    function DayOfWeek(): (w: int)
      reads this, gregorian
      ensures 1 <= w <= 7
      ensures w == 4 <==> gregorian.day % 7 == 0
    {
      IsoWeekday(gregorian.day)
    }

    /** `isWeekend`: Friday, the day 1970-01-02 fell on and every 7th after. */
    predicate IsWeekend()
      reads this, gregorian
      ensures IsWeekend() <==> gregorian.day % 7 == 1
    {
      DayOfWeek() == 5
    }

    /** `isToday`: the Carbon object's day is the clock's day. */
    predicate IsToday(now: Instant)
      reads this, gregorian
      ensures IsToday(now) <==> gregorian.day == now.day
    {
      SameDay(gregorian.Value(), now)
    }

    // The comparisons read the two Carbon objects and nothing else.

    predicate Gt(other: JalaliDate)
      reads this`gregorian, gregorian, other`gregorian, other.gregorian
      ensures ValidInstant(gregorian.Value()) && ValidInstant(other.gregorian.Value()) ==>
        (Gt(other) <==> Ticks(gregorian.Value()) > Ticks(other.gregorian.Value()))
    {
      BeforeIsTimestampOrder(other.gregorian.Value(), gregorian.Value());
      Before(other.gregorian.Value(), gregorian.Value())
    }

    predicate Gte(other: JalaliDate)
      reads this`gregorian, gregorian, other`gregorian, other.gregorian
      ensures ValidInstant(gregorian.Value()) && ValidInstant(other.gregorian.Value()) ==>
        (Gte(other) <==> Ticks(gregorian.Value()) >= Ticks(other.gregorian.Value()))
    {
      BeforeIsTimestampOrder(other.gregorian.Value(), gregorian.Value());
      NotAfter(other.gregorian.Value(), gregorian.Value())
    }

    predicate Lt(other: JalaliDate)
      reads this`gregorian, gregorian, other`gregorian, other.gregorian
      ensures ValidInstant(gregorian.Value()) && ValidInstant(other.gregorian.Value()) ==>
        (Lt(other) <==> Ticks(gregorian.Value()) < Ticks(other.gregorian.Value()))
    {
      BeforeIsTimestampOrder(gregorian.Value(), other.gregorian.Value());
      Before(gregorian.Value(), other.gregorian.Value())
    }

    predicate Lte(other: JalaliDate)
      reads this`gregorian, gregorian, other`gregorian, other.gregorian
      ensures ValidInstant(gregorian.Value()) && ValidInstant(other.gregorian.Value()) ==>
        (Lte(other) <==> Ticks(gregorian.Value()) <= Ticks(other.gregorian.Value()))
    {
      BeforeIsTimestampOrder(gregorian.Value(), other.gregorian.Value());
      NotAfter(gregorian.Value(), other.gregorian.Value())
    }

    predicate Eq(other: JalaliDate)
      reads this`gregorian, gregorian, other`gregorian, other.gregorian
      ensures ValidInstant(gregorian.Value()) && ValidInstant(other.gregorian.Value()) ==>
        (Eq(other) <==> Ticks(gregorian.Value()) == Ticks(other.gregorian.Value()))
    {
      BeforeIsTimestampOrder(gregorian.Value(), other.gregorian.Value());
      gregorian.Value() == other.gregorian.Value()
    }

    function DiffInDays(other: JalaliDate, lib: Library): int
      reads this`gregorian, gregorian, other`gregorian, other.gregorian
    {
      lib.diffInDays(gregorian.Value(), other.gregorian.Value())
    }

    /** `format`, `monthName` ('F') and `dayName` ('l'): Jalalian's
        formatting of the Carbon object. */
    function Format(pattern: string, lib: Library): string
      reads this, gregorian
    {
      lib.formatJalali(gregorian.Value(), pattern)
    }

    function MonthName(lib: Library): string
      reads this, gregorian
    {
      Format("F", lib)
    }

    function DayName(lib: Library): string
      reads this, gregorian
    {
      Format("l", lib)
    }

    /** `toArray`. */
    function ToArray(lib: Library): DateRecord
      reads this, gregorian
    {
      DateRecord(year, month, day, lib.formatGregorian(gregorian.Value(), "Y-m-d"))
    }

    // Calendar boundaries: new dates built from a triple.

    method StartOfMonth(lib: Library) returns (r: JalaliDate)
      ensures fresh(r) && fresh(r.gregorian)
      ensures r.ToJalali() == Triple(year, month, 1)
      ensures r.gregorian.Value() == ToCarbon(r.ToJalali(), lib)
    {
      r := new JalaliDate.FromJalali(year, month, 1, lib);
    }

    method EndOfMonth(lib: Library) returns (r: JalaliDate)
      ensures fresh(r) && fresh(r.gregorian)
      ensures r.ToJalali() == Triple(year, month, MonthLength(month, year))
      ensures r.gregorian.Value() == ToCarbon(r.ToJalali(), lib)
    {
      r := new JalaliDate.FromJalali(year, month, DaysInMonth(), lib);
    }

    method StartOfYear(lib: Library) returns (r: JalaliDate)
      ensures fresh(r) && fresh(r.gregorian)
      ensures r.ToJalali() == Triple(year, 1, 1)
      ensures r.gregorian.Value() == ToCarbon(r.ToJalali(), lib)
    {
      r := new JalaliDate.FromJalali(year, 1, 1, lib);
    }

    /** Always day 29 of month 12, so in a leap year it is not the last day. */
    method EndOfYear(lib: Library) returns (r: JalaliDate)
      ensures fresh(r) && fresh(r.gregorian)
      ensures r.ToJalali() == Triple(year, 12, 29)
      ensures r.ToJalali().day == MonthLength(12, year) <==> !LeapYear(year)
      ensures r.gregorian.Value() == ToCarbon(r.ToJalali(), lib)
    {
      r := new JalaliDate.FromJalali(year, 12, 29, lib);
    }

    // Arithmetic: the receiver's own Carbon object is moved, and the
    // result wraps that same object. The receiver keeps its old triple.

    method AddDays(n: int, lib: Library) returns (r: JalaliDate)
      modifies gregorian
      ensures gregorian.Value() == ShiftDays(old(gregorian.Value()), n)
      ensures fresh(r) && r.gregorian == gregorian
      ensures r.ToJalali() == lib.jalaliOf(gregorian.Value())
      ensures ToJalali() == old(ToJalali())
      ensures Eq(r) && r.Eq(this)
    {
      gregorian.AddDays(n);
      r := new JalaliDate.FromGregorian(gregorian, lib);
    }

    method SubDays(n: int, lib: Library) returns (r: JalaliDate)
      modifies gregorian
      ensures gregorian.Value() == ShiftDays(old(gregorian.Value()), -n)
      ensures fresh(r) && r.gregorian == gregorian
      ensures r.ToJalali() == lib.jalaliOf(gregorian.Value())
      ensures ToJalali() == old(ToJalali())
      ensures Eq(r) && r.Eq(this)
    {
      gregorian.SubDays(n);
      r := new JalaliDate.FromGregorian(gregorian, lib);
    }

    method AddMonths(n: int, lib: Library) returns (r: JalaliDate)
      modifies gregorian
      ensures gregorian.Value() == lib.addMonths(old(gregorian.Value()), n)
      ensures fresh(r) && r.gregorian == gregorian
      ensures r.ToJalali() == lib.jalaliOf(gregorian.Value())
      ensures ToJalali() == old(ToJalali())
      ensures Eq(r) && r.Eq(this)
    {
      gregorian.AddMonths(n, lib);
      r := new JalaliDate.FromGregorian(gregorian, lib);
    }

    method SubMonths(n: int, lib: Library) returns (r: JalaliDate)
      modifies gregorian
      ensures gregorian.Value() == lib.addMonths(old(gregorian.Value()), -n)
      ensures fresh(r) && r.gregorian == gregorian
      ensures r.ToJalali() == lib.jalaliOf(gregorian.Value())
      ensures ToJalali() == old(ToJalali())
      ensures Eq(r) && r.Eq(this)
    {
      gregorian.SubMonths(n, lib);
      r := new JalaliDate.FromGregorian(gregorian, lib);
    }

    method AddYears(n: int, lib: Library) returns (r: JalaliDate)
      modifies gregorian
      ensures gregorian.Value() == lib.addYears(old(gregorian.Value()), n)
      ensures fresh(r) && r.gregorian == gregorian
      ensures r.ToJalali() == lib.jalaliOf(gregorian.Value())
      ensures ToJalali() == old(ToJalali())
      ensures Eq(r) && r.Eq(this)
    {
      gregorian.AddYears(n, lib);
      r := new JalaliDate.FromGregorian(gregorian, lib);
    }

    method SubYears(n: int, lib: Library) returns (r: JalaliDate)
      modifies gregorian
      ensures gregorian.Value() == lib.addYears(old(gregorian.Value()), -n)
      ensures fresh(r) && r.gregorian == gregorian
      ensures r.ToJalali() == lib.jalaliOf(gregorian.Value())
      ensures ToJalali() == old(ToJalali())
      ensures Eq(r) && r.Eq(this)
    {
      gregorian.SubYears(n, lib);
      r := new JalaliDate.FromGregorian(gregorian, lib);
    }
  }

  /** The array `toArray` returns. */
  datatype DateRecord = DateRecord(year: int, month: int, day: int, gregorian: string)

  /** Exactly one of `lt`, `eq` and `gt` holds, and `lte`/`gte` are their unions. */
  lemma OrderingIsTotal(a: JalaliDate, b: JalaliDate)
    ensures (a.Lt(b) && !a.Eq(b) && !a.Gt(b)) || (!a.Lt(b) && a.Eq(b) && !a.Gt(b)) || (!a.Lt(b) && !a.Eq(b) && a.Gt(b))
    ensures a.Lte(b) <==> a.Lt(b) || a.Eq(b)
    ensures a.Gte(b) <==> a.Gt(b) || a.Eq(b)
    ensures a.Lt(b) <==> b.Gt(a)
  {
    Trichotomy(a.gregorian.Value(), b.gregorian.Value());
  }

  /** Two dates holding the same Carbon object compare equal whatever
      their triples, and compare alike against any third date. */
  lemma ComparisonsIgnoreTriples(a: JalaliDate, a2: JalaliDate, b: JalaliDate, lib: Library)
    requires a.gregorian == a2.gregorian
    ensures a.Eq(a2)
    ensures a.Lt(b) == a2.Lt(b) && a.Lte(b) == a2.Lte(b) && a.Gt(b) == a2.Gt(b) && a.Gte(b) == a2.Gte(b)
    ensures a.DiffInDays(b, lib) == a2.DiffInDays(b, lib)
  {
  }
}
