/** The global helpers (src/helpers.php): conversions that dispatch on the
    PHP shape of their argument, the name tables and the standalone leap-year
    and month-length functions. The clock is the `now` parameter. */
module Helpers {
  import opened Wrappers
  import opened Foreign
  import opened Jalali

  /** An argument of the helpers, by its PHP shape. */
  datatype Value = NullValue | CarbonValue(c: Carbon) | DateValue(d: JalaliDate) | TextValue(s: string) | OtherValue

  /** `jalali_date($date)`: the given date itself, a Carbon wrapped as it
      is, a parsed string, and the current moment for null or any other shape. */
  method JalaliDateOf(date: Value, now: Instant, lib: Library) returns (r: Result<JalaliDate>)
    ensures date.DateValue? ==> r == Ok(date.d)
    ensures date.CarbonValue? ==> r.Ok? && fresh(r.value) && r.value.gregorian == date.c
    ensures date.CarbonValue? ==> r.Ok? && r.value.ToJalali() == lib.jalaliOf(date.c.Value())
    ensures date.TextValue? ==> (r.Ok? <==> ParseDate(date.s).Ok?)
    ensures date.TextValue? && r.Ok? ==> fresh(r.value) && fresh(r.value.gregorian) && r.value.ToJalali() == ParseDate(date.s).value
    ensures date.TextValue? && r.Ok? ==> r.value.gregorian.Value() == ToCarbon(ParseDate(date.s).value, lib)
    ensures date.NullValue? || date.OtherValue? ==>
      r.Ok? && fresh(r.value) && fresh(r.value.gregorian) && r.value.gregorian.Value() == now
    ensures date.NullValue? || date.OtherValue? ==> r.Ok? && r.value.ToJalali() == lib.jalaliOf(now)
  {
    if date.NullValue? {
      var d := JalaliNow(now, lib);
      return Ok(d);
    }
    r := ToJalali(date, now, lib);
  }

  /** `jalali_now()`. */
  method JalaliNow(now: Instant, lib: Library) returns (r: JalaliDate)
    ensures fresh(r) && fresh(r.gregorian)
    ensures r.gregorian.Value() == now && r.ToJalali() == lib.jalaliOf(now)
  {
    var c := new Carbon(now);
    r := new JalaliDate.FromGregorian(c, lib);
  }

  /** `to_jalali($date)`: as `jalali_date`, with null among the other shapes. */
  method ToJalali(date: Value, now: Instant, lib: Library) returns (r: Result<JalaliDate>)
    ensures date.DateValue? ==> r == Ok(date.d)
    ensures date.CarbonValue? ==> r.Ok? && fresh(r.value) && r.value.gregorian == date.c
    ensures date.CarbonValue? ==> r.Ok? && r.value.ToJalali() == lib.jalaliOf(date.c.Value())
    ensures date.TextValue? ==> (r.Ok? <==> ParseDate(date.s).Ok?)
    ensures date.TextValue? && r.Ok? ==> fresh(r.value) && fresh(r.value.gregorian) && r.value.ToJalali() == ParseDate(date.s).value
    ensures date.TextValue? && r.Ok? ==> r.value.gregorian.Value() == ToCarbon(ParseDate(date.s).value, lib)
    ensures date.NullValue? || date.OtherValue? ==>
      r.Ok? && fresh(r.value) && fresh(r.value.gregorian) && r.value.gregorian.Value() == now
    ensures date.NullValue? || date.OtherValue? ==> r.Ok? && r.value.ToJalali() == lib.jalaliOf(now)
  {
    if date.CarbonValue? {
      var d := new JalaliDate.FromGregorian(date.c, lib);
      r := Ok(d);
    } else if date.DateValue? {
      r := Ok(date.d);
    } else if date.TextValue? {
      r := JalaliDate.FromString(date.s, lib);
    } else {
      var d := JalaliNow(now, lib);
      r := Ok(d);
    }
  }

  /** `to_gregorian($date)`: a Carbon as it is, a date's own Carbon object,
      a parsed string's fresh Carbon, and a fresh Carbon for now otherwise. */
  method ToGregorian(date: Value, now: Instant, lib: Library) returns (r: Result<Carbon>)
    ensures date.CarbonValue? ==> r == Ok(date.c)
    ensures date.DateValue? ==> r == Ok(date.d.gregorian)
    ensures date.TextValue? ==> (r.Ok? <==> ParseDate(date.s).Ok?)
    ensures date.TextValue? && r.Ok? ==> fresh(r.value) && r.value.Value() == ToCarbon(ParseDate(date.s).value, lib)
    ensures date.NullValue? || date.OtherValue? ==> r.Ok? && fresh(r.value) && r.value.Value() == now
  {
    if date.CarbonValue? {
      r := Ok(date.c);
    } else if date.DateValue? {
      r := Ok(date.d.gregorian);
    } else if date.TextValue? {
      var d := JalaliDate.FromString(date.s, lib);
      if d.Err? {
        return Err(d.error);
      }
      r := Ok(d.value.gregorian);
    } else {
      var c := new Carbon(now);
      r := Ok(c);
    }
  }

  /** `jalali_format($date, $format)`. */
  method JalaliFormat(date: Value, pattern: string, now: Instant, lib: Library) returns (r: Result<string>)
    ensures date.DateValue? ==> r == Ok(lib.formatJalali(date.d.gregorian.Value(), pattern))
    ensures date.CarbonValue? ==> r == Ok(lib.formatJalali(date.c.Value(), pattern))
    ensures date.TextValue? ==> (r.Ok? <==> ParseDate(date.s).Ok?)
    ensures date.TextValue? && r.Ok? ==> r.value == lib.formatJalali(ToCarbon(ParseDate(date.s).value, lib), pattern)
    ensures date.NullValue? || date.OtherValue? ==> r == Ok(lib.formatJalali(now, pattern))
  {
    var d := ToJalali(date, now, lib);
    if d.Err? {
      return Err(d.error);
    }
    r := Ok(d.value.Format(pattern, lib));
  }

  /** `jalali_month_name($month)`: keys 1..12, and '' for any other key. */
  function JalaliMonthName(month: int): (r: string)
    ensures r != "" <==> 1 <= month <= 12
  {
    if month < 1 || month > 12 then ""
    else if month == 1 then "فروردین"
    else if month == 2 then "اردیبهشت"
    else if month == 3 then "خرداد"
    else if month == 4 then "تیر"
    else if month == 5 then "مرداد"
    else if month == 6 then "شهریور"
    else if month == 7 then "مهر"
    else if month == 8 then "آبان"
    else if month == 9 then "آذر"
    else if month == 10 then "دی"
    else if month == 11 then "بهمن"
    else if month == 12 then "اسفند"
    else ""
  }

  /** `jalali_day_name($dayOfWeek)`: keys 0..6 from Saturday, '' otherwise. */
  function JalaliDayName(dayOfWeek: int): (r: string)
    ensures r != "" <==> 0 <= dayOfWeek <= 6
  {
    if dayOfWeek < 0 || dayOfWeek > 6 then ""
    else if dayOfWeek == 0 then "شنبه"
    else if dayOfWeek == 1 then "یکشنبه"
    else if dayOfWeek == 2 then "دوشنبه"
    else if dayOfWeek == 3 then "سه\U{200C}شنبه"
    else if dayOfWeek == 4 then "چهارشنبه"
    else if dayOfWeek == 5 then "پنجشنبه"
    else if dayOfWeek == 6 then "جمعه"
    else ""
  }

  /** The twelve month names are pairwise different, and so are the seven day names. */
  lemma NamesAreDistinct(i: int, j: int)
    ensures 1 <= i <= 12 && 1 <= j <= 12 && i != j ==> JalaliMonthName(i) != JalaliMonthName(j)
    ensures 0 <= i <= 6 && 0 <= j <= 6 && i != j ==> JalaliDayName(i) != JalaliDayName(j)
  {
  }

  /** `jalali_day_name` counts from Saturday while `dayOfWeek()` is ISO
      (Monday = 1): handing one to the other never names the right day. */
  lemma IsoWeekdayMisnamesDay(iso: int)
    requires 1 <= iso <= 7
    ensures JalaliDayName(iso) != JalaliDayName(PersianWeekdayIndex(iso))
  {
    NamesAreDistinct(iso, PersianWeekdayIndex(iso));
  }

  /** `is_jalali_leap_year($year)`: the same formula as `JalaliDate::isLeapYear`. */
  predicate IsJalaliLeapYear(year: int)
    ensures IsJalaliLeapYear(year) <==> LeapYear(year)
  {
    LeapFormulaIsEveryEighthYear(year);
    LeapFormula(year)
  }

  /** `jalali_days_in_month($month, $year)`: the same table as
      `JalaliDate::daysInMonth`; a null year means the current Jalali year,
      and is looked up only for months from 12 on. */
  function JalaliDaysInMonth(month: int, year: Option<int>, now: Instant, lib: Library): (r: int)
    ensures year.Some? ==> r == MonthLength(month, year.value)
    ensures year.None? ==> r == MonthLength(month, lib.jalaliOf(now).year)
    ensures month <= 11 ==> r == MonthLength(month, 0)
  {
    if month <= 6 then 31
    else if month <= 11 then 30
    else
      var y := if year.None? then lib.jalaliOf(now).year else year.value;
      if IsJalaliLeapYear(y) then 30 else 29
  }
}
