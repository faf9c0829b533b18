/** The two libraries the repository calls into but does not contain:
    Carbon (Gregorian instants, mutable objects) and Morilog's Jalalian
    (Jalali <-> Gregorian conversion and Jalali formatting).

    A Carbon instant is modelled as a whole day number counted from
    1970-01-01 (a Thursday) plus the seconds since midnight. The calendar
    operations whose results depend on Gregorian month and year lengths,
    the Jalali conversion and all formatting are fields of a `Library`
    value that every operation needing them takes as a parameter. */
module Foreign {

  const SecondsPerDay: int := 86400

  /** The value held by a Carbon object at one moment. */
  datatype Instant = Instant(day: int, secs: int)

  /** A Jalali (year, month, day) triple as Jalalian reports it. */
  datatype Triple = Triple(year: int, month: int, day: int)

  // The period units Carbon's startOf and endOf operations take.
  datatype Unit = Week | Month | Quarter | Year

  /** The foreign functions, each a total function of its arguments. */
  datatype Library = Library(
    jalaliOf: Instant -> Triple,           // Jalalian::fromCarbon($c) -> getYear/getMonth/getDay
    parseJalali: string -> Instant,        // Jalalian::fromFormat('Y/m/d', $s)->toCarbon()
    formatJalali: (Instant, string) -> string,    // Jalalian::fromCarbon($c)->format($f)
    formatGregorian: (Instant, string) -> string, // $carbon->format($f)
    startOf: (Unit, Instant) -> Instant,   // startOfWeek / Month / Quarter / Year
    endOf: (Unit, Instant) -> Instant,     // endOfWeek / Month / Quarter / Year
    addMonths: (Instant, int) -> Instant,  // addMonths($n); subMonths($n) is addMonths(-$n)
    addYears: (Instant, int) -> Instant,   // addYears($n); subYears($n) is addYears(-$n)
    diffInDays: (Instant, Instant) -> int  // $a->diffInDays($b)
  )

  /** A time of day inside the day: what every Carbon value satisfies. */
  predicate ValidInstant(a: Instant) {
    0 <= a.secs < SecondsPerDay
  }

  /** Seconds since 1970-01-01 00:00: the timestamp Carbon compares. */
  function Ticks(a: Instant): int {
    a.day * SecondsPerDay + a.secs
  }

  /** Carbon's `lt`: an earlier day, or the same day at an earlier time. */
  predicate Before(a: Instant, b: Instant) {
    a.day < b.day || (a.day == b.day && a.secs < b.secs)
  }

  /** Carbon's `lte`. */
  predicate NotAfter(a: Instant, b: Instant) {
    Before(a, b) || a == b
  }

  /** On valid instants the day-then-seconds order is the timestamp order. */
  lemma BeforeIsTimestampOrder(a: Instant, b: Instant)
    ensures ValidInstant(a) && ValidInstant(b) ==> (Before(a, b) <==> Ticks(a) < Ticks(b))
    ensures ValidInstant(a) && ValidInstant(b) ==> (a == b <==> Ticks(a) == Ticks(b))
  {
    if ValidInstant(a) && ValidInstant(b) {
      if a.day < b.day {
        assert Ticks(a) < (a.day + 1) * SecondsPerDay <= b.day * SecondsPerDay <= Ticks(b);
      } else if a.day > b.day {
        assert Ticks(b) < (b.day + 1) * SecondsPerDay <= a.day * SecondsPerDay <= Ticks(a);
      }
    }
  }

  /** Exactly one of `lt`, `eq` and `gt` holds between two instants. */
  lemma Trichotomy(a: Instant, b: Instant)
    ensures Before(a, b) || a == b || Before(b, a)
    ensures !(Before(a, b) && Before(b, a))
    ensures a == b ==> !Before(a, b)
  {
  }

  /** The same time of day, n days later (earlier when n < 0). */
  function ShiftDays(a: Instant, n: int): (r: Instant)
    ensures Ticks(r) == Ticks(a) + n * SecondsPerDay
    ensures ValidInstant(a) ==> ValidInstant(r)
  {
    Instant(a.day + n, a.secs)
  }

  /** Carbon's startOfDay: 00:00:00. */
  function StartOfDay(a: Instant): (r: Instant)
    ensures ValidInstant(r) && r.day == a.day
    ensures ValidInstant(a) ==> NotAfter(r, a)
  {
    Instant(a.day, 0)
  }

  /** Carbon's endOfDay: 23:59:59 (its microseconds are not modelled). */
  function EndOfDay(a: Instant): (r: Instant)
    ensures ValidInstant(r) && r.day == a.day
    ensures ValidInstant(a) ==> NotAfter(a, r)
  {
    Instant(a.day, SecondsPerDay - 1)
  }

  /** Carbon's dayOfWeekIso: Monday = 1 .. Sunday = 7. Day 0 is a Thursday. */
  function IsoWeekday(day: int): (w: int)
    ensures 1 <= w <= 7
    ensures w == 4 <==> day % 7 == 0
  {
    (day + 3) % 7 + 1
  }

  /** Shifting by whole days moves the ISO weekday by the same amount, mod 7. */
  lemma {:induction false} IsoWeekdayShift(day: int, n: int)
    ensures (IsoWeekday(day + n) - IsoWeekday(day) - n) % 7 == 0
  {
    var q := (day + 3) / 7;
    var p := (day + n + 3) / 7;
    assert IsoWeekday(day) == day + 3 - 7 * q + 1;
    assert IsoWeekday(day + n) == day + n + 3 - 7 * p + 1;
    assert IsoWeekday(day + n) - IsoWeekday(day) - n == 7 * (q - p);
  }

  /** Carbon's isToday: same calendar day as the clock. */
  predicate SameDay(a: Instant, now: Instant) {
    a.day == now.day
  }

  /** Whole days between two instants, Carbon 2's default (absolute,
      truncated) `diffInDays`: one possible value of `Library.diffInDays`. */
  function WholeDaysBetween(a: Instant, b: Instant): (r: nat)
    ensures ValidInstant(a) && ValidInstant(b) && NotAfter(a, b) ==>
      r == b.day - a.day - (if b.secs < a.secs then 1 else 0)
  {
    var d := Ticks(b) - Ticks(a);
    var n := if d < 0 then -d else d;
    n / SecondsPerDay
  }

  /** The number of dates a day-by-day period from `s` to `e` (both
      included, as CarbonPeriod iterates) visits: every s + k days with
      k >= 0 that is not after e. */
  function PeriodCount(s: Instant, e: Instant): (n: nat)
    ensures forall k: nat :: k < n ==> NotAfter(ShiftDays(s, k), e)
    ensures !NotAfter(ShiftDays(s, n), e)
  {
    if Before(e, s) then 0
    else e.day - s.day + (if s.secs <= e.secs then 1 else 0)
  }

  /** A mutable Carbon object (Illuminate\Support\Carbon is the mutable
      flavour): arithmetic changes the receiver and returns it. */
  class Carbon {
    var day: int
    var secs: int

    constructor (v: Instant)
      ensures Value() == v
    {
      day, secs := v.day, v.secs;
    }

    function Value(): Instant
      reads this
    {
      Instant(day, secs)
    }

    method AddDays(n: int)
      modifies this
      ensures Value() == ShiftDays(old(Value()), n)
    {
      day := day + n;
    }

    method SubDays(n: int)
      modifies this
      ensures Value() == ShiftDays(old(Value()), -n)
    {
      day := day - n;
    }

    method AddMonths(n: int, lib: Library)
      modifies this
      ensures Value() == lib.addMonths(old(Value()), n)
    {
      var v := lib.addMonths(Value(), n);
      day, secs := v.day, v.secs;
    }

    method SubMonths(n: int, lib: Library)
      modifies this
      ensures Value() == lib.addMonths(old(Value()), -n)
    {
      var v := lib.addMonths(Value(), -n);
      day, secs := v.day, v.secs;
    }

    method AddYears(n: int, lib: Library)
      modifies this
      ensures Value() == lib.addYears(old(Value()), n)
    {
      var v := lib.addYears(Value(), n);
      day, secs := v.day, v.secs;
    }

    method SubYears(n: int, lib: Library)
      modifies this
      ensures Value() == lib.addYears(old(Value()), -n)
    {
      var v := lib.addYears(Value(), -n);
      day, secs := v.day, v.secs;
    }
  }
}
