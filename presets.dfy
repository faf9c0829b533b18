/** The preset catalogue (src/JalaliDateRangePreset.php): a string-backed
    enum of 18 tags, each with a label, and for all tags but Custom a rule
    turning the clock into a [start, end] pair of dates. */
module Presets {
  import opened Wrappers
  import opened Foreign
  import opened Jalali

  datatype Preset = Today | Yesterday | ThisWeek | LastWeek | Last7Days | ThisMonth | LastMonth | ThisQuarter | LastQuarter | ThisYear | LastYear | Last14Days | Last30Days | Last3Months | Last6Months | YearToDate | AllTime | Custom

  /** Every case, in declaration order. */
  const AllPresets: seq<Preset> := [Today, Yesterday, ThisWeek, LastWeek, Last7Days, ThisMonth, LastMonth, ThisQuarter, LastQuarter, ThisYear, LastYear, Last14Days, Last30Days, Last3Months, Last6Months, YearToDate, AllTime, Custom]

  /** The backing string of each case (`->value`). */
  function Value(p: Preset): string {
    match p
      case Today => "today"
      case Yesterday => "yesterday"
      case ThisWeek => "thisWeek"
      case LastWeek => "lastWeek"
      case Last7Days => "last7Days"
      case ThisMonth => "thisMonth"
      case LastMonth => "lastMonth"
      case ThisQuarter => "thisQuarter"
      case LastQuarter => "lastQuarter"
      case ThisYear => "thisYear"
      case LastYear => "lastYear"
      case Last14Days => "last14Days"
      case Last30Days => "last30Days"
      case Last3Months => "last3Months"
      case Last6Months => "last6Months"
      case YearToDate => "yearToDate"
      case AllTime => "allTime"
      case Custom => "custom"
  }

  /** `JalaliDateRangePreset::from($s)`: the case whose backing string
      is exactly s, and a ValueError for anything else. */
  function From(s: string): (r: Result<Preset>)
    ensures r.Ok? ==> Value(r.value) == s
    ensures r.Err? ==> r.error == NoSuchPreset(s)
  {
    match Find(s, AllPresets)
      case Some(p) => Ok(p)
      case None => Err(NoSuchPreset(s))
  }

  /** The first of `ps` whose backing string is s. */
  function Find(s: string, ps: seq<Preset>): (r: Option<Preset>)
    ensures r.Some? ==> Value(r.value) == s && r.value in ps
    ensures r.None? ==> forall q :: q in ps ==> Value(q) != s
  {
    if ps == [] then None
    else if Value(ps[0]) == s then Some(ps[0])
    else Find(s, ps[1..])
  }

  /** The catalogue has exactly 18 cases, all different. */
  lemma CatalogueHasEighteenCases(p: Preset)
    ensures |AllPresets| == 18 && p in AllPresets
    ensures forall i, j :: 0 <= i < j < |AllPresets| ==> AllPresets[i] != AllPresets[j]
  {
  }

  /** `from` inverts `->value`. */
  lemma FromInvertsValue(p: Preset)
    ensures From(Value(p)) == Ok(p)
  {
    CatalogueHasEighteenCases(p);
    ValueIsInjective(p, Find(Value(p), AllPresets).value);
  }

  /** No two cases share a backing string. */
  lemma ValueIsInjective(p: Preset, q: Preset)
    ensures Value(p) == Value(q) ==> p == q
  {
  }

  /** `from` succeeds exactly on the 18 backing strings. */
  lemma FromAcceptsOnlyValues(s: string)
    ensures From(s).Ok? <==> exists q: Preset :: Value(q) == s
  {
    if From(s).Err? {
      forall q: Preset ensures Value(q) != s {
        FromInvertsValue(q);
      }
    }
  }

  /** `label()`: a display string for every one of the 18 cases. */
  function Label(p: Preset): (r: string)
    ensures r != ""
  {
    match p
      case Today => "امروز"
      case Yesterday => "دیروز"
      case ThisWeek => "این هفته"
      case LastWeek => "هفته گذشته"
      case Last7Days => "۷ روز گذشته"
      case ThisMonth => "این ماه"
      case LastMonth => "ماه گذشته"
      case ThisQuarter => "این فصل"
      case LastQuarter => "فصل گذشته"
      case ThisYear => "امسال"
      case LastYear => "سال گذشته"
      case Last14Days => "۱۴ روز گذشته"
      case Last30Days => "۳۰ روز گذشته"
      case Last3Months => "۳ ماه گذشته"
      case Last6Months => "۶ ماه گذشته"
      case YearToDate => "از ابتدای سال"
      case AllTime => "همه زمان\U{200C}ها"
      case Custom => "سفارشی"
  }

  lemma LabelsAreDistinct(p: Preset, q: Preset)
    ensures p != q ==> Label(p) != Label(q)
  {
  }

  /** The instants a preset's `dates()` builds its two dates from. The
      start is None for AllTime, whose start is the caller's date. */
  datatype Window = Window(start: Option<Instant>, end: Instant)

  /** `dates()` on instants. `startNow` is the clock read by each arm's
      start expression and `endNow` the clock read by its end expression
      (the source calls `Carbon::now()` once for each). Custom has no arm,
      so the `match` fails on it. subWeek is 7 days, subQuarter 3 months. */
  function PresetWindow(p: Preset, startNow: Instant, endNow: Instant, lib: Library): (r: Result<Window>)
    ensures r.Err? <==> p == Custom
    ensures r.Err? ==> r.error == UnhandledMatch
    ensures r.Ok? ==> (r.value.start.None? <==> p == AllTime)
  {
    var a, b := startNow, endNow;
    match p
      case Today => Ok(Window(Some(StartOfDay(a)), EndOfDay(b)))
      case Yesterday => Ok(Window(Some(StartOfDay(ShiftDays(a, -1))), EndOfDay(ShiftDays(b, -1))))
      case ThisWeek => Ok(Window(Some(lib.startOf(Week, a)), lib.endOf(Week, b)))
      case LastWeek => Ok(Window(Some(lib.startOf(Week, ShiftDays(a, -7))), lib.endOf(Week, ShiftDays(b, -7))))
      case Last7Days => Ok(Window(Some(StartOfDay(ShiftDays(ShiftDays(a, -7), 1))), EndOfDay(b)))
      case ThisMonth => Ok(Window(Some(lib.startOf(Month, a)), lib.endOf(Month, b)))
      case LastMonth => Ok(Window(Some(lib.addMonths(lib.startOf(Month, a), -1)),
                                  lib.endOf(Month, lib.addMonths(lib.startOf(Month, b), -1))))
      case ThisQuarter => Ok(Window(Some(lib.startOf(Quarter, a)), lib.endOf(Quarter, b)))
      case LastQuarter => Ok(Window(Some(lib.startOf(Quarter, lib.addMonths(a, -3))), lib.endOf(Quarter, lib.addMonths(b, -3))))
      case ThisYear => Ok(Window(Some(lib.startOf(Year, a)), lib.endOf(Year, b)))
      case LastYear => Ok(Window(Some(lib.startOf(Year, lib.addYears(a, -1))), lib.endOf(Year, lib.addYears(b, -1))))
      case Last14Days => Ok(Window(Some(StartOfDay(ShiftDays(ShiftDays(a, -14), 1))), EndOfDay(b)))
      case Last30Days => Ok(Window(Some(StartOfDay(ShiftDays(ShiftDays(a, -30), 1))), EndOfDay(b)))
      case Last3Months => Ok(Window(Some(StartOfDay(ShiftDays(lib.addMonths(a, -3), 1))), EndOfDay(b)))
      case Last6Months => Ok(Window(Some(StartOfDay(ShiftDays(lib.addMonths(a, -6), 1))), EndOfDay(b)))
      case YearToDate => Ok(Window(Some(lib.startOf(Year, a)), EndOfDay(b)))
      case AllTime => Ok(Window(None, EndOfDay(b)))
      case Custom => Err(UnhandledMatch)
  }

  /** The length of the rolling day windows. */
  function RollingDays(p: Preset): nat {
    match p
      case Last7Days => 7
      case Last14Days => 14
      case Last30Days => 30
      case _ => 0
  }

  /** Today runs from 00:00 of the first clock reading to the end of the
      second reading's day; Yesterday is the same one day earlier. */
  lemma TodayAndYesterday(a: Instant, b: Instant, lib: Library)
    ensures PresetWindow(Today, a, b, lib) == Ok(Window(Some(Instant(a.day, 0)), Instant(b.day, SecondsPerDay - 1)))
    ensures PresetWindow(Yesterday, a, b, lib) == Ok(Window(Some(Instant(a.day - 1, 0)), Instant(b.day - 1, SecondsPerDay - 1)))
  {
  }

  /** The last-N-days windows start at 00:00 N - 1 days before the first
      reading and end at the end of the second reading's day: N calendar
      days when both readings fall on the same day. */
  lemma RollingWindowCoversDays(p: Preset, a: Instant, b: Instant, lib: Library)
    requires p == Last7Days || p == Last14Days || p == Last30Days
    requires a.day <= b.day
    ensures PresetWindow(p, a, b, lib).Ok?
    ensures PresetWindow(p, a, b, lib).value.start == Some(Instant(a.day - RollingDays(p) + 1, 0))
    ensures PresetWindow(p, a, b, lib).value.end == EndOfDay(b)
    ensures PeriodCount(PresetWindow(p, a, b, lib).value.start.value, PresetWindow(p, a, b, lib).value.end)
            == RollingDays(p) + (b.day - a.day)
  {
  }

  /** The month windows start at 00:00 of the day after the clock moved
      back N months, and end at the end of today. */
  lemma MonthWindows(a: Instant, b: Instant, lib: Library)
    ensures PresetWindow(Last3Months, a, b, lib) ==
            Ok(Window(Some(Instant(lib.addMonths(a, -3).day + 1, 0)), EndOfDay(b)))
    ensures PresetWindow(Last6Months, a, b, lib) ==
            Ok(Window(Some(Instant(lib.addMonths(a, -6).day + 1, 0)), EndOfDay(b)))
    ensures PresetWindow(YearToDate, a, b, lib) == Ok(Window(Some(lib.startOf(Year, a)), EndOfDay(b)))
  {
  }

  /** Today covers exactly one day iff both clock readings fall on the same
      day; a reading on each side of midnight makes it two. */
  lemma TodayDependsOnBothReadings(a: Instant, b: Instant, lib: Library)
    requires a.day <= b.day
    ensures PeriodCount(PresetWindow(Today, a, b, lib).value.start.value, PresetWindow(Today, a, b, lib).value.end)
            == b.day - a.day + 1
  {
  }

  /** `dates($start)`: fresh dates built from the window's instants, and for
      AllTime the caller's start date itself, null included. */
  method Dates(p: Preset, start: JalaliDate?, startNow: Instant, endNow: Instant, lib: Library)
    returns (r: Result<(JalaliDate?, JalaliDate)>)
    ensures r.Err? <==> p == Custom
    ensures r.Err? ==> r.error == UnhandledMatch
    ensures r.Ok? && p == AllTime ==> r.value.0 == start
    ensures r.Ok? && p != AllTime ==>
      var w := PresetWindow(p, startNow, endNow, lib).value;
      var s := r.value.0;
      s != null && fresh(s) && fresh(s.gregorian) &&
      s.gregorian.Value() == w.start.value && s.ToJalali() == lib.jalaliOf(w.start.value)
    ensures r.Ok? ==>
      var w := PresetWindow(p, startNow, endNow, lib).value;
      var e := r.value.1;
      fresh(e) && fresh(e.gregorian) && e.gregorian.Value() == w.end && e.ToJalali() == lib.jalaliOf(w.end)
  {
    var w := PresetWindow(p, startNow, endNow, lib);
    if w.Err? {
      return Err(w.error);
    }
    var s: JalaliDate? := start;
    if w.value.start.Some? {
      var sc := new Carbon(w.value.start.value);
      s := new JalaliDate.FromGregorian(sc, lib);
    }
    var ec := new Carbon(w.value.end);
    var e := new JalaliDate.FromGregorian(ec, lib);
    r := Ok((s, e));
  }
}
