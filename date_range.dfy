/** The date range value object (src/JalaliDateRange.php): two optional
    Jalali dates, a preset slot and the day-by-day period built from the
    bounds when they are set. */
module Ranges {
  import opened Wrappers
  import opened Foreign
  import opened Jalali
  import opened Presets
  import Helpers

  /** The typed `preset` property. The constructor never assigns it, so a
      range built by `new` holds no value there, and reading it fails;
      `fromPreset` and `allTime` assign it. */
  datatype PresetSlot = Uninitialized | Assigned(preset: Option<Preset>)

  /** `toArray()`: the Jalali and Gregorian date strings and the preset tag. */
  datatype RangeRecord = RangeRecord(
    start: Option<string>, end: Option<string>,
    gregorianStart: Option<string>, gregorianEnd: Option<string>,
    preset: Option<string>)

  /** The objects a bound's comparisons and conversions read. */
  function DateFrame(d: JalaliDate?): set<object>
    reads d
  {
    if d == null then {} else var x: JalaliDate := d; {x, x.gregorian}
  }

  /** The Carbon value of an optional bound (`$bound?->toGregorian()`). */
  function BoundInstant(d: JalaliDate?): (r: Option<Instant>)
    reads DateFrame(d)
    ensures r.Some? <==> d != null
  {
    if d == null then None else Some(d.gregorian.Value())
  }

  /** What `setDates` makes of one argument: the date itself, a Carbon
      wrapped as it is, a parsed string, and null for anything else. */
  predicate Resolves(v: Helpers.Value, d: JalaliDate?, lib: Library)
    reads d, if v.CarbonValue? then {v.c} else {}
  {
    match v
      case DateValue(x) => d == x
      case CarbonValue(c) => d != null && d.gregorian == c && d.ToJalali() == lib.jalaliOf(c.Value())
      case TextValue(s) => d != null && ParseDate(s).Ok? && d.ToJalali() == ParseDate(s).value
      case NullValue => d == null
      case OtherValue => d == null
  }

  /** A string argument that does not parse makes construction fail. */
  predicate Unparsable(v: Helpers.Value) {
    v.TextValue? && ParseDate(v.s).Err?
  }

  /** One branch chain of `setDates`. */
  method ResolveBound(v: Helpers.Value, lib: Library) returns (r: Result<JalaliDate?>)
    ensures r.Err? <==> Unparsable(v)
    ensures r.Err? ==> r.error == TooFewFields
    ensures r.Ok? ==> Resolves(v, r.value, lib)
    ensures r.Ok? && (v.CarbonValue? || v.TextValue?) ==> fresh(r.value)
    ensures r.Ok? && v.TextValue? ==> fresh(r.value.gregorian)
  {
    if v.DateValue? {
      r := Ok(v.d);
    } else if v.CarbonValue? {
      var d := new JalaliDate.FromGregorian(v.c, lib);
      r := Ok(d);
    } else if v.TextValue? {
      var d := JalaliDate.FromString(v.s, lib);
      if d.Err? {
        return Err(d.error);
      }
      r := Ok(d.value);
    } else {
      r := Ok(null);
    }
  }

  class JalaliDateRange {
    var start: JalaliDate?
    var end: JalaliDate?
    var preset: PresetSlot
    /** The CarbonPeriod's bounds, copied from the dates when they were set. */
    var periodStart: Option<Instant>
    var periodEnd: Option<Instant>

    /** Everything the range's queries read. */
    function Frame(): set<object>
      reads this, start, end
    {
      {this} + DateFrame(start) + DateFrame(end)
    }

    /** The period still describes the bounds' current Carbon values. */
    predicate PeriodMatchesDates()
      reads Frame()
    {
      periodStart == BoundInstant(start) && periodEnd == BoundInstant(end)
    }

    /** The assignments of `setDates` once both arguments are resolved. */
    constructor Init(s: JalaliDate?, e: JalaliDate?)
      ensures start == s && end == e && preset == Uninitialized
      ensures PeriodMatchesDates()
    {
      start, end := s, e;
      preset := Uninitialized;
      periodStart, periodEnd := BoundInstant(s), BoundInstant(e);
    }

    /** `new JalaliDateRange($start, $end)`. */
    static method New(s: Helpers.Value, e: Helpers.Value, lib: Library) returns (r: Result<JalaliDateRange>)
      ensures r.Err? <==> Unparsable(s) || Unparsable(e)
      ensures r.Ok? ==> fresh(r.value) && r.value.preset == Uninitialized && r.value.PeriodMatchesDates()
      ensures r.Ok? ==> Resolves(s, r.value.start, lib) && Resolves(e, r.value.end, lib)
    {
      var sd := ResolveBound(s, lib);
      if sd.Err? {
        return Err(sd.error);
      }
      var ed := ResolveBound(e, lib);
      if ed.Err? {
        return Err(ed.error);
      }
      var range := new JalaliDateRange.Init(sd.value, ed.value);
      r := Ok(range);
    }

    /** `fromPreset($preset)`, and through it today() ... yearToDate():
        AllTime is refused, Custom has no `dates()` arm. The two instants
        are the clock readings of `dates()`. */
    static method FromPreset(p: Preset, startNow: Instant, endNow: Instant, lib: Library)
      returns (r: Result<JalaliDateRange>)
      ensures r.Err? <==> p == AllTime || p == Custom
      ensures p == AllTime ==> r == Err(AllTimeNeedsStart)
      ensures p == Custom ==> r == Err(UnhandledMatch)
      ensures r.Ok? ==>
        var w := PresetWindow(p, startNow, endNow, lib).value;
        fresh(r.value) && r.value.preset == Assigned(Some(p)) && r.value.PeriodMatchesDates() &&
        r.value.start != null && r.value.end != null &&
        r.value.start.gregorian.Value() == w.start.value && r.value.end.gregorian.Value() == w.end &&
        r.value.start.ToJalali() == lib.jalaliOf(w.start.value) && r.value.end.ToJalali() == lib.jalaliOf(w.end)
    {
      if p == AllTime {
        return Err(AllTimeNeedsStart);
      }
      var dates := Dates(p, null, startNow, endNow, lib);
      if dates.Err? {
        return Err(dates.error);
      }
      var range := new JalaliDateRange.Init(dates.value.0, dates.value.1);
      range.preset := Assigned(Some(p));
      r := Ok(range);
    }

    /** `allTime($start)`: the given start, and the clock itself (not the
        end of its day) as the end. */
    static method AllTimeFrom(s: Helpers.Value, now: Instant, lib: Library) returns (r: Result<JalaliDateRange>)
      ensures r.Err? <==> Unparsable(s)
      ensures r.Ok? ==> fresh(r.value) && r.value.preset == Assigned(Some(AllTime)) && r.value.PeriodMatchesDates()
      ensures r.Ok? ==> Resolves(s, r.value.start, lib)
      ensures r.Ok? ==> r.value.end != null && r.value.end.gregorian.Value() == now &&
                        r.value.end.ToJalali() == lib.jalaliOf(now)
    {
      var c := new Carbon(now);
      var range := New(s, Helpers.CarbonValue(c), lib);
      if range.Err? {
        return Err(range.error);
      }
      range.value.preset := Assigned(Some(AllTime));
      r := range;
    }

    /** `preset()`: fails on a range whose slot was never assigned. */
    function PresetValue(): (r: Result<Option<Preset>>)
      reads this
      ensures r.Err? <==> preset.Uninitialized?
      ensures r.Err? ==> r.error == UninitializedPreset
    {
      match preset
        case Uninitialized => Err(UninitializedPreset)
        case Assigned(p) => Ok(p)
    }

    /** `hasPreset()`. */
    function HasPreset(): (r: Result<bool>)
      reads this
      ensures r.Ok? <==> PresetValue().Ok?
      ensures r.Ok? ==> (r.value <==> PresetValue().value.Some?)
    {
      var p :- PresetValue();
      Ok(p.Some?)
    }

    /** `isNotAllTime()`: true also when no preset is set. */
    function IsNotAllTime(): (r: Result<bool>)
      reads this
      ensures r.Ok? <==> PresetValue().Ok?
      ensures r.Ok? ==> (r.value <==> PresetValue().value != Some(AllTime))
      ensures r.Ok? && !HasPreset().value ==> r.value
    {
      var p :- PresetValue();
      Ok(p != Some(AllTime))
    }

    /** `toArray()`: null fields for missing bounds; the preset key reads
        the slot, so a range built by `new` cannot be serialised. */
    function ToArray(lib: Library): (r: Result<RangeRecord>)
      reads Frame()
      ensures r.Err? <==> preset.Uninitialized?
      ensures r.Ok? ==> (r.value.start.Some? <==> start != null) && (r.value.end.Some? <==> end != null)
      ensures r.Ok? && start != null ==> ParseDate(r.value.start.value) == Ok(start.ToJalali())
      ensures r.Ok? && end != null ==> ParseDate(r.value.end.value) == Ok(end.ToJalali())
      ensures r.Ok? ==> (r.value.gregorianStart, r.value.gregorianEnd) == ToGregorianArray(lib)
      ensures r.Ok? ==> (r.value.preset.Some? <==> preset.preset.Some?)
      ensures r.Ok? && preset.preset.Some? ==> From(r.value.preset.value) == Ok(preset.preset.value)
    {
      var p :- PresetValue();
      var g := ToGregorianArray(lib);
      var tag := if p.None? then None else Some(Value(p.value));
      assert p.Some? ==> From(tag.value) == Ok(p.value) by {
        if p.Some? {
          FromInvertsValue(p.value);
        }
      }
      Ok(RangeRecord(
        if start == null then None else Some(start.ToDateString()),
        if end == null then None else Some(end.ToDateString()),
        g.0, g.1, tag))
    }

    /** `toGregorianArray()`: the bounds' Carbon values as 'Y-m-d'. */
    function ToGregorianArray(lib: Library): (r: (Option<string>, Option<string>))
      reads Frame()
      ensures (r.0.Some? <==> start != null) && (r.1.Some? <==> end != null)
    {
      (if start == null then None else Some(lib.formatGregorian(start.gregorian.Value(), "Y-m-d")),
       if end == null then None else Some(lib.formatGregorian(end.gregorian.Value(), "Y-m-d")))
    }

    /** `contains($date)`: false unless both bounds are set, and then
        start <= date <= end, both ends included. */
    predicate Contains(d: JalaliDate)
      reads Frame(), d, d.gregorian
      ensures Contains(d) ==> start != null && end != null
      ensures start != null && end != null && ValidInstant(start.gregorian.Value()) &&
              ValidInstant(end.gregorian.Value()) && ValidInstant(d.gregorian.Value()) ==>
        (Contains(d) <==> Ticks(start.gregorian.Value()) <= Ticks(d.gregorian.Value()) <= Ticks(end.gregorian.Value()))
    {
      start != null && end != null && d.Gte(start) && d.Lte(end)
    }

    /** `length()` (also `days()`): the library's day difference plus one,
        and 0 without both bounds. */
    function Length(lib: Library): (r: int)
      reads Frame()
      ensures start == null || end == null ==> r == 0
      ensures start != null && end != null ==> r == lib.diffInDays(start.gregorian.Value(), end.gregorian.Value()) + 1
    {
      if start != null && end != null then start.DiffInDays(end, lib) + 1 else 0
    }

    /** `each($callback)` and `getIterator()`: one fresh date per day of
        the period, start, start + 1 day, ... while not after the end. */
    method Each(lib: Library) returns (ds: seq<JalaliDate>)
      ensures periodStart.None? || periodEnd.None? ==> ds == []
      ensures periodStart.Some? && periodEnd.Some? ==> |ds| == PeriodCount(periodStart.value, periodEnd.value)
      ensures forall k :: 0 <= k < |ds| ==>
        fresh(ds[k]) && fresh(ds[k].gregorian) &&
        ds[k].gregorian.Value() == ShiftDays(periodStart.value, k) &&
        ds[k].ToJalali() == lib.jalaliOf(ds[k].gregorian.Value())
      ensures forall j, k :: 0 <= j < k < |ds| ==> ds[j].gregorian != ds[k].gregorian
    {
      ds := [];
      if periodStart.None? || periodEnd.None? {
        return;
      }
      var s, e := periodStart.value, periodEnd.value;
      var cur := s;
      while NotAfter(cur, e)
        invariant cur == ShiftDays(s, |ds|)
        invariant forall k :: 0 <= k < |ds| ==> NotAfter(ShiftDays(s, k), e)
        invariant forall k :: 0 <= k < |ds| ==>
          fresh(ds[k]) && fresh(ds[k].gregorian) &&
          ds[k].gregorian.Value() == ShiftDays(s, k) &&
          ds[k].ToJalali() == lib.jalaliOf(ds[k].gregorian.Value())
        invariant forall j, k :: 0 <= j < k < |ds| ==> ds[j].gregorian != ds[k].gregorian
        decreases e.day - cur.day + 1
      {
        var c := new Carbon(cur);
        var d := new JalaliDate.FromGregorian(c, lib);
        ds := ds + [d];
        cur := ShiftDays(cur, 1);
      }
      PeriodCountIsFirstMiss(s, e, |ds|);
    }
  }

  /** The period's length is the first k whose date falls after the end. */
  lemma PeriodCountIsFirstMiss(s: Instant, e: Instant, m: nat)
    requires forall k :: 0 <= k < m ==> NotAfter(ShiftDays(s, k), e)
    requires !NotAfter(ShiftDays(s, m), e)
    ensures m == PeriodCount(s, e)
  {
    var n := PeriodCount(s, e);
    if m < n {
      assert false;
    } else if n < m {
      assert false;
    }
  }

  /** With Carbon 2's day difference, `length()` counts the days `each`
      visits while the range runs forwards; a backwards range still has a
      positive length although its period is empty. */
  lemma LengthCountsPeriodDays(r: JalaliDateRange, lib: Library)
    requires r.PeriodMatchesDates() && r.start != null && r.end != null
    requires forall a, b :: lib.diffInDays(a, b) == WholeDaysBetween(a, b)
    requires ValidInstant(r.start.gregorian.Value()) && ValidInstant(r.end.gregorian.Value())
    ensures NotAfter(r.start.gregorian.Value(), r.end.gregorian.Value()) ==>
      r.Length(lib) == PeriodCount(r.periodStart.value, r.periodEnd.value)
    ensures Before(r.end.gregorian.Value(), r.start.gregorian.Value()) ==>
      r.Length(lib) == WholeDaysBetween(r.end.gregorian.Value(), r.start.gregorian.Value()) + 1 &&
      PeriodCount(r.periodStart.value, r.periodEnd.value) == 0
  {
    var a, b := r.start.gregorian.Value(), r.end.gregorian.Value();
    assert WholeDaysBetween(a, b) == WholeDaysBetween(b, a);
  }

  /** `contains` agrees with the period: with both bounds set and the
      period in step with them, every day `each` visits is contained. */
  lemma VisitedDaysAreContained(r: JalaliDateRange, d: JalaliDate, k: nat)
    requires r.PeriodMatchesDates() && r.start != null && r.end != null
    requires k < PeriodCount(r.periodStart.value, r.periodEnd.value)
    requires d.gregorian.Value() == ShiftDays(r.start.gregorian.Value(), k)
    ensures r.Contains(d)
  {
  }
}
