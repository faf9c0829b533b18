# Jalali dates, ranges and the Persian calendar grid

This project models, in Dafny, the Jalali (Solar Hijri) date layer of the
flux UI package. It covers five pieces:

- **The `JalaliDate` value.** It is a mutable Carbon object paired with the Jalali year, month and day read from it when the value was made. It carries the month-length and leap-year rule, the `YYYY/MM/DD` string format, the comparisons, the calendar boundaries and the day, month and year arithmetic.
- **The global helpers.** They dispatch on the PHP shape of their argument. They also hold the name tables and the stand-alone leap-year and month-length functions.
- **The preset catalogue.** There are 18 tags, each with a label. Every tag except `custom` has a rule that turns the clock into a start and an end.
- **`JalaliDateRange`.** A range has two optional dates and a preset slot. It supports containment, length and day-by-day iteration, and it has the Livewire synthesizer that sends it to the browser and back.
- **The Persian date-picker view.** This is the number of months shown, the month grid with its weekday header, and the flags each day cell is drawn with.

Carbon and Morilog's Jalalian are outside the repository. A Carbon object is
modelled as a class `Foreign.Carbon` holding a day number, counted from
1970-01-01 (a Thursday), and the seconds since midnight. Day shifts are
exact. Everything that depends on Gregorian month lengths or on the Jalali
conversion is a field of a `Foreign.Library` value that every operation
needing it takes as a parameter. That covers month and year arithmetic,
start and end of week, month, quarter and year, `diffInDays`, Jalali
conversion and all formatting. The clock is a parameter. A preset's
`dates()` reads the clock twice, once for its start expression and once for
its end expression, so it takes two readings.

The mutable parts are classes:

- `JalaliDate` has the fields `gregorian`, `year`, `month` and `day`. Its add and sub methods move the receiver's own Carbon object, so the receiver keeps a stale triple and the result wraps the same Carbon.
- `JalaliDateRange` has the fields `start`, `end`, `preset` and the period bounds.

The grid loop of the view is a method with a loop. Each `clone` in it copies
the date but not its Carbon.

The leap-year rule is the one the code computes,
`(int)((y * 0.125 - floor(y * 0.125)) * 8) === 0`. Over exact rationals this
is `y % 8 == 0`, so 1400 is a leap year and 1403 is not. Under the
calendar's 33-year arithmetic cycle 1403 is a leap year and 1400 is not. The
model follows the code, and "## Findings" records the difference.

## Model

| member | source | states |
|---|---|---|
| Foreign.IsoWeekday | src/JalaliDate.php:122-125 | Carbon's ISO weekday lies in 1..7, and day 0 (1970-01-01) is a Thursday (4) |
| Foreign.IsoWeekdayShift | src/JalaliDate.php:122-125 | moving n days moves the ISO weekday by n modulo 7 |
| Foreign.BeforeIsTimestampOrder | src/JalaliDate.php:192-215 | on instants inside their day, the day-then-seconds order and equality are the timestamp order and equality Carbon compares |
| Foreign.Trichotomy | src/JalaliDate.php:192-215 | of two instants exactly one is before, equal to or after the other |
| Foreign.Before | src/JalaliDate.php:202-205 | Carbon's `lt`: an earlier day, or the same day at an earlier second (the timestamp order by Foreign.BeforeIsTimestampOrder) |
| Foreign.NotAfter | src/JalaliDate.php:207-210 | Carbon's `lte`: `lt` or equal |
| Foreign.SameDay | src/JalaliDate.php:132-135 | Carbon's `isToday`: the same day number as the clock |
| Foreign.ShiftDays | src/JalaliDate.php:162-170 | a day shift moves the timestamp by exactly n days and keeps a valid time of day valid |
| Foreign.StartOfDay | src/JalaliDateRangePreset.php:32-33 | startOfDay is 00:00 of the same day and not after the instant |
| Foreign.EndOfDay | src/JalaliDateRangePreset.php:32-33 | endOfDay is the last second of the same day and not before the instant |
| Foreign.WholeDaysBetween | src/JalaliDate.php:217-220 | Carbon 2's `diffInDays` on a forward pair is the whole days between them, one less when the end's time of day is earlier |
| Foreign.PeriodCount | src/JalaliDateRange.php:231-243 | the dates a day-by-day CarbonPeriod visits are s + k days for every k below the count, and s + count days is after the end |
| Foreign.Carbon.AddDays | src/JalaliDate.php:162-165 | the mutable Carbon's `addDays` moves the object itself by n days |
| Foreign.Carbon.SubDays | src/JalaliDate.php:167-170 | `subDays` moves the object itself back by n days |
| Foreign.Carbon.AddMonths | src/JalaliDate.php:172-175 | `addMonths` replaces the object's value by the library's month shift |
| Foreign.Carbon.SubMonths | src/JalaliDate.php:177-180 | `subMonths` is the month shift by -n on the object itself |
| Foreign.Carbon.AddYears | src/JalaliDate.php:182-185 | `addYears` replaces the object's value by the library's year shift |
| Foreign.Carbon.SubYears | src/JalaliDate.php:187-190 | `subYears` is the year shift by -n on the object itself |
| Text.PadZeros | src/JalaliDate.php:94 | `%0Nd` padding keeps the digits as the suffix and pads with zeros to at least the width |
| Text.FormatInt | src/JalaliDate.php:94 | `%0Nd`: a '-' and the zero-padded magnitude for a negative number, counted inside the width; Text.FormatIntRoundTrip reads it back |
| Text.IntVal | src/JalaliDate.php:59 | `intval` of a string: leading white space, an optional sign, the leading digits, and 0 when there are none (Text.IntValOfDigits, Jalali.NonNumericFieldIsZero) |
| Text.Truthy | stubs/resources/views/flux/persian-calendar/index.blade.php:157 | PHP's truthiness of a string: false only for '' and '0' |
| Text.Trim | stubs/resources/views/flux/persian-calendar/index.blade.php:170 | `trim`: neither end of the result is white space or NUL, and a string without such ends is unchanged |
| Text.FormatIntRoundTrip | src/JalaliDate.php:94 | `intval` reads a `%0Nd` field back as the same integer, negative ones included, whatever follows it |
| Text.FormatIntHasNoSeparator | src/JalaliDate.php:94 | a `%0Nd` field contains no '/' |
| Text.Explode | src/JalaliDate.php:59 | `explode` returns at least one piece and no piece contains the separator |
| Text.ExplodeAppend | src/JalaliDate.php:59 | splitting a + sep + b gives the pieces of a followed by the pieces of b |
| Text.ExplodeImplode | src/JalaliDate.php:59 | `explode` undoes `implode` when no piece contains the separator |
| Text.ImplodeExplode | src/JalaliDate.php:59 | `implode` undoes `explode` on every string |
| Text.IntValOfDigits | src/JalaliDate.php:59 | `intval` of a digit run followed by a non-digit is the run's value |
| Jalali.LeapFormulaIsEveryEighthYear | src/JalaliDate.php:237-240 | the float formula, over exact rationals, holds iff the year is divisible by 8 |
| Jalali.LeapFormulaExamples | src/JalaliDate.php:237-240 | 1400 is a leap year under the formula, and 1399 and 1403 are not |
| Jalali.LeapFormula | src/JalaliDate.php:237-240 | the source's float formula, evaluated over exact rationals with PHP's truncating `(int)` |
| Jalali.LeapYear | src/JalaliDate.php:237-240 | the every-eighth-year rule the formula equals (Jalali.LeapFormulaIsEveryEighthYear) |
| Jalali.MonthLength | src/JalaliDate.php:222-235 | 31 days iff month <= 6 (0 and negative months included), 30 for 7..11 or for a month >= 12 in a leap year, 29 for a month >= 12 otherwise |
| Jalali.YearLength | src/JalaliDate.php:222-235 | months 1..12 add up to 366 days in a leap year and 365 otherwise |
| Jalali.EveryEighthYearMisplacesLeapYears | src/JalaliDate.php:237-240 | the formula calls 1400 leap and 1399 and 1403 common, the reverse of the 33-year cycle |
| Jalali.CycleRepeats | src/JalaliDate.php:237-240 | the corrected 33-year rule repeats every 33 years |
| Jalali.EightLeapYearsPerCycle | src/JalaliDate.php:237-240 | under the corrected rule, any 33 consecutive years hold exactly 8 leap years |
| Jalali.PersianWeekdayIndex | stubs/resources/views/flux/persian-calendar/index.blade.php:45-47 | an ISO weekday's place in the Saturday-first name lists lies in 0..6 and is 0 exactly for Saturday |
| Jalali.FormatDate | src/JalaliDate.php:92-95 | `sprintf('%04d/%02d/%02d')` of a triple; Jalali.ParseFormatRoundTrip parses it back |
| Jalali.ParseFormatRoundTrip | src/JalaliDate.php:57-95 | `fromString` of the `%04d/%02d/%02d` text gives back the same triple, for every integer triple |
| Jalali.FormattedFields | src/JalaliDate.php:92-95 | the formatted date splits at '/' into exactly its three fields |
| Jalali.ParseDate | src/JalaliDate.php:57-64 | `initializeFromString`: parsing fails, with the missing-array-key error of the destructuring, iff the text has fewer than three '/' fields; the first three fields are read with `intval` |
| Jalali.ParseIgnoresExtraFields | src/JalaliDate.php:59-62 | fields after the third do not change the parsed triple |
| Jalali.NonNumericFieldIsZero | src/JalaliDate.php:59 | a field without digits reads as 0 |
| Jalali.ToCarbon | src/JalaliDate.php:66-70 | `convertToGregorian`: Jalalian's reading of the formatted triple |
| Jalali.JalaliDate.FromGregorian | src/JalaliDate.php:48-55 | keeps the very Carbon object given and caches Jalalian's triple for it |
| Jalali.JalaliDate.FromJalali | src/JalaliDate.php:23-27 | keeps the triple, and its Carbon is a fresh object holding the conversion of the formatted triple |
| Jalali.JalaliDate.Clone | stubs/resources/views/flux/persian-calendar/index.blade.php:77 | PHP's shallow `clone` gives a new date with the same triple and the same Carbon object |
| Jalali.JalaliDate.FromString | src/JalaliDate.php:57-64 | succeeds iff the text has three '/' fields; then the triple is the parsed one and the Carbon a fresh object holding its conversion |
| Jalali.JalaliDate.Create | src/JalaliDate.php:17-31 | a Carbon is wrapped as it is; a string is parsed, giving its triple and a fresh Carbon holding the triple's conversion; three non-null values are taken as the triple; anything else means now |
| Jalali.JalaliDate.ToJalali | src/JalaliDate.php:102-115 | the cached triple behind `year()`, `month()`, `day()` and `toJalali()`, not recomputed from the Carbon |
| Jalali.JalaliDate.ToDateString | src/JalaliDate.php:92-95 | the text parses back to the cached triple, whatever the Carbon holds |
| Jalali.JalaliDate.DaysInMonth | src/JalaliDate.php:222-235 | 31 iff month <= 6, 29 iff month >= 12 in a common year, and 30 otherwise |
| Jalali.JalaliDate.IsLeapYear | src/JalaliDate.php:237-240 | the float formula holds iff year % 8 == 0 |
| Jalali.JalaliDate.DayOfWeek | src/JalaliDate.php:122-125 | the ISO weekday of the Carbon object, in 1..7, and Thursday (4) exactly on day numbers divisible by 7 |
| Jalali.JalaliDate.IsWeekend | src/JalaliDate.php:137-140 | holds iff the Carbon's day is a Friday, i.e. its day number is 1 modulo 7 |
| Jalali.JalaliDate.IsToday | src/JalaliDate.php:132-135 | holds iff the Carbon object's day is the clock's day |
| Jalali.JalaliDate.Gt | src/JalaliDate.php:192-195 | holds iff this Carbon's timestamp is greater |
| Jalali.JalaliDate.Gte | src/JalaliDate.php:197-200 | holds iff this Carbon's timestamp is greater or equal |
| Jalali.JalaliDate.Lt | src/JalaliDate.php:202-205 | holds iff this Carbon's timestamp is smaller |
| Jalali.JalaliDate.Lte | src/JalaliDate.php:207-210 | holds iff this Carbon's timestamp is smaller or equal |
| Jalali.JalaliDate.Eq | src/JalaliDate.php:212-215 | holds iff the two Carbon timestamps are equal |
| Jalali.OrderingIsTotal | src/JalaliDate.php:192-215 | exactly one of lt, eq and gt holds; lte and gte are their unions; lt is gt reversed |
| Jalali.ComparisonsIgnoreTriples | src/JalaliDate.php:192-220 | two dates holding one Carbon object compare equal and alike against any date, and have the same day difference, whatever their triples |
| Jalali.JalaliDate.StartOfMonth | src/JalaliDate.php:142-145 | a new date (y, m, 1) with a fresh Carbon for it |
| Jalali.JalaliDate.EndOfMonth | src/JalaliDate.php:147-150 | a new date (y, m, daysInMonth) with a fresh Carbon for it |
| Jalali.JalaliDate.StartOfYear | src/JalaliDate.php:152-155 | a new date (y, 1, 1) with a fresh Carbon for it |
| Jalali.JalaliDate.EndOfYear | src/JalaliDate.php:157-160 | a new date (y, 12, 29); it is the year's last day iff the year is not leap |
| Jalali.JalaliDate.AddDays | src/JalaliDate.php:162-165 | the receiver's own Carbon moves n days, the result wraps that same object with its new triple, the receiver's triple stays stale, and the two compare equal |
| Jalali.JalaliDate.SubDays | src/JalaliDate.php:167-170 | as AddDays, moving n days back |
| Jalali.JalaliDate.AddMonths | src/JalaliDate.php:172-175 | as AddDays, with the library's month shift |
| Jalali.JalaliDate.SubMonths | src/JalaliDate.php:177-180 | as AddMonths, by -n months |
| Jalali.JalaliDate.AddYears | src/JalaliDate.php:182-185 | as AddDays, with the library's year shift |
| Jalali.JalaliDate.SubYears | src/JalaliDate.php:187-190 | as AddYears, by -n years |
| Helpers.JalaliDateOf | src/helpers.php:8-27 | a date comes back as the same object; a Carbon is wrapped as it is; a string is parsed (failing iff it has too few fields) into its triple and a fresh Carbon holding its conversion; null or any other shape gives a fresh Carbon holding now and Jalalian's triple for it |
| Helpers.JalaliNow | src/helpers.php:31-34 | a fresh date around a fresh Carbon holding the clock |
| Helpers.ToJalali | src/helpers.php:38-53 | the same dispatch and results as `jalali_date`, with null among the other shapes |
| Helpers.ToGregorian | src/helpers.php:57-72 | a Carbon is returned as it is; a date gives its own Carbon object; a string gives a fresh Carbon for its triple; anything else gives now |
| Helpers.JalaliFormat | src/helpers.php:76-81 | Jalalian's format of the date's own Carbon, of the Carbon, of the parsed string's converted triple (failing iff the string does not parse), or of the clock's instant |
| Helpers.JalaliMonthName | src/helpers.php:85-93 | a non-empty name iff the key is in 1..12 |
| Helpers.JalaliDayName | src/helpers.php:97-104 | a non-empty name iff the key is in 0..6 |
| Helpers.NamesAreDistinct | src/helpers.php:85-104 | the twelve month names, and the seven day names, are pairwise different |
| Helpers.IsoWeekdayMisnamesDay | src/helpers.php:97-104 | handing `dayOfWeek()`'s ISO number to `jalali_day_name` never gives the day's own name |
| Helpers.IsJalaliLeapYear | src/helpers.php:108-111 | the same float formula as `isLeapYear`, holding iff the year is divisible by 8 |
| Helpers.JalaliDaysInMonth | src/helpers.php:115-130 | the `daysInMonth` table for the given year, or for the clock's Jalali year when none is given; the year matters only from month 12 on |
| Presets.From | src/JalaliDateRangePreset.php:8-27 | `from` returns a case whose backing string is the input, and fails naming the input otherwise |
| Presets.Find | src/JalaliDateRangePreset.php:8-27 | the search finds a case with that backing string, or proves that none of the cases has it |
| Presets.Value | src/JalaliDateRangePreset.php:10-27 | the 18 backing strings; Presets.ValueIsInjective and Presets.FromInvertsValue tie them to `from` |
| Presets.CatalogueHasEighteenCases | src/JalaliDateRangePreset.php:10-27 | the catalogue lists 18 pairwise different cases, and every case is among them |
| Presets.FromInvertsValue | src/JalaliDateRangePreset.php:10-27 | `from(p->value)` is p for every case |
| Presets.ValueIsInjective | src/JalaliDateRangePreset.php:10-27 | no two cases share a backing string |
| Presets.FromAcceptsOnlyValues | src/JalaliDateRangePreset.php:10-27 | `from` succeeds exactly on the 18 backing strings |
| Presets.Label | src/JalaliDateRangePreset.php:52-74 | every case, Custom included, has a non-empty label |
| Presets.LabelsAreDistinct | src/JalaliDateRangePreset.php:52-74 | different cases have different labels |
| Presets.PresetWindow | src/JalaliDateRangePreset.php:29-50 | `dates()` fails with an unhandled match exactly for Custom, and only AllTime lacks a computed start |
| Presets.TodayAndYesterday | src/JalaliDateRangePreset.php:32-33 | Today runs from 00:00 of the first reading to the last second of the second reading's day; Yesterday is the same one day earlier |
| Presets.RollingWindowCoversDays | src/JalaliDateRangePreset.php:36-44 | the last-7/14/30-days windows start at 00:00 of N - 1 days before, end at the end of today, and cover N days when both readings fall on one day |
| Presets.MonthWindows | src/JalaliDateRangePreset.php:45-47 | last 3 and 6 months start at 00:00 of the day after the month shift; year-to-date runs from the start of the year to the end of today |
| Presets.TodayDependsOnBothReadings | src/JalaliDateRangePreset.php:32 | Today covers one day plus one more for every midnight between the two clock readings |
| Presets.Dates | src/JalaliDateRangePreset.php:29-50 | fresh dates around fresh Carbons holding the window's instants; AllTime's start is the caller's date itself, null included; Custom fails |
| Ranges.BoundInstant | src/JalaliDateRange.php:44-47 | a bound's Carbon value is present iff the bound is |
| Ranges.ResolveBound | src/JalaliDateRange.php:24-42 | a date is kept as the same object, a Carbon is wrapped, a string is parsed (failing iff too few fields), and anything else becomes null |
| Ranges.JalaliDateRange.Init | src/JalaliDateRange.php:44-47 | the bounds are set, the period copies their Carbon values, and the preset slot is left unassigned |
| Ranges.JalaliDateRange.New | src/JalaliDateRange.php:17-48 | each bound is resolved on its own; construction fails iff a string bound does not parse; the preset slot stays unassigned |
| Ranges.JalaliDateRange.FromPreset | src/JalaliDateRange.php:85-96 | AllTime is refused and Custom fails in `dates()`; otherwise the bounds are the preset's window and the slot holds the preset |
| Ranges.JalaliDateRange.AllTimeFrom | src/JalaliDateRange.php:178-184 | the start resolves from the argument, the end holds the clock itself (not the end of its day), and the slot holds AllTime |
| Ranges.JalaliDateRange.PresetValue | src/JalaliDateRange.php:60-63 | reading the preset fails iff the slot was never assigned |
| Ranges.JalaliDateRange.HasPreset | src/JalaliDateRange.php:75-78 | fails like `preset()`, and otherwise holds iff a preset is set |
| Ranges.JalaliDateRange.IsNotAllTime | src/JalaliDateRange.php:80-83 | fails like `preset()`, and otherwise holds iff the preset is not AllTime, so also when none is set |
| Ranges.JalaliDateRange.ToArray | src/JalaliDateRange.php:186-195 | fails on an unassigned slot; otherwise null fields for missing bounds, date strings that parse back to the bounds' triples, the Gregorian pair, and a tag that `from` maps back to the preset |
| Ranges.JalaliDateRange.ToGregorianArray | src/JalaliDateRange.php:197-203 | each field is present iff its bound is |
| Ranges.JalaliDateRange.Contains | src/JalaliDateRange.php:210-217 | false without both bounds, and otherwise start <= date <= end by timestamp, both ends included |
| Ranges.JalaliDateRange.Length | src/JalaliDateRange.php:219-229 | 0 without both bounds, and otherwise the library's day difference plus one |
| Ranges.JalaliDateRange.Each | src/JalaliDateRange.php:231-243 | one fresh date per period day, start + k days for k below the period count, each around its own Carbon and holding its conversion |
| Ranges.PeriodCountIsFirstMiss | src/JalaliDateRange.php:231-236 | the loop's count is the first k whose date falls after the end |
| Ranges.LengthCountsPeriodDays | src/JalaliDateRange.php:219-243 | with Carbon 2's day difference, `length()` equals the number of days iterated on a forward range; a backward range has a positive length and an empty period |
| Ranges.VisitedDaysAreContained | src/JalaliDateRange.php:210-243 | every day the iteration visits is contained in the range |
| Synth.FieldArg | src/JalaliDateRangeSynth.php:84 | a wire null reaches the constructor as null and a string as a string |
| Synth.BoundArg | src/JalaliDateRangeSynth.php:90-91 | a missing bound is passed on as null and a present one as the date itself |
| Synth.DateField | src/JalaliDateRangeSynth.php:24-25 | a bound is sent as null iff it is missing, and otherwise as text that parses back to its triple |
| Synth.UnwrapForValidation | src/JalaliDateRangeSynth.php:21-33 | fails on an unassigned slot; otherwise start and end keys, and a preset key iff a preset is set, holding its tag |
| Synth.Dehydrate | src/JalaliDateRangeSynth.php:54-66 | the payload is exactly `unwrapForValidation`'s data, and the metadata is empty |
| Synth.HydrationPlan | src/JalaliDateRangeSynth.php:68-85 | null and '' give no range; the 'allTime' tag gives allTime of the payload's 'start' field, or a failure when that key is absent; any other known truthy tag gives `fromPreset`, an unknown one a `from` failure; no truthy tag gives a plain range of the payload's start and end (`hydrateFromType` is the same code) |
| Synth.TagsAreTruthy | src/JalaliDateRangeSynth.php:30 | every tag is truthy, so a set preset is always sent |
| Synth.PayloadRoundTrip | src/JalaliDateRangeSynth.php:54-85 | planning the rehydration of a sent range gives the same preset, AllTime with the same start field, or a plain range from the two date fields |
| Synth.Hydrate | src/JalaliDateRangeSynth.php:68-85 | the range each plan builds, with its failures: an unknown tag, Custom, a missing 'start' key for allTime, or a start or end that does not parse |
| Synth.Set | src/JalaliDateRangeSynth.php:87-96 | 'start' and 'end' build a new plain range that keeps the other bound; 'preset' rebuilds through `fromPreset`, with the tag's `dates()` window as its bounds, or through allTime keeping the old start, with the clock as the end and Jalalian's triple for it; every new range's period matches its bounds; any other key fails the match |
| Synth.Unset | src/JalaliDateRangeSynth.php:98-105 | the named bound is cleared and the other is kept, or 'preset' keeps both and drops the preset; any other key fails the match |
| Synth.UpdatedRangeCannotBeSent | src/JalaliDateRangeSynth.php:87-105 | a range built by `new`, as after any bound update, cannot be dehydrated because its slot is unassigned |
| CalendarView.EffectiveMode | stubs/resources/views/flux/persian-calendar/index.blade.php:31 | the `multiple` flag forces mode 'multiple', and otherwise the mode is kept |
| CalendarView.MonthsToShow | stubs/resources/views/flux/persian-calendar/index.blade.php:33-36 | range mode with one month shows two; every other case shows the requested number |
| CalendarView.PhpMod7 | stubs/resources/views/flux/persian-calendar/index.blade.php:63 | PHP's `%` keeps the dividend's sign and differs from it by a multiple of 7 |
| CalendarView.StartOffset | stubs/resources/views/flux/persian-calendar/index.blade.php:60-63 | with startDay in 0..6 and an ISO weekday in 1..7 the offset lies in 0..6, and it is startDay - weekday modulo 7 |
| CalendarView.CeilDiv7 | stubs/resources/views/flux/persian-calendar/index.blade.php:69 | `ceil(a / 7)` is the least multiple count covering a |
| CalendarView.CellCount | stubs/resources/views/flux/persian-calendar/index.blade.php:68-75 | whole weeks, never fewer cells than offset + days, less than a week more without fixedWeeks, and at least 42 (exactly 42 for short months) with it |
| CalendarView.FirstWeekday | stubs/resources/views/flux/persian-calendar/index.blade.php:60 | the first day's weekday is an ISO weekday in 1..7 |
| CalendarView.MonthStart | stubs/resources/views/flux/persian-calendar/index.blade.php:57 | `startOfMonth()`'s Carbon: the conversion of day 1 of the date's month |
| CalendarView.GridStart | stubs/resources/views/flux/persian-calendar/index.blade.php:66 | the first cell's instant: day 1 moved back by the offset |
| CalendarView.FirstCell | stubs/resources/views/flux/persian-calendar/index.blade.php:66 | the first cell is `offset` days before day 1, at the same time of day |
| CalendarView.HeaderIndex | stubs/resources/views/flux/persian-calendar/index.blade.php:136 | header column i names Saturday-first index (startDay + i) % 7, in 0..6 |
| CalendarView.ShortDayName | stubs/resources/views/flux/persian-calendar/index.blade.php:47 | a non-empty short name iff the index is in 0..6; any other index is a missing key, which raises |
| CalendarView.HeaderDefinedIffStartDayFits | stubs/resources/views/flux/persian-calendar/index.blade.php:134-138 | with a non-negative startDay all seven header names are defined; with a negative startDay that is not a multiple of 7 the first column reads a missing key, because PHP's `%` keeps the dividend's sign |
| CalendarView.PersianIndexOfDay | stubs/resources/views/flux/persian-calendar/index.blade.php:45-47 | day number d sits at Saturday-first index (d + 5) % 7 |
| CalendarView.HeaderOfColumn | stubs/resources/views/flux/persian-calendar/index.blade.php:134-138 | the header over cell k names index (startDay + k) % 7 |
| CalendarView.AsWrittenHeaderAlignment | stubs/resources/views/flux/persian-calendar/index.blade.php:60-66 | a cell sits under its own weekday's name iff the month's first ISO weekday is startDay + 3 modulo 7, for every column alike |
| CalendarView.AlignedStartOffset | stubs/resources/views/flux/persian-calendar/index.blade.php:63 | the corrected offset is in 0..6 and is the first day's Saturday-first index less startDay, modulo 7 |
| CalendarView.AlignedHeaderMatches | stubs/resources/views/flux/persian-calendar/index.blade.php:134-138 | with the corrected offset every cell sits under its own weekday's name |
| CalendarView.MisalignedOrdibehesht1403 | stubs/resources/views/flux/persian-calendar/index.blade.php:60-66 | 1 Ordibehesht 1403, a Saturday, is drawn under Sunday's name with the Saturday-first header; the corrected offset keeps it under Saturday's |
| CalendarView.GetCalendarData | stubs/resources/views/flux/persian-calendar/index.blade.php:56-84 | the grid as written: the computed number of cells, consecutive days from the grid start by triple, isCurrentMonth by month, and distinct dates that all hold one shared Carbon ending one day past the last cell |
| CalendarView.AdvanceSharedDate | stubs/resources/views/flux/persian-calendar/index.blade.php:75-81 | the loop clones the running date and moves the shared Carbon one day per cell |
| CalendarView.GetCalendarDataAligned | stubs/resources/views/flux/persian-calendar/index.blade.php:56-84 | the corrected grid: the corrected offset, and every cell holds its own Carbon at grid start + k days and the conversion of that day |
| CalendarView.DatesFrom | stubs/resources/views/flux/persian-calendar/index.blade.php:75-81 | n cells on consecutive days, each around its own fresh Carbon |
| CalendarView.NewCell | stubs/resources/views/flux/persian-calendar/index.blade.php:77-78 | a cell with its own Carbon for one day and the current-month flag of that day |
| CalendarView.AlignedGridShowsWholeMonth | stubs/resources/views/flux/persian-calendar/index.blade.php:65-75 | in the corrected grid every day of the month has a cell, day d at cell offset + d, under its own weekday's name |
| CalendarView.ParsedInstant | stubs/resources/views/flux/persian-calendar/index.blade.php:158 | `fromString` of a value fails iff it has too few fields |
| CalendarView.ParseList | stubs/resources/views/flux/persian-calendar/index.blade.php:168-170 | the filtered and mapped list is no longer than the pieces, and fails only as its parser does |
| CalendarView.ParseListSucceeds | stubs/resources/views/flux/persian-calendar/index.blade.php:168-170 | the list parses iff every piece kept by the filter parses |
| CalendarView.ParseListMembers | stubs/resources/views/flux/persian-calendar/index.blade.php:168-171 | an instant is in the list iff some kept piece parses to it |
| CalendarView.PieceParserFailsOnlyShort | stubs/resources/views/flux/persian-calendar/index.blade.php:170 | trimming and parsing a piece fails only with the too-few-fields error |
| CalendarView.LimitInstant | stubs/resources/views/flux/persian-calendar/index.blade.php:176-184 | a falsy min or max is skipped, 'today' means now, and anything else is parsed |
| CalendarView.SelectionFlags | stubs/resources/views/flux/persian-calendar/index.blade.php:157-172 | the branch chosen is the view's: single mode with a truthy value is the single branch, range mode with a truthy value holding '/' the range branch, multiple mode with a truthy value the multiple branch; a falsy value, another mode, or a range value without '/' selects nothing and sets no flag; the only failure is a date with too few fields |
| CalendarView.SingleSelection | stubs/resources/views/flux/persian-calendar/index.blade.php:157-158 | fails iff the value has fewer than three fields; otherwise the cell is selected iff it equals the value's Carbon, and no range flag is set |
| CalendarView.MultipleSelection | stubs/resources/views/flux/persian-calendar/index.blade.php:167-171 | fails iff some piece between commas that is neither '' nor '0' fails to parse once trimmed; otherwise the cell is selected iff it is among the parsed dates, and no range flag is set |
| CalendarView.RangeSelection | stubs/resources/views/flux/persian-calendar/index.blade.php:159-166 | the value split at '/': selected at either of the first two pieces, start and end flags, and strictly between them in range |
| CalendarView.SplitHasTwoPieces | stubs/resources/views/flux/persian-calendar/index.blade.php:160 | a value containing '/' splits into at least two pieces |
| CalendarView.RangeModeAlwaysFails | stubs/resources/views/flux/persian-calendar/index.blade.php:159-166 | the first piece never has three fields, so every range-mode value with a '/' fails |
| CalendarView.RangeSelectionByFields | stubs/resources/views/flux/persian-calendar/index.blade.php:159-166 | the corrected range branch: fails iff the value has fewer than six fields, and otherwise reads the start from the first three fields and the end from the next three |
| CalendarView.SplitTwoDates | stubs/resources/views/flux/persian-calendar/index.blade.php:160 | two three-field dates joined by '/' split back into the first date's fields and then the second's |
| CalendarView.RangeValueSelectsItsDates | stubs/resources/views/flux/persian-calendar/index.blade.php:159-166 | with the corrected reading, the value for two dates selects exactly those dates and the days strictly between them |
| CalendarView.CellFlags | stubs/resources/views/flux/persian-calendar/index.blade.php:150-184 | fails iff the selection, min or max fails to parse; the selection flags are those of the mode's branch; isToday is the clock's day, isUnavailable is list membership, and isDisabled is outside the month, unavailable, before min or after max |
| CalendarView.EnabledMeansWithinLimits | stubs/resources/views/flux/persian-calendar/index.blade.php:174-184 | a current-month cell is enabled iff it is available and min <= cell <= max by timestamp |
| CalendarView.SharedCarbonMissesToday | stubs/resources/views/flux/persian-calendar/index.blade.php:154 | the shared Carbon, one day past the last cell, never marks a cell of the grid as today, while the cell's own day would |

## Left out

- Jalalian's conversion between Jalali and Gregorian dates, and all Jalali and Gregorian formatting, are `Foreign.Library` functions with no laws. There is no round trip between `jalaliOf` and `parseJalali`. The library functions are total, so a failure inside Jalalian or Carbon (an invalid date handed to `fromFormat`, say) is not modelled. The parse failures stated here are the only ones the model has.
- Carbon's calendar arithmetic (startOf and endOf week, month, quarter and year; `addMonths`; `addYears`; `diffInDays`) is abstract. Only day shifts, startOfDay and endOfDay are exact. Microseconds are not modelled, and "now" is a parameter.
- Jalali.JalaliDate.DiffInDays, Jalali.JalaliDate.Format, Jalali.JalaliDate.MonthName, Jalali.JalaliDate.DayName and Jalali.JalaliDate.ToArray (toArray of src/JalaliDate.php:242-250) carry no contract of their own. Each is one call into Carbon or Jalalian. `Jalali.ComparisonsIgnoreTriples` states that `diffInDays` reads only the Carbon objects.
- `toDateTimeString` (src/JalaliDate.php:97-100) is left out, because its time part is Carbon formatting.
- `intval` is modelled for optional white space, an optional sign and decimal digits. Overflow past PHP_INT_MAX and the other leading-text forms are left out.
- The helpers take their argument as a tagged value (null, Carbon, JalaliDate, string, other). PHP's dynamic shapes beyond these five are left out.
- The CarbonPeriod is assumed to copy its bounds when the range is built. A period with a missing bound yields no dates in the model; what Carbon does with such a period is not modelled.
- The named range constructors `today()` … `yearToDate()` (src/JalaliDateRange.php:98-176) are exactly `fromPreset` of their tag and are covered by Ranges.JalaliDateRange.FromPreset. The accessors start(), end(), hasStart(), hasEnd(), days() and toCarbonPeriod() are field reads covered by the fields and by Ranges.JalaliDateRange.Length.
- The synthesizer's wire values are modelled as null, '' or a map of null-or-string fields. Other shapes (numbers, nested arrays) are left out, as are the Synth base class, `match` and `matchByType`.
- In the view, the markup, CSS, JavaScript, `weekOfYear` and the month-name header are left out. The `$startDay` default from the locale (line 38) is left out too, because startDay is a parameter. So is the construction of the unavailable list (lines 49-54), because that list is a parameter of CalendarView.CellFlags.
- `$endOfMonth` in `getCalendarData` is computed and never used. The model does not compute it.
- CalendarView.SelectionFlags: the value is modelled as a string. A non-string value in multiple mode, or in single mode, is left out.
- CalendarView.CellFlags: the unavailable list and the multiple-mode list are compared by Carbon value (`eq`), which is what the view does. Time zones are not modelled.
- Jalali.JalaliDate.Create: the three-values branch takes the year, month and day as integers. The `(int)` casts of non-integer values (floats, numeric strings in month and day) on src/JalaliDate.php:24-26 are not modelled; the package's own caller, `fromJalali`, passes integers.
- Jalali.ToCarbon: Jalalian's `toCarbon()` result is assumed to satisfy `convertToGregorian`'s declared return type, `Illuminate\Support\Carbon` (src/JalaliDate.php:5 and 66-70). The Jalalian library is not part of this model, so a type error at that return is not modelled.
- Jalali.MonthLength follows the code's every-eighth-year rule, not the calendar's 33-year cycle. The corrected rule is stated in Jalali.CycleLeapYear and is not used by the rest of the model, so that the model stays faithful to the code.

## Findings

| source | as written | input that shows it | evidently intended | confidence | as-written member | corrected member |
|---|---|---|---|---|---|---|
| src/JalaliDate.php:237-240 | the leap test `(int)((y * 0.125 - floor(y * 0.125)) * 8) === 0` is "year divisible by 8" | year 1403: `isLeapYear()` is false and `daysInMonth()` for month 12 is 29; year 1400: leap | the 33-year arithmetic cycle (leap at positions 1, 5, 9, 13, 17, 22, 26, 30), under which 1399 and 1403 are leap, 1400 is not, and every 33 years hold 8 leap years | not executed; high | Jalali.EveryEighthYearMisplacesLeapYears | Jalali.EightLeapYearsPerCycle |
| stubs/resources/views/flux/persian-calendar/index.blade.php:60-63 | `($startDay - $firstDayOfWeek + 7) % 7` mixes the ISO weekday (Monday 1) with the Saturday-first header index and counts in the wrong direction | 1 Ordibehesht 1403 (Saturday, 2024-04-20) with startDay 0: offset 1, so the Saturday is drawn under "ی" (Sunday) | offset = Saturday-first index of day 1 less startDay, modulo 7, so every cell is under its own weekday | not executed; high | CalendarView.AsWrittenHeaderAlignment | CalendarView.AlignedHeaderMatches |
| stubs/resources/views/flux/persian-calendar/index.blade.php:77-80 | `clone $currentDate` copies the date but not its Carbon, and `addDays(1)` moves that one Carbon, so every cell holds the same Carbon | any month: after the loop every cell's Carbon is one day past the last cell, so `isToday`, `eq`, `lt` and `gt` in lines 154-184 read that day for every cell | each cell holds a Carbon for its own day | not executed; high | CalendarView.SharedCarbonMissesToday | CalendarView.GetCalendarDataAligned |
| stubs/resources/views/flux/persian-calendar/index.blade.php:159-162 | range mode splits the value at '/', the character the dates themselves use, and parses the first two pieces as dates | value "1403/02/01/1403/02/10": the first piece "1403" has one field and `fromString` fails | the start read from the first three fields and the end from the next three | not executed; medium | CalendarView.RangeModeAlwaysFails | CalendarView.RangeValueSelectsItsDates |
