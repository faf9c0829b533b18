/** The computations of the Persian date-picker view
    (stubs/resources/views/flux/persian-calendar/index.blade.php): how many
    months it shows, the month grid with its weekday header, and the flags
    each day cell is drawn with. */
module CalendarView {
  import opened Wrappers
  import opened Foreign
  import opened Text
  import opened Jalali

  // ---------------------------------------------------------------------
  // Months shown

  /** The `multiple` flag overrides the mode. */
  function EffectiveMode(mode: string, multiple: bool): (m: string)
    ensures multiple ==> m == "multiple"
    ensures !multiple ==> m == mode
  {
    if multiple then "multiple" else mode
  }

  /** Range mode shows at least two months when one is asked for; every
      other mode shows exactly what is asked for. */
  function MonthsToShow(mode: string, multiple: bool, months: int): (n: int)
    ensures EffectiveMode(mode, multiple) == "range" && months == 1 ==> n == 2
    ensures EffectiveMode(mode, multiple) != "range" || months != 1 ==> n == months
    ensures multiple ==> n == months
  {
    match EffectiveMode(mode, multiple)
      case "range" => if months == 1 then 2 else months
      case _ => months
  }

  // ---------------------------------------------------------------------
  // Grid arithmetic

  /** PHP's `$a % 7`: the remainder takes the sign of the dividend. */
  function PhpMod7(a: int): (r: int)
    ensures a >= 0 ==> r == a % 7
    ensures a < 0 ==> -7 < r <= 0
    ensures (a - r) % 7 == 0
  {
    if a >= 0 then a % 7
    else
      assert -a == 7 * ((-a) / 7) + (-a) % 7;
      -((-a) % 7)
  }

  /** `($startDay - $firstDayOfWeek + 7) % 7`, with the month's first day
      as an ISO weekday (Monday 1 ... Sunday 7). */
  function StartOffset(startDay: int, firstDayOfWeek: int): (r: int)
    ensures 0 <= startDay <= 6 && 1 <= firstDayOfWeek <= 7 ==> 0 <= r <= 6
    ensures (r - (startDay - firstDayOfWeek)) % 7 == 0
  {
    PhpMod7(startDay - firstDayOfWeek + 7)
  }

  /** `ceil($a / 7)` for an integer `$a`. */
  function CeilDiv7(a: int): (r: int)
    ensures 7 * r >= a && 7 * r < a + 7
  {
    -((-a) / 7)
  }

  /** The number of cells the `for` loop draws: 7 per week, the weeks
      being ceil((offset + days) / 7), raised to 6 by `fixedWeeks`. */
  function CellCount(offset: int, daysInMonth: int, fixedWeeks: bool): (n: nat)
    ensures n % 7 == 0
    ensures n >= offset + daysInMonth
    ensures fixedWeeks ==> n >= 42
    ensures !fixedWeeks && offset + daysInMonth > 0 ==> n < offset + daysInMonth + 7
    ensures fixedWeeks && offset + daysInMonth > 35 ==> n < offset + daysInMonth + 7
    ensures fixedWeeks && offset + daysInMonth <= 35 ==> n == 42
  {
    var w := CeilDiv7(offset + daysInMonth);
    var weeks := if fixedWeeks && w < 6 then 6 else w;
    if weeks <= 0 then 0 else 7 * weeks
  }

  /** The Carbon instant of day 1 of the month a date is in. */
  function MonthStart(t: Triple, lib: Library): Instant {
    ToCarbon(Triple(t.year, t.month, 1), lib)
  }

  /** The ISO weekday of that day (`$startOfMonth->dayOfWeek()`). */
  function FirstWeekday(t: Triple, lib: Library): (w: int)
    ensures 1 <= w <= 7
  {
    IsoWeekday(MonthStart(t, lib).day)
  }

  /** The instant of the first cell: day 1 moved back by the offset. */
  function GridStart(t: Triple, offset: int, lib: Library): Instant {
    FirstCell(MonthStart(t, lib), offset)
  }

  /** The first cell of a grid whose month starts at instant m. */
  function FirstCell(m: Instant, offset: int): (g: Instant)
    ensures g.day == m.day - offset && g.secs == m.secs
  {
    ShiftDays(m, -offset)
  }

  /** The Saturday-first index of the name over header column `col`
      (`$persianShortDayNames[($startDay + $i) % 7]`). */
  function HeaderIndex(startDay: int, col: int): (r: int)
    ensures 0 <= startDay && 0 <= col ==> 0 <= r <= 6
    ensures 0 <= startDay && 0 <= col ==> r == (startDay + col) % 7
  {
    PhpMod7(startDay + col)
  }

  /** `$persianShortDayNames[$i]`: the short weekday names, Saturday
      first; any other key is missing, and reading it raises. */
  function ShortDayName(i: int): (r: Result<string>)
    ensures r.Ok? <==> 0 <= i <= 6
    ensures r.Ok? ==> r.value != []
    ensures r.Err? ==> r.error == UndefinedIndex(i)
  {
    match i
      case 0 => Ok("ش")
      case 1 => Ok("ی")
      case 2 => Ok("د")
      case 3 => Ok("س")
      case 4 => Ok("چ")
      case 5 => Ok("پ")
      case 6 => Ok("ج")
      case _ => Err(UndefinedIndex(i))
  }

  /** Every header name is defined when startDay is not negative, and the
      first column already reads a missing key when startDay is negative
      and not a multiple of 7 (PHP's `%` keeps the dividend's sign). */
  lemma HeaderDefinedIffStartDayFits(startDay: int)
    ensures 0 <= startDay ==> forall col | 0 <= col < 7 :: ShortDayName(HeaderIndex(startDay, col)).Ok?
    ensures startDay < 0 && startDay % 7 != 0 ==> ShortDayName(HeaderIndex(startDay, 0)).Err?
  {
    if startDay < 0 && startDay % 7 != 0 {
      assert PhpMod7(startDay) != 0;
    }
  }

  /** The Saturday-first index of the weekday of a day number. */
  lemma PersianIndexOfDay(d: int)
    ensures PersianWeekdayIndex(IsoWeekday(d)) == (d + 5) % 7
  {
    var x := (d + 3) % 7;
    assert d + 3 == 7 * ((d + 3) / 7) + x;
  }

  /** Two is invertible modulo 7. */
  lemma TwiceDivisibleBySeven(x: int)
    ensures (2 * x) % 7 == 0 <==> x % 7 == 0
  {
    var q, r := x / 7, x % 7;
    var q2, r2 := (2 * x) / 7, (2 * x) % 7;
    assert 7 * q2 + r2 == 2 * (7 * q + r);
    assert r2 == 2 * r - 7 * (q2 - 2 * q);
    assert 0 <= r < 7 && 0 <= r2 < 7;
    if r2 == 0 {
      assert 2 * r == 7 * (q2 - 2 * q);
    }
  }

  /** Adding a multiple of 7 keeps the residue. */
  lemma ShiftResidue(x: int, m: int)
    ensures (x + 7 * m) % 7 == x % 7
  {
    var q, r := x / 7, x % 7;
    assert x + 7 * m == 7 * (q + m) + r;
  }

  /** Two numbers have the same residue iff their difference is a
      multiple of 7. */
  lemma SameResidue(x: int, y: int)
    ensures x % 7 == y % 7 <==> (x - y) % 7 == 0
  {
    var qx, rx := x / 7, x % 7;
    var qy, ry := y / 7, y % 7;
    var qd, rd := (x - y) / 7, (x - y) % 7;
    assert 7 * qd + rd == 7 * (qx - qy) + (rx - ry);
    if rx == ry {
      ShiftResidue(0, qx - qy);
      assert x - y == 7 * (qx - qy);
    }
    if rd == 0 {
      assert rx - ry == 7 * (qd - qx + qy);
    }
  }

  /** The header of column k % 7 names index (startDay + k) % 7. */
  lemma HeaderOfColumn(startDay: int, k: nat)
    requires 0 <= startDay
    ensures HeaderIndex(startDay, k % 7) == (startDay + k) % 7
  {
    ShiftResidue(startDay + k % 7, k / 7);
    assert startDay + k % 7 + 7 * (k / 7) == startDay + k;
  }

  /** The ISO weekday of day number s is s + 4 less a multiple of 7. */
  lemma IsoWeekdayResidue(s: int) returns (a: int)
    ensures IsoWeekday(s) == s + 4 - 7 * a
  {
    a := (s + 3) / 7;
    assert s + 3 == 7 * a + (s + 3) % 7;
  }

  /** The arithmetic behind the as-written alignment: with fdw = s + 4 and
      off = startDay - fdw (both modulo 7), cell s - off + k falls on the
      header's index iff fdw = startDay + 3 (modulo 7). */
  lemma AsWrittenResidues(s: int, startDay: int, k: int, fdw: int, off: int, a: int, m: int)
    requires fdw == s + 4 - 7 * a && off == startDay - fdw + 7 * m
    ensures (s - off + k + 5) % 7 == (startDay + k) % 7 <==> (fdw - startDay - 3) % 7 == 0
  {
    SameResidue(s - off + k + 5, startDay + k);
    var x := s - startDay + 1;
    assert s - off + k + 5 - (startDay + k) == 2 * x + 7 * (1 - a - m);
    ShiftResidue(2 * x, 1 - a - m);
    TwiceDivisibleBySeven(x);
    assert fdw - startDay - 3 == x + 7 * (-a);
    ShiftResidue(x, -a);
  }

  /** For a month whose day 1 is the instant m, a cell sits under the
      header naming its weekday exactly when the month's first weekday is
      startDay + 3 modulo 7, the same answer for every column: the offset
      counts in the wrong direction and mixes an ISO weekday with a
      Saturday-first index. */
  lemma AsWrittenHeaderAlignment(m: Instant, startDay: int, k: nat)
    requires 0 <= startDay <= 6
    ensures var g := FirstCell(m, StartOffset(startDay, IsoWeekday(m.day)));
      PersianWeekdayIndex(IsoWeekday(g.day + k)) == HeaderIndex(startDay, k % 7)
      <==> (IsoWeekday(m.day) - startDay - 3) % 7 == 0
  {
    var s := m.day;
    var fdw := IsoWeekday(s);
    var off := StartOffset(startDay, fdw);
    var g := FirstCell(m, off).day;
    PersianIndexOfDay(g + k);
    HeaderOfColumn(startDay, k);
    var a := IsoWeekdayResidue(s);
    var n := (off - (startDay - fdw)) / 7;
    assert off == startDay - fdw + 7 * n;
    AsWrittenResidues(s, startDay, k, fdw, off, a, n);
  }

  /** The offset that puts day 1 under its own weekday: the month's first
      weekday as a Saturday-first index, less the first column's index. */
  function AlignedStartOffset(startDay: int, firstDayOfWeek: int): (r: int)
    ensures 0 <= r <= 6
    ensures (r - (PersianWeekdayIndex(firstDayOfWeek) - startDay)) % 7 == 0
  {
    var x := PersianWeekdayIndex(firstDayOfWeek) - startDay;
    assert x == 7 * (x / 7) + x % 7;
    x % 7
  }

  /** The arithmetic behind the aligned offset: with fdw = s + 4, p = fdw + 1
      and off = p - startDay (all modulo 7), cell s - off + k falls on the
      header's index. */
  lemma AlignedResidues(s: int, startDay: int, k: int, fdw: int, p: int, off: int, a: int, b: int, m: int)
    requires fdw == s + 4 - 7 * a && p == fdw + 1 - 7 * b && off == p - startDay + 7 * m
    ensures (s - off + k + 5) % 7 == (startDay + k) % 7
  {
    SameResidue(s - off + k + 5, startDay + k);
    assert s - off + k + 5 - (startDay + k) == 0 + 7 * (a + b - m);
    ShiftResidue(0, a + b - m);
  }

  /** With the aligned offset every cell is under the header naming its
      weekday, whatever instant the month starts at. */
  lemma AlignedHeaderMatches(m: Instant, startDay: int, k: nat)
    requires 0 <= startDay <= 6
    ensures var g := FirstCell(m, AlignedStartOffset(startDay, IsoWeekday(m.day)));
      PersianWeekdayIndex(IsoWeekday(g.day + k)) == HeaderIndex(startDay, k % 7)
  {
    var s := m.day;
    var fdw := IsoWeekday(s);
    var off := AlignedStartOffset(startDay, fdw);
    var g := FirstCell(m, off).day;
    PersianIndexOfDay(g + k);
    HeaderOfColumn(startDay, k);
    var a := IsoWeekdayResidue(s);
    var p := PersianWeekdayIndex(fdw);
    var b := (fdw + 1) / 7;
    assert p == fdw + 1 - 7 * b;
    var n := (off - (p - startDay)) / 7;
    assert off == p - startDay + 7 * n;
    AlignedResidues(s, startDay, k, fdw, p, off, a, b, n);
  }

  /** 1 Ordibehesht 1403 fell on Saturday 20 April 2024, day 19833 of the
      epoch. With the Saturday-first header (startDay 0) the view shifts the
      grid by one day, so that Saturday is drawn under Sunday's name, where
      the aligned offset 0 keeps it under Saturday's. */
  lemma MisalignedOrdibehesht1403()
    ensures var m := Instant(19833, 0);
      IsoWeekday(m.day) == 6 &&
      StartOffset(0, 6) == 1 &&
      PersianWeekdayIndex(IsoWeekday(FirstCell(m, 1).day + 1)) == 0 &&
      HeaderIndex(0, 1) == 1 && ShortDayName(HeaderIndex(0, 1)) == Ok("ی") &&
      AlignedStartOffset(0, 6) == 0 &&
      PersianWeekdayIndex(IsoWeekday(FirstCell(m, 0).day + 0)) == HeaderIndex(0, 0)
  {
  }

  // ---------------------------------------------------------------------
  // The grid

  /** One entry of `$dates`. */
  datatype Cell = Cell(date: JalaliDate, isCurrentMonth: bool)

  /** `getCalendarData($date, $startDay, $fixedWeeks)` as written. The
      loop's `clone` copies the date but not its Carbon, and `addDays`
      moves that one Carbon: every cell keeps the triple of its own day
      while all of them hold the same Carbon object, which ends one day
      past the last cell. */
  method GetCalendarData(date: JalaliDate, startDay: int, fixedWeeks: bool, lib: Library)
    returns (cells: seq<Cell>)
    ensures var t := date.ToJalali();
      var off := StartOffset(startDay, FirstWeekday(t, lib));
      |cells| == CellCount(off, MonthLength(t.month, t.year), fixedWeeks) &&
      forall k :: 0 <= k < |cells| ==>
        cells[k].date.ToJalali() == lib.jalaliOf(ShiftDays(GridStart(t, off, lib), k)) &&
        (cells[k].isCurrentMonth <==> lib.jalaliOf(ShiftDays(GridStart(t, off, lib), k)).month == t.month) &&
        cells[k].date.gregorian.Value() == ShiftDays(GridStart(t, off, lib), |cells|)
    ensures forall k :: 0 <= k < |cells| ==> fresh(cells[k].date) && fresh(cells[k].date.gregorian)
    ensures forall j, k :: 0 <= j < k < |cells| ==> cells[j].date != cells[k].date && cells[j].date.gregorian == cells[k].date.gregorian
  {
    var startOfMonth := date.StartOfMonth(lib);
    var firstDayOfWeek := startOfMonth.DayOfWeek();
    var daysInMonth := date.DaysInMonth();
    var startOffset := StartOffset(startDay, firstDayOfWeek);
    ghost var t := date.ToJalali();
    assert startOfMonth.gregorian.Value() == MonthStart(t, lib);
    var current := startOfMonth.SubDays(startOffset, lib);
    ghost var g := current.gregorian.Value();
    assert g == GridStart(t, startOffset, lib);
    var n := CellCount(startOffset, daysInMonth, fixedWeeks);
    cells := AdvanceSharedDate(current, date.month, n, lib);
    assert current.gregorian.Value() == ShiftDays(g, n);
  }

  /** The `for` loop of `getCalendarData`: n clones of the running date,
      which is moved on one day at a time. */
  method AdvanceSharedDate(current: JalaliDate, month: int, n: nat, lib: Library) returns (cells: seq<Cell>)
    requires current.ToJalali() == lib.jalaliOf(current.gregorian.Value())
    modifies current.gregorian
    ensures current.gregorian.Value() == ShiftDays(old(current.gregorian.Value()), n)
    ensures |cells| == n
    ensures forall k :: 0 <= k < n ==> fresh(cells[k].date) && cells[k].date.gregorian == current.gregorian
    ensures forall k :: 0 <= k < n ==> cells[k].date.ToJalali() == lib.jalaliOf(ShiftDays(old(current.gregorian.Value()), k))
    ensures forall k :: 0 <= k < n ==>
      (cells[k].isCurrentMonth <==> lib.jalaliOf(ShiftDays(old(current.gregorian.Value()), k)).month == month)
    ensures forall j, k :: 0 <= j < k < n ==> cells[j].date != cells[k].date
  {
    var shared := current.gregorian;
    ghost var g := shared.Value();
    var date := current;
    cells := [];
    var i := 0;
    while i < n
      invariant 0 <= i <= n && |cells| == i
      invariant date.gregorian == shared && shared.Value() == ShiftDays(g, i)
      invariant date.ToJalali() == lib.jalaliOf(shared.Value())
      invariant forall k :: 0 <= k < i ==> fresh(cells[k].date) && cells[k].date.gregorian == shared
      invariant forall k :: 0 <= k < i ==> cells[k].date.ToJalali() == lib.jalaliOf(ShiftDays(g, k))
      invariant forall k :: 0 <= k < i ==>
        (cells[k].isCurrentMonth <==> lib.jalaliOf(ShiftDays(g, k)).month == month)
      invariant forall j, k :: 0 <= j < k < i ==> cells[j].date != cells[k].date
    {
      var copy := new JalaliDate.Clone(date);
      cells := cells + [Cell(copy, date.month == month)];
      date := date.AddDays(1, lib);
      i := i + 1;
    }
  }

  /** The grid as evidently intended: the aligned offset, and a Carbon of
      its own for every cell, holding that cell's day. */
  method GetCalendarDataAligned(date: JalaliDate, startDay: int, fixedWeeks: bool, lib: Library)
    returns (cells: seq<Cell>)
    ensures var t := date.ToJalali();
      var off := AlignedStartOffset(startDay, FirstWeekday(t, lib));
      |cells| == CellCount(off, MonthLength(t.month, t.year), fixedWeeks) &&
      forall k :: 0 <= k < |cells| ==>
        cells[k].date.gregorian.Value() == ShiftDays(GridStart(t, off, lib), k) &&
        cells[k].date.ToJalali() == lib.jalaliOf(cells[k].date.gregorian.Value()) &&
        (cells[k].isCurrentMonth <==> cells[k].date.ToJalali().month == t.month)
    ensures forall k :: 0 <= k < |cells| ==> fresh(cells[k].date) && fresh(cells[k].date.gregorian)
    ensures forall j, k :: 0 <= j < k < |cells| ==> cells[j].date.gregorian != cells[k].date.gregorian
  {
    var startOfMonth := date.StartOfMonth(lib);
    var firstDayOfWeek := startOfMonth.DayOfWeek();
    var daysInMonth := date.DaysInMonth();
    var startOffset := AlignedStartOffset(startDay, firstDayOfWeek);
    var first := ShiftDays(startOfMonth.gregorian.Value(), -startOffset);
    var n := CellCount(startOffset, daysInMonth, fixedWeeks);
    cells := DatesFrom(first, date.month, n, lib);
  }

  /** n cells from `first` on, each with its own Carbon. */
  method DatesFrom(first: Instant, month: int, n: nat, lib: Library) returns (cells: seq<Cell>)
    ensures |cells| == n
    ensures forall k :: 0 <= k < n ==> fresh(cells[k].date) && fresh(cells[k].date.gregorian)
    ensures forall k :: 0 <= k < n ==> cells[k].date.gregorian.Value() == ShiftDays(first, k)
    ensures forall k :: 0 <= k < n ==> cells[k].date.ToJalali() == lib.jalaliOf(cells[k].date.gregorian.Value())
    ensures forall k :: 0 <= k < n ==> (cells[k].isCurrentMonth <==> cells[k].date.ToJalali().month == month)
    ensures forall j, k :: 0 <= j < k < n ==> cells[j].date.gregorian != cells[k].date.gregorian
  {
    var day := first;
    cells := [];
    var i := 0;
    while i < n
      invariant 0 <= i <= n && |cells| == i
      invariant day == ShiftDays(first, i)
      invariant forall k :: 0 <= k < i ==> fresh(cells[k].date) && fresh(cells[k].date.gregorian)
      invariant forall k :: 0 <= k < i ==> cells[k].date.gregorian.Value() == ShiftDays(first, k)
      invariant forall k :: 0 <= k < i ==> cells[k].date.ToJalali() == lib.jalaliOf(cells[k].date.gregorian.Value())
      invariant forall k :: 0 <= k < i ==> (cells[k].isCurrentMonth <==> cells[k].date.ToJalali().month == month)
      invariant forall j, k :: 0 <= j < k < i ==> cells[j].date.gregorian != cells[k].date.gregorian
    {
      var cell := NewCell(day, month, lib);
      cells := cells + [cell];
      day := ShiftDays(day, 1);
      i := i + 1;
    }
  }

  /** A cell of its own for one day: a new Carbon and the date around it. */
  method NewCell(day: Instant, month: int, lib: Library) returns (cell: Cell)
    ensures fresh(cell.date) && fresh(cell.date.gregorian)
    ensures cell.date.gregorian.Value() == day
    ensures cell.date.ToJalali() == lib.jalaliOf(day)
    ensures cell.isCurrentMonth <==> lib.jalaliOf(day).month == month
  {
    var c := new Carbon(day);
    var cellDate := new JalaliDate.FromGregorian(c, lib);
    cell := Cell(cellDate, cellDate.month == month);
  }

  /** In the aligned grid day 1 of the month is cell `offset`, every day
      of the month has a cell, and each cell is under its weekday's name. */
  lemma AlignedGridShowsWholeMonth(m: Instant, daysInMonth: int, startDay: int, fixedWeeks: bool, d: nat, k: nat)
    requires 0 <= startDay <= 6 && d < daysInMonth
    ensures var off := AlignedStartOffset(startDay, IsoWeekday(m.day));
      off + d < CellCount(off, daysInMonth, fixedWeeks) &&
      ShiftDays(FirstCell(m, off), off + d) == ShiftDays(m, d) &&
      PersianWeekdayIndex(IsoWeekday(ShiftDays(FirstCell(m, off), k).day)) == HeaderIndex(startDay, k % 7)
  {
    AlignedHeaderMatches(m, startDay, k);
  }

  // ---------------------------------------------------------------------
  // Cell flags

  /** The flags a day cell is drawn with. */
  datatype Flags = Flags(
    isSelected: bool, isRangeStart: bool, isRangeEnd: bool, isInRange: bool,
    isToday: bool, isUnavailable: bool, isDisabled: bool)

  /** The Carbon value `JalaliDate::fromString($s)` would hold. */
  function ParsedInstant(s: string, lib: Library): (r: Result<Instant>)
    ensures r.Err? <==> ParseDate(s).Err?
    ensures r.Err? ==> r.error == TooFewFields
  {
    var t :- ParseDate(s);
    Ok(ToCarbon(t, lib))
  }

  /** How the view reads one piece of a comma-separated list: trimmed,
      then parsed as a date. */
  function PieceParser(lib: Library): string -> Result<Instant> {
    p => ParsedInstant(Trim(p), lib)
  }

  /** A comma-split list filtered and mapped: pieces that are '' or '0'
      are dropped before `parse` is applied, and the first failure fails
      the whole list. */
  function ParseList(pieces: seq<string>, parse: string -> Result<Instant>): (r: Result<seq<Instant>>)
    ensures r.Ok? ==> |r.value| <= |pieces|
    ensures r.Err? && FailsOnlyShort(parse) ==> r.error == TooFewFields
  {
    if pieces == [] then Ok([])
    else
      var rest :- ParseList(pieces[1..], parse);
      if !Truthy(pieces[0]) then Ok(rest)
      else
        var d :- parse(pieces[0]);
        Ok([d] + rest)
  }

  /** A parser whose only failure is a date with too few fields. */
  ghost predicate FailsOnlyShort(parse: string -> Result<Instant>) {
    forall p :: parse(p).Err? ==> parse(p).error == TooFewFields
  }

  /** The list parses iff every kept piece parses. */
  lemma {:induction false} ParseListSucceeds(pieces: seq<string>, parse: string -> Result<Instant>)
    ensures ParseList(pieces, parse).Ok? <==>
      forall i :: 0 <= i < |pieces| && Truthy(pieces[i]) ==> parse(pieces[i]).Ok?
  {
    if pieces != [] {
      var tail := pieces[1..];
      ParseListSucceeds(tail, parse);
      if ParseList(pieces, parse).Ok? {
        forall i | 0 <= i < |pieces| && Truthy(pieces[i])
          ensures parse(pieces[i]).Ok?
        {
          if i > 0 {
            assert pieces[i] == tail[i - 1];
          }
        }
      }
    }
  }

  /** A parsed list holds exactly the results of the kept pieces. */
  lemma {:induction false} ParseListMembers(pieces: seq<string>, x: Instant, parse: string -> Result<Instant>)
    requires ParseList(pieces, parse).Ok?
    ensures x in ParseList(pieces, parse).value <==>
      exists i :: 0 <= i < |pieces| && Truthy(pieces[i]) && parse(pieces[i]) == Ok(x)
  {
    if pieces != [] {
      var tail := pieces[1..];
      ParseListMembers(tail, x, parse);
      var r := ParseList(pieces, parse).value;
      if x in r {
        if Truthy(pieces[0]) && x == r[0] {
          assert parse(pieces[0]) == Ok(x);
        } else {
          var j :| 0 <= j < |tail| && Truthy(tail[j]) && parse(tail[j]) == Ok(x);
          assert pieces[j + 1] == tail[j];
        }
      }
      if exists i :: 0 <= i < |pieces| && Truthy(pieces[i]) && parse(pieces[i]) == Ok(x) {
        var i :| 0 <= i < |pieces| && Truthy(pieces[i]) && parse(pieces[i]) == Ok(x);
        if i > 0 {
          assert tail[i - 1] == pieces[i];
        }
      }
    }
  }

  /** The view's piece parser fails only on a piece with too few fields. */
  lemma PieceParserFailsOnlyShort(lib: Library)
    ensures FailsOnlyShort(PieceParser(lib))
  {
    forall p | PieceParser(lib)(p).Err?
      ensures PieceParser(lib)(p).error == TooFewFields
    {
      assert PieceParser(lib)(p) == ParsedInstant(Trim(p), lib);
    }
  }

  /** A `min`/`max` attribute: falsy values are skipped, 'today' is now. */
  function LimitInstant(limit: string, now: Instant, lib: Library): (r: Result<Option<Instant>>)
    ensures !Truthy(limit) ==> r == Ok(None)
    ensures limit == "today" ==> r == Ok(Some(now))
    ensures Truthy(limit) && limit != "today" ==> (r.Err? <==> ParseDate(limit).Err?)
    ensures Truthy(limit) && limit != "today" && r.Ok? ==> r.value == Some(ToCarbon(ParseDate(limit).value, lib))
  {
    if !Truthy(limit) then Ok(None)
    else if limit == "today" then Ok(Some(now))
    else
      var d :- ParsedInstant(limit, lib);
      Ok(Some(d))
  }

  /** The selection flags of one mode: single compares with the value,
      range splits it on '/' and parses the first two pieces, multiple
      splits it on ','. Only a string value is modelled. */
  function SelectionFlags(cell: Instant, mode: string, value: string, lib: Library): (r: Result<(bool, bool, bool, bool)>)
    ensures mode == "single" && Truthy(value) ==> r == SingleSelection(cell, value, lib)
    ensures mode == "multiple" && Truthy(value) ==> r == MultipleSelection(cell, value, lib)
    ensures mode == "range" && Truthy(value) && '/' in value ==> r == RangeSelection(cell, value, lib)
    ensures !Truthy(value) ==> r == Ok((false, false, false, false))
    ensures Truthy(value) && mode != "single" && mode != "multiple" && !(mode == "range" && '/' in value) ==>
      r == Ok((false, false, false, false))
    ensures r.Err? ==> r.error == TooFewFields
  {
    if mode == "single" && Truthy(value) then SingleSelection(cell, value, lib)
    else if mode == "range" && Truthy(value) && '/' in value then RangeSelection(cell, value, lib)
    else if mode == "multiple" && Truthy(value) then MultipleSelection(cell, value, lib)
    else Ok((false, false, false, false))
  }

  /** The single branch: the cell whose Carbon equals the value's date. */
  function SingleSelection(cell: Instant, value: string, lib: Library): (r: Result<(bool, bool, bool, bool)>)
    ensures r.Err? <==> ParseDate(value).Err?
    ensures r.Err? ==> r.error == TooFewFields
    ensures r.Ok? ==> (r.value.0 <==> cell == ParsedInstant(value, lib).value) && !r.value.1 && !r.value.2 && !r.value.3
  {
    var d :- ParsedInstant(value, lib);
    Ok((d == cell, false, false, false))
  }

  /** The multiple branch: the cells among the comma-separated dates. */
  function MultipleSelection(cell: Instant, value: string, lib: Library): (r: Result<(bool, bool, bool, bool)>)
    ensures r.Ok? <==> ParseList(Explode(value, ','), PieceParser(lib)).Ok?
    ensures r.Err? ==> r.error == TooFewFields
    ensures r.Ok? ==> (r.value.0 <==> cell in ParseList(Explode(value, ','), PieceParser(lib)).value) &&
                      !r.value.1 && !r.value.2 && !r.value.3
  {
    PieceParserFailsOnlyShort(lib);
    var ds :- ParseList(Explode(value, ','), PieceParser(lib));
    Ok((cell in ds, false, false, false))
  }

  /** The range branch: the value split at '/' into a start and an end;
      a cell is selected at either end and in the range strictly between. */
  function RangeSelection(cell: Instant, value: string, lib: Library): (r: Result<(bool, bool, bool, bool)>)
    requires '/' in value
    ensures r.Err? ==> r.error == TooFewFields
    ensures r.Ok? ==>
      var p := Explode(value, '/');
      |p| >= 2 && ParsedInstant(p[0], lib).Ok? && ParsedInstant(p[1], lib).Ok? &&
      var s, e := ParsedInstant(p[0], lib).value, ParsedInstant(p[1], lib).value;
      (r.value.0 <==> cell == s || cell == e) && (r.value.1 <==> cell == s) && (r.value.2 <==> cell == e) &&
      (r.value.3 <==> Before(s, cell) && Before(cell, e))
  {
    var pieces := Explode(value, '/');
    SplitHasTwoPieces(value);
    var s :- ParsedInstant(pieces[0], lib);
    var e :- ParsedInstant(pieces[1], lib);
    Ok((s == cell || e == cell, s == cell, e == cell, Before(s, cell) && Before(cell, e)))
  }

  /** A value with a '/' in it splits into at least two pieces. */
  lemma SplitHasTwoPieces(value: string)
    requires '/' in value
    ensures |Explode(value, '/')| >= 2
  {
    ImplodeExplode(value, '/');
  }

  /** Range mode cannot work: the first piece of the split has no '/'
      left in it, so it never has the three fields a date needs, and every
      cell of a range-mode picker with a '/' in its value fails. */
  lemma RangeModeAlwaysFails(cell: Instant, value: string, lib: Library)
    requires Truthy(value) && '/' in value
    ensures ParseDate(Explode(value, '/')[0]).Err?
    ensures SelectionFlags(cell, "range", value, lib) == Err(TooFewFields)
  {
    SplitHasTwoPieces(value);
    ExplodeWithoutSeparator(Explode(value, '/')[0], '/');
  }

  /** The range branch as evidently intended: the value is the start's
      three fields and then the end's, all separated by '/'. */
  function RangeSelectionByFields(cell: Instant, value: string, lib: Library): (r: Result<(bool, bool, bool, bool)>)
    ensures r.Err? <==> |Explode(value, '/')| < 6
    ensures r.Err? ==> r.error == TooFewFields
    ensures r.Ok? ==>
      var p := Explode(value, '/');
      |p| >= 6 && ParsedInstant(Implode(p[..3], '/'), lib).Ok? && ParsedInstant(Implode(p[3..6], '/'), lib).Ok? &&
      var s, e := ParsedInstant(Implode(p[..3], '/'), lib).value, ParsedInstant(Implode(p[3..6], '/'), lib).value;
      (r.value.0 <==> cell == s || cell == e) && (r.value.1 <==> cell == s) && (r.value.2 <==> cell == e) &&
      (r.value.3 <==> Before(s, cell) && Before(cell, e))
  {
    var pieces := Explode(value, '/');
    if |pieces| < 6 then Err(TooFewFields)
    else
      ExplodeImplode(pieces[..3], '/');
      ExplodeImplode(pieces[3..6], '/');
      var s := ParsedInstant(Implode(pieces[..3], '/'), lib).value;
      var e := ParsedInstant(Implode(pieces[3..6], '/'), lib).value;
      Ok((s == cell || e == cell, s == cell, e == cell, Before(s, cell) && Before(cell, e)))
  }

  /** Two values that split into three fields each, joined by '/', give
      back their own fields as the first three and the next three. */
  lemma SplitTwoDates(x: string, y: string)
    requires |Explode(x, '/')| == 3 && |Explode(y, '/')| == 3
    ensures var p := Explode(x + "/" + y, '/');
      |p| == 6 && Implode(p[..3], '/') == x && Implode(p[3..6], '/') == y
  {
    ExplodeAppend(x, '/', y);
    assert x + "/" + y == x + ['/'] + y;
    var p := Explode(x + "/" + y, '/');
    assert p[..3] == Explode(x, '/');
    assert p[3..6] == Explode(y, '/');
    ImplodeExplode(x, '/');
    ImplodeExplode(y, '/');
  }

  /** With the corrected reading the value a range picker holds for two
      dates selects exactly those dates and the days strictly between. */
  lemma RangeValueSelectsItsDates(a: Triple, b: Triple, cell: Instant, lib: Library)
    ensures var s, e := ToCarbon(a, lib), ToCarbon(b, lib);
      RangeSelectionByFields(cell, FormatDate(a) + "/" + FormatDate(b), lib) ==
        Ok((cell == s || cell == e, cell == s, cell == e, Before(s, cell) && Before(cell, e)))
  {
    FormattedFields(a);
    FormattedFields(b);
    SplitTwoDates(FormatDate(a), FormatDate(b));
    ParseFormatRoundTrip(a);
    ParseFormatRoundTrip(b);
  }

  /** The flags of one cell whose Carbon holds `cell`
      (lines 150-184 of the view). */
  function CellFlags(cell: Instant, isCurrentMonth: bool, mode: string, value: string,
                     unavailable: seq<Instant>, min: string, max: string, now: Instant, lib: Library): (r: Result<Flags>)
    ensures r.Ok? ==> (r.value.isToday <==> cell.day == now.day)
    ensures r.Ok? ==> (r.value.isUnavailable <==> cell in unavailable)
    ensures r.Ok? ==> LimitInstant(min, now, lib).Ok? && LimitInstant(max, now, lib).Ok? && (r.value.isDisabled <==>
      !isCurrentMonth || cell in unavailable ||
      (LimitInstant(min, now, lib).value.Some? && Before(cell, LimitInstant(min, now, lib).value.value)) ||
      (LimitInstant(max, now, lib).value.Some? && Before(LimitInstant(max, now, lib).value.value, cell)))
    ensures r.Err? ==> r.error == TooFewFields
    ensures r.Ok? <==> SelectionFlags(cell, mode, value, lib).Ok? && LimitInstant(min, now, lib).Ok? && LimitInstant(max, now, lib).Ok?
    ensures r.Ok? ==>
      SelectionFlags(cell, mode, value, lib).Ok? &&
      (r.value.isSelected, r.value.isRangeStart, r.value.isRangeEnd, r.value.isInRange) == SelectionFlags(cell, mode, value, lib).value
  {
    var selection, minLimit, maxLimit := SelectionFlags(cell, mode, value, lib), LimitInstant(min, now, lib), LimitInstant(max, now, lib);
    if selection.Err? then Err(selection.error)
    else if minLimit.Err? then Err(minLimit.error)
    else if maxLimit.Err? then Err(maxLimit.error)
    else
      var sel, lo, hi := selection.value, minLimit.value, maxLimit.value;
      var disabled := !isCurrentMonth || cell in unavailable ||
                      (lo.Some? && Before(cell, lo.value)) || (hi.Some? && Before(hi.value, cell));
      Ok(Flags(sel.0, sel.1, sel.2, sel.3, SameDay(cell, now), cell in unavailable, disabled))
  }

  /** An enabled cell of the current month lies between min and max, both
      included, and a current-month cell between them that is not
      unavailable is enabled. */
  lemma EnabledMeansWithinLimits(cell: Instant, mode: string, value: string, unavailable: seq<Instant>,
                                 min: string, max: string, now: Instant, lib: Library)
    requires ValidInstant(cell)
    requires CellFlags(cell, true, mode, value, unavailable, min, max, now, lib).Ok?
    requires LimitInstant(min, now, lib).value.Some? && ValidInstant(LimitInstant(min, now, lib).value.value)
    requires LimitInstant(max, now, lib).value.Some? && ValidInstant(LimitInstant(max, now, lib).value.value)
    ensures var lo, hi := LimitInstant(min, now, lib).value.value, LimitInstant(max, now, lib).value.value;
      !CellFlags(cell, true, mode, value, unavailable, min, max, now, lib).value.isDisabled
      <==> cell !in unavailable && Ticks(lo) <= Ticks(cell) <= Ticks(hi)
  {
    var lo, hi := LimitInstant(min, now, lib).value.value, LimitInstant(max, now, lib).value.value;
    BeforeIsTimestampOrder(cell, lo);
    BeforeIsTimestampOrder(hi, cell);
  }

  /** In the grid as written every cell compares through the shared
      Carbon, which ends one day past the last cell: on a grid of n cells
      the day of cell k < n is never marked as today, while the aligned
      grid, whose cell k holds its own day, marks it. */
  lemma SharedCarbonMissesToday(g: Instant, n: nat, k: nat, lib: Library)
    requires k < n
    ensures var now := ShiftDays(g, k);
      CellFlags(ShiftDays(g, n), true, "single", "", [], "", "", now, lib) ==
        Ok(Flags(false, false, false, false, false, false, false)) &&
      CellFlags(ShiftDays(g, k), true, "single", "", [], "", "", now, lib) ==
        Ok(Flags(false, false, false, false, true, false, false))
  {
  }
}
