/** The Livewire synthesizer for date ranges (src/JalaliDateRangeSynth.php):
    the wire payload a range is sent as, and the way a payload or a
    single-key update is turned back into a range. */
module Synth {
  import opened Wrappers
  import opened Foreign
  import opened Text
  import opened Jalali
  import opened Presets
  import opened Ranges
  import Helpers

  /** The synthesizer's key. */
  const Key := "fxjdr"

  /** A scalar on the wire: null or a string. */
  datatype Field = FNull | FStr(s: string)

  /** What the client sends back: null, the empty string, or an array. */
  datatype Wire = WireNull | WireEmpty | WireArray(fields: map<string, Field>)

  /** `$value[$k] ?? null`: a missing key reads as null. */
  function Get(fields: map<string, Field>, k: string): Field {
    if k in fields then fields[k] else FNull
  }

  /** A wire field as a range constructor argument. */
  function FieldArg(f: Field): (v: Helpers.Value)
    ensures f.FNull? <==> v.NullValue?
  {
    match f
      case FNull => Helpers.NullValue
      case FStr(s) => Helpers.TextValue(s)
  }

  /** A range's bound handed back to the constructor. */
  function BoundArg(d: JalaliDate?): (v: Helpers.Value)
    ensures d == null <==> v.NullValue?
  {
    if d == null then Helpers.NullValue else Helpers.DateValue(d)
  }

  /** `$bound?->toDateString()`: null, or a string that parses back to
      the date's triple. */
  function DateField(d: JalaliDate?): (f: Field)
    reads d
    ensures f.FNull? <==> d == null
    ensures d != null ==> ParseDate(f.s) == Ok(d.ToJalali())
  {
    if d == null then FNull else FStr(d.ToDateString())
  }

  /** `unwrapForValidation($target)`, also the data half of `dehydrate`:
      the Jalali date strings and, when a preset is set, its tag. Reading
      the preset fails on a range built by `new`. */
  function UnwrapForValidation(t: JalaliDateRange): (r: Result<map<string, Field>>)
    reads t.Frame()
    ensures r.Err? <==> t.preset.Uninitialized?
    ensures r.Ok? ==> "start" in r.value && "end" in r.value
    ensures r.Ok? ==> r.value["start"] == DateField(t.start) && r.value["end"] == DateField(t.end)
    ensures r.Ok? ==> ("preset" in r.value <==> t.preset.preset.Some?)
    ensures r.Ok? && t.preset.preset.Some? ==> r.value["preset"] == FStr(Value(t.preset.preset.value))
  {
    var p :- t.PresetValue();
    var data := map["start" := DateField(t.start), "end" := DateField(t.end)];
    Ok(if p.Some? then data["preset" := FStr(Value(p.value))] else data)
  }

  /** `dehydrate`: the payload and no metadata. */
  function Dehydrate(t: JalaliDateRange): (r: Result<(map<string, Field>, map<string, Field>)>)
    reads t.Frame()
    ensures r.Ok? <==> UnwrapForValidation(t).Ok?
    ensures r.Ok? ==> r.value.0 == UnwrapForValidation(t).value && r.value.1 == map[]
  {
    var data :- UnwrapForValidation(t);
    Ok((data, map[]))
  }

  /** The constructor `hydrate` chooses for a payload. */
  datatype Plan =
    | NoRange
    | AllTimePlan(start: Field)
    | MissingStart
    | PresetPlan(preset: Preset)
    | BadPreset(tag: string)
    | RangePlan(start: Field, end: Field)

  /** The branches of `hydrate` (and of `hydrateFromType`, its copy): no
      range for null and '', AllTime for the 'allTime' tag, `from` for any
      other truthy tag, and a plain range otherwise. The AllTime branch reads
      the 'start' key without a default, so a payload without it fails. */
  function HydrationPlan(w: Wire): (pl: Plan)
    ensures pl.NoRange? <==> !w.WireArray?
    ensures pl.AllTimePlan? <==> w.WireArray? && Get(w.fields, "preset") == FStr(Value(AllTime)) && "start" in w.fields
    ensures pl.AllTimePlan? ==> pl.start == w.fields["start"]
    ensures pl.MissingStart? <==> w.WireArray? && Get(w.fields, "preset") == FStr(Value(AllTime)) && "start" !in w.fields
    ensures pl.PresetPlan? ==> w.WireArray? && Get(w.fields, "preset") == FStr(Value(pl.preset)) && pl.preset != AllTime
    ensures pl.BadPreset? ==> w.WireArray? && Get(w.fields, "preset") == FStr(pl.tag) && Truthy(pl.tag) &&
                              forall q: Preset :: Value(q) != pl.tag
    ensures pl.RangePlan? ==> w.WireArray? && !(Get(w.fields, "preset").FStr? && Truthy(Get(w.fields, "preset").s))
    ensures pl.RangePlan? ==> pl == RangePlan(Get(w.fields, "start"), Get(w.fields, "end"))
  {
    if !w.WireArray? then NoRange
    else
      var tag := Get(w.fields, "preset");
      if tag.FStr? && Truthy(tag.s) then
        if tag.s == Value(AllTime) then
          if "start" in w.fields then AllTimePlan(w.fields["start"]) else MissingStart
        else
          FromAcceptsOnlyValues(tag.s);
          match From(tag.s)
            case Ok(p) => PresetPlan(p)
            case Err(_) => BadPreset(tag.s)
      else RangePlan(Get(w.fields, "start"), Get(w.fields, "end"))
  }

  /** Every tag is truthy, so a dehydrated preset is never dropped. */
  lemma TagsAreTruthy(p: Preset)
    ensures Truthy(Value(p))
  {
  }

  /** Dehydrating a readable range and planning its rehydration gives back
      the same kind of range: the same preset, AllTime with the same start
      field, or a plain range from the two date strings. */
  lemma PayloadRoundTrip(t: JalaliDateRange)
    requires t.preset.Assigned?
    ensures var d := UnwrapForValidation(t).value;
      var pl := HydrationPlan(WireArray(d));
      (t.preset.preset == None ==> pl == RangePlan(d["start"], d["end"])) &&
      (t.preset.preset == Some(AllTime) ==> pl == AllTimePlan(d["start"])) &&
      (t.preset.preset.Some? && t.preset.preset != Some(AllTime) ==> pl == PresetPlan(t.preset.preset.value))
  {
    var d := UnwrapForValidation(t).value;
    if t.preset.preset.Some? {
      var p := t.preset.preset.value;
      var tag := Value(p);
      assert Get(d, "preset") == FStr(tag);
      TagsAreTruthy(p);
      FromInvertsValue(p);
      if p != AllTime {
        FromInvertsValue(AllTime);
        assert tag != Value(AllTime);
      }
    } else {
      assert Get(d, "preset") == FNull;
    }
  }

  /** `hydrate($value, $meta)`. `startNow` and `endNow` are the clock
      readings of a preset's `dates()`; `allTime` reads `endNow`. */
  method Hydrate(w: Wire, startNow: Instant, endNow: Instant, lib: Library) returns (r: Result<JalaliDateRange?>)
    ensures HydrationPlan(w).NoRange? ==> r == Ok(null)
    ensures HydrationPlan(w).MissingStart? ==> r == Err(UndefinedKey("start"))
    ensures HydrationPlan(w).BadPreset? ==> r == Err(NoSuchPreset(HydrationPlan(w).tag))
    ensures HydrationPlan(w).PresetPlan? ==>
      var p := HydrationPlan(w).preset;
      (r.Err? <==> p == Custom) &&
      (r.Ok? ==> r.value != null && fresh(r.value) && r.value.preset == Assigned(Some(p)) &&
                 r.value.start != null && r.value.end != null &&
                 r.value.start.gregorian.Value() == PresetWindow(p, startNow, endNow, lib).value.start.value &&
                 r.value.end.gregorian.Value() == PresetWindow(p, startNow, endNow, lib).value.end)
    ensures HydrationPlan(w).AllTimePlan? ==>
      var s := FieldArg(HydrationPlan(w).start);
      (r.Err? <==> Unparsable(s)) &&
      (r.Ok? ==> r.value != null && fresh(r.value) && r.value.preset == Assigned(Some(AllTime)) &&
                 Resolves(s, r.value.start, lib) && r.value.end != null && r.value.end.gregorian.Value() == endNow)
    ensures HydrationPlan(w).RangePlan? ==>
      var s, e := FieldArg(HydrationPlan(w).start), FieldArg(HydrationPlan(w).end);
      (r.Err? <==> Unparsable(s) || Unparsable(e)) &&
      (r.Ok? ==> r.value != null && fresh(r.value) && r.value.preset == Uninitialized &&
                 Resolves(s, r.value.start, lib) && Resolves(e, r.value.end, lib))
  {
    var pl := HydrationPlan(w);
    if pl.NoRange? {
      r := Ok(null);
    } else if pl.BadPreset? {
      r := Err(NoSuchPreset(pl.tag));
    } else if pl.MissingStart? {
      r := Err(UndefinedKey("start"));
    } else if pl.AllTimePlan? {
      var range := JalaliDateRange.AllTimeFrom(FieldArg(pl.start), endNow, lib);
      if range.Err? {
        return Err(range.error);
      }
      r := Ok(range.value);
    } else if pl.PresetPlan? {
      var range := JalaliDateRange.FromPreset(pl.preset, startNow, endNow, lib);
      if range.Err? {
        return Err(range.error);
      }
      r := Ok(range.value);
    } else {
      var range := JalaliDateRange.New(FieldArg(pl.start), FieldArg(pl.end), lib);
      if range.Err? {
        return Err(range.error);
      }
      r := Ok(range.value);
    }
  }

  /** `set(&$target, $key, $value)`: a new range with one bound replaced
      (which drops the preset), or a preset range; any other key fails the
      `match`. A null preset value reaches `from` as ''. */
  method Set(t: JalaliDateRange, key: string, v: Field, startNow: Instant, endNow: Instant, lib: Library)
    returns (r: Result<JalaliDateRange>)
    ensures key != "start" && key != "end" && key != "preset" ==> r == Err(UnhandledMatch)
    ensures key == "start" ==> ((r.Err? <==> Unparsable(FieldArg(v))) &&
      (r.Ok? ==> fresh(r.value) && r.value.end == t.end && Resolves(FieldArg(v), r.value.start, lib) &&
                 r.value.preset == Uninitialized))
    ensures key == "end" ==> ((r.Err? <==> Unparsable(FieldArg(v))) &&
      (r.Ok? ==> fresh(r.value) && r.value.start == t.start && Resolves(FieldArg(v), r.value.end, lib) &&
                 r.value.preset == Uninitialized))
    ensures key == "preset" && v == FStr(Value(AllTime)) ==>
      r.Ok? && fresh(r.value) && r.value.start == t.start && r.value.preset == Assigned(Some(AllTime)) &&
      r.value.end != null && r.value.end.gregorian.Value() == endNow && r.value.end.ToJalali() == lib.jalaliOf(endNow)
    ensures key == "preset" && v != FStr(Value(AllTime)) ==>
      var tag := if v.FStr? then v.s else "";
      (r.Err? <==> From(tag).Err? || tag == Value(Custom)) &&
      (r.Ok? ==> fresh(r.value) && r.value.preset == Assigned(Some(From(tag).value)))
    ensures key == "preset" && v != FStr(Value(AllTime)) && r.Ok? ==>
      var tag := if v.FStr? then v.s else "";
      From(tag).Ok? && PresetWindow(From(tag).value, startNow, endNow, lib).Ok? &&
      PresetWindow(From(tag).value, startNow, endNow, lib).value.start.Some? &&
      var w := PresetWindow(From(tag).value, startNow, endNow, lib).value;
      r.value.start != null && r.value.end != null &&
      r.value.start.gregorian.Value() == w.start.value && r.value.end.gregorian.Value() == w.end &&
      r.value.start.ToJalali() == lib.jalaliOf(w.start.value) && r.value.end.ToJalali() == lib.jalaliOf(w.end)
    ensures r.Ok? ==> r.value.PeriodMatchesDates()
  {
    if key == "start" {
      r := JalaliDateRange.New(FieldArg(v), BoundArg(t.end), lib);
    } else if key == "end" {
      r := JalaliDateRange.New(BoundArg(t.start), FieldArg(v), lib);
    } else if key == "preset" {
      if v == FStr(Value(AllTime)) {
        r := JalaliDateRange.AllTimeFrom(BoundArg(t.start), endNow, lib);
      } else {
        var tag := if v.FStr? then v.s else "";
        var p := From(tag);
        if p.Err? {
          return Err(p.error);
        }
        assert p.value != AllTime && (p.value == Custom <==> tag == Value(Custom)) by {
          FromInvertsValue(Custom);
        }
        r := JalaliDateRange.FromPreset(p.value, startNow, endNow, lib);
      }
    } else {
      r := Err(UnhandledMatch);
    }
  }

  /** `unset(&$target, $key)`: a new plain range without the named bound,
      or with both bounds and no preset; any other key fails the `match`. */
  method Unset(t: JalaliDateRange, key: string, lib: Library) returns (r: Result<JalaliDateRange>)
    ensures key != "start" && key != "end" && key != "preset" ==> r == Err(UnhandledMatch)
    ensures key == "start" || key == "end" || key == "preset" ==>
      r.Ok? && fresh(r.value) && r.value.preset == Uninitialized && r.value.PeriodMatchesDates()
    ensures key == "start" ==> r.Ok? && r.value.start == null && r.value.end == t.end
    ensures key == "end" ==> r.Ok? && r.value.start == t.start && r.value.end == null
    ensures key == "preset" ==> r.Ok? && r.value.start == t.start && r.value.end == t.end
  {
    if key == "start" {
      r := JalaliDateRange.New(Helpers.NullValue, BoundArg(t.end), lib);
    } else if key == "end" {
      r := JalaliDateRange.New(BoundArg(t.start), Helpers.NullValue, lib);
    } else if key == "preset" {
      r := JalaliDateRange.New(BoundArg(t.start), BoundArg(t.end), lib);
    } else {
      r := Err(UnhandledMatch);
    }
  }

  /** After any bound update the range can no longer be dehydrated: the
      new range's preset slot is unassigned. */
  lemma UpdatedRangeCannotBeSent(t: JalaliDateRange)
    requires t.preset == Uninitialized
    ensures UnwrapForValidation(t).Err? && Dehydrate(t).Err?
  {
  }
}
