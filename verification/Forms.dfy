/**
 The forms of time a document may use and the writers never do: a duration, a date, a local time in a named
 zone. What a reader makes of them, and which of them survive being written.
 */
module Forms {
  import opened Wrappers
  import opened Model
  import opened Escape
  import opened ContentLines
  import opened Civil
  import opened Durations
  import opened LocalTime
  import opened Ical
  import opened RoundTrip
  import opened Stable

  // ----- times that are read are whole seconds --------------------------------------

  /** Every zone is a whole number of seconds away from UTC, always. */
  ghost predicate WholeZones(lib: Library) {
    forall name :: lib.zones(name).Some? ==> WholeOffsets(lib.zones(name).value)
  }

  predicate WholeOffsets(z: Zone) {
    forall k | 0 <= k <= |z.transitions| :: Offset(z, k) % NANOS == 0
  }

  predicate WholeTime(t: Instant) {
    t % NANOS == 0
  }

  lemma {:induction false} EarliestWhole(z: Zone, local: int, k: nat)
    requires WholeOffsets(z) && WholeTime(local) && k <= |z.transitions|
    ensures EarliestFrom(z, local, k).Some? ==> WholeTime(EarliestFrom(z, local, k).value)
    decreases |z.transitions| - k
  {
    assert Offset(z, k) % NANOS == 0;
    if k < |z.transitions| {
      EarliestWhole(z, local, k + 1);
    }
  }

  lemma ToUtcWhole(local: int, offset: Option<int>, zone: Option<Zone>)
    requires WholeTime(local) && (offset.Some? ==> offset.value == 0) && (zone.Some? ==> WholeOffsets(zone.value))
    ensures WholeTime(ToUtc(local, offset, zone))
  {
    if zone.Some? {
      EarliestWhole(zone.value, local, 0);
      EarliestWhole(zone.value, local + HOUR, 0);
    }
  }

  lemma WholeInstant(c: Fields)
    requires 1 <= c.month <= 12
    ensures WholeTime(InstantOf(c))
  {
  }

  lemma ReadStampWhole(s: string)
    ensures ReadStamp(s).Some? ==> WholeTime(ReadStamp(s).value)
  {
    if ReadStamp(s).Some? {
      WholeInstant(Fields(ReadDigits(s[0..4]).value, ReadDigits(s[4..6]).value, ReadDigits(s[6..8]).value,
                          ReadDigits(s[9..11]).value, ReadDigits(s[11..13]).value, ReadDigits(s[13..15]).value));
    }
  }

  predicate WholeValue(v: Value) {
    v.DateTimeValue? ==> WholeTime(v.dt.local) && (v.dt.offset.Some? ==> v.dt.offset.value == 0)
  }

  lemma DateTimesWhole(raw: string)
    ensures forall k | 0 <= k < |DateTimeValues(raw)| :: WholeValue(DateTimeValues(raw)[k])
  {
    hide ReadStamp;
    ReadStampWhole(raw);
    ReadStampWhole(raw + "Z");
    ReadStampWhole(raw + "T000000Z");
  }

  lemma ReadTimeWhole(lines: seq<string>, prop: Property, lib: Library)
    requires IsStamp(prop) && WholeZones(lib)
    ensures var t := DateTimeProp(ReadEntries(lines, lib), prop, lib); t.Some? ==> WholeTime(t.value)
  {
    hide ReadEntries;
    hide DateTimeValues;
    var comp := ReadEntries(lines, lib);
    if DateTimeProp(comp, prop, lib).Some? {
      var raw := EntryHasRaw(lines, prop, lib);
      DateTimesWhole(raw);
      var e := FindProperty(comp, prop).value;
      assert e.values == DateTimeValues(raw) && WholeValue(e.values[0]);
      var dt := e.values[0].dt;
      ToUtcWhole(dt.local, dt.offset, if e.tzid.Some? then lib.zones(e.tzid.value) else None);
    }
  }

  lemma LengthWhole(span: Span)
    ensures WholeTime(Length(span))
  {
  }

  lemma SumWhole(a: int, b: int)
    requires WholeTime(a) && WholeTime(b)
    ensures WholeTime(a + b)
  {
  }

  lemma EndWhole(comp: Component, start: Instant, lib: Library)
    requires WholeTime(start)
    requires DateTimeProp(comp, Dtend, lib).Some? ==> WholeTime(DateTimeProp(comp, Dtend, lib).value)
    ensures WholeTime(EventEnd(comp, start, lib))
  {
    hide DateTimeProp;
    hide IsAllDayStart;
    hide Length;
    hide WholeTime;
    WholeDay();
    SumWhole(start, DAY * NANOS);
    match FirstValue(comp, Duration)
    case Some(DurationValue(span)) =>
      LengthWhole(span);
      SumWhole(start, Length(span));
    case _ =>
  }

  lemma WholeDay()
    ensures WholeTime(DAY * NANOS)
  {
  }

  lemma ParsedTimesWhole(doc: string, lib: Library)
    requires WholeZones(lib) && ParseEvent(doc, lib).Ok?
    ensures WholeTime(ParseEvent(doc, lib).value.start) && WholeTime(ParseEvent(doc, lib).value.end)
  {
    hide DateTimeProp;
    hide EventEnd;
    hide WholeTime;
    var lines := FindComponent(ReadLines(doc).value, "VEVENT").value;
    ReadTimeWhole(lines, Dtstart, lib);
    ReadTimeWhole(lines, Dtend, lib);
    EndWhole(ReadEntries(lines, lib), ParseEvent(doc, lib).value.start, lib);
  }

  /**
   Of all documents, whatever forms they use: what was read survives being written exactly when it starts and
   ends in a year of four digits.
   */
  lemma SurvivesByYear(doc: string, lib: Library)
    requires Lawful(lib) && WholeZones(lib) && ParseEvent(doc, lib).Ok?
    ensures var ev := ParseEvent(doc, lib).value;
            ParseEvent(EventDoc(ev), lib) == Ok(ev) <==> FourDigitYear(ev.start) && FourDigitYear(ev.end)
  {
    hide ParseEvent;
    hide EventDoc;
    ParsedTimesWhole(doc, lib);
    ParsedEventSurvives(doc, lib);
  }

  // ----- an end that cannot be written ----------------------------------------------

  lemma TwoHoursLater()
    ensures InstantOf(Fields(9999, 12, 31, 23, 0, 0)) + 7200 * NANOS == InstantOf(Fields(10000, 1, 1, 1, 0, 0))
  {
  }

  /** Two hours from 23:00 on 31 December 9999 end where no timestamp can say it. */
  lemma LastEveningEndsUnwritable()
    ensures ValidFields(Fields(9999, 12, 31, 23, 0, 0))
    ensures var start, span := InstantOf(Fields(9999, 12, 31, 23, 0, 0)), Span(0, 0, 2, 0, 0, false);
            Stampable(start) && !Stampable(start + Length(span))
  {
    hide InstantOf;
    hide FieldsOf;
    var a, b := Fields(9999, 12, 31, 23, 0, 0), Fields(10000, 1, 1, 1, 0, 0);
    TwoHoursLater();
    WholeInstant(a);
    FieldsInvertInstant(InstantOf(a), a);
    FieldsInvertInstant(InstantOf(b), b);
  }
}
