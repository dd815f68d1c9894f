/**
 Whole-document round trips: what the reader returns for a document the writers made, and exactly when
 that is what was written.
 */
module RoundTrip {
  import opened Wrappers
  import opened Model
  import opened Escape
  import opened Fold
  import opened ContentLines
  import opened Civil
  import opened LocalTime
  import opened Ical

  // ----- lines survive --------------------------------------------------------------

  /** The properties a reader knows by name. */
  predicate Known(prop: Property) {
    !prop.Other?
  }

  predicate AllKnown(contents: seq<Content>) {
    forall k | 0 <= k < |contents| :: Known(contents[k].prop)
  }

  predicate AllClean(contents: seq<Content>) {
    forall k | 0 <= k < |contents| :: !HasCrlf(contents[k].raw)
  }

  lemma NameFacts(prop: Property)
    requires Known(prop)
    ensures var name := PropertyName(prop);
            && name != "" && name[0] != 'B' && name[0] != 'E' && !StartsWsp(name)
            && '\r' !in name && ':' !in name && ';' !in name
            && PropertyOf(name) == prop
  {
  }

  lemma {:induction false} CrlfAfter(a: string, b: string)
    requires '\r' !in a
    ensures HasCrlf(a + b) <==> HasCrlf(b)
  {
    if a == "" {
      assert a + b == b;
    } else {
      assert (a + b)[0] == a[0] && (a + b)[1..] == a[1..] + b;
      CrlfAfter(a[1..], b);
      if a[1..] + b == [] {
        assert b == "";
      }
    }
  }

  lemma {:induction false} NoCrNoCrlf(a: string)
    requires '\r' !in a
    ensures !HasCrlf(a)
  {
    CrlfAfter(a, "");
    assert a + "" == a;
  }

  lemma LineFacts(c: Content)
    requires Known(c.prop)
    ensures HasCrlf(LineOf(c)) <==> HasCrlf(c.raw)
    ensures LineOf(c) != "" && !StartsWsp(LineOf(c))
    ensures !("BEGIN:" <= LineOf(c)) && !("END:" <= LineOf(c))
  {
    var name := PropertyName(c.prop);
    NameFacts(c.prop);
    CrlfAfter(name + ":", c.raw);
    assert LineOf(c)[0] == name[0];
  }

  lemma {:induction false} LinesOfIndex(contents: seq<Content>, k: nat)
    requires k < |contents|
    ensures |LinesOf(contents)| == |contents| && LinesOf(contents)[k] == LineOf(contents[k])
  {
    if k > 0 {
      LinesOfIndex(contents[1..], k - 1);
    } else if |contents| > 1 {
      LinesOfIndex(contents[1..], 0);
    }
  }

  lemma {:induction false} LinesFacts(contents: seq<Content>)
    requires AllKnown(contents)
    ensures |LinesOf(contents)| == |contents|
    ensures NoneBroken(LinesOf(contents)) <==> AllClean(contents)
    ensures NoneIndented(LinesOf(contents))
  {
    assert contents != [] ==> |LinesOf(contents)| == |contents| by {
      if contents != [] {
        LinesOfIndex(contents, 0);
      }
    }
    forall k | 0 <= k < |contents|
      ensures LinesOf(contents)[k] == LineOf(contents[k])
      ensures HasCrlf(LinesOf(contents)[k]) <==> HasCrlf(contents[k].raw)
      ensures LinesOf(contents)[k] != "" && !StartsWsp(LinesOf(contents)[k])
    {
      LinesOfIndex(contents, k);
      LineFacts(contents[k]);
    }
  }

  predicate Kind(kind: string) {
    kind == VEVENT || kind == VTODO
  }

  predicate PlainLine(line: string) {
    line != "" && !StartsWsp(line) && !HasCrlf(line)
  }

  lemma PlainWithoutCr(line: string)
    requires line != "" && !StartsWsp(line) && '\r' !in line
    ensures PlainLine(line)
  {
    NoCrNoCrlf(line);
  }

  lemma HeaderLineFacts(kind: string, k: nat)
    requires Kind(kind) && k < 4
    ensures PlainLine(HeaderLines(kind)[k])
  {
    hide PlainLine;
    match k {
      case 0 => PlainWithoutCr("BEGIN:VCALENDAR");
      case 1 => PlainWithoutCr("VERSION:2.0");
      case 2 => PlainWithoutCr("PRODID:-//mcp-caldav-fastmail//EN");
      case _ => PlainWithoutCr("BEGIN:" + kind);
    }
  }

  lemma FooterLineFacts(kind: string, k: nat)
    requires Kind(kind) && k < 2
    ensures PlainLine(FooterLines(kind)[k])
  {
    hide PlainLine;
    match k {
      case 0 => PlainWithoutCr("END:" + kind);
      case _ => PlainWithoutCr("END:VCALENDAR");
    }
  }

  lemma DocumentFacts(kind: string, contents: seq<Content>)
    requires Kind(kind) && AllKnown(contents)
    ensures NoneIndented(DocumentLines(kind, contents))
    ensures NoneBroken(DocumentLines(kind, contents)) <==> AllClean(contents)
  {
    LinesFacts(contents);
    var h, m, f := HeaderLines(kind), LinesOf(contents), FooterLines(kind);
    var all := DocumentLines(kind, contents);
    forall k | 0 <= k < |all|
      ensures all[k] != "" && !StartsWsp(all[k])
      ensures HasCrlf(all[k]) ==> 4 <= k < 4 + |m| && HasCrlf(m[k - 4])
    {
      if k < 4 {
        HeaderLineFacts(kind, k);
      } else if k >= 4 + |m| {
        FooterLineFacts(kind, k - 4 - |m|);
        assert all[k] == f[k - 4 - |m|];
      } else {
        assert all[k] == m[k - 4];
      }
    }
    forall k | 0 <= k < |m| ensures m[k] == all[k + 4] {}
  }

  /** The reader gets back the intended lines of a document exactly when no raw value holds a line break. */
  lemma ReadDocument(kind: string, contents: seq<Content>)
    requires Kind(kind) && AllKnown(contents)
    ensures ReadLines(FoldedAll(DocumentLines(kind, contents))) == Some(DocumentLines(kind, contents)) <==>
            AllClean(contents)
  {
    DocumentFacts(kind, contents);
    ReadInvertsWrite(DocumentLines(kind, contents));
  }

  // ----- the component is found -----------------------------------------------------

  lemma {:induction false} ComponentLinesOf(contents: seq<Content>, more: seq<string>)
    requires AllKnown(contents)
    ensures ComponentLines(LinesOf(contents) + more, 0) == LinesOf(contents) + ComponentLines(more, 0)
  {
    hide LineOf;
    hide ComponentLines;
    if contents == [] {
      assert LinesOf(contents) + more == more;
      assert LinesOf(contents) + ComponentLines(more, 0) == ComponentLines(more, 0);
    } else {
      var line, later := LineOf(contents[0]), LinesOf(contents[1..]);
      LineFacts(contents[0]);
      ComponentLinesOf(contents[1..], more);
      PlainLineKept(line, later + more);
      assert LinesOf(contents) + more == [line] + (later + more);
      assert [line] + (later + ComponentLines(more, 0)) == LinesOf(contents) + ComponentLines(more, 0);
    }
  }

  lemma PlainLineKept(line: string, lines: seq<string>)
    requires !("BEGIN:" <= line) && !("END:" <= line)
    ensures ComponentLines([line] + lines, 0) == [line] + ComponentLines(lines, 0)
  {
    assert ([line] + lines)[1..] == lines;
  }

  lemma FooterEnds(kind: string)
    ensures ComponentLines(FooterLines(kind), 0) == []
  {
    assert FooterLines(kind)[0][0] == 'E';
  }

  lemma FindSkips(lines: seq<string>, kind: string)
    requires lines != [] && lines[0] != "BEGIN:" + kind
    ensures FindComponent(lines, kind) == FindComponent(lines[1..], kind)
  {
  }

  /** The component starts with the lines of `contents`; what follows them decides how it goes on. */
  lemma FindBehindHeader(kind: string, contents: seq<Content>, more: seq<string>)
    requires Kind(kind) && AllKnown(contents)
    ensures FindComponent(HeaderLines(kind) + (LinesOf(contents) + more), kind) ==
            Some(LinesOf(contents) + ComponentLines(more, 0))
  {
    var all := HeaderLines(kind) + (LinesOf(contents) + more);
    assert all[0] == "BEGIN:VCALENDAR" && |"BEGIN:" + kind| < |"BEGIN:VCALENDAR"|;
    FindSkips(all, kind);
    assert all[1..][0] == "VERSION:2.0" && "VERSION:2.0"[0] == 'V' && ("BEGIN:" + kind)[0] == 'B';
    FindSkips(all[1..], kind);
    assert all[1..][1..] == all[2..];
    assert all[2..][0][0] == 'P';
    FindSkips(all[2..], kind);
    assert all[2..][1..] == all[3..];
    assert all[3..][0] == "BEGIN:" + kind && all[3..][1..] == LinesOf(contents) + more;
    ComponentLinesOf(contents, more);
  }

  lemma FindInDocument(kind: string, contents: seq<Content>)
    requires Kind(kind) && AllKnown(contents)
    ensures FindComponent(DocumentLines(kind, contents), kind) == Some(LinesOf(contents))
  {
    FindBehindHeader(kind, contents, FooterLines(kind));
    FooterEnds(kind);
    assert DocumentLines(kind, contents) == HeaderLines(kind) + (LinesOf(contents) + FooterLines(kind));
    assert LinesOf(contents) + [] == LinesOf(contents);
  }

  // ----- properties are found -------------------------------------------------------

  function FirstRaw(contents: seq<Content>, prop: Property): Option<string> {
    if contents == [] then None
    else if contents[0].prop == prop then Some(contents[0].raw)
    else FirstRaw(contents[1..], prop)
  }

  lemma {:induction false} NameLenOf(name: string, rest: string)
    requires ':' !in name && ';' !in name && (rest != "" ==> rest[0] == ':' || rest[0] == ';')
    ensures NameLen(name + rest) == |name|
  {
    if name == "" {
      assert name + rest == rest;
    } else {
      assert (name + rest)[0] == name[0] && (name + rest)[1..] == name[1..] + rest;
      NameLenOf(name[1..], rest);
    }
  }

  lemma ReadEntryOf(c: Content, lib: Library)
    requires Known(c.prop)
    ensures ReadEntry(LineOf(c), lib) == Entry(c.prop, None, ReadValues(c.prop, c.raw, lib))
  {
    var name := PropertyName(c.prop);
    NameFacts(c.prop);
    NameLenOf(name, ":" + c.raw);
    assert LineOf(c) == name + (":" + c.raw);
    var line := LineOf(c);
    assert line[..|name|] == name && line[|name|..] == ":" + c.raw && line[|name| + 1..] == c.raw;
    assert line[|name|..|name|] == "";
  }

  /** The first line of a property decides, whatever lines follow. */
  lemma {:induction false} FindPropertyAmong(contents: seq<Content>, more: seq<string>, prop: Property, lib: Library)
    requires AllKnown(contents)
    ensures FindProperty(ReadEntries(LinesOf(contents) + more, lib), prop) ==
            var raw := FirstRaw(contents, prop);
            if raw.Some? then Some(Entry(prop, None, ReadValues(prop, raw.value, lib)))
            else FindProperty(ReadEntries(more, lib), prop)
  {
    if contents == [] {
      assert LinesOf(contents) + more == more;
    } else {
      hide ReadEntry;
      hide ReadValues;
      var line, rest := LineOf(contents[0]), LinesOf(contents[1..]) + more;
      ReadEntryOf(contents[0], lib);
      FindPropertyAmong(contents[1..], more, prop, lib);
      assert LinesOf(contents) + more == [line] + rest && ([line] + rest)[1..] == rest;
      var first := ReadEntry(line, lib);
      assert ReadEntries([line] + rest, lib) == [first] + ReadEntries(rest, lib);
      assert ([first] + ReadEntries(rest, lib))[1..] == ReadEntries(rest, lib);
    }
  }

  lemma FindPropertyOf(contents: seq<Content>, prop: Property, lib: Library)
    requires AllKnown(contents)
    ensures FindProperty(ReadEntries(LinesOf(contents), lib), prop) ==
            var raw := FirstRaw(contents, prop);
            if raw.Some? then Some(Entry(prop, None, ReadValues(prop, raw.value, lib))) else None
  {
    FindPropertyAmong(contents, [], prop, lib);
    assert LinesOf(contents) + [] == LinesOf(contents);
  }

  lemma {:induction false} FirstRawConcat(a: seq<Content>, b: seq<Content>, prop: Property)
    ensures FirstRaw(a + b, prop) == OrElse(FirstRaw(a, prop), FirstRaw(b, prop))
  {
    if a == [] {
      assert a + b == b;
    } else {
      assert (a + b)[0] == a[0] && (a + b)[1..] == a[1..] + b;
      FirstRawConcat(a[1..], b, prop);
    }
  }

  lemma {:induction false} FirstRawOf(item: Item, props: seq<Property>, prop: Property)
    ensures FirstRaw(ContentsOf(item, props), prop) == if prop in props then RawOf(item, prop) else None
  {
    if props != [] {
      var init, last := props[..|props| - 1], props[|props| - 1];
      FirstRawOf(item, init, prop);
      FirstRawConcat(ContentsOf(item, init), RawContent(last, RawOf(item, last)), prop);
      assert props == init + [last];
    }
  }

  lemma {:induction false} ContentsKnown(item: Item, props: seq<Property>)
    requires forall p | p in props :: Known(p)
    ensures AllKnown(ContentsOf(item, props))
  {
    if props != [] {
      ContentsKnown(item, props[..|props| - 1]);
    }
  }

  /** The raw values an object contributes to its document without escaping hold no line break. */
  predicate CleanOption(raw: Option<string>) {
    raw.Some? ==> !HasCrlf(raw.value)
  }

  lemma AllCleanAppend(s: seq<Content>, p: Property, raw: Option<string>)
    ensures AllClean(s + RawContent(p, raw)) <==> AllClean(s) && CleanOption(raw)
  {
    var all := s + RawContent(p, raw);
    forall k | 0 <= k < |s| ensures all[k] == s[k] {}
    if raw.Some? {
      assert all[|s|] == Content(p, raw.value);
    }
  }

  predicate OptionsClean(item: Item, props: seq<Property>) {
    forall p | p in props :: CleanOption(RawOf(item, p))
  }

  lemma OptionsCleanSnoc(item: Item, init: seq<Property>, last: Property)
    ensures OptionsClean(item, init + [last]) <==> OptionsClean(item, init) && CleanOption(RawOf(item, last))
  {
    forall p ensures p in init + [last] <==> p in init || p == last {}
  }

  lemma {:induction false} ContentsClean(item: Item, props: seq<Property>)
    ensures AllClean(ContentsOf(item, props)) <==> OptionsClean(item, props)
  {
    if props != [] {
      var init, last := props[..|props| - 1], props[|props| - 1];
      ContentsClean(item, init);
      AllCleanAppend(ContentsOf(item, init), last, RawOf(item, last));
      OptionsCleanSnoc(item, init, last);
      assert props == init + [last];
    }
  }

  lemma EventFirstRaw(ev: Event, prop: Property)
    ensures FirstRaw(EventContents(ev), prop) == RawOf(EventItem(ev), prop)
    ensures AllKnown(EventContents(ev))
  {
    FirstRawOf(EventItem(ev), EVENT_PROPS, prop);
    ContentsKnown(EventItem(ev), EVENT_PROPS);
    EventPropsAll(ev, prop);
  }

  lemma EventPropsAll(ev: Event, prop: Property)
    ensures prop !in EVENT_PROPS ==> RawOf(EventItem(ev), prop) == None
  {
    assert Uid == EVENT_PROPS[0] && Summary == EVENT_PROPS[1] && Dtstart == EVENT_PROPS[2] && Dtend == EVENT_PROPS[3];
    assert Location == EVENT_PROPS[4] && Description == EVENT_PROPS[5] && Rrule == EVENT_PROPS[6];
  }

  lemma TodoFirstRaw(td: Todo, prop: Property)
    ensures FirstRaw(TodoContents(td), prop) == RawOf(TodoItem(td), prop)
    ensures AllKnown(TodoContents(td))
  {
    FirstRawOf(TodoItem(td), TODO_PROPS, prop);
    ContentsKnown(TodoItem(td), TODO_PROPS);
    TodoPropsAll(td, prop);
  }

  lemma TodoPropsAll(td: Todo, prop: Property)
    ensures prop !in TODO_PROPS ==> RawOf(TodoItem(td), prop) == None
  {
    assert Uid == TODO_PROPS[0] && Summary == TODO_PROPS[1] && Due == TODO_PROPS[2] && Status == TODO_PROPS[3];
    assert Description == TODO_PROPS[4] && Priority == TODO_PROPS[5];
  }

  // ----- values come back -----------------------------------------------------------

  lemma ReadTextValue(s: string)
    ensures TextValues(SplitValues(Escaped(s))) == [TextValue(WithoutCr(s))]
  {
    FirstTextOfEscaped(s);
    var parts := [Escaped(s)];
    assert parts[1..] == [];
    assert TextValues(parts) == [TextValue(WithoutCr(s))] + TextValues([]);
  }

  predicate IsText(prop: Property) {
    prop == Uid || prop == Summary || prop == Location || prop == Description
  }

  predicate IsStamp(prop: Property) {
    prop == Dtstart || prop == Dtend || prop == Due
  }

  function WithoutCrOption(text: Option<string>): Option<string> {
    if text.Some? then Some(WithoutCr(text.value)) else None
  }

  lemma ReadTextProp(contents: seq<Content>, prop: Property, text: Option<string>, lib: Library)
    requires AllKnown(contents) && IsText(prop) && FirstRaw(contents, prop) == EscapedOption(text)
    ensures TextProp(ReadEntries(LinesOf(contents), lib), prop) == WithoutCrOption(text)
  {
    FindPropertyOf(contents, prop, lib);
    if text.Some? {
      ReadTextValue(text.value);
    }
  }

  /** What a reader makes of text as long as a printed timestamp: a UTC date-time or nothing. */
  function StampValues(raw: string): seq<Value> {
    var t := ReadStamp(raw);
    if t.Some? then [DateTimeValue(PartialDateTime(t.value, true, Some(0)))] else []
  }

  /** A property whose entry holds at most one UTC date-time. */
  lemma DateTimeOfEntry(comp: Component, prop: Property, raw: string, lib: Library)
    requires FindProperty(comp, prop) == Some(Entry(prop, None, StampValues(raw)))
    ensures DateTimeProp(comp, prop, lib) == ReadStamp(raw)
    ensures prop == Dtstart ==> !IsAllDayStart(comp)
  {
  }

  lemma StampValuesOf(prop: Property, raw: string, lib: Library)
    requires IsStamp(prop) && |raw| >= 16
    ensures ReadValues(prop, raw, lib) == StampValues(raw)
  {
  }

  lemma ReadStampProp(contents: seq<Content>, prop: Property, raw: Option<string>, lib: Library)
    requires AllKnown(contents) && IsStamp(prop) && FirstRaw(contents, prop) == raw
    requires raw.Some? ==> |raw.value| >= 16
    ensures DateTimeProp(ReadEntries(LinesOf(contents), lib), prop, lib) ==
            if raw.Some? then ReadStamp(raw.value) else None
    ensures prop == Dtstart ==> !IsAllDayStart(ReadEntries(LinesOf(contents), lib))
  {
    var comp := ReadEntries(LinesOf(contents), lib);
    FindPropertyOf(contents, prop, lib);
    if raw.Some? {
      StampValuesOf(prop, raw.value, lib);
      DateTimeOfEntry(comp, prop, raw.value, lib);
    }
  }

  lemma ReadRuleProp(contents: seq<Content>, raw: Option<string>, lib: Library)
    requires AllKnown(contents) && FirstRaw(contents, Rrule) == raw
    ensures RruleProp(ReadEntries(LinesOf(contents), lib)) == if raw.Some? then lib.canon(raw.value) else None
  {
    FindPropertyOf(contents, Rrule, lib);
  }

  lemma NoDuration(contents: seq<Content>, lib: Library)
    requires AllKnown(contents) && FirstRaw(contents, Duration) == None
    ensures DurationProp(ReadEntries(LinesOf(contents), lib)) == None
  {
    FindPropertyOf(contents, Duration, lib);
  }

  lemma ReadStatusProp(contents: seq<Content>, raw: Option<string>, lib: Library)
    requires AllKnown(contents) && FirstRaw(contents, Status) == raw
    ensures StatusProp(ReadEntries(LinesOf(contents), lib)) ==
            if raw.Some? && raw.value in STATUS_TOKENS then raw else None
  {
    FindPropertyOf(contents, Status, lib);
  }

  lemma ReadPriorityProp(contents: seq<Content>, priority: Option<U8>, lib: Library)
    requires AllKnown(contents) && FirstRaw(contents, Priority) == PriorityText(priority)
    ensures PriorityProp(ReadEntries(LinesOf(contents), lib)) == priority
  {
    FindPropertyOf(contents, Priority, lib);
    if priority.Some? {
      ReadInvertsDecimal(priority.value);
    }
  }

  lemma ParseWritten(kind: string, contents: seq<Content>, lib: Library)
    requires Kind(kind) && AllKnown(contents) && AllClean(contents)
    ensures ParseComponent(FoldedAll(DocumentLines(kind, contents)), kind, lib) ==
            Ok(ReadEntries(LinesOf(contents), lib))
  {
    ReadDocument(kind, contents);
    FindInDocument(kind, contents);
    assert DocumentLines(kind, contents)[0] == "BEGIN:VCALENDAR";
  }

  // ----- events ---------------------------------------------------------------------

  lemma {:induction false} PaddedClean(n: nat, width: nat)
    ensures '\r' !in Padded(n, width) && '\r' !in Decimal(n)
  {
    DigitsAreDigits(n, width);
  }

  lemma YearTextClean(y: int)
    ensures '\r' !in YearText(y)
  {
    var n: nat := if y < 0 then -y else y;
    PaddedClean(n, 4);
  }

  lemma StampTextClean(c: Fields)
    requires ValidFields(c)
    ensures '\r' !in StampText(c)
  {
    YearTextClean(c.year);
    PaddedClean(c.month, 2);
    PaddedClean(c.day, 2);
    PaddedClean(c.hour, 2);
    PaddedClean(c.minute, 2);
    PaddedClean(c.second, 2);
  }

  lemma StampClean(t: Instant)
    ensures !HasCrlf(Stamp(t))
  {
    StampTextClean(FieldsOf(t));
    NoCrNoCrlf(Stamp(t));
  }

  lemma EscapedClean(s: string)
    ensures !HasCrlf(Escaped(s))
  {
    EscapedIsSafe(s);
    NoCrNoCrlf(Escaped(s));
  }

  lemma OptionClean(text: Option<string>)
    ensures CleanOption(EscapedOption(text))
  {
    if text.Some? {
      EscapedClean(text.value);
    }
  }

  lemma StampOptionClean(t: Option<Instant>)
    ensures CleanOption(StampOption(t))
  {
    if t.Some? {
      StampClean(t.value);
    }
  }

  lemma EventValueClean(ev: Event, prop: Property)
    requires prop != Rrule
    ensures CleanOption(RawOf(EventItem(ev), prop))
  {
    match prop {
      case Uid => OptionClean(Some(ev.uid));
      case Summary => OptionClean(Some(ev.summary));
      case Dtstart => StampOptionClean(Some(ev.start));
      case Dtend => StampOptionClean(Some(ev.end));
      case Location => OptionClean(ev.location);
      case Description => OptionClean(ev.description);
      case _ =>
    }
  }

  lemma TodoValueClean(td: Todo, prop: Property)
    requires prop != Status
    ensures CleanOption(RawOf(TodoItem(td), prop))
  {
    match prop {
      case Uid => OptionClean(Some(td.uid));
      case Summary => OptionClean(Some(td.summary));
      case Due => StampOptionClean(td.due);
      case Description => OptionClean(td.description);
      case Priority => PriorityClean(td.priority);
      case _ =>
    }
  }

  lemma PriorityClean(priority: Option<U8>)
    ensures CleanOption(PriorityText(priority))
  {
    if priority.Some? {
      PaddedClean(priority.value, 0);
      NoCrNoCrlf(Decimal(priority.value));
    }
  }

  lemma EventClean(ev: Event)
    ensures AllClean(EventContents(ev)) <==> CleanOption(ev.rrule)
  {
    ContentsClean(EventItem(ev), EVENT_PROPS);
    assert EVENT_PROPS[6] == Rrule;
    forall p | p in EVENT_PROPS && p != Rrule ensures CleanOption(RawOf(EventItem(ev), p)) {
      EventValueClean(ev, p);
    }
  }

  /**
   Lines of an event document: a reader sees exactly the intended lines if and only if the RRULE text, the
   one value written as it is, has no line break of its own.
   */
  lemma EventLinesSurvive(ev: Event)
    ensures ReadLines(EventDoc(ev)) == Some(EventLines(ev)) <==> CleanOption(ev.rrule)
  {
    EventFirstRaw(ev, Uid);
    EventClean(ev);
    ReadDocument(VEVENT, EventContents(ev));
  }

  /** What a reader makes of the document written for `ev`, its two times as read given. */
  function ReadBack(ev: Event, start: Instant, end: Instant, lib: Library): Event {
    Event(WithoutCr(ev.uid), None, None, WithoutCr(ev.summary), start, end,
          WithoutCrOption(ev.location), WithoutCrOption(ev.description),
          if ev.rrule.Some? then lib.canon(ev.rrule.value) else None, false)
  }

  function EventComponent(ev: Event, lib: Library): Component {
    ReadEntries(LinesOf(EventContents(ev)), lib)
  }

  lemma EventText(ev: Event, prop: Property, text: Option<string>, lib: Library)
    requires IsText(prop) && RawOf(EventItem(ev), prop) == EscapedOption(text)
    ensures TextProp(EventComponent(ev, lib), prop) == WithoutCrOption(text)
  {
    EventFirstRaw(ev, prop);
    ReadTextProp(EventContents(ev), prop, text, lib);
  }

  lemma EventTexts(ev: Event, comp: Component, lib: Library)
    requires comp == EventComponent(ev, lib)
    ensures TextProp(comp, Uid) == Some(WithoutCr(ev.uid))
    ensures TextProp(comp, Summary) == Some(WithoutCr(ev.summary))
    ensures TextProp(comp, Location) == WithoutCrOption(ev.location)
    ensures TextProp(comp, Description) == WithoutCrOption(ev.description)
  {
    EventText(ev, Uid, Some(ev.uid), lib);
    EventText(ev, Summary, Some(ev.summary), lib);
    EventText(ev, Location, ev.location, lib);
    EventText(ev, Description, ev.description, lib);
  }

  lemma EventStamp(ev: Event, prop: Property, raw: string, lib: Library)
    requires IsStamp(prop) && RawOf(EventItem(ev), prop) == Some(raw) && |raw| >= 16
    ensures DateTimeProp(EventComponent(ev, lib), prop, lib) == ReadStamp(raw)
    ensures prop == Dtstart ==> !IsAllDayStart(EventComponent(ev, lib))
  {
    EventFirstRaw(ev, prop);
    ReadStampProp(EventContents(ev), prop, Some(raw), lib);
  }

  lemma EventRule(ev: Event, lib: Library)
    ensures DurationProp(EventComponent(ev, lib)) == None
    ensures RruleProp(EventComponent(ev, lib)) == if ev.rrule.Some? then lib.canon(ev.rrule.value) else None
  {
    EventFirstRaw(ev, Duration);
    NoDuration(EventContents(ev), lib);
    EventFirstRaw(ev, Rrule);
    ReadRuleProp(EventContents(ev), ev.rrule, lib);
  }

  lemma EventStartRead(ev: Event, raw: string, lib: Library)
    requires raw == Stamp(ev.start)
    ensures DateTimeProp(EventComponent(ev, lib), Dtstart, lib) == ReadStamp(raw)
    ensures !IsAllDayStart(EventComponent(ev, lib))
  {
    StampLength(ev.start);
    EventStamp(ev, Dtstart, raw, lib);
  }

  lemma EventEndRead(ev: Event, raw: string, lib: Library)
    requires raw == Stamp(ev.end)
    ensures DateTimeProp(EventComponent(ev, lib), Dtend, lib) == ReadStamp(raw)
  {
    StampLength(ev.end);
    EventStamp(ev, Dtend, raw, lib);
  }

  lemma EventTimes(ev: Event, comp: Component, lib: Library, first: string, last: string)
    requires comp == EventComponent(ev, lib) && first == Stamp(ev.start) && last == Stamp(ev.end)
    ensures DateTimeProp(comp, Dtstart, lib) == ReadStamp(first)
    ensures DateTimeProp(comp, Dtend, lib) == ReadStamp(last)
    ensures !IsAllDayStart(comp)
  {
    EventStartRead(ev, first, lib);
    EventEndRead(ev, last, lib);
  }

  lemma EventOfComponent(ev: Event, comp: Component, lib: Library, start: Option<Instant>, end: Option<Instant>)
    requires TextProp(comp, Uid) == Some(WithoutCr(ev.uid))
    requires TextProp(comp, Summary) == Some(WithoutCr(ev.summary))
    requires TextProp(comp, Location) == WithoutCrOption(ev.location)
    requires TextProp(comp, Description) == WithoutCrOption(ev.description)
    requires DateTimeProp(comp, Dtstart, lib) == start && DateTimeProp(comp, Dtend, lib) == end
    requires DurationProp(comp) == None && !IsAllDayStart(comp)
    requires RruleProp(comp) == if ev.rrule.Some? then lib.canon(ev.rrule.value) else None
    ensures EventFromComponent(comp, lib) ==
            if start.None? then Err("VEVENT missing DTSTART")
            else Ok(ReadBack(ev, start.value, if end.Some? then end.value else start.value, lib))
  {
  }

  lemma EventReadBack(ev: Event, lib: Library, start: Option<Instant>, end: Option<Instant>)
    requires CleanOption(ev.rrule)
    requires start == ReadStamp(Stamp(ev.start)) && end == ReadStamp(Stamp(ev.end))
    ensures ParseEvent(EventDoc(ev), lib) ==
            if start.None? then Err("VEVENT missing DTSTART")
            else Ok(ReadBack(ev, start.value, if end.Some? then end.value else start.value, lib))
  {
    var comp := EventComponent(ev, lib);
    EventClean(ev);
    EventFirstRaw(ev, Uid);
    ParseWritten(VEVENT, EventContents(ev), lib);
    EventTexts(ev, comp, lib);
    EventTimes(ev, comp, lib, Stamp(ev.start), Stamp(ev.end));
    EventRule(ev, lib);
    EventOfComponent(ev, comp, lib, start, end);
  }

  /** What parsing returns for the document of any event. */
  lemma EventParsed(ev: Event, lib: Library)
    requires CleanOption(ev.rrule)
    ensures ParseEvent(EventDoc(ev), lib) ==
            var start, end := ReadStamp(Stamp(ev.start)), ReadStamp(Stamp(ev.end));
            if start.None? then Err("VEVENT missing DTSTART")
            else Ok(ReadBack(ev, start.value, if end.Some? then end.value else start.value, lib))
  {
    EventReadBack(ev, lib, ReadStamp(Stamp(ev.start)), ReadStamp(Stamp(ev.end)));
  }

  /**
   Round trip of a whole event: every text comes back without its carriage returns, the rule in the
   library's spelling, and both times unchanged, exactly when both are whole seconds of four-digit years.
   */
  lemma EventRoundTrip(ev: Event, lib: Library)
    requires CleanOption(ev.rrule)
    ensures ParseEvent(EventDoc(ev), lib) == Ok(ReadBack(ev, ev.start, ev.end, lib)) <==>
            Stampable(ev.start) && Stampable(ev.end)
  {
    EventReadBack(ev, lib, ReadStamp(Stamp(ev.start)), ReadStamp(Stamp(ev.end)));
    StampRoundTrip(ev.start);
    StampRoundTrip(ev.end);
  }

  /** No physical line of an event or task document exceeds 75 octets, whatever the fields hold. */
  lemma DocumentWithin75(ev: Event, td: Todo)
    ensures SplitLines(EventDoc(ev)).Some? && Within75(SplitLines(EventDoc(ev)).value)
    ensures SplitLines(TodoDoc(td)).Some? && Within75(SplitLines(TodoDoc(td)).value)
  {
    PhysicalLinesWithin(EventLines(ev));
    PhysicalLinesWithin(TodoLines(td));
  }

  // ----- tasks ----------------------------------------------------------------------

  lemma TodoClean(td: Todo)
    ensures AllClean(TodoContents(td)) <==> CleanOption(td.status)
  {
    ContentsClean(TodoItem(td), TODO_PROPS);
    assert TODO_PROPS[3] == Status && RawOf(TodoItem(td), Status) == td.status;
    forall p | p in TODO_PROPS && p != Status ensures CleanOption(RawOf(TodoItem(td), p)) {
      TodoValueClean(td, p);
    }
  }

  lemma TodoLinesSurvive(td: Todo)
    ensures ReadLines(TodoDoc(td)) == Some(TodoLines(td)) <==> CleanOption(td.status)
  {
    TodoFirstRaw(td, Uid);
    TodoClean(td);
    ReadDocument(VTODO, TodoContents(td));
  }

  function TodoReadBack(td: Todo, due: Option<Instant>, status: Option<string>): Todo {
    Todo(WithoutCr(td.uid), None, None, WithoutCr(td.summary), due, status, WithoutCrOption(td.description),
         td.priority)
  }

  /** The due date and the status a reader finds. */
  function DueBack(td: Todo): Option<Instant> {
    if td.due.Some? then ReadStamp(Stamp(td.due.value)) else None
  }

  function StatusBack(td: Todo): Option<string> {
    if td.status.Some? && td.status.value in STATUS_TOKENS then td.status else None
  }

  function TodoComponent(td: Todo, lib: Library): Component {
    ReadEntries(LinesOf(TodoContents(td)), lib)
  }

  lemma TodoText(td: Todo, prop: Property, text: Option<string>, lib: Library)
    requires IsText(prop) && RawOf(TodoItem(td), prop) == EscapedOption(text)
    ensures TextProp(TodoComponent(td, lib), prop) == WithoutCrOption(text)
  {
    TodoFirstRaw(td, prop);
    ReadTextProp(TodoContents(td), prop, text, lib);
  }

  lemma TodoTexts(td: Todo, comp: Component, lib: Library)
    requires comp == TodoComponent(td, lib)
    ensures TextProp(comp, Uid) == Some(WithoutCr(td.uid))
    ensures TextProp(comp, Summary) == Some(WithoutCr(td.summary))
    ensures TextProp(comp, Description) == WithoutCrOption(td.description)
  {
    TodoText(td, Uid, Some(td.uid), lib);
    TodoText(td, Summary, Some(td.summary), lib);
    TodoText(td, Description, td.description, lib);
  }

  lemma StampOptionLong(t: Option<Instant>)
    ensures StampOption(t).Some? ==> |StampOption(t).value| >= 16
  {
    if t.Some? {
      StampLength(t.value);
    }
  }

  lemma TodoDue(td: Todo, raw: Option<string>, lib: Library)
    requires RawOf(TodoItem(td), Due) == raw && (raw.Some? ==> |raw.value| >= 16)
    ensures DateTimeProp(TodoComponent(td, lib), Due, lib) == if raw.Some? then ReadStamp(raw.value) else None
  {
    TodoFirstRaw(td, Due);
    ReadStampProp(TodoContents(td), Due, raw, lib);
  }

  lemma TodoStatus(td: Todo, lib: Library)
    ensures StatusProp(TodoComponent(td, lib)) == StatusBack(td)
  {
    TodoFirstRaw(td, Status);
    ReadStatusProp(TodoContents(td), td.status, lib);
  }

  lemma TodoPriority(td: Todo, lib: Library)
    ensures PriorityProp(TodoComponent(td, lib)) == td.priority
  {
    TodoFirstRaw(td, Priority);
    ReadPriorityProp(TodoContents(td), td.priority, lib);
  }

  lemma TodoTokens(td: Todo, comp: Component, lib: Library)
    requires comp == TodoComponent(td, lib)
    ensures DateTimeProp(comp, Due, lib) == DueBack(td)
    ensures StatusProp(comp) == StatusBack(td)
    ensures PriorityProp(comp) == td.priority
  {
    StampOptionLong(td.due);
    TodoDue(td, StampOption(td.due), lib);
    TodoStatus(td, lib);
    TodoPriority(td, lib);
  }

  lemma TodoParsed(td: Todo, lib: Library)
    requires CleanOption(td.status)
    ensures ParseTodo(TodoDoc(td), lib) == Ok(TodoReadBack(td, DueBack(td), StatusBack(td)))
  {
    var comp := TodoComponent(td, lib);
    TodoClean(td);
    TodoFirstRaw(td, Uid);
    ParseWritten(VTODO, TodoContents(td), lib);
    TodoTexts(td, comp, lib);
    TodoTokens(td, comp, lib);
  }

  /** Round trip of a whole task; due date and status come back exactly when their text forms can hold them. */
  lemma TodoRoundTrip(td: Todo, lib: Library)
    requires CleanOption(td.status)
    ensures ParseTodo(TodoDoc(td), lib) == Ok(TodoReadBack(td, td.due, td.status)) <==>
            (td.due.Some? ==> Stampable(td.due.value)) && (td.status.Some? ==> td.status.value in STATUS_TOKENS)
  {
    TodoParsed(td, lib);
    if td.due.Some? {
      StampRoundTrip(td.due.value);
    }
  }
}
