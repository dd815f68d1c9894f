/**
 RRULE and STATUS are written as they are. What a value with a line break of its own can damage, and what it
 cannot: the exact conditions of the round trips, for every event and every task.
 */
module RawRule {
  import opened Wrappers
  import opened Model
  import opened Escape
  import opened ContentLines
  import opened Civil
  import LocalTime
  import opened Ical
  import opened RoundTrip
  import opened Stable

  // ----- a document that starts well ------------------------------------------------

  function HeadLines(kind: string, head: seq<Content>): seq<string> {
    HeaderLines(kind) + LinesOf(head)
  }

  function TailLines(kind: string, tail: seq<Content>): seq<string> {
    LinesOf(tail) + FooterLines(kind)
  }

  lemma DocSplit(kind: string, head: seq<Content>, tail: seq<Content>)
    ensures FoldedAll(DocumentLines(kind, head + tail)) ==
            FoldedAll(HeadLines(kind, head)) + FoldedAll(TailLines(kind, tail))
  {
    hide HeaderLines;
    hide FooterLines;
    hide FoldedAll;
    hide LinesOf;
    var a, b := LinesOf(head), LinesOf(tail);
    LinesOfConcat(head, tail);
    FoldedAllConcat(HeadLines(kind, head), TailLines(kind, tail));
    assert HeaderLines(kind) + (a + b) + FooterLines(kind) == HeaderLines(kind) + a + (b + FooterLines(kind));
  }

  lemma HeadLineFacts(kind: string, head: seq<Content>)
    requires Kind(kind) && AllKnown(head) && AllClean(head)
    ensures NoneBroken(HeadLines(kind, head)) && NoneIndented(HeadLines(kind, head))
  {
    LinesFacts(head);
    var all, m := HeadLines(kind, head), LinesOf(head);
    forall k | 0 <= k < |all| ensures all[k] != "" && !StartsWsp(all[k]) && !HasCrlf(all[k]) {
      if k < 4 {
        HeaderLineFacts(kind, k);
      } else {
        assert all[k] == m[k - 4];
      }
    }
  }

  lemma TailLineFacts(kind: string, tail: seq<Content>)
    requires Kind(kind) && AllKnown(tail)
    ensures NoneIndented(TailLines(kind, tail))
  {
    LinesFacts(tail);
    var all, m := TailLines(kind, tail), LinesOf(tail);
    forall k | 0 <= k < |all| ensures all[k] != "" && !StartsWsp(all[k]) {
      if k < |m| {
        assert all[k] == m[k];
      } else {
        FooterLineFacts(kind, k - |m|);
        assert all[k] == FooterLines(kind)[k - |m|];
      }
    }
  }

  /** Whatever the rest holds, the document is read, and it starts as it was meant to. */
  lemma ReadHead(kind: string, head: seq<Content>, tail: seq<Content>) returns (more: seq<string>)
    requires Kind(kind) && AllKnown(head) && AllClean(head) && AllKnown(tail)
    ensures ReadLines(FoldedAll(DocumentLines(kind, head + tail))) == Some(HeaderLines(kind) + (LinesOf(head) + more))
  {
    hide TailLines;
    hide HeaderLines;
    hide FoldedAll;
    hide ReadLines;
    DocSplit(kind, head, tail);
    HeadLineFacts(kind, head);
    TailLineFacts(kind, tail);
    AlwaysReadable(TailLines(kind, tail));
    ReadPrefix(HeadLines(kind, head), FoldedAll(TailLines(kind, tail)));
    more := ReadLines(FoldedAll(TailLines(kind, tail))).value;
    assert HeadLines(kind, head) + more == HeaderLines(kind) + (LinesOf(head) + more);
  }

  function HeadComponent(head: seq<Content>, more: seq<string>, lib: Library): Component {
    ReadEntries(LinesOf(head) + more, lib)
  }

  lemma ParseHead(kind: string, head: seq<Content>, tail: seq<Content>, lib: Library) returns (more: seq<string>)
    requires Kind(kind) && AllKnown(head) && AllClean(head) && AllKnown(tail)
    ensures ParseComponent(FoldedAll(DocumentLines(kind, head + tail)), kind, lib) == Ok(HeadComponent(head, more, lib))
  {
    hide ReadLines;
    hide FoldedAll;
    hide DocumentLines;
    hide ReadEntries;
    var rest := ReadHead(kind, head, tail);
    FindBehindHeader(kind, head, rest);
    more := ComponentLines(rest, 0);
    assert (HeaderLines(kind) + (LinesOf(head) + rest))[0] == "BEGIN:VCALENDAR";
  }

  lemma HeadText(head: seq<Content>, prop: Property, text: string, more: seq<string>, lib: Library)
    requires AllKnown(head) && IsText(prop) && FirstRaw(head, prop) == Some(Escaped(text))
    ensures TextProp(HeadComponent(head, more, lib), prop) == Some(WithoutCr(text))
  {
    FindPropertyAmong(head, more, prop, lib);
    ReadTextValue(text);
  }

  lemma HeadTime(head: seq<Content>, prop: Property, raw: string, more: seq<string>, lib: Library)
    requires AllKnown(head) && IsStamp(prop) && FirstRaw(head, prop) == Some(raw) && |raw| >= 16
    ensures DateTimeProp(HeadComponent(head, more, lib), prop, lib) == ReadStamp(raw)
  {
    hide ReadStamp;
    FindPropertyAmong(head, more, prop, lib);
    StampValuesOf(prop, raw, lib);
    DateTimeOfEntry(HeadComponent(head, more, lib), prop, raw, lib);
  }

  // ----- events: what comes before the rule -----------------------------------------

  const EVENT_HEAD: seq<Property> := [Uid, Summary, Dtstart, Dtend, Location, Description]

  function EventHead(ev: Event): seq<Content> {
    ContentsOf(EventItem(ev), EVENT_HEAD)
  }

  lemma EventSplit(ev: Event)
    ensures EventContents(ev) == EventHead(ev) + RawContent(Rrule, ev.rrule)
  {
    assert EVENT_PROPS[..6] == EVENT_HEAD && EVENT_PROPS[6] == Rrule;
  }

  lemma EventHeadFacts(ev: Event)
    ensures AllKnown(EventHead(ev)) && AllClean(EventHead(ev))
  {
    ContentsKnown(EventItem(ev), EVENT_HEAD);
    ContentsClean(EventItem(ev), EVENT_HEAD);
    forall p | p in EVENT_HEAD ensures CleanOption(RawOf(EventItem(ev), p)) {
      EventValueClean(ev, p);
    }
  }

  lemma EventHeadRaw(ev: Event, prop: Property)
    requires prop in EVENT_HEAD
    ensures FirstRaw(EventHead(ev), prop) == RawOf(EventItem(ev), prop)
  {
    FirstRawOf(EventItem(ev), EVENT_HEAD, prop);
  }

  lemma EventHeadText(ev: Event, prop: Property, text: Option<string>, more: seq<string>, lib: Library)
    requires prop in EVENT_HEAD && IsText(prop) && RawOf(EventItem(ev), prop) == EscapedOption(text)
    ensures text.Some? ==> TextProp(HeadComponent(EventHead(ev), more, lib), prop) == WithoutCrOption(text)
  {
    hide RawOf;
    hide HeadComponent;
    EventHeadFacts(ev);
    EventHeadRaw(ev, prop);
    if text.Some? {
      HeadText(EventHead(ev), prop, text.value, more, lib);
    }
  }

  lemma EventHeadTime(ev: Event, prop: Property, t: Instant, more: seq<string>, lib: Library)
    requires prop in EVENT_HEAD && IsStamp(prop) && RawOf(EventItem(ev), prop) == StampOption(Some(t))
    ensures DateTimeProp(HeadComponent(EventHead(ev), more, lib), prop, lib) == ReadStamp(Stamp(t))
  {
    hide RawOf;
    hide HeadComponent;
    hide ReadStamp;
    hide Stamp;
    EventHeadFacts(ev);
    EventHeadRaw(ev, prop);
    StampLength(t);
    HeadTime(EventHead(ev), prop, Stamp(t), more, lib);
  }

  lemma EventHeadTexts(ev: Event, more: seq<string>, lib: Library)
    ensures var comp := HeadComponent(EventHead(ev), more, lib);
            && TextProp(comp, Uid) == Some(WithoutCr(ev.uid)) && TextProp(comp, Summary) == Some(WithoutCr(ev.summary))
            && (ev.location.Some? ==> TextProp(comp, Location) == WithoutCrOption(ev.location))
            && (ev.description.Some? ==> TextProp(comp, Description) == WithoutCrOption(ev.description))
  {
    hide HeadComponent;
    hide TextProp;
    EventHeadText(ev, Uid, Some(ev.uid), more, lib);
    EventHeadText(ev, Summary, Some(ev.summary), more, lib);
    EventHeadText(ev, Location, ev.location, more, lib);
    EventHeadText(ev, Description, ev.description, more, lib);
  }

  /** The fields that are written before the rule, as a reader finds them. */
  predicate HeadIntact(ev: Event, r: Result<Event, string>, start: Option<Instant>, end: Option<Instant>) {
    if start.None? then r == Err("VEVENT missing DTSTART")
    else
      && r.Ok? && r.value.uid == WithoutCr(ev.uid) && r.value.summary == WithoutCr(ev.summary)
      && r.value.start == start.value && (end.Some? ==> r.value.end == end.value)
      && (ev.location.Some? ==> r.value.location == WithoutCrOption(ev.location))
      && (ev.description.Some? ==> r.value.description == WithoutCrOption(ev.description))
  }

  lemma HeadOfComponent(ev: Event, comp: Component, lib: Library, start: Option<Instant>, end: Option<Instant>)
    requires TextProp(comp, Uid) == Some(WithoutCr(ev.uid)) && TextProp(comp, Summary) == Some(WithoutCr(ev.summary))
    requires ev.location.Some? ==> TextProp(comp, Location) == WithoutCrOption(ev.location)
    requires ev.description.Some? ==> TextProp(comp, Description) == WithoutCrOption(ev.description)
    requires DateTimeProp(comp, Dtstart, lib) == start && DateTimeProp(comp, Dtend, lib) == end
    ensures HeadIntact(ev, EventFromComponent(comp, lib), start, end)
  {
  }

  /**
   Of every event, whatever its RRULE text holds: UID, title, times, and place and description if it has them,
   are read back.
   */
  lemma EventHeadSurvives(ev: Event, lib: Library)
    ensures HeadIntact(ev, ParseEvent(EventDoc(ev), lib), ReadStamp(Stamp(ev.start)), ReadStamp(Stamp(ev.end)))
  {
    hide HeadComponent;
    hide HeadIntact;
    hide FoldedAll;
    hide DocumentLines;
    hide ParseComponent;
    hide EventFromComponent;
    hide ReadStamp;
    hide Stamp;
    EventHeadFacts(ev);
    EventSplit(ev);
    var more := ParseHead(VEVENT, EventHead(ev), RawContent(Rrule, ev.rrule), lib);
    EventHeadTexts(ev, more, lib);
    EventHeadTime(ev, Dtstart, ev.start, more, lib);
    EventHeadTime(ev, Dtend, ev.end, more, lib);
    var comp := HeadComponent(EventHead(ev), more, lib);
    HeadOfComponent(ev, comp, lib, ReadStamp(Stamp(ev.start)), ReadStamp(Stamp(ev.end)));
  }

  // ----- tasks: what comes before the status ----------------------------------------

  const TODO_HEAD: seq<Property> := [Uid, Summary, Due]

  function TodoHead(td: Todo): seq<Content> {
    ContentsOf(TodoItem(td), TODO_HEAD)
  }

  function TodoTail(td: Todo): seq<Content> {
    RawContent(Status, td.status) + (RawContent(Description, EscapedOption(td.description))
                                     + RawContent(Priority, PriorityText(td.priority)))
  }

  lemma TodoSplit(td: Todo)
    ensures TodoContents(td) == TodoHead(td) + TodoTail(td)
  {
    hide RawContent;
    hide EscapedOption;
    hide PriorityText;
    var four, five := TODO_PROPS[..4], TODO_PROPS[..5];
    assert five[..4] == four && four[..3] == TODO_HEAD;
    assert TODO_PROPS[5] == Priority && five[4] == Description && four[3] == Status;
    var a := RawContent(Status, td.status);
    var b := RawContent(Description, EscapedOption(td.description));
    var c := RawContent(Priority, PriorityText(td.priority));
    assert ContentsOf(TodoItem(td), four) == TodoHead(td) + a;
    assert ContentsOf(TodoItem(td), five) == TodoHead(td) + a + b;
    assert TodoHead(td) + a + b + c == TodoHead(td) + (a + (b + c));
  }

  lemma TodoHeadFacts(td: Todo)
    ensures AllKnown(TodoHead(td)) && AllClean(TodoHead(td))
  {
    ContentsKnown(TodoItem(td), TODO_HEAD);
    ContentsClean(TodoItem(td), TODO_HEAD);
    forall p | p in TODO_HEAD ensures CleanOption(RawOf(TodoItem(td), p)) {
      TodoValueClean(td, p);
    }
  }

  lemma TodoHeadText(td: Todo, prop: Property, text: string, more: seq<string>, lib: Library)
    requires prop in TODO_HEAD && IsText(prop) && RawOf(TodoItem(td), prop) == Some(Escaped(text))
    ensures TextProp(HeadComponent(TodoHead(td), more, lib), prop) == Some(WithoutCr(text))
  {
    hide RawOf;
    hide HeadComponent;
    TodoHeadFacts(td);
    FirstRawOf(TodoItem(td), TODO_HEAD, prop);
    HeadText(TodoHead(td), prop, text, more, lib);
  }

  lemma TodoHeadDue(td: Todo, due: Instant, more: seq<string>, lib: Library)
    requires td.due == Some(due)
    ensures DateTimeProp(HeadComponent(TodoHead(td), more, lib), Due, lib) == ReadStamp(Stamp(due))
  {
    hide HeadComponent;
    hide ReadStamp;
    hide Stamp;
    TodoHeadFacts(td);
    FirstRawOf(TodoItem(td), TODO_HEAD, Due);
    StampLength(due);
    HeadTime(TodoHead(td), Due, Stamp(due), more, lib);
  }

  /** Of every task, whatever its STATUS text holds: UID, title, and due date if it has one, are read back. */
  lemma TodoHeadSurvives(td: Todo, lib: Library)
    ensures var r := ParseTodo(TodoDoc(td), lib);
            && r.Ok? && r.value.uid == WithoutCr(td.uid) && r.value.summary == WithoutCr(td.summary)
            && (td.due.Some? ==> r.value.due == ReadStamp(Stamp(td.due.value)))
  {
    hide HeadComponent;
    hide FoldedAll;
    hide DocumentLines;
    hide ParseComponent;
    hide ReadStamp;
    hide Stamp;
    hide RawOf;
    hide TextProp;
    hide DateTimeProp;
    TodoHeadFacts(td);
    TodoSplit(td);
    TodoFirstRaw(td, Uid);
    TailKnown(td);
    var more := ParseHead(VTODO, TodoHead(td), TodoTail(td), lib);
    UidAndSummary(td);
    TodoHeadText(td, Uid, td.uid, more, lib);
    TodoHeadText(td, Summary, td.summary, more, lib);
    if td.due.Some? {
      TodoHeadDue(td, td.due.value, more, lib);
    }
  }

  lemma UidAndSummary(td: Todo)
    ensures RawOf(TodoItem(td), Uid) == Some(Escaped(td.uid))
    ensures RawOf(TodoItem(td), Summary) == Some(Escaped(td.summary))
  {
  }

  lemma TailKnown(td: Todo)
    ensures AllKnown(TodoTail(td))
  {
  }

  // ----- no reader returns a rule with a line break ---------------------------------

  lemma {:induction false} ComponentLinesClean(lines: seq<string>, depth: nat)
    requires NoneBroken(lines)
    ensures NoneBroken(ComponentLines(lines, depth))
  {
    if lines != [] {
      assert NoneBroken(lines[1..]);
      ComponentLinesClean(lines[1..], depth + 1);
      ComponentLinesClean(lines[1..], depth);
      if depth > 0 {
        ComponentLinesClean(lines[1..], depth - 1);
      }
    }
  }

  lemma {:induction false} FindComponentClean(lines: seq<string>, kind: string)
    requires NoneBroken(lines) && FindComponent(lines, kind).Some?
    ensures NoneBroken(FindComponent(lines, kind).value)
  {
    assert NoneBroken(lines[1..]);
    if lines[0] == "BEGIN:" + kind {
      ComponentLinesClean(lines[1..], 0);
    } else {
      FindComponentClean(lines[1..], kind);
    }
  }

  lemma ReadLinesClean(doc: string)
    requires ReadLines(doc).Some?
    ensures NoneBroken(ReadLines(doc).value)
  {
    forall k | 0 <= k < |ReadLines(doc).value| ensures !HasCrlf(ReadLines(doc).value[k]) {
      SplitLinesHaveNoCrlf(Unfold(doc), k);
    }
  }

  /** The text of a line's value. */
  function ValueText(line: string): Option<string> {
    var n := NameLen(line);
    var colon := n + UpTo(line[n..], ':', false);
    if colon < |line| then Some(line[colon + 1..]) else None
  }

  /** The text of the first line of a property. */
  function FirstText(lines: seq<string>, prop: Property): Option<string> {
    if lines == [] then None
    else if PropertyOf(lines[0][..NameLen(lines[0])]) == prop then ValueText(lines[0])
    else FirstText(lines[1..], prop)
  }

  lemma {:induction false} RuleOfLines(lines: seq<string>, lib: Library)
    ensures RruleProp(ReadEntries(lines, lib)) ==
            var text := FirstText(lines, Rrule); if text.Some? then lib.canon(text.value) else None
  {
    hide TzidOf;
    hide PropertyOf;
    if lines != [] {
      RuleOfLines(lines[1..], lib);
      assert ReadEntries(lines, lib)[1..] == ReadEntries(lines[1..], lib);
    }
  }

  lemma {:induction false} FirstTextClean(lines: seq<string>, prop: Property)
    requires NoneBroken(lines)
    ensures CleanOption(FirstText(lines, prop))
  {
    hide PropertyOf;
    if lines != [] {
      var line := lines[0];
      if ValueText(line).Some? {
        SuffixClean(line, |line| - |ValueText(line).value|);
      }
      FirstTextClean(lines[1..], prop);
    }
  }

  /** The RRULE text of a document, as it stands there. */
  function RuleText(doc: string): Option<string> {
    var lines := ReadLines(doc);
    if lines.None? then None
    else
      var comp := FindComponent(lines.value, "VEVENT");
      if comp.None? then None else FirstText(comp.value, Rrule)
  }

  /** Every rule a reader returns is its spelling of that text, which is one line. */
  lemma ParsedRule(doc: string, lib: Library)
    requires ParseEvent(doc, lib).Ok?
    ensures CleanOption(RuleText(doc))
    ensures ParseEvent(doc, lib).value.rrule == if RuleText(doc).Some? then lib.canon(RuleText(doc).value) else None
  {
    hide ReadLines;
    hide FindComponent;
    hide ReadEntries;
    ReadLinesClean(doc);
    FindComponentClean(ReadLines(doc).value, "VEVENT");
    var lines := FindComponent(ReadLines(doc).value, "VEVENT").value;
    FirstTextClean(lines, Rrule);
    RuleOfLines(lines, lib);
  }

  // ----- two libraries differ only in the rule --------------------------------------

  lemma {:induction false} FindSame(lines: seq<string>, prop: Property, a: Library, b: Library)
    requires prop != Rrule
    ensures FindProperty(ReadEntries(lines, a), prop) == FindProperty(ReadEntries(lines, b), prop)
  {
    hide PropertyOf;
    hide TzidOf;
    if lines != [] {
      FindSame(lines[1..], prop, a, b);
      assert ReadEntries(lines, a)[1..] == ReadEntries(lines[1..], a);
      assert ReadEntries(lines, b)[1..] == ReadEntries(lines[1..], b);
    }
  }

  lemma TextSame(lines: seq<string>, prop: Property, a: Library, b: Library)
    requires prop != Rrule
    ensures TextProp(ReadEntries(lines, a), prop) == TextProp(ReadEntries(lines, b), prop)
  {
    hide ReadEntries;
    FindSame(lines, prop, a, b);
  }

  lemma TimeSame(lines: seq<string>, prop: Property, a: Library, b: Library)
    requires prop != Rrule && a.zones == b.zones
    ensures DateTimeProp(ReadEntries(lines, a), prop, a) == DateTimeProp(ReadEntries(lines, b), prop, b)
  {
    hide ReadEntries;
    hide LocalTime.ToUtc;
    FindSame(lines, prop, a, b);
  }

  lemma LengthSame(lines: seq<string>, a: Library, b: Library)
    ensures DurationProp(ReadEntries(lines, a)) == DurationProp(ReadEntries(lines, b))
    ensures IsAllDayStart(ReadEntries(lines, a)) == IsAllDayStart(ReadEntries(lines, b))
  {
    hide ReadEntries;
    FindSame(lines, Duration, a, b);
    FindSame(lines, Dtstart, a, b);
  }

  lemma ComponentSame(lines: seq<string>, a: Library, b: Library)
    requires a.zones == b.zones
    ensures var x, y := EventFromComponent(ReadEntries(lines, a), a), EventFromComponent(ReadEntries(lines, b), b);
            && (x.Ok? <==> y.Ok?)
            && (x.Ok? ==> y.value == x.value.(rrule := y.value.rrule))
  {
    hide ReadEntries;
    hide TextProp;
    hide DateTimeProp;
    hide DurationProp;
    hide IsAllDayStart;
    hide RruleProp;
    TextSame(lines, Uid, a, b);
    TextSame(lines, Summary, a, b);
    TextSame(lines, Location, a, b);
    TextSame(lines, Description, a, b);
    TimeSame(lines, Dtstart, a, b);
    TimeSame(lines, Dtend, a, b);
    LengthSame(lines, a, b);
  }

  /** With the same zones, two libraries read the same event but for the spelling of its rule. */
  lemma SameButRule(doc: string, a: Library, b: Library)
    requires a.zones == b.zones
    ensures ParseEvent(doc, a).Ok? <==> ParseEvent(doc, b).Ok?
    ensures ParseEvent(doc, a).Ok? ==>
              ParseEvent(doc, b).value == ParseEvent(doc, a).value.(rrule := ParseEvent(doc, b).value.rrule)
  {
    hide ReadLines;
    hide FindComponent;
    hide ReadEntries;
    hide EventFromComponent;
    var lines := ReadLines(doc);
    if lines.Some? && FindComponent(lines.value, "VEVENT").Some? {
      ComponentSame(FindComponent(lines.value, "VEVENT").value, a, b);
    }
  }

  // ----- a library that tells -------------------------------------------------------

  /** It spells every broken rule as `d`, and knows no other rule than that. */
  function Telling(d: string, zones: string -> Option<LocalTime.Zone>): Library {
    Library((raw: string) => if HasCrlf(raw) || raw == d then Some(d) else None, zones)
  }

  lemma TellingIsLawful(d: string, zones: string -> Option<LocalTime.Zone>)
    requires !HasCrlf(d)
    ensures Lawful(Telling(d, zones))
  {
  }

  lemma ShortIsOneLine(d: string)
    requires |d| < 2
    ensures !HasCrlf(d)
  {
  }

  /** A one-line text that is not the one in the document. */
  function OtherThan(text: Option<string>): string {
    if text == Some("A") then "B" else "A"
  }

  function TellingFor(doc: string, zones: string -> Option<LocalTime.Zone>): Library {
    Telling(OtherThan(RuleText(doc)), zones)
  }

  /** With a rule that is not one line, some lawful library shows that the document does not hold it. */
  lemma BrokenRuleShows(ev: Event, zones: string -> Option<LocalTime.Zone>)
    requires !CleanOption(ev.rrule)
    ensures var lib := TellingFor(EventDoc(ev), zones);
            && Lawful(lib) && lib.zones == zones
            && (ParseEvent(EventDoc(ev), lib).Ok? ==>
                  ParseEvent(EventDoc(ev), lib).value.rrule != lib.canon(ev.rrule.value))
  {
    hide EventDoc;
    hide ParseEvent;
    hide RuleText;
    var lib, d := TellingFor(EventDoc(ev), zones), OtherThan(RuleText(EventDoc(ev)));
    assert d != "" && |d| == 1;
    TellingIsLawful(d, zones);
    if ParseEvent(EventDoc(ev), lib).Ok? {
      ParsedRule(EventDoc(ev), lib);
      assert lib.canon(ev.rrule.value) == Some(d);
    }
  }

  // ----- exact conditions -----------------------------------------------------------

  /** What a reader is meant to make of the document of `ev`. */
  function AsWritten(ev: Event, lib: Library): Result<Event, string> {
    var start, end := ReadStamp(Stamp(ev.start)), ReadStamp(Stamp(ev.end));
    if start.None? then Err("VEVENT missing DTSTART")
    else Ok(ReadBack(ev, start.value, if end.Some? then end.value else start.value, lib))
  }

  /** A zone database without zones. */
  function NoZones(): string -> Option<LocalTime.Zone> {
    (name: string) => None
  }

  /**
   Every event and every lawful library: the reader makes of the document what it is meant to, exactly if the
   RRULE text is one line (or the start cannot be read, and nothing can).
   */
  lemma EventParsedIff(ev: Event)
    ensures (forall lib: Library | Lawful(lib) :: ParseEvent(EventDoc(ev), lib) == AsWritten(ev, lib)) <==>
            CleanOption(ev.rrule) || ReadStamp(Stamp(ev.start)).None?
  {
    hide EventDoc;
    hide ParseEvent;
    hide Lawful;
    forall lib: Library | CleanOption(ev.rrule) || ReadStamp(Stamp(ev.start)).None?
      ensures ParseEvent(EventDoc(ev), lib) == AsWritten(ev, lib)
    {
      if CleanOption(ev.rrule) {
        EventParsed(ev, lib);
      } else {
        EventHeadSurvives(ev, lib);
      }
    }
    if !CleanOption(ev.rrule) && ReadStamp(Stamp(ev.start)).Some? {
      BrokenRuleShows(ev, NoZones());
      var lib := TellingFor(EventDoc(ev), NoZones());
      assert AsWritten(ev, lib).value.rrule == lib.canon(ev.rrule.value);
    }
  }

  /**
   Round trip of every event with every lawful library: exactly if both times can be written and the RRULE
   text is one line.
   */
  lemma EventRoundTripIff(ev: Event)
    ensures (forall lib: Library | Lawful(lib) ::
               ParseEvent(EventDoc(ev), lib) == Ok(ReadBack(ev, ev.start, ev.end, lib))) <==>
            Stampable(ev.start) && Stampable(ev.end) && CleanOption(ev.rrule)
  {
    hide EventDoc;
    hide ParseEvent;
    hide Stampable;
    hide Lawful;
    if CleanOption(ev.rrule) {
      forall lib: Library
        ensures ParseEvent(EventDoc(ev), lib) == Ok(ReadBack(ev, ev.start, ev.end, lib)) <==>
                Stampable(ev.start) && Stampable(ev.end)
      {
        EventRoundTrip(ev, lib);
      }
      var lib := Telling("A", NoZones());
      TellingIsLawful("A", NoZones());
      assert ParseEvent(EventDoc(ev), lib) == Ok(ReadBack(ev, ev.start, ev.end, lib)) <==>
             Stampable(ev.start) && Stampable(ev.end);
    } else {
      BrokenRuleShows(ev, NoZones());
      var lib := TellingFor(EventDoc(ev), NoZones());
      assert ReadBack(ev, ev.start, ev.end, lib).rrule == lib.canon(ev.rrule.value);
    }
  }

  lemma ParsedStatus(doc: string, lib: Library)
    requires ParseTodo(doc, lib).Ok?
    ensures CleanOption(ParseTodo(doc, lib).value.status)
  {
    ParsedTodoForm(doc, lib);
    TokensClean(ParseTodo(doc, lib).value.status);
  }

  /** Round trip of every task: exactly if its due date can be written and its status is a status token. */
  lemma TodoRoundTripIff(td: Todo, lib: Library)
    ensures ParseTodo(TodoDoc(td), lib) == Ok(TodoReadBack(td, td.due, td.status)) <==>
            (td.due.Some? ==> Stampable(td.due.value)) && (td.status.Some? ==> td.status.value in STATUS_TOKENS)
  {
    hide TodoDoc;
    hide ParseTodo;
    if CleanOption(td.status) {
      TodoRoundTrip(td, lib);
    } else {
      if td.status.value in STATUS_TOKENS {
        TokensClean(td.status);
      }
      if ParseTodo(TodoDoc(td), lib) == Ok(TodoReadBack(td, td.due, td.status)) {
        ParsedStatus(TodoDoc(td), lib);
      }
    }
  }
}
