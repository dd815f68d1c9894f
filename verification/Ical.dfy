/**
 iCalendar documents: the writers for one event or task, the reader's accessors, and the round trip between
 them. The parsing library below the accessors is represented by what RFC 5545 requires of its text layer;
 its zone database and its canonical spelling of recurrence rules are parameters.
 */
module Ical {
  import opened Wrappers
  import opened Model
  import opened LocalTime
  import opened Escape
  import opened Fold
  import opened ContentLines
  import opened Civil
  import opened Durations

  // ----- parsed components ----------------------------------------------------------

  datatype Property =
    | Uid | Summary | Dtstart | Dtend | Due | Duration | Location | Description | Rrule | Status | Priority
    | Other(name: string)

  /** A date-time as parsed: local fields, whether a time of day was given, and an explicit UTC offset. */
  datatype PartialDateTime = PartialDateTime(local: int, hasHour: bool, offset: Option<int>)

  datatype Value =
    | TextValue(text: string)
    | DateTimeValue(dt: PartialDateTime)
    | DurationValue(span: Span)
    | RuleValue(rule: string)
    | StatusValue(token: string)
    | IntegerValue(n: int)

  datatype Entry = Entry(prop: Property, tzid: Option<string>, values: seq<Value>)

  type Component = seq<Entry>

  /** What the parsing library brings along: rule canonicalisation and the zone database. */
  datatype Library = Library(canon: string -> Option<string>, zones: string -> Option<Zone>)

  // ----- accessors ------------------------------------------------------------------

  function FindProperty(comp: Component, prop: Property): Option<Entry> {
    if comp == [] then None
    else if comp[0].prop == prop then Some(comp[0])
    else FindProperty(comp[1..], prop)
  }

  function FirstValue(comp: Component, prop: Property): Option<Value> {
    var entry := FindProperty(comp, prop);
    if entry.Some? && entry.value.values != [] then Some(entry.value.values[0]) else None
  }

  function TextProp(comp: Component, prop: Property): Option<string> {
    var v := FirstValue(comp, prop);
    if v.Some? && v.value.TextValue? then Some(v.value.text) else None
  }

  function DateTimeProp(comp: Component, prop: Property, lib: Library): Option<Instant> {
    var v := FirstValue(comp, prop);
    if v.None? || !v.value.DateTimeValue? then None
    else
      var dt := v.value.dt;
      var tzid := FindProperty(comp, prop).value.tzid;
      Some(ToUtc(dt.local, dt.offset, if tzid.Some? then lib.zones(tzid.value) else None))
  }

  /** Weeks, days, hours, minutes and seconds with one sign for the whole. */
  function Length(span: Span): int {
    var seconds := span.weeks * 7 * 24 * 3600 + span.days * 24 * 3600 + span.hours * 3600
                  + span.minutes * 60 + span.seconds;
    if span.neg then -(seconds * NANOS) else seconds * NANOS
  }

  function DurationProp(comp: Component): Option<int> {
    match FirstValue(comp, Duration)
    case Some(DurationValue(span)) => Some(Length(span))
    case _ => None
  }

  predicate IsAllDayStart(comp: Component) {
    var v := FirstValue(comp, Dtstart);
    v.Some? && v.value.DateTimeValue? && !v.value.dt.hasHour
  }

  function RruleProp(comp: Component): Option<string> {
    var v := FirstValue(comp, Rrule);
    if v.Some? && v.value.RuleValue? then Some(v.value.rule) else None
  }

  function StatusProp(comp: Component): Option<string> {
    var v := FirstValue(comp, Status);
    if v.Some? && v.value.StatusValue? then Some(v.value.token) else None
  }

  function PriorityProp(comp: Component): Option<U8> {
    var v := FirstValue(comp, Priority);
    if v.Some? && v.value.IntegerValue? && 0 <= v.value.n < 256 then Some(v.value.n) else None
  }

  function OrEmpty(s: Option<string>): string {
    if s.Some? then s.value else ""
  }

  function EventEnd(comp: Component, start: Instant, lib: Library): Instant {
    var dtend, duration := DateTimeProp(comp, Dtend, lib), DurationProp(comp);
    if dtend.Some? then dtend.value
    else if duration.Some? then start + duration.value
    else if IsAllDayStart(comp) then start + DAY * NANOS
    else start
  }

  function EventFromComponent(comp: Component, lib: Library): Result<Event, string> {
    var uid, start := TextProp(comp, Uid), DateTimeProp(comp, Dtstart, lib);
    if uid.None? then Err("VEVENT missing UID")
    else if start.None? then Err("VEVENT missing DTSTART")
    else Ok(Event(uid.value, None, None, OrEmpty(TextProp(comp, Summary)), start.value,
                  EventEnd(comp, start.value, lib), TextProp(comp, Location), TextProp(comp, Description),
                  RruleProp(comp), false))
  }

  function TodoFromComponent(comp: Component, lib: Library): Result<Todo, string> {
    var uid := TextProp(comp, Uid);
    if uid.None? then Err("VTODO missing UID")
    else Ok(Todo(uid.value, None, None, OrEmpty(TextProp(comp, Summary)), DateTimeProp(comp, Due, lib),
                 StatusProp(comp), TextProp(comp, Description), PriorityProp(comp)))
  }

  // ----- text layer of the reader ---------------------------------------------------

  function PropertyName(prop: Property): string {
    match prop
    case Uid => "UID"
    case Summary => "SUMMARY"
    case Dtstart => "DTSTART"
    case Dtend => "DTEND"
    case Due => "DUE"
    case Duration => "DURATION"
    case Location => "LOCATION"
    case Description => "DESCRIPTION"
    case Rrule => "RRULE"
    case Status => "STATUS"
    case Priority => "PRIORITY"
    case Other(name) => name
  }

  function PropertyOf(name: string): Property {
    match name
    case "UID" => Uid
    case "SUMMARY" => Summary
    case "DTSTART" => Dtstart
    case "DTEND" => Dtend
    case "DUE" => Due
    case "DURATION" => Duration
    case "LOCATION" => Location
    case "DESCRIPTION" => Description
    case "RRULE" => Rrule
    case "STATUS" => Status
    case "PRIORITY" => Priority
    case other => Other(other)
  }

  /** The status tokens of section 3.8.1.11 of RFC 5545. */
  const STATUS_TOKENS: set<string> :=
    {"NEEDS-ACTION", "IN-PROCESS", "COMPLETED", "CANCELLED", "TENTATIVE", "CONFIRMED", "DRAFT", "FINAL"}

  function TextValues(parts: seq<string>): seq<Value> {
    if parts == [] then []
    else
      var text := Unescape(parts[0]);
      (if text.Some? then [TextValue(text.value)] else []) + TextValues(parts[1..])
  }

  function ReadValues(prop: Property, raw: string, lib: Library): seq<Value> {
    match prop
    case Uid => TextValues(SplitValues(raw))
    case Summary => TextValues(SplitValues(raw))
    case Location => TextValues(SplitValues(raw))
    case Description => TextValues(SplitValues(raw))
    case Dtstart => DateTimeValues(raw)
    case Dtend => DateTimeValues(raw)
    case Due => DateTimeValues(raw)
    case Duration => DurationValues(raw)
    case Rrule =>
      var rule := lib.canon(raw);
      if rule.Some? then [RuleValue(rule.value)] else []
    case Status => if raw in STATUS_TOKENS then [StatusValue(raw)] else []
    case Priority =>
      var n := ReadNat(raw);
      if n.Some? then [IntegerValue(n.value)] else []
    case _ => []
  }

  /** The three forms of a date-time: UTC, local, and a date alone, which stands for its midnight. */
  function DateTimeValues(raw: string): seq<Value> {
    var utc, local, date := ReadStamp(raw), ReadStamp(raw + "Z"), ReadStamp(raw + "T000000Z");
    if utc.Some? then [DateTimeValue(PartialDateTime(utc.value, true, Some(0)))]
    else if local.Some? then [DateTimeValue(PartialDateTime(local.value, true, None))]
    else if date.Some? then [DateTimeValue(PartialDateTime(date.value, false, None))]
    else []
  }

  function DurationValues(raw: string): seq<Value> {
    var span := ReadDuration(raw);
    if span.Some? then [DurationValue(span.value)] else []
  }

  /** Length of the property name: up to the first colon or semicolon. */
  function NameLen(line: string): (n: nat)
    ensures n <= |line|
  {
    if line == "" || line[0] == ':' || line[0] == ';' then 0 else 1 + NameLen(line[1..])
  }

  /** Length of the text before the first `mark` outside quotes. */
  function UpTo(text: string, mark: char, quoted: bool): (n: nat)
    ensures n <= |text|
  {
    if text == "" || (text[0] == mark && !quoted) then 0
    else 1 + UpTo(text[1..], mark, if text[0] == '"' then !quoted else quoted)
  }

  function Unquoted(text: string): string {
    if |text| >= 2 && text[0] == '"' && text[|text| - 1] == '"' then text[1..|text| - 1] else text
  }

  /** The TZID among the parameters of a property; each parameter follows a semicolon. */
  function TzidOf(params: string): Option<string>
    decreases |params|
  {
    if params == "" then None
    else
      var n := UpTo(params[1..], ';', false);
      var param := params[1..1 + n];
      if "TZID=" <= param then Some(Unquoted(param[5..])) else TzidOf(params[1 + n..])
  }

  /** A content line: name, parameters, colon, value. */
  function ReadEntry(line: string, lib: Library): Entry {
    var n := NameLen(line);
    var prop := PropertyOf(line[..n]);
    var colon := n + UpTo(line[n..], ':', false);
    Entry(prop, TzidOf(line[n..colon]), if colon < |line| then ReadValues(prop, line[colon + 1..], lib) else [])
  }

  function ReadEntries(lines: seq<string>, lib: Library): Component {
    if lines == [] then [] else [ReadEntry(lines[0], lib)] + ReadEntries(lines[1..], lib)
  }

  /** The lines of a component up to its END, without those of components nested in it. */
  function ComponentLines(lines: seq<string>, depth: nat): seq<string> {
    if lines == [] then []
    else if "BEGIN:" <= lines[0] then ComponentLines(lines[1..], depth + 1)
    else if "END:" <= lines[0] then
      if depth == 0 then [] else ComponentLines(lines[1..], depth - 1)
    else (if depth == 0 then [lines[0]] else []) + ComponentLines(lines[1..], depth)
  }

  /** The first component of a kind. */
  function FindComponent(lines: seq<string>, kind: string): Option<seq<string>> {
    if lines == [] then None
    else if lines[0] == "BEGIN:" + kind then Some(ComponentLines(lines[1..], 0))
    else FindComponent(lines[1..], kind)
  }

  function ParseComponent(doc: string, kind: string, lib: Library): Result<Component, string> {
    var lines := ReadLines(doc);
    if lines.None? || lines.value == [] || lines.value[0] != "BEGIN:VCALENDAR" then
      Err("expected a VCALENDAR document")
    else
      var comp := FindComponent(lines.value, kind);
      if comp.None? then Err("no " + kind + " component found") else Ok(ReadEntries(comp.value, lib))
  }

  function ParseEvent(doc: string, lib: Library): Result<Event, string> {
    var comp := ParseComponent(doc, "VEVENT", lib);
    if comp.Err? then Err(comp.error) else EventFromComponent(comp.value, lib)
  }

  function ParseTodo(doc: string, lib: Library): Result<Todo, string> {
    var comp := ParseComponent(doc, "VTODO", lib);
    if comp.Err? then Err(comp.error) else TodoFromComponent(comp.value, lib)
  }

  // ----- the writer: intended lines -------------------------------------------------

  datatype Content = Content(prop: Property, raw: string)

  function LineOf(c: Content): string {
    PropertyName(c.prop) + ":" + c.raw
  }

  function LinesOf(contents: seq<Content>): seq<string> {
    if contents == [] then [] else [LineOf(contents[0])] + LinesOf(contents[1..])
  }

  function RawContent(prop: Property, raw: Option<string>): seq<Content> {
    if raw.Some? then [Content(prop, raw.value)] else []
  }

  /** A calendar object. */
  datatype Item = EventItem(ev: Event) | TodoItem(td: Todo)

  const EVENT_PROPS: seq<Property> := [Uid, Summary, Dtstart, Dtend, Location, Description, Rrule]
  const TODO_PROPS: seq<Property> := [Uid, Summary, Due, Status, Description, Priority]

  function EscapedOption(text: Option<string>): Option<string> {
    if text.Some? then Some(Escaped(text.value)) else None
  }

  function StampOption(t: Option<Instant>): Option<string> {
    if t.Some? then Some(Stamp(t.value)) else None
  }

  function PriorityText(priority: Option<U8>): Option<string> {
    if priority.Some? then Some(Decimal(priority.value)) else None
  }

  /** The raw text of each property of an object; RRULE and STATUS are syntax and are not escaped. */
  function RawOf(item: Item, prop: Property): Option<string> {
    match item
    case EventItem(ev) => (
      match prop
      case Uid => Some(Escaped(ev.uid))
      case Summary => Some(Escaped(ev.summary))
      case Dtstart => StampOption(Some(ev.start))
      case Dtend => StampOption(Some(ev.end))
      case Location => EscapedOption(ev.location)
      case Description => EscapedOption(ev.description)
      case Rrule => ev.rrule
      case _ => None)
    case TodoItem(td) => (
      match prop
      case Uid => Some(Escaped(td.uid))
      case Summary => Some(Escaped(td.summary))
      case Due => StampOption(td.due)
      case Status => td.status
      case Description => EscapedOption(td.description)
      case Priority => PriorityText(td.priority)
      case _ => None)
  }

  /** The properties of an object in the order they are written; those it does not have are left out. */
  function ContentsOf(item: Item, props: seq<Property>): seq<Content> {
    if props == [] then []
    else
      var init, last := props[..|props| - 1], props[|props| - 1];
      ContentsOf(item, init) + RawContent(last, RawOf(item, last))
  }

  function EventContents(ev: Event): seq<Content> {
    ContentsOf(EventItem(ev), EVENT_PROPS)
  }

  function TodoContents(td: Todo): seq<Content> {
    ContentsOf(TodoItem(td), TODO_PROPS)
  }

  function HeaderLines(kind: string): seq<string> {
    ["BEGIN:VCALENDAR", "VERSION:2.0", "PRODID:-//mcp-caldav-fastmail//EN", "BEGIN:" + kind]
  }

  function FooterLines(kind: string): seq<string> {
    ["END:" + kind, "END:VCALENDAR"]
  }

  /** The content lines a document is meant to hold. */
  function DocumentLines(kind: string, contents: seq<Content>): seq<string> {
    HeaderLines(kind) + LinesOf(contents) + FooterLines(kind)
  }

  function EventLines(ev: Event): seq<string> {
    DocumentLines("VEVENT", EventContents(ev))
  }

  function TodoLines(td: Todo): seq<string> {
    DocumentLines("VTODO", TodoContents(td))
  }

  function EventDoc(ev: Event): string {
    FoldedAll(EventLines(ev))
  }

  function TodoDoc(td: Todo): string {
    FoldedAll(TodoLines(td))
  }

  // ----- the writer: code -----------------------------------------------------------

  lemma ShortLine(line: string)
    requires Ascii(line) && |line| <= 75
    ensures Folded(line) == line + "\r\n"
  {
    OctetsOfAscii(line);
    assert line[0..] == line;
    CutEnd(line, 0, FIRST);
  }

  lemma FoldedFour(a: string, b: string, c: string, d: string)
    ensures FoldedAll([a, b, c, d]) == Folded(a) + Folded(b) + Folded(c) + Folded(d)
  {
    FoldedAllSnoc([], a);
    FoldedAllSnoc([a], b);
    FoldedAllSnoc([a, b], c);
    FoldedAllSnoc([a, b, c], d);
    assert [] + [a] == [a] && [a] + [b] == [a, b] && [a, b] + [c] == [a, b, c] && [a, b, c] + [d] == [a, b, c, d];
    assert "" + Folded(a) == Folded(a);
  }

  lemma FoldedTwo(a: string, b: string)
    ensures FoldedAll([a, b]) == Folded(a) + Folded(b)
  {
    FoldedAllSnoc([], a);
    FoldedAllSnoc([a], b);
    assert [] + [a] == [a] && [a] + [b] == [a, b];
    assert "" + Folded(a) == Folded(a);
  }

  function HeaderText(kind: string): string {
    ("BEGIN:VCALENDAR" + "\r\n") + ("VERSION:2.0" + "\r\n") + ("PRODID:-//mcp-caldav-fastmail//EN" + "\r\n")
    + ("BEGIN:" + kind + "\r\n")
  }

  function FooterText(kind: string): string {
    ("END:" + kind + "\r\n") + ("END:VCALENDAR" + "\r\n")
  }

  lemma ShortKind(prefix: string, kind: string)
    requires prefix == "BEGIN:" || prefix == "END:"
    requires kind == "VEVENT" || kind == "VTODO" || kind == "VCALENDAR"
    ensures Folded(prefix + kind) == prefix + kind + "\r\n"
  {
    assert Ascii(prefix) && Ascii(kind);
    ShortLine(prefix + kind);
  }

  lemma HeaderIsFolded(kind: string)
    requires kind == "VEVENT" || kind == "VTODO"
    ensures FoldedAll(HeaderLines(kind)) == HeaderText(kind)
  {
    hide Folded;
    hide FoldedAll;
    ShortLine("BEGIN:VCALENDAR");
    ShortLine("VERSION:2.0");
    ShortLine("PRODID:-//mcp-caldav-fastmail//EN");
    ShortKind("BEGIN:", kind);
    FoldedFour("BEGIN:VCALENDAR", "VERSION:2.0", "PRODID:-//mcp-caldav-fastmail//EN", "BEGIN:" + kind);
  }

  lemma FooterIsFolded(kind: string)
    requires kind == "VEVENT" || kind == "VTODO"
    ensures FoldedAll(FooterLines(kind)) == FooterText(kind)
  {
    ShortKind("END:", kind);
    ShortKind("END:", "VCALENDAR");
    assert "END:" + "VCALENDAR" == "END:VCALENDAR";
    FoldedTwo("END:" + kind, "END:VCALENDAR");
  }

  /** `text` is what the header and the lines of `contents` look like. */
  ghost predicate HoldsLines(text: string, kind: string, contents: seq<Content>) {
    text == FoldedAll(HeaderLines(kind) + LinesOf(contents))
  }

  lemma {:induction false} LinesOfConcat(a: seq<Content>, b: seq<Content>)
    ensures LinesOf(a + b) == LinesOf(a) + LinesOf(b)
  {
    if a == [] {
      assert a + b == b;
    } else {
      assert (a + b)[0] == a[0] && (a + b)[1..] == a[1..] + b;
      LinesOfConcat(a[1..], b);
    }
  }

  lemma LinesNext(text: string, kind: string, contents: seq<Content>, c: Content)
    requires HoldsLines(text, kind, contents)
    ensures HoldsLines(text + Folded(LineOf(c)), kind, contents + [c])
  {
    var lines := HeaderLines(kind) + LinesOf(contents);
    LinesOfConcat(contents, [c]);
    assert LinesOf([c]) == [LineOf(c)] + LinesOf([c][1..]) == [LineOf(c)];
    assert HeaderLines(kind) + LinesOf(contents + [c]) == lines + [LineOf(c)];
    FoldedAllSnoc(lines, LineOf(c));
  }

  lemma LinesStart(kind: string)
    requires kind == "VEVENT" || kind == "VTODO"
    ensures HoldsLines(HeaderText(kind), kind, [])
  {
    HeaderIsFolded(kind);
    assert HeaderLines(kind) + LinesOf([]) == HeaderLines(kind);
  }

  lemma LinesEnd(text: string, kind: string, contents: seq<Content>)
    requires kind == "VEVENT" || kind == "VTODO"
    requires HoldsLines(text, kind, contents)
    ensures text + FooterText(kind) == FoldedAll(DocumentLines(kind, contents))
  {
    FooterIsFolded(kind);
    FoldedAllConcat(HeaderLines(kind) + LinesOf(contents), FooterLines(kind));
  }

  const VEVENT: string := "VEVENT"
  const VTODO: string := "VTODO"

  /** The properties of `props` are written out. */
  ghost predicate HoldsProps(text: string, kind: string, item: Item, props: seq<Property>) {
    HoldsLines(text, kind, ContentsOf(item, props))
  }

  lemma PropNext(text: string, kind: string, item: Item, props: seq<Property>, prop: Property)
    requires HoldsProps(text, kind, item, props)
    ensures RawOf(item, prop).None? ==> HoldsProps(text, kind, item, props + [prop])
    ensures RawOf(item, prop).Some? ==>
              HoldsProps(text + Folded(PropertyName(prop) + ":" + RawOf(item, prop).value), kind, item, props + [prop])
  {
    assert (props + [prop])[..|props|] == props;
    if RawOf(item, prop).Some? {
      LinesNext(text, kind, ContentsOf(item, props), Content(prop, RawOf(item, prop).value));
    } else {
      assert ContentsOf(item, props) + [] == ContentsOf(item, props);
    }
  }

  method WriteTextLine(out: TextBuffer, name: string, value: string)
    modifies out
    ensures out.text == old(out.text) + Folded(name + ":" + Escaped(value))
  {
    var escaped := EscapeText(value);
    FoldLine(out, name + ":" + escaped);
  }

  method WriteDateTimeLine(out: TextBuffer, name: string, value: Instant)
    modifies out
    ensures out.text == old(out.text) + Folded(name + ":" + Stamp(value))
  {
    FoldLine(out, name + ":" + Stamp(value));
  }

  /** The line of one property of an object, if it has it: TEXT, ... */
  method AddText(out: TextBuffer, prop: Property, value: Option<string>, ghost kind: string, ghost item: Item,
                 ghost before: seq<Property>)
    requires HoldsProps(out.text, kind, item, before) && EscapedOption(value) == RawOf(item, prop)
    modifies out
    ensures HoldsProps(out.text, kind, item, before + [prop])
  {
    PropNext(out.text, kind, item, before, prop);
    if value.Some? {
      WriteTextLine(out, PropertyName(prop), value.value);
    }
  }

  /** ... a time, ... */
  method AddTime(out: TextBuffer, prop: Property, value: Option<Instant>, ghost kind: string, ghost item: Item,
                 ghost before: seq<Property>)
    requires HoldsProps(out.text, kind, item, before) && StampOption(value) == RawOf(item, prop)
    modifies out
    ensures HoldsProps(out.text, kind, item, before + [prop])
  {
    PropNext(out.text, kind, item, before, prop);
    if value.Some? {
      WriteDateTimeLine(out, PropertyName(prop), value.value);
    }
  }

  /** ... or syntax, which is folded but not escaped. */
  method AddRaw(out: TextBuffer, prop: Property, raw: Option<string>, ghost kind: string, ghost item: Item,
                ghost before: seq<Property>)
    requires HoldsProps(out.text, kind, item, before) && raw == RawOf(item, prop)
    modifies out
    ensures HoldsProps(out.text, kind, item, before + [prop])
  {
    PropNext(out.text, kind, item, before, prop);
    if raw.Some? {
      FoldLine(out, PropertyName(prop) + ":" + raw.value);
    }
  }

  method WriteHeader(out: TextBuffer, kind: string, ghost item: Item)
    requires kind == VEVENT || kind == VTODO
    requires out.text == ""
    modifies out
    ensures HoldsProps(out.text, kind, item, [])
  {
    LinesStart(kind);
    out.text := HeaderText(kind);
  }

  method WriteFooter(out: TextBuffer, kind: string, ghost contents: seq<Content>)
    requires kind == VEVENT || kind == VTODO
    requires HoldsLines(out.text, kind, contents)
    modifies out
    ensures out.text == FoldedAll(DocumentLines(kind, contents))
  {
    LinesEnd(out.text, kind, contents);
    out.text := out.text + FooterText(kind);
  }

  /** UID, title and times, which every event has. */
  method WriteEventHead(out: TextBuffer, ev: Event)
    requires HoldsProps(out.text, VEVENT, EventItem(ev), [])
    modifies out
    ensures HoldsProps(out.text, VEVENT, EventItem(ev), [Uid, Summary, Dtstart, Dtend])
  {
    hide HoldsProps;
    ghost var item := EventItem(ev);
    AddText(out, Uid, Some(ev.uid), VEVENT, item, []);
    AddText(out, Summary, Some(ev.summary), VEVENT, item, [] + [Uid]);
    AddTime(out, Dtstart, Some(ev.start), VEVENT, item, [] + [Uid] + [Summary]);
    AddTime(out, Dtend, Some(ev.end), VEVENT, item, [] + [Uid] + [Summary] + [Dtstart]);
    assert [] + [Uid] + [Summary] + [Dtstart] + [Dtend] == [Uid, Summary, Dtstart, Dtend];
  }

  /** The optional properties of an event. */
  method WriteEventTail(out: TextBuffer, ev: Event)
    requires HoldsProps(out.text, VEVENT, EventItem(ev), [Uid, Summary, Dtstart, Dtend])
    modifies out
    ensures HoldsProps(out.text, VEVENT, EventItem(ev), EVENT_PROPS)
  {
    hide HoldsProps;
    ghost var item, head := EventItem(ev), [Uid, Summary, Dtstart, Dtend];
    AddText(out, Location, ev.location, VEVENT, item, head);
    AddText(out, Description, ev.description, VEVENT, item, head + [Location]);
    AddRaw(out, Rrule, ev.rrule, VEVENT, item, head + [Location] + [Description]);
    assert head + [Location] + [Description] + [Rrule] == EVENT_PROPS;
  }

  /** Serialize an event: the folded form of exactly its intended lines. */
  method BuildEvent(ev: Event) returns (doc: string)
    ensures doc == EventDoc(ev)
  {
    var out := new TextBuffer();
    WriteHeader(out, VEVENT, EventItem(ev));
    WriteEventHead(out, ev);
    WriteEventTail(out, ev);
    WriteFooter(out, VEVENT, EventContents(ev));
    doc := out.text;
  }

  method WriteTodoHead(out: TextBuffer, td: Todo)
    requires HoldsProps(out.text, VTODO, TodoItem(td), [])
    modifies out
    ensures HoldsProps(out.text, VTODO, TodoItem(td), [Uid, Summary, Due])
  {
    hide HoldsProps;
    ghost var item := TodoItem(td);
    AddText(out, Uid, Some(td.uid), VTODO, item, []);
    AddText(out, Summary, Some(td.summary), VTODO, item, [] + [Uid]);
    AddTime(out, Due, td.due, VTODO, item, [] + [Uid] + [Summary]);
    assert [] + [Uid] + [Summary] + [Due] == [Uid, Summary, Due];
  }

  method WriteTodoTail(out: TextBuffer, td: Todo)
    requires HoldsProps(out.text, VTODO, TodoItem(td), [Uid, Summary, Due])
    modifies out
    ensures HoldsProps(out.text, VTODO, TodoItem(td), TODO_PROPS)
  {
    hide HoldsProps;
    ghost var item, head := TodoItem(td), [Uid, Summary, Due];
    AddRaw(out, Status, td.status, VTODO, item, head);
    AddText(out, Description, td.description, VTODO, item, head + [Status]);
    AddRaw(out, Priority, PriorityText(td.priority), VTODO, item, head + [Status] + [Description]);
    assert head + [Status] + [Description] + [Priority] == TODO_PROPS;
  }

  /** Serialize a task: the folded form of exactly its intended lines. */
  method BuildTodo(td: Todo) returns (doc: string)
    ensures doc == TodoDoc(td)
  {
    var out := new TextBuffer();
    WriteHeader(out, VTODO, TodoItem(td));
    WriteTodoHead(out, td);
    WriteTodoTail(out, td);
    WriteFooter(out, VTODO, TodoContents(td));
    doc := out.text;
  }
}
