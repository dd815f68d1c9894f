/**
 What is read from documents the writers never make: properties in any order, with parameters, an alarm nested
 in the event, times in every form section 3.3 of RFC 5545 has. Texts are described by what they stand for; the
 theorems say that this is what the reader makes of them.
 */
module Documents {
  import opened Wrappers
  import opened Model
  import opened Escape
  import opened ContentLines
  import opened Civil
  import opened Durations
  import opened LocalTime
  import opened Ical
  import opened RoundTrip

  // ----- lines as they are given ----------------------------------------------------

  /** A property as a document has it: its name, its parameters and its value. */
  datatype Given = Given(name: string, params: string, raw: string)

  function GivenLine(g: Given): string {
    g.name + (g.params + (":" + g.raw))
  }

  function GivenLines(gs: seq<Given>): seq<string> {
    if gs == [] then [] else [GivenLine(gs[0])] + GivenLines(gs[1..])
  }

  function FirstGiven(gs: seq<Given>, name: string): Option<Given> {
    if gs == [] then None
    else if gs[0].name == name then Some(gs[0])
    else FirstGiven(gs[1..], name)
  }

  /** A scan of `text` stops at no `mark`: each stands in quotes. Every quote is closed. */
  predicate Passes(text: string, mark: char, quoted: bool) {
    if text == "" then !quoted
    else (text[0] == mark ==> quoted) && Passes(text[1..], mark, if text[0] == '"' then !quoted else quoted)
  }

  /** A property the grammar allows; its value may be anything on one line. */
  predicate Fit(g: Given) {
    && g.name != "" && !StartsWsp(g.name) && ':' !in g.name && ';' !in g.name && '\r' !in g.name
    && g.name != "BEGIN" && g.name != "END"
    && FitParams(g.params) && '\r' !in g.raw
  }

  predicate FitParams(params: string) {
    (params != "" ==> params[0] == ';') && Passes(params, ':', false) && '\r' !in params
  }

  predicate AllFit(gs: seq<Given>) {
    forall k | 0 <= k < |gs| :: Fit(gs[k])
  }

  lemma {:induction false} UpToPasses(text: string, rest: string, mark: char, quoted: bool)
    requires Passes(text, mark, quoted) && (rest != "" ==> rest[0] == mark)
    ensures UpTo(text + rest, mark, quoted) == |text|
  {
    if text == "" {
      assert text + rest == rest;
    } else {
      assert (text + rest)[0] == text[0] && (text + rest)[1..] == text[1..] + rest;
      UpToPasses(text[1..], rest, mark, if text[0] == '"' then !quoted else quoted);
    }
  }

  lemma {:induction false} PassesPlain(text: string, mark: char)
    requires mark !in text && '"' !in text
    ensures Passes(text, mark, false)
  {
    if text != "" {
      PassesPlain(text[1..], mark);
    }
  }

  lemma {:induction false} PassesQuoted(text: string, mark: char)
    requires '"' !in text && mark != '"'
    ensures Passes(text + "\"", mark, true)
  {
    if text == "" {
      assert "" + "\"" == "\"" && "\""[1..] == "";
    } else {
      assert (text + "\"")[0] == text[0] && (text + "\"")[1..] == text[1..] + "\"";
      PassesQuoted(text[1..], mark);
    }
  }

  lemma {:induction false} PassesThen(a: string, b: string, mark: char)
    requires mark !in a && '"' !in a && Passes(b, mark, false)
    ensures Passes(a + b, mark, false)
  {
    if a == "" {
      assert a + b == b;
    } else {
      assert (a + b)[0] == a[0] && (a + b)[1..] == a[1..] + b;
      PassesThen(a[1..], b, mark);
    }
  }

  // ----- one line -------------------------------------------------------------------

  function GivenEntry(g: Given, lib: Library): Entry {
    Entry(PropertyOf(g.name), TzidOf(g.params), ReadValues(PropertyOf(g.name), g.raw, lib))
  }

  lemma ReadGiven(g: Given, lib: Library)
    requires Fit(g)
    ensures ReadEntry(GivenLine(g), lib) == GivenEntry(g, lib)
  {
    hide PropertyOf;
    hide ReadValues;
    hide TzidOf;
    hide Passes;
    var rest := g.params + (":" + g.raw);
    var line := GivenLine(g);
    var n, colon := |g.name|, |g.name| + |g.params|;
    assert rest[0] == if g.params == "" then ':' else ';';
    NameLenOf(g.name, rest);
    UpToPasses(g.params, ":" + g.raw, ':', false);
    assert line[..n] == g.name && line[n..] == rest && line[n..colon] == g.params && line[colon + 1..] == g.raw;
  }

  lemma GivenPlain(g: Given)
    requires Fit(g)
    ensures PlainLine(GivenLine(g))
  {
    hide HasCrlf;
    hide Passes;
    assert GivenLine(g)[0] == g.name[0];
    PlainWithoutCr(GivenLine(g));
  }

  /** Only lines whose name says so begin or end a component. */
  lemma GivenIsNoMark(g: Given)
    requires Fit(g)
    ensures !("BEGIN:" <= GivenLine(g)) && !("END:" <= GivenLine(g))
  {
    hide Passes;
    NotMark(g.name, "BEGIN", g.params + (":" + g.raw));
    NotMark(g.name, "END", g.params + (":" + g.raw));
  }

  lemma NotMark(name: string, mark: string, rest: string)
    requires ':' !in name && name != mark && ':' !in mark && ';' !in mark
    requires rest != "" && (rest[0] == ':' || rest[0] == ';')
    ensures !(mark + ":" <= name + rest)
  {
    var all := name + rest;
    if |name| < |mark| {
      assert all[|name|] == rest[0] && (mark + ":")[|name|] == mark[|name|];
    } else if |name| > |mark| {
      assert all[|mark|] == name[|mark|];
    } else {
      assert all[..|mark|] == name && (mark + ":")[..|mark|] == mark;
    }
  }

  // ----- whole components -----------------------------------------------------------

  function GivenEntries(gs: seq<Given>, lib: Library): Component {
    if gs == [] then [] else [GivenEntry(gs[0], lib)] + GivenEntries(gs[1..], lib)
  }

  lemma {:induction false} ReadAllGiven(gs: seq<Given>, lib: Library)
    requires AllFit(gs)
    ensures ReadEntries(GivenLines(gs), lib) == GivenEntries(gs, lib)
  {
    hide Fit;
    hide ReadEntry;
    hide GivenEntry;
    if gs != [] {
      ReadGiven(gs[0], lib);
      ReadAllGiven(gs[1..], lib);
      assert GivenLines(gs)[1..] == GivenLines(gs[1..]);
    }
  }

  lemma {:induction false} FindGiven(gs: seq<Given>, name: string, lib: Library)
    ensures FindProperty(GivenEntries(gs, lib), PropertyOf(name)) ==
            match FirstGiven(gs, name) { case None => None case Some(g) => Some(GivenEntry(g, lib)) }
    ensures FirstGiven(gs, name).Some? ==> FirstGiven(gs, name).value.name == name
  {
    hide TzidOf;
    hide ReadValues;
    hide PropertyOf;
    if gs != [] {
      FindGiven(gs[1..], name, lib);
      NamesDiffer(gs[0].name, name);
      assert GivenEntries(gs, lib)[1..] == GivenEntries(gs[1..], lib);
    }
  }

  lemma NamesDiffer(a: string, b: string)
    ensures PropertyOf(a) == PropertyOf(b) <==> a == b
  {
    NameOfProperty(a);
    NameOfProperty(b);
  }

  lemma NameOfProperty(name: string)
    ensures PropertyName(PropertyOf(name)) == name
  {
  }

  lemma {:induction false} LinesKept(gs: seq<Given>, more: seq<string>)
    requires AllFit(gs)
    ensures ComponentLines(GivenLines(gs) + more, 0) == GivenLines(gs) + ComponentLines(more, 0)
  {
    hide Fit;
    hide GivenLine;
    hide ComponentLines;
    if gs == [] {
      assert GivenLines(gs) + more == more && [] + ComponentLines(more, 0) == ComponentLines(more, 0);
    } else {
      var line, later := GivenLine(gs[0]), GivenLines(gs[1..]);
      GivenIsNoMark(gs[0]);
      LinesKept(gs[1..], more);
      PlainLineKept(line, later + more);
      assert GivenLines(gs) + more == [line] + (later + more);
      assert [line] + (later + ComponentLines(more, 0)) == GivenLines(gs) + ComponentLines(more, 0);
    }
  }

  lemma {:induction false} LinesSkipped(gs: seq<Given>, more: seq<string>)
    requires AllFit(gs)
    ensures ComponentLines(GivenLines(gs) + more, 1) == ComponentLines(more, 1)
  {
    hide Fit;
    hide GivenLine;
    if gs == [] {
      assert GivenLines(gs) + more == more;
    } else {
      var line, later := GivenLine(gs[0]), GivenLines(gs[1..]);
      GivenIsNoMark(gs[0]);
      LinesSkipped(gs[1..], more);
      assert GivenLines(gs) + more == [line] + (later + more);
      assert ([line] + (later + more))[1..] == later + more;
    }
  }

  /** An alarm, or any other component inside one. */
  function Nested(kind: string, gs: seq<Given>): seq<string> {
    ["BEGIN:" + kind] + GivenLines(gs) + ["END:" + kind]
  }

  lemma NestedSkipped(kind: string, gs: seq<Given>, more: seq<string>)
    requires AllFit(gs)
    ensures ComponentLines(Nested(kind, gs) + more, 0) == ComponentLines(more, 0)
  {
    hide GivenLines;
    var tail := ["END:" + kind] + more;
    var all := Nested(kind, gs) + more;
    assert all[0] == "BEGIN:" + kind && all[1..] == GivenLines(gs) + tail;
    LinesSkipped(gs, tail);
    assert tail[0][0] == 'E' && tail[1..] == more;
  }

  // ----- documents ------------------------------------------------------------------

  /** A document around the given lines of one component. */
  function Around(kind: string, lines: seq<string>): string {
    FoldedAll(HeaderLines(kind) + lines + FooterLines(kind))
  }

  predicate AllPlain(lines: seq<string>) {
    forall k | 0 <= k < |lines| :: PlainLine(lines[k])
  }

  lemma {:induction false} GivenAllPlain(gs: seq<Given>)
    requires AllFit(gs)
    ensures AllPlain(GivenLines(gs))
  {
    hide Fit;
    hide PlainLine;
    hide GivenLine;
    if gs != [] {
      GivenPlain(gs[0]);
      GivenAllPlain(gs[1..]);
    }
  }

  lemma AroundLines(kind: string, lines: seq<string>)
    requires Kind(kind) && AllPlain(lines)
    ensures ReadLines(Around(kind, lines)) == Some(HeaderLines(kind) + lines + FooterLines(kind))
  {
    hide ReadLines;
    hide FoldedAll;
    hide PlainLine;
    var h, f := HeaderLines(kind), FooterLines(kind);
    var all := h + lines + f;
    forall k | 0 <= k < |all| ensures PlainLine(all[k]) {
      if k < 4 {
        HeaderLineFacts(kind, k);
      } else if k < 4 + |lines| {
        assert all[k] == lines[k - 4];
      } else {
        FooterLineFacts(kind, k - 4 - |lines|);
        assert all[k] == f[k - 4 - |lines|];
      }
    }
    AllPlainReadable(all);
  }

  lemma AllPlainReadable(all: seq<string>)
    requires AllPlain(all)
    ensures ReadLines(FoldedAll(all)) == Some(all)
  {
    hide ReadLines;
    hide FoldedAll;
    hide HasCrlf;
    assert forall k | 0 <= k < |all| :: PlainLine(all[k]);
    UnfoldFoldedAll(all);
  }

  lemma AroundRead(kind: string, lines: seq<string>, lib: Library)
    requires Kind(kind) && AllPlain(lines)
    ensures ParseComponent(Around(kind, lines), kind, lib) ==
            Ok(ReadEntries(ComponentLines(lines + FooterLines(kind), 0), lib))
  {
    hide Around;
    hide ReadEntries;
    hide ReadLines;
    hide FooterLines;
    hide ComponentLines;
    hide AllPlain;
    AroundLines(kind, lines);
    var rest := lines + FooterLines(kind);
    FindBehindHeader(kind, [], rest);
    assert LinesOf([]) + rest == rest && LinesOf([]) + ComponentLines(rest, 0) == ComponentLines(rest, 0);
    assert HeaderLines(kind) + lines + FooterLines(kind) == HeaderLines(kind) + rest;
    assert (HeaderLines(kind) + rest)[0] == "BEGIN:VCALENDAR";
  }

  function GivenDoc(kind: string, gs: seq<Given>): string {
    Around(kind, GivenLines(gs))
  }

  lemma GivenDocRead(kind: string, gs: seq<Given>, lib: Library)
    requires Kind(kind) && AllFit(gs)
    ensures ParseComponent(GivenDoc(kind, gs), kind, lib) == Ok(GivenEntries(gs, lib))
  {
    hide Around;
    hide FooterLines;
    hide ReadEntries;
    hide ComponentLines;
    hide AllFit;
    GivenAllPlain(gs);
    AroundRead(kind, GivenLines(gs), lib);
    LinesKept(gs, FooterLines(kind));
    FooterEnds(kind);
    ReadAllGiven(gs, lib);
    assert GivenLines(gs) + [] == GivenLines(gs);
  }

  /** A component nested in an event or task, whatever properties it has, changes nothing in what is read. */
  lemma NestedIgnored(kind: string, inner: string, a: seq<Given>, nested: seq<Given>, b: seq<Given>, lib: Library)
    requires Kind(kind) && AllFit(a) && AllFit(nested) && AllFit(b) && '\r' !in inner
    ensures ParseComponent(Around(kind, GivenLines(a) + (Nested(inner, nested) + GivenLines(b))), kind, lib) ==
            ParseComponent(GivenDoc(kind, a + b), kind, lib)
  {
    hide Around;
    hide FooterLines;
    hide ReadEntries;
    hide ComponentLines;
    hide AllFit;
    hide PlainLine;
    hide Nested;
    var lines := GivenLines(a) + (Nested(inner, nested) + GivenLines(b));
    var f := FooterLines(kind);
    GivenAllPlain(a);
    GivenAllPlain(b);
    NestedPlain(inner, nested);
    AroundRead(kind, lines, lib);
    assert lines + f == GivenLines(a) + (Nested(inner, nested) + (GivenLines(b) + f));
    LinesKept(a, Nested(inner, nested) + (GivenLines(b) + f));
    NestedSkipped(inner, nested, GivenLines(b) + f);
    LinesKept(b, f);
    FooterEnds(kind);
    GivenLinesConcat(a, b);
    assert GivenLines(a) + (GivenLines(b) + []) == GivenLines(a + b);
    FitConcat(a, b);
    ReadAllGiven(a + b, lib);
    GivenDocRead(kind, a + b, lib);
  }

  lemma FitConcat(a: seq<Given>, b: seq<Given>)
    requires AllFit(a) && AllFit(b)
    ensures AllFit(a + b)
  {
    hide Fit;
  }

  lemma NestedPlain(kind: string, gs: seq<Given>)
    requires AllFit(gs) && '\r' !in kind
    ensures AllPlain(Nested(kind, gs))
  {
    hide HasCrlf;
    hide AllFit;
    GivenAllPlain(gs);
    var b, e := "BEGIN:" + kind, "END:" + kind;
    PlainWithoutCr(b);
    PlainWithoutCr(e);
  }

  lemma {:induction false} GivenLinesConcat(a: seq<Given>, b: seq<Given>)
    ensures GivenLines(a + b) == GivenLines(a) + GivenLines(b)
  {
    hide GivenLine;
    if a == [] {
      assert a + b == b;
    } else {
      assert (a + b)[0] == a[0] && (a + b)[1..] == a[1..] + b;
      GivenLinesConcat(a[1..], b);
    }
  }

  // ----- times ----------------------------------------------------------------------

  /** What a property of a time may state: an instant in UTC, a time on the clock of a zone or of none, a day. */
  datatype Moment =
    | InUtc(c: Fields)
    | OnClock(c: Fields, zone: Option<string>)
    | OnDay(c: Fields)

  predicate Statable(m: Moment) {
    && ValidFields(m.c) && 0 <= m.c.year < 10_000
    && (m.OnClock? && m.zone.Some? ==> '"' !in m.zone.value && '\r' !in m.zone.value)
    && (m.OnDay? ==> m.c.hour == 0 && m.c.minute == 0 && m.c.second == 0)
  }

  /** A parameter value stands in quotes where the grammar needs them. */
  function Quote(value: string): string {
    if ':' in value || ';' in value || ',' in value then "\"" + (value + "\"") else value
  }

  function MomentParams(m: Moment): string {
    match m
    case InUtc(_) => ""
    case OnClock(_, zone) => if zone.Some? then ";TZID=" + Quote(zone.value) else ""
    case OnDay(_) => ";VALUE=DATE"
  }

  function MomentText(m: Moment): string
    requires Statable(m)
  {
    match m
    case InUtc(c) => StampText(c)
    case OnClock(c, _) => ClockText(c)
    case OnDay(c) => DayText(c)
  }

  function DayText(c: Fields): string {
    YearText(c.year) + Digits2(c.month) + Digits2(c.day)
  }

  function ClockText(c: Fields): string {
    DayText(c) + ['T'] + Digits2(c.hour) + Digits2(c.minute) + Digits2(c.second)
  }

  function Digits2(n: int): string {
    if n < 0 then "" else Padded(n, 2)
  }

  /** The instant meant: a zone decides for its clock; without a zone, or with an unknown one, the clock is UTC. */
  function MomentMeans(m: Moment, lib: Library): Instant
    requires Statable(m)
  {
    match m
    case InUtc(c) => InstantOf(c)
    case OnClock(c, zone) => if zone.Some? then ToUtc(InstantOf(c), None, lib.zones(zone.value)) else InstantOf(c)
    case OnDay(c) => InstantOf(c)
  }

  predicate States(gs: seq<Given>, name: string, m: Moment)
    requires Statable(m)
  {
    FirstGiven(gs, name) == Some(Given(name, MomentParams(m), MomentText(m)))
  }

  lemma TzidBehind(param: string, rest: string)
    requires Passes(param, ';', false) && !("TZID=" <= param) && (rest != "" ==> rest[0] == ';')
    ensures TzidOf(";" + (param + rest)) == TzidOf(rest)
  {
    hide Passes;
    var params := ";" + (param + rest);
    assert params[1..] == param + rest;
    UpToPasses(param, rest, ';', false);
    assert params[1..1 + |param|] == param && params[1 + |param|..] == rest;
  }

  lemma TzidFirst(param: string)
    requires Passes("TZID=" + param, ';', false)
    ensures TzidOf(";TZID=" + param) == Some(Unquoted(param))
  {
    hide Passes;
    hide Unquoted;
    var params, all := ";TZID=" + param, "TZID=" + param;
    assert params[1..] == all && all + "" == all;
    UpToPasses(all, "", ';', false);
    assert params[1..1 + |all|] == all && "TZID=" <= all && all[5..] == param;
  }

  lemma QuotePasses(value: string, mark: char)
    requires '"' !in value && (mark == ';' || mark == ':')
    ensures Passes(Quote(value), mark, false)
  {
    if ':' in value || ';' in value || ',' in value {
      PassesQuoted(value, mark);
      assert Quote(value)[1..] == value + "\"";
    } else {
      PassesPlain(value, mark);
    }
  }

  lemma QuoteRead(value: string)
    requires '"' !in value
    ensures Unquoted(Quote(value)) == value
  {
    assert Quote(value) != value ==> Quote(value)[1..|Quote(value)| - 1] == value;
  }

  lemma ZoneRead(name: string)
    requires '"' !in name && '\r' !in name
    ensures TzidOf(";TZID=" + Quote(name)) == Some(name) && FitParams(";TZID=" + Quote(name))
  {
    hide TzidOf;
    hide Passes;
    hide Quote;
    QuotePasses(name, ';');
    PassesThen("TZID=", Quote(name), ';');
    TzidFirst(Quote(name));
    QuoteRead(name);
    QuotePasses(name, ':');
    PassesThen(";TZID=", Quote(name), ':');
    QuoteClean(name);
  }

  lemma DateRead()
    ensures TzidOf(";VALUE=DATE") == None && FitParams(";VALUE=DATE")
  {
    hide TzidOf;
    hide Passes;
    PassesPlain("VALUE=DATE", ';');
    PassesPlain(";VALUE=DATE", ':');
    assert "VALUE=DATE"[0] == 'V';
    TzidBehind("VALUE=DATE", "");
    TzidOfNothing();
    assert "VALUE=DATE" + "" == "VALUE=DATE" && ";" + "VALUE=DATE" == ";VALUE=DATE";
  }

  lemma ParamsRead(m: Moment)
    requires Statable(m)
    ensures TzidOf(MomentParams(m)) == if m.OnClock? then m.zone else None
    ensures FitParams(MomentParams(m))
  {
    hide TzidOf;
    hide FitParams;
    hide ValidFields;
    DateRead();
    TzidOfNothing();
    if m.OnClock? && m.zone.Some? {
      ZoneRead(m.zone.value);
    }
  }

  lemma QuoteClean(value: string)
    requires '\r' !in value
    ensures '\r' !in Quote(value)
  {
  }

  lemma TzidOfNothing()
    ensures TzidOf("") == None && FitParams("")
  {
  }

  lemma StampSplit(c: Fields)
    requires ValidFields(c) && 0 <= c.year < 10_000
    ensures StampText(c) == ClockText(c) + "Z" && |ClockText(c)| == 15 && |DayText(c)| == 8
    ensures c.hour == 0 && c.minute == 0 && c.second == 0 ==> StampText(c) == DayText(c) + "T000000Z"
  {
    ZerosText();
    hide Padded;
    hide YearText;
    YearTextOf(c.year);
    var d := DayText(c);
    assert ClockText(c) + "Z" == d + ['T'] + Padded(c.hour, 2) + Padded(c.minute, 2) + Padded(c.second, 2) + ['Z'];
    if c.hour == 0 && c.minute == 0 && c.second == 0 {
      assert StampText(c) == d + (['T'] + "00" + "00" + "00" + ['Z']);
      assert ['T'] + "00" + "00" + "00" + ['Z'] == "T000000Z";
    }
  }

  lemma YearTextOf(y: int)
    requires 0 <= y < 10_000
    ensures |YearText(y)| == 4
  {
  }

  lemma ZerosText()
    ensures Padded(0, 2) == "00"
  {
    assert Padded(0, 0) == "" && Padded(0, 1) == "" + "0" == "0" && Padded(0, 2) == "0" + "0";
  }

  lemma StampHas16(s: string)
    ensures ReadStamp(s).Some? ==> |s| == 16
  {
  }

  lemma MomentValues(m: Moment)
    requires Statable(m)
    ensures DateTimeValues(MomentText(m)) ==
            [DateTimeValue(PartialDateTime(InstantOf(m.c), !m.OnDay?, if m.InUtc? then Some(0) else None))]
  {
    hide ReadStamp;
    hide InstantOf;
    hide StampText;
    hide ClockText;
    hide DayText;
    hide ValidFields;
    var raw := MomentText(m);
    ReadInvertsText(m.c);
    StampSplit(m.c);
    StampHas16(raw);
    StampHas16(raw + "Z");
  }

  lemma DayNeedsNoZone(local: int)
    ensures ToUtc(local, None, None) == local && ToUtc(local, Some(0), None) == local
  {
  }

  /** A stated time is read as what it means, by the zone its own property names. */
  lemma MomentRead(gs: seq<Given>, name: string, m: Moment, lib: Library)
    requires Statable(m) && States(gs, name, m) && (name == "DTSTART" || name == "DTEND" || name == "DUE")
    ensures DateTimeProp(GivenEntries(gs, lib), PropertyOf(name), lib) == Some(MomentMeans(m, lib))
    ensures name == "DTSTART" ==> (IsAllDayStart(GivenEntries(gs, lib)) <==> m.OnDay?)
  {
    hide GivenEntries;
    hide MomentText;
    hide MomentParams;
    hide DateTimeValues;
    hide TzidOf;
    hide InstantOf;
    hide ToUtc;
    hide FirstGiven;
    FindGiven(gs, name, lib);
    ParamsRead(m);
    MomentValues(m);
    TimeValuesOf(name, MomentText(m), lib);
    DayNeedsNoZone(InstantOf(m.c));
  }

  lemma TimeValuesOf(name: string, raw: string, lib: Library)
    requires name == "DTSTART" || name == "DTEND" || name == "DUE"
    ensures ReadValues(PropertyOf(name), raw, lib) == DateTimeValues(raw)
    ensures name == "DTSTART" ==> PropertyOf(name) == Dtstart
  {
    hide DateTimeValues;
  }

  // ----- texts, durations, numbers --------------------------------------------------

  /** The first text of a text property, if the property is there. */
  ghost predicate StatesText(gs: seq<Given>, name: string, text: Option<string>) {
    var g := FirstGiven(gs, name);
    if text.Some? then g.Some? && FirstOfList(g.value.raw, text.value) else g.None?
  }

  /** `raw` is a list of escaped texts, `text` the first of them. */
  ghost predicate FirstOfList(raw: string, text: string) {
    exists others :: raw == WriteTextList([text] + others)
  }

  lemma FirstOfListRead(raw: string, text: string)
    requires FirstOfList(raw, text)
    ensures var values := TextValues(SplitValues(raw)); values != [] && values[0] == TextValue(WithoutCr(text))
  {
    hide WriteTextList;
    hide SplitValues;
    hide Unescape;
    hide Escaped;
    var others :| raw == WriteTextList([text] + others);
    SplitInvertsTextList([text] + others);
    UnescapeInvertsEscaped(text);
    assert EscapedAll([text] + others)[0] == Escaped(text);
  }

  predicate StatesRaw(gs: seq<Given>, name: string, raw: Option<string>) {
    var g := FirstGiven(gs, name);
    if raw.Some? then g.Some? && g.value.raw == raw.value else g.None?
  }

  predicate TextName(name: string) {
    name == "UID" || name == "SUMMARY" || name == "LOCATION" || name == "DESCRIPTION"
  }

  lemma TextValuesOf(name: string, raw: string, lib: Library)
    requires TextName(name)
    ensures ReadValues(PropertyOf(name), raw, lib) == TextValues(SplitValues(raw))
  {
    hide TextValues;
    hide SplitValues;
  }

  lemma TextRead(gs: seq<Given>, name: string, text: Option<string>, lib: Library)
    requires TextName(name) && StatesText(gs, name, text)
    ensures TextProp(GivenEntries(gs, lib), PropertyOf(name)) == WithoutCrOption(text)
  {
    hide GivenEntries;
    hide FirstGiven;
    hide TextValues;
    hide SplitValues;
    hide Escaped;
    hide TzidOf;
    hide PropertyOf;
    FindGiven(gs, name, lib);
    if text.Some? {
      var raw := FirstGiven(gs, name).value.raw;
      TextValuesOf(name, raw, lib);
      FirstOfListRead(raw, text.value);
    }
  }

  /** A length as a document states it. */
  datatype Stated = Stated(sign: string, form: Form)

  predicate FitLength(x: Stated) {
    Grammatical(x.form) && (x.sign == "" || x.sign == "+" || x.sign == "-")
  }

  function LengthText(length: Option<Stated>): Option<string> {
    if length.Some? then Some(FormText(length.value.sign, length.value.form)) else None
  }

  /** Seconds are seconds, a minute has 60, an hour 3600, a day 86400 and a week 604800 of them. */
  function SecondsStated(form: Form): int {
    match form
    case Weeks(n) => n * 604_800
    case Parts(days, hours, minutes, seconds) =>
      OrZero(days) * 86_400 + OrZero(hours) * 3600 + OrZero(minutes) * 60 + OrZero(seconds)
  }

  function LengthStated(x: Stated): int {
    (if x.sign == "-" then -SecondsStated(x.form) else SecondsStated(x.form)) * 1_000_000_000
  }

  lemma LengthMeant(form: Form, neg: bool)
    ensures Length(Meant(form, neg)) == (if neg then -SecondsStated(form) else SecondsStated(form)) * 1_000_000_000
  {
  }

  lemma DurationValuesOf(raw: string, lib: Library)
    ensures PropertyOf("DURATION") == Property.Duration
    ensures ReadValues(Property.Duration, raw, lib) == DurationValues(raw)
  {
    hide DurationValues;
  }

  lemma LengthRead(gs: seq<Given>, length: Option<Stated>, lib: Library)
    requires length.Some? ==> FitLength(length.value)
    requires StatesRaw(gs, "DURATION", LengthText(length))
    ensures DurationProp(GivenEntries(gs, lib)) == if length.Some? then Some(LengthStated(length.value)) else None
  {
    hide GivenEntries;
    hide FirstGiven;
    hide ReadDuration;
    hide FormText;
    hide TzidOf;
    hide PropertyOf;
    hide ReadValues;
    hide Grammatical;
    hide SecondsStated;
    hide Length;
    FindGiven(gs, "DURATION", lib);
    DurationValuesOf("", lib);
    if length.Some? {
      var x := length.value;
      DurationValuesOf(FormText(x.sign, x.form), lib);
      ReadsForm(x.sign, x.form);
      LengthMeant(x.form, x.sign == "-");
    }
  }

  lemma RuleRead(gs: seq<Given>, raw: Option<string>, lib: Library)
    requires StatesRaw(gs, "RRULE", raw)
    ensures RruleProp(GivenEntries(gs, lib)) == if raw.Some? then lib.canon(raw.value) else None
  {
    hide GivenEntries;
    hide FirstGiven;
    hide TzidOf;
    FindGiven(gs, "RRULE", lib);
  }

  // ----- events ---------------------------------------------------------------------

  /** What a VEVENT says, whatever else it holds and in whatever order. */
  datatype EventFacts = EventFacts(
    uid: string,
    summary: Option<string>,
    start: Moment,
    end: Option<Moment>,
    length: Option<Stated>,
    location: Option<string>,
    description: Option<string>,
    rrule: Option<string>)

  predicate FitEvent(f: EventFacts) {
    Statable(f.start) && (f.end.Some? ==> Statable(f.end.value)) && (f.length.Some? ==> FitLength(f.length.value))
  }

  ghost predicate SaysEvent(gs: seq<Given>, f: EventFacts)
    requires FitEvent(f)
  {
    && StatesText(gs, "UID", Some(f.uid)) && StatesText(gs, "SUMMARY", f.summary)
    && States(gs, "DTSTART", f.start)
    && (if f.end.Some? then States(gs, "DTEND", f.end.value) else FirstGiven(gs, "DTEND").None?)
    && StatesRaw(gs, "DURATION", LengthText(f.length))
    && StatesText(gs, "LOCATION", f.location) && StatesText(gs, "DESCRIPTION", f.description)
    && StatesRaw(gs, "RRULE", f.rrule)
  }

  /** The end by section 3.6.1 of RFC 5545: DTEND, else DURATION, else the day of the start, else the start. */
  function EndMeant(f: EventFacts, lib: Library): Instant
    requires FitEvent(f)
  {
    if f.end.Some? then MomentMeans(f.end.value, lib)
    else if f.length.Some? then MomentMeans(f.start, lib) + LengthStated(f.length.value)
    else if f.start.OnDay? then MomentMeans(f.start, lib) + 86_400_000_000_000
    else MomentMeans(f.start, lib)
  }

  function EventMeant(f: EventFacts, lib: Library): Event
    requires FitEvent(f)
  {
    Event(WithoutCr(f.uid), None, None, if f.summary.Some? then WithoutCr(f.summary.value) else "",
          MomentMeans(f.start, lib), EndMeant(f, lib), WithoutCrOption(f.location), WithoutCrOption(f.description),
          if f.rrule.Some? then lib.canon(f.rrule.value) else None, false)
  }

  lemma EndRead(gs: seq<Given>, f: EventFacts, lib: Library)
    requires FitEvent(f) && SaysEvent(gs, f)
    ensures var comp := GivenEntries(gs, lib);
            && DateTimeProp(comp, Dtstart, lib) == Some(MomentMeans(f.start, lib))
            && EventEnd(comp, MomentMeans(f.start, lib), lib) == EndMeant(f, lib)
  {
    hide GivenEntries;
    hide FirstGiven;
    hide Statable;
    hide MomentMeans;
    hide MomentText;
    hide MomentParams;
    hide FormText;
    hide LengthStated;
    hide FitLength;
    hide DateTimeProp;
    hide DurationProp;
    hide IsAllDayStart;
    hide States;
    MomentRead(gs, "DTSTART", f.start, lib);
    LengthRead(gs, f.length, lib);
    if f.end.Some? {
      MomentRead(gs, "DTEND", f.end.value, lib);
    } else {
      NoTime(gs, "DTEND", lib);
    }
  }

  lemma NoTime(gs: seq<Given>, name: string, lib: Library)
    requires FirstGiven(gs, name).None?
    ensures DateTimeProp(GivenEntries(gs, lib), PropertyOf(name), lib) == None
  {
    hide PropertyOf;
    hide GivenEntries;
    hide FirstGiven;
    FindGiven(gs, name, lib);
  }

  /**
   Every event document with properties in any order, with parameters, unknown properties and repetitions, in
   all forms of time: the reader returns the event it describes.
   */
  lemma EventOfDocument(gs: seq<Given>, f: EventFacts, lib: Library)
    requires AllFit(gs) && FitEvent(f) && SaysEvent(gs, f)
    ensures ParseEvent(GivenDoc("VEVENT", gs), lib) == Ok(EventMeant(f, lib))
  {
    hide AllFit;
    hide GivenDoc;
    hide GivenEntries;
    hide StatesText;
    hide StatesRaw;
    hide States;
    hide TextProp;
    hide RruleProp;
    hide DateTimeProp;
    hide EventEnd;
    hide EndMeant;
    hide MomentMeans;
    hide FitEvent;
    GivenDocRead(VEVENT, gs, lib);
    TextRead(gs, "UID", Some(f.uid), lib);
    TextRead(gs, "SUMMARY", f.summary, lib);
    TextRead(gs, "LOCATION", f.location, lib);
    TextRead(gs, "DESCRIPTION", f.description, lib);
    RuleRead(gs, f.rrule, lib);
    EndRead(gs, f, lib);
  }

  /** Without a UID, or without a start, there is no event. */
  lemma EventIncomplete(gs: seq<Given>, lib: Library)
    requires AllFit(gs)
    ensures FirstGiven(gs, "UID").None? ==>
              && ParseEvent(GivenDoc("VEVENT", gs), lib) == Err("VEVENT missing UID")
              && ParseTodo(GivenDoc("VTODO", gs), lib) == Err("VTODO missing UID")
    ensures FirstGiven(gs, "DTSTART").None? ==>
              forall uid :: StatesText(gs, "UID", Some(uid)) ==>
                ParseEvent(GivenDoc("VEVENT", gs), lib) == Err("VEVENT missing DTSTART")
  {
    hide AllFit;
    hide GivenDoc;
    hide GivenEntries;
    hide FirstGiven;
    hide TextProp;
    hide DateTimeProp;
    GivenDocRead(VEVENT, gs, lib);
    GivenDocRead(VTODO, gs, lib);
    if FirstGiven(gs, "UID").None? {
      TextRead(gs, "UID", None, lib);
    }
    if FirstGiven(gs, "DTSTART").None? {
      NoTime(gs, "DTSTART", lib);
      forall uid | StatesText(gs, "UID", Some(uid))
        ensures ParseEvent(GivenDoc("VEVENT", gs), lib) == Err("VEVENT missing DTSTART")
      {
        TextRead(gs, "UID", Some(uid), lib);
      }
    }
  }

  // ----- tasks ----------------------------------------------------------------------

  datatype TodoFacts = TodoFacts(
    uid: string,
    summary: Option<string>,
    due: Option<Moment>,
    status: Option<string>,
    description: Option<string>,
    priority: Option<nat>)

  /** The statuses section 3.8.1.11 of RFC 5545 has for a task. */
  predicate FitTodo(f: TodoFacts) {
    && (f.due.Some? ==> Statable(f.due.value))
    && (f.status.Some? ==> f.status.value in {"NEEDS-ACTION", "COMPLETED", "IN-PROCESS", "CANCELLED"})
  }

  ghost predicate SaysTodo(gs: seq<Given>, f: TodoFacts)
    requires FitTodo(f)
  {
    && StatesText(gs, "UID", Some(f.uid)) && StatesText(gs, "SUMMARY", f.summary)
    && (if f.due.Some? then States(gs, "DUE", f.due.value) else FirstGiven(gs, "DUE").None?)
    && StatesRaw(gs, "STATUS", f.status) && StatesText(gs, "DESCRIPTION", f.description)
    && StatesRaw(gs, "PRIORITY", if f.priority.Some? then Some(Decimal(f.priority.value)) else None)
  }

  function TodoMeant(f: TodoFacts, lib: Library): Todo
    requires FitTodo(f)
  {
    Todo(WithoutCr(f.uid), None, None, if f.summary.Some? then WithoutCr(f.summary.value) else "",
         if f.due.Some? then Some(MomentMeans(f.due.value, lib)) else None, f.status, WithoutCrOption(f.description),
         if f.priority.Some? && f.priority.value <= 255 then Some(f.priority.value) else None)
  }

  lemma StatusValuesOf(raw: string, lib: Library)
    ensures PropertyOf("STATUS") == Status
    ensures ReadValues(Status, raw, lib) == if raw in STATUS_TOKENS then [StatusValue(raw)] else []
  {
  }

  lemma TaskToken(status: string)
    requires status in {"NEEDS-ACTION", "COMPLETED", "IN-PROCESS", "CANCELLED"}
    ensures status in STATUS_TOKENS
  {
  }

  lemma StatusRead(gs: seq<Given>, status: Option<string>, lib: Library)
    requires StatesRaw(gs, "STATUS", status)
    requires status.Some? ==> status.value in {"NEEDS-ACTION", "COMPLETED", "IN-PROCESS", "CANCELLED"}
    ensures StatusProp(GivenEntries(gs, lib)) == status
  {
    hide GivenEntries;
    hide FirstGiven;
    hide TzidOf;
    hide ReadValues;
    hide PropertyOf;
    hide STATUS_TOKENS;
    FindGiven(gs, "STATUS", lib);
    StatusValuesOf("", lib);
    if status.Some? {
      StatusValuesOf(status.value, lib);
      TaskToken(status.value);
    }
  }

  lemma PriorityRead(gs: seq<Given>, n: Option<nat>, lib: Library)
    requires StatesRaw(gs, "PRIORITY", if n.Some? then Some(Decimal(n.value)) else None)
    ensures PriorityProp(GivenEntries(gs, lib)) == if n.Some? && n.value <= 255 then Some(n.value) else None
  {
    hide GivenEntries;
    hide FirstGiven;
    hide TzidOf;
    hide Decimal;
    hide ReadNat;
    FindGiven(gs, "PRIORITY", lib);
    if n.Some? {
      ReadInvertsDecimal(n.value);
    }
  }

  lemma DueRead(gs: seq<Given>, f: TodoFacts, lib: Library)
    requires FitTodo(f) && SaysTodo(gs, f)
    ensures DateTimeProp(GivenEntries(gs, lib), Due, lib) ==
            if f.due.Some? then Some(MomentMeans(f.due.value, lib)) else None
  {
    hide GivenEntries;
    hide FirstGiven;
    hide Statable;
    hide MomentMeans;
    hide MomentText;
    hide MomentParams;
    hide DateTimeProp;
    hide States;
    if f.due.Some? {
      MomentRead(gs, "DUE", f.due.value, lib);
    } else {
      NoTime(gs, "DUE", lib);
    }
  }

  /** Every task document, likewise: its due date by the zone DUE names, its status, and a priority that fits. */
  lemma TodoOfDocument(gs: seq<Given>, f: TodoFacts, lib: Library)
    requires AllFit(gs) && FitTodo(f) && SaysTodo(gs, f)
    ensures ParseTodo(GivenDoc("VTODO", gs), lib) == Ok(TodoMeant(f, lib))
  {
    hide AllFit;
    hide GivenDoc;
    hide GivenEntries;
    hide StatesText;
    hide StatesRaw;
    hide States;
    hide TextProp;
    hide StatusProp;
    hide PriorityProp;
    hide DateTimeProp;
    hide MomentMeans;
    hide Decimal;
    GivenDocRead(VTODO, gs, lib);
    TextRead(gs, "UID", Some(f.uid), lib);
    TextRead(gs, "SUMMARY", f.summary, lib);
    TextRead(gs, "DESCRIPTION", f.description, lib);
    StatusRead(gs, f.status, lib);
    PriorityRead(gs, f.priority, lib);
    DueRead(gs, f, lib);
  }
}
