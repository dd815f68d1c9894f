/**
 Objects that came from a document: reading fixes the form of everything but the times, so writing them again
 loses nothing exactly when the times can be written. This is what lets a read-modify-write keep every field
 it was not asked to change.
 */
module Stable {
  import opened Wrappers
  import opened Model
  import opened Escape
  import opened ContentLines
  import opened Civil
  import opened LocalTime
  import opened Ical
  import opened RoundTrip

  /** The library's spelling of a rule is one line and is its own spelling. */
  ghost predicate Lawful(lib: Library) {
    forall raw :: lib.canon(raw).Some? ==>
      lib.canon(lib.canon(raw).value) == lib.canon(raw) && !HasCrlf(lib.canon(raw).value)
  }

  predicate NoCr(text: Option<string>) {
    text.Some? ==> '\r' !in text.value
  }

  predicate RuleStable(rule: Option<string>, lib: Library) {
    rule.Some? ==> !HasCrlf(rule.value) && lib.canon(rule.value) == rule
  }

  /** Texts without CR and a rule in the library's spelling: the form reading gives an event. */
  predicate ReadForm(ev: Event, lib: Library) {
    && '\r' !in ev.uid && '\r' !in ev.summary && NoCr(ev.location) && NoCr(ev.description)
    && RuleStable(ev.rrule, lib)
  }

  predicate TodoReadForm(td: Todo) {
    && '\r' !in td.uid && '\r' !in td.summary && NoCr(td.description)
    && (td.status.Some? ==> td.status.value in STATUS_TOKENS)
  }

  // ----- what the reader can return -------------------------------------------------

  lemma {:induction false} UnescapedHasNoCr(t: string)
    ensures Unescape(t).Some? ==> '\r' !in Unescape(t).value
  {
    if t != "" && Unescape(t).Some? {
      UnescapedHasNoCr(t[if t[0] == '\\' then 2 else 1..]);
    }
  }

  lemma {:induction false} TextValuesHaveNoCr(parts: seq<string>)
    ensures forall i | 0 <= i < |TextValues(parts)| ::
              TextValues(parts)[i].TextValue? && '\r' !in TextValues(parts)[i].text
  {
    if parts != [] {
      TextValuesHaveNoCr(parts[1..]);
      UnescapedHasNoCr(parts[0]);
    }
  }

  lemma {:induction false} SuffixClean(line: string, n: nat)
    requires n <= |line| && !HasCrlf(line)
    ensures !HasCrlf(line[n..])
  {
    if n > 0 {
      SuffixClean(line[1..], n - 1);
      assert line[1..][n - 1..] == line[n..];
    } else {
      assert line[0..] == line;
    }
  }

  lemma EntryOfLine(line: string, lib: Library) returns (raw: string)
    ensures var e := ReadEntry(line, lib); e.values == [] || e.values == ReadValues(e.prop, raw, lib)
    ensures !HasCrlf(line) ==> !HasCrlf(raw)
  {
    hide ReadValues;
    hide PropertyOf;
    hide TzidOf;
    hide HasCrlf;
    var n := NameLen(line);
    var colon := n + UpTo(line[n..], ':', false);
    var k := if colon < |line| then colon + 1 else |line|;
    raw := line[k..];
    if !HasCrlf(line) {
      SuffixClean(line, k);
    }
  }

  /** The raw text behind a property the reader found. */
  lemma {:induction false} EntryHasRaw(lines: seq<string>, prop: Property, lib: Library) returns (raw: string)
    requires FindProperty(ReadEntries(lines, lib), prop).Some?
    ensures var e := FindProperty(ReadEntries(lines, lib), prop).value;
            e.prop == prop && (e.values == [] || e.values == ReadValues(prop, raw, lib))
    ensures NoneBroken(lines) ==> !HasCrlf(raw)
  {
    hide ReadEntry;
    hide ReadValues;
    if ReadEntry(lines[0], lib).prop == prop {
      raw := EntryOfLine(lines[0], lib);
    } else {
      raw := EntryHasRaw(lines[1..], prop, lib);
    }
  }

  lemma ReadTextHasNoCr(lines: seq<string>, prop: Property, lib: Library)
    requires IsText(prop)
    ensures NoCr(TextProp(ReadEntries(lines, lib), prop))
  {
    if FindProperty(ReadEntries(lines, lib), prop).Some? {
      var raw := EntryHasRaw(lines, prop, lib);
      TextValuesHaveNoCr(SplitValues(raw));
    }
  }

  lemma ReadRuleStable(lines: seq<string>, lib: Library)
    requires Lawful(lib)
    ensures RuleStable(RruleProp(ReadEntries(lines, lib)), lib)
  {
    if FindProperty(ReadEntries(lines, lib), Rrule).Some? {
      var raw := EntryHasRaw(lines, Rrule, lib);
    }
  }

  lemma ReadStatusToken(lines: seq<string>, lib: Library)
    ensures var st := StatusProp(ReadEntries(lines, lib)); st.Some? ==> st.value in STATUS_TOKENS
  {
    if FindProperty(ReadEntries(lines, lib), Status).Some? {
      var raw := EntryHasRaw(lines, Status, lib);
    }
  }

  /** Every event read from a document has this form. */
  lemma ParsedEventForm(doc: string, lib: Library)
    requires Lawful(lib) && ParseEvent(doc, lib).Ok?
    ensures ReadForm(ParseEvent(doc, lib).value, lib)
  {
    var lines := FindComponent(ReadLines(doc).value, "VEVENT").value;
    ReadTextHasNoCr(lines, Uid, lib);
    ReadTextHasNoCr(lines, Summary, lib);
    ReadTextHasNoCr(lines, Location, lib);
    ReadTextHasNoCr(lines, Description, lib);
    ReadRuleStable(lines, lib);
  }

  lemma ParsedTodoForm(doc: string, lib: Library)
    requires ParseTodo(doc, lib).Ok?
    ensures TodoReadForm(ParseTodo(doc, lib).value)
  {
    var lines := FindComponent(ReadLines(doc).value, "VTODO").value;
    ReadTextHasNoCr(lines, Uid, lib);
    ReadTextHasNoCr(lines, Summary, lib);
    ReadTextHasNoCr(lines, Description, lib);
    ReadStatusToken(lines, lib);
  }

  // ----- writing it again -----------------------------------------------------------

  lemma NothingToDrop(ev: Event, lib: Library)
    requires ReadForm(ev, lib)
    ensures ReadBack(ev, ev.start, ev.end, lib) == ev.(href := None, etag := None, isInstance := false)
  {
    WithoutCrIdentity(ev.uid);
    WithoutCrIdentity(ev.summary);
    WithoutCrIdentity(OrEmpty(ev.location));
    WithoutCrIdentity(OrEmpty(ev.description));
  }

  /**
   Writing an event in this form and reading it again gives the same event, but for its place on the server,
   exactly when both its times can be written.
   */
  lemma EventSurvives(ev: Event, lib: Library)
    requires ReadForm(ev, lib)
    ensures ParseEvent(EventDoc(ev), lib) == Ok(ev.(href := None, etag := None, isInstance := false)) <==>
            Stampable(ev.start) && Stampable(ev.end)
  {
    NothingToDrop(ev, lib);
    EventRoundTrip(ev, lib);
  }

  lemma TodoNothingToDrop(td: Todo)
    requires TodoReadForm(td)
    ensures TodoReadBack(td, td.due, td.status) == td.(href := None, etag := None)
  {
    WithoutCrIdentity(td.uid);
    WithoutCrIdentity(td.summary);
    WithoutCrIdentity(OrEmpty(td.description));
  }

  lemma TodoSurvives(td: Todo, lib: Library)
    requires TodoReadForm(td)
    ensures ParseTodo(TodoDoc(td), lib) == Ok(td.(href := None, etag := None)) <==>
            (td.due.Some? ==> Stampable(td.due.value))
  {
    TodoNothingToDrop(td);
    TokensClean(td.status);
    TodoRoundTrip(td, lib);
  }

  /** Of all documents: what was read survives being written exactly when both its times can be written. */
  lemma ParsedEventSurvives(doc: string, lib: Library)
    requires Lawful(lib) && ParseEvent(doc, lib).Ok?
    ensures var ev := ParseEvent(doc, lib).value;
            ParseEvent(EventDoc(ev), lib) == Ok(ev) <==> Stampable(ev.start) && Stampable(ev.end)
  {
    ParsedEventForm(doc, lib);
    EventSurvives(ParseEvent(doc, lib).value, lib);
  }

  lemma ParsedTodoSurvives(doc: string, lib: Library)
    requires ParseTodo(doc, lib).Ok?
    ensures var td := ParseTodo(doc, lib).value;
            ParseTodo(TodoDoc(td), lib) == Ok(td) <==> (td.due.Some? ==> Stampable(td.due.value))
  {
    ParsedTodoForm(doc, lib);
    TodoSurvives(ParseTodo(doc, lib).value, lib);
  }

  lemma TokensClean(status: Option<string>)
    requires status.Some? ==> status.value in STATUS_TOKENS
    ensures CleanOption(status)
  {
    if status.Some? {
      NoCrNoCrlf(status.value);
    }
  }
}
