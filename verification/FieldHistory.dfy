/**
 The life of one field: through any run, a field of a stored object is what the last accepted update that
 set or cleared it made it. Documents, edits and the protocol come together here.
 */
module FieldHistory {
  import opened Wrappers
  import opened Model
  import opened Escape
  import opened ContentLines
  import opened Civil
  import opened Addressing
  import opened Ical
  import opened RoundTrip
  import opened Stable
  import opened RawRule
  import opened Protocol
  import opened ProtocolSafety
  import opened NoLostUpdates

  datatype Field = OfEvent(e: EventField) | OfTask(t: TodoField)

  /** A field of the object a document holds, as a reader sees it. */
  function FieldOf(body: string, f: Field, lib: Library): Option<FieldValue> {
    match f
    case OfEvent(e) =>
      var ev := ParseEvent(body, lib);
      if ev.Ok? then Some(EventGet(ev.value, e)) else None
    case OfTask(t) =>
      var td := ParseTodo(body, lib);
      if td.Ok? then Some(TodoGet(td.value, t)) else None
  }

  /** The request is an update of the kind of object the field belongs to. */
  predicate Concerns(r: Request, f: Field) {
    (r.UpdateEvent? && f.OfEvent?) || (r.UpdateTask? && f.OfTask?)
  }

  /** What the request says about the field. */
  function EffectOf(r: Request, f: Field): Option<FieldValue>
    requires Concerns(r, f)
  {
    match f
    case OfEvent(e) => EventEffect(r.eventUpdate, e)
    case OfTask(t) => TodoEffect(r.todoUpdate, t)
  }

  /** A value as it comes back from a document: texts lose CRs, times fractions of seconds, rules are respelled. */
  function AsRead(v: FieldValue, f: Field, lib: Library): FieldValue {
    match v
    case Text(Some(s)) =>
      if f == OfEvent(ERrule) then Text(lib.canon(s))
      else if f == OfTask(TStatus) then v
      else Text(Some(WithoutCr(s)))
    case Time(Some(t)) => Time(Some(WholeSeconds(t)))
    case _ => v
  }

  function EffectRead(r: Request, f: Field, lib: Library): Option<FieldValue>
    requires Concerns(r, f)
  {
    var effect := EffectOf(r, f);
    if effect.Some? then Some(AsRead(effect.value, f, lib)) else None
  }

  predicate StampableOption(t: Option<Instant>) {
    t.Some? ==> Stampable(t.value)
  }

  predicate FourDigitOption(t: Option<Instant>) {
    t.Some? ==> FourDigitYear(t.value)
  }

  /** The field is written before RRULE, and it is written: no RRULE text can damage it. */
  predicate OutOfReach(u: EventUpdate, e: EventField) {
    match e
    case ESummary => true
    case EStart => true
    case EEnd => true
    case ELocation => u.patch.location.Some?
    case EDescription => u.patch.description.Some?
    case ERrule => false
  }

  /** The field is out of reach of the request's RRULE text, or that text is one line; a status is a token. */
  predicate RuleFits(r: Request, f: Field) {
    match r
    case UpdateEvent(_, _, u) => (f.OfEvent? && OutOfReach(u, f.e)) || CleanOption(u.patch.rrule)
    case UpdateTask(_, _, u) => u.patch.status.Some? ==> u.patch.status.value in STATUS_TOKENS
    case _ => true
  }

  /** ... and new times are in years of four digits. */
  predicate Keepable(r: Request, f: Field) {
    && RuleFits(r, f)
    && match r
       case UpdateEvent(_, _, u) => FourDigitOption(u.patch.start) && FourDigitOption(u.patch.end)
       case UpdateTask(_, _, u) => FourDigitOption(u.patch.due)
       case _ => true
  }

  predicate EventTimesFit(ev: Event) {
    Stampable(ev.start) && Stampable(ev.end)
  }

  predicate TodoTimesFit(td: Todo) {
    StampableOption(td.due)
  }

  /** The times of the object a document holds can be written: whole seconds of four-digit years. */
  predicate TimesFit(body: string, f: Field, lib: Library) {
    match f
    case OfEvent(_) => ParseEvent(body, lib).Ok? ==> EventTimesFit(ParseEvent(body, lib).value)
    case OfTask(_) => ParseTodo(body, lib).Ok? ==> TodoTimesFit(ParseTodo(body, lib).value)
  }

  // ----- one update -----------------------------------------------------------------

  lemma WithoutCrStable(text: Option<string>)
    requires NoCr(text)
    ensures WithoutCrOption(text) == text
  {
    if text.Some? {
      WithoutCrIdentity(text.value);
    }
  }

  /** The times of the edited event can be written: new ones in four digits, old ones as they are. */
  predicate EditedTimesFit(ev: Event, u: EventUpdate) {
    && (if u.patch.start.Some? then FourDigitYear(u.patch.start.value) else Stampable(ev.start))
    && (if u.patch.end.Some? then FourDigitYear(u.patch.end.value) else Stampable(ev.end))
  }

  /** Reading a written event field by field. */
  lemma EventFieldsReadBack(ev: Event, e: EventField, lib: Library)
    ensures EventGet(ReadBack(ev, WholeSeconds(ev.start), WholeSeconds(ev.end), lib), e) ==
            AsRead(EventGet(ev, e), OfEvent(e), lib)
  {
  }

  lemma ReadFormFields(ev: Event, e: EventField, lib: Library)
    requires ReadForm(ev, lib)
    requires (e == EStart ==> Stampable(ev.start)) && (e == EEnd ==> Stampable(ev.end))
    ensures AsRead(EventGet(ev, e), OfEvent(e), lib) == EventGet(ev, e)
  {
    match e {
      case ESummary => WithoutCrIdentity(ev.summary);
      case ELocation => WithoutCrStable(ev.location);
      case EDescription => WithoutCrStable(ev.description);
      case EStart => WholeSecondsFit(ev.start);
      case EEnd => WholeSecondsFit(ev.end);
      case ERrule =>
    }
  }

  /** A reader finds what the request asked for, and in all other fields what was there. */
  ghost predicate EventAsAsked(ev: Event, u: EventUpdate, again: Result<Event, string>, cal: string, uid: string,
                               lib: Library) {
    && again.Ok? && again.value.uid == ev.uid
    && forall e :: EventGet(again.value, e) ==
         Overlay(EffectRead(UpdateEvent(cal, uid, u), OfEvent(e), lib), EventGet(ev, e))
  }

  lemma EditedRuleClean(ev: Event, u: EventUpdate, lib: Library)
    requires ReadForm(ev, lib) && CleanOption(u.patch.rrule) && EditedEvent(ev, u).Ok?
    ensures CleanOption(EditedEvent(ev, u).value.rrule)
  {
    hide HasCrlf;
  }

  lemma EditedEventRead(ev: Event, u: EventUpdate, cal: string, uid: string, e: EventField, lib: Library)
    requires ReadForm(ev, lib) && EditedEvent(ev, u).Ok? && EditedTimesFit(ev, u)
    ensures var after := EditedEvent(ev, u).value;
            AsRead(EventGet(after, e), OfEvent(e), lib) ==
            Overlay(EffectRead(UpdateEvent(cal, uid, u), OfEvent(e), lib), EventGet(ev, e))
  {
    hide Stampable;
    hide FourDigitYear;
    hide ReadForm;
    EditedEventFields(ev, u, e);
    if EventEffect(u, e).None? {
      ReadFormFields(ev, e, lib);
    }
  }

  lemma EditedYears(ev: Event, u: EventUpdate)
    requires EditedEvent(ev, u).Ok? && EditedTimesFit(ev, u)
    ensures FourDigitYear(EditedEvent(ev, u).value.start) && FourDigitYear(EditedEvent(ev, u).value.end)
  {
    hide FourDigitYear;
  }

  /** Title and times of an edited event, whatever its rule. */
  lemma HeadSeen(ev: Event, u: EventUpdate, lib: Library)
    requires '\r' !in ev.uid && EditedEvent(ev, u).Ok? && EditedTimesFit(ev, u)
    ensures var after := EditedEvent(ev, u).value;
            var again := ParseEvent(EventDoc(after), lib);
            && again.Ok? && again.value.uid == ev.uid && again.value.summary == WithoutCr(after.summary)
            && (after.location.Some? ==> again.value.location == WithoutCrOption(after.location))
            && (after.description.Some? ==> again.value.description == WithoutCrOption(after.description))
            && again.value.start == WholeSeconds(after.start) && again.value.end == WholeSeconds(after.end)
            && EventTimesFit(again.value)
  {
    hide EventDoc;
    hide ParseEvent;
    hide FourDigitYear;
    hide Stampable;
    hide WholeSeconds;
    hide ReadStamp;
    var after := EditedEvent(ev, u).value;
    EditedYears(ev, u);
    EventHeadSurvives(after, lib);
    StampReads(after.start);
    StampReads(after.end);
    WholeSecondsFit(after.start);
    WholeSecondsFit(after.end);
    WithoutCrIdentity(ev.uid);
  }

  lemma CleanRead(ev: Event, lib: Library)
    requires CleanOption(ev.rrule) && FourDigitYear(ev.start) && FourDigitYear(ev.end)
    ensures ParseEvent(EventDoc(ev), lib) == Ok(ReadBack(ev, WholeSeconds(ev.start), WholeSeconds(ev.end), lib))
  {
    hide EventDoc;
    hide ParseEvent;
    hide FourDigitYear;
    hide HasCrlf;
    EventParsed(ev, lib);
    StampReads(ev.start);
    StampReads(ev.end);
  }

  lemma SetTexts(ev: Event, u: EventUpdate)
    requires EditedEvent(ev, u).Ok?
    ensures u.patch.location.Some? ==> EditedEvent(ev, u).value.location.Some?
    ensures u.patch.description.Some? ==> EditedEvent(ev, u).value.description.Some?
  {
  }

  lemma HeadFieldRead(again: Event, after: Event, e: EventField, lib: Library)
    requires e != ERrule && again.summary == WithoutCr(after.summary)
    requires e == ELocation ==> after.location.Some? && again.location == WithoutCrOption(after.location)
    requires e == EDescription ==> after.description.Some? && again.description == WithoutCrOption(after.description)
    requires again.start == WholeSeconds(after.start) && again.end == WholeSeconds(after.end)
    ensures EventGet(again, e) == AsRead(EventGet(after, e), OfEvent(e), lib)
  {
  }

  /** One field of an edited event, as a reader finds it. */
  lemma EventFieldSeen(ev: Event, u: EventUpdate, cal: string, uid: string, e: EventField, lib: Library)
    requires ReadForm(ev, lib) && EditedEvent(ev, u).Ok? && EditedTimesFit(ev, u)
    requires OutOfReach(u, e) || CleanOption(u.patch.rrule)
    ensures var again := ParseEvent(EventDoc(EditedEvent(ev, u).value), lib);
            && again.Ok?
            && EventGet(again.value, e) ==
               Overlay(EffectRead(UpdateEvent(cal, uid, u), OfEvent(e), lib), EventGet(ev, e))
  {
    hide EventDoc;
    hide ParseEvent;
    hide EffectRead;
    hide EditedEvent;
    hide ReadStamp;
    hide AsRead;
    hide ReadBack;
    hide FourDigitYear;
    hide Stampable;
    hide WholeSeconds;
    hide HasCrlf;
    var after := EditedEvent(ev, u).value;
    HeadSeen(ev, u, lib);
    EditedEventRead(ev, u, cal, uid, e, lib);
    if CleanOption(u.patch.rrule) {
      EditedRuleClean(ev, u, lib);
      EditedYears(ev, u);
      CleanRead(after, lib);
      EventFieldsReadBack(after, e, lib);
    } else {
      SetTexts(ev, u);
      HeadFieldRead(ParseEvent(EventDoc(after), lib).value, after, e, lib);
    }
  }

  lemma AllFieldsSeen(ev: Event, u: EventUpdate, cal: string, uid: string, lib: Library)
    requires ReadForm(ev, lib) && CleanOption(u.patch.rrule) && EditedEvent(ev, u).Ok? && EditedTimesFit(ev, u)
    ensures EventAsAsked(ev, u, ParseEvent(EventDoc(EditedEvent(ev, u).value), lib), cal, uid, lib)
  {
    hide EventDoc;
    hide ParseEvent;
    hide EffectRead;
    hide EditedEvent;
    hide EditedTimesFit;
    hide HasCrlf;
    HeadSeen(ev, u, lib);
    var again := ParseEvent(EventDoc(EditedEvent(ev, u).value), lib);
    forall e
      ensures EventGet(again.value, e) ==
              Overlay(EffectRead(UpdateEvent(cal, uid, u), OfEvent(e), lib), EventGet(ev, e))
    {
      EventFieldSeen(ev, u, cal, uid, e, lib);
    }
  }

  /** What the reader finds as a time when the old or the new one was asked for. */
  predicate TimeAsAsked(again: Instant, before: Instant, set_: Option<Instant>) {
    again == if set_.Some? then WholeSeconds(set_.value) else before
  }

  lemma TimeAsAskedFits(after: Instant, before: Instant, set_: Option<Instant>, again: Instant)
    requires after == if set_.Some? then set_.value else before
    requires TimeAsAsked(again, before, set_) && again == WholeSeconds(after) && FourDigitYear(after)
    ensures if set_.Some? then FourDigitYear(set_.value) else Stampable(before)
  {
    WholeSecondsFit(after);
  }

  lemma SetTimesAsAsked(ev: Event, u: EventUpdate, again: Event, cal: string, uid: string, lib: Library)
    requires EventAsAsked(ev, u, Ok(again), cal, uid, lib)
    ensures TimeAsAsked(again.start, ev.start, u.patch.start) && TimeAsAsked(again.end, ev.end, u.patch.end)
  {
    var r := UpdateEvent(cal, uid, u);
    assert EventGet(again, EStart) == Overlay(EffectRead(r, OfEvent(EStart), lib), EventGet(ev, EStart));
    assert EventGet(again, EEnd) == Overlay(EffectRead(r, OfEvent(EEnd), lib), EventGet(ev, EEnd));
  }

  /** An end that cannot be read is replaced by the start, which is not what was asked for. */
  lemma EndIsReadable(after: Instant, start: Instant, before: Instant, set_: Option<Instant>, again: Instant)
    requires after == if set_.Some? then set_.value else before
    requires again == if FourDigitYear(after) then WholeSeconds(after) else WholeSeconds(start)
    requires FourDigitYear(start) && TimeAsAsked(again, before, set_)
    ensures FourDigitYear(after)
  {
    hide FourDigitYear;
    WholeSecondsFit(after);
    WholeSecondsFit(start);
  }

  /** Had the reader the times asked for, they could be written. */
  lemma AskedTimesFit(ev: Event, u: EventUpdate, cal: string, uid: string, lib: Library)
    requires ReadForm(ev, lib) && CleanOption(u.patch.rrule) && EditedEvent(ev, u).Ok?
    requires EventAsAsked(ev, u, ParseEvent(EventDoc(EditedEvent(ev, u).value), lib), cal, uid, lib)
    ensures EditedTimesFit(ev, u)
  {
    hide EventDoc;
    hide ParseEvent;
    hide EventAsAsked;
    hide FourDigitYear;
    hide Stampable;
    hide WholeSeconds;
    hide ReadStamp;
    hide HasCrlf;
    hide ReadForm;
    var after := EditedEvent(ev, u).value;
    EditedRuleClean(ev, u, lib);
    EventParsed(after, lib);
    StampReads(after.start);
    StampReads(after.end);
    var r := ParseEvent(EventDoc(after), lib);
    assert r.Ok? by {
      AskedIsOk(ev, u, r, cal, uid, lib);
    }
    SetTimesAsAsked(ev, u, r.value, cal, uid, lib);
    TimeAsAskedFits(after.start, ev.start, u.patch.start, r.value.start);
    EndIsReadable(after.end, after.start, ev.end, u.patch.end, r.value.end);
    TimeAsAskedFits(after.end, ev.end, u.patch.end, r.value.end);
  }

  lemma AskedIsOk(ev: Event, u: EventUpdate, again: Result<Event, string>, cal: string, uid: string, lib: Library)
    requires EventAsAsked(ev, u, again, cal, uid, lib)
    ensures again.Ok?
  {
  }

  lemma CleanUpdateSeen(body: string, u: EventUpdate, cal: string, uid: string, lib: Library)
    requires Lawful(lib) && CleanOption(u.patch.rrule)
    requires ParseEvent(body, lib).Ok? && EditedEvent(ParseEvent(body, lib).value, u).Ok?
    ensures var ev := ParseEvent(body, lib).value;
            EventAsAsked(ev, u, ParseEvent(EventDoc(EditedEvent(ev, u).value), lib), cal, uid, lib) <==>
            EditedTimesFit(ev, u)
  {
    hide EventAsAsked;
    hide EditedTimesFit;
    var ev := ParseEvent(body, lib).value;
    ParsedEventForm(body, lib);
    if EditedTimesFit(ev, u) {
      AllFieldsSeen(ev, u, cal, uid, lib);
    }
    if EventAsAsked(ev, u, ParseEvent(EventDoc(EditedEvent(ev, u).value), lib), cal, uid, lib) {
      AskedTimesFit(ev, u, cal, uid, lib);
    }
  }

  // ----- one update, every library --------------------------------------------------

  /** With this library the document reads, the update is accepted, and reading its result shows what was asked. */
  ghost predicate UpdateIsSeen(body: string, u: EventUpdate, cal: string, uid: string, lib: Library) {
    && ParseEvent(body, lib).Ok? && EditedEvent(ParseEvent(body, lib).value, u).Ok?
    && var ev := ParseEvent(body, lib).value;
       EventAsAsked(ev, u, ParseEvent(EventDoc(EditedEvent(ev, u).value), lib), cal, uid, lib)
  }

  /** Libraries with the same zones agree on what an update needs. */
  lemma SameEdit(body: string, u: EventUpdate, a: Library, b: Library)
    requires a.zones == b.zones && ParseEvent(body, a).Ok? && EditedEvent(ParseEvent(body, a).value, u).Ok?
    ensures ParseEvent(body, b).Ok? && EditedEvent(ParseEvent(body, b).value, u).Ok?
    ensures EditedTimesFit(ParseEvent(body, b).value, u) <==> EditedTimesFit(ParseEvent(body, a).value, u)
    ensures u.patch.rrule.Some? ==>
              EditedEvent(ParseEvent(body, b).value, u) == EditedEvent(ParseEvent(body, a).value, u)
  {
    hide ParseEvent;
    SameButRule(body, a, b);
  }

  lemma AskedRule(ev: Event, u: EventUpdate, again: Result<Event, string>, cal: string, uid: string, lib: Library)
    requires EventAsAsked(ev, u, again, cal, uid, lib) && u.patch.rrule.Some?
    ensures again.Ok? && again.value.rrule == lib.canon(u.patch.rrule.value)
  {
    assert EventGet(again.value, ERrule) ==
           Overlay(EffectRead(UpdateEvent(cal, uid, u), OfEvent(ERrule), lib), EventGet(ev, ERrule));
  }

  /** A new rule that is not one line is not seen by some lawful library with these zones. */
  lemma BrokenRuleNotSeen(body: string, u: EventUpdate, cal: string, uid: string, some: Library) returns (lib: Library)
    requires ParseEvent(body, some).Ok? && EditedEvent(ParseEvent(body, some).value, u).Ok?
    requires !CleanOption(u.patch.rrule)
    ensures Lawful(lib) && lib.zones == some.zones && !UpdateIsSeen(body, u, cal, uid, lib)
  {
    hide EventDoc;
    hide ParseEvent;
    hide Lawful;
    hide TellingFor;
    hide EventAsAsked;
    var after := EditedEvent(ParseEvent(body, some).value, u).value;
    lib := TellingFor(EventDoc(after), some.zones);
    BrokenRuleShows(after, some.zones);
    SameEdit(body, u, some, lib);
    if UpdateIsSeen(body, u, cal, uid, lib) {
      AskedRule(ParseEvent(body, lib).value, u, ParseEvent(EventDoc(after), lib), cal, uid, lib);
    }
  }

  /**
   Read, update, write, read again, with every lawful library that knows these zones: exactly the fields of the
   request have changed, if and only if the edited times can be written and the new rule, if any, is one line.
   */
  lemma EventUpdateThenRead(body: string, u: EventUpdate, cal: string, uid: string, some: Library)
    requires ParseEvent(body, some).Ok? && EditedEvent(ParseEvent(body, some).value, u).Ok?
    ensures (forall lib: Library | Lawful(lib) && lib.zones == some.zones :: UpdateIsSeen(body, u, cal, uid, lib)) <==>
            EditedTimesFit(ParseEvent(body, some).value, u) && CleanOption(u.patch.rrule)
  {
    hide EventDoc;
    hide ParseEvent;
    hide EditedTimesFit;
    hide EventAsAsked;
    hide Lawful;
    hide HasCrlf;
    forall lib: Library | Lawful(lib) && lib.zones == some.zones && CleanOption(u.patch.rrule)
      ensures UpdateIsSeen(body, u, cal, uid, lib) <==> EditedTimesFit(ParseEvent(body, some).value, u)
    {
      SameEdit(body, u, some, lib);
      CleanUpdateSeen(body, u, cal, uid, lib);
    }
    if CleanOption(u.patch.rrule) {
      var lib := Telling("A", some.zones);
      ShortIsOneLine("A");
      TellingIsLawful("A", some.zones);
      assert UpdateIsSeen(body, u, cal, uid, lib) <==> EditedTimesFit(ParseEvent(body, some).value, u);
    } else {
      var lib := BrokenRuleNotSeen(body, u, cal, uid, some);
    }
  }

  // ----- one update of a task -------------------------------------------------------

  predicate EditedDueFits(td: Todo, u: TodoUpdate) {
    if u.patch.due.Some? then FourDigitYear(u.patch.due.value)
    else Names(u.clear, "due") || StampableOption(td.due)
  }

  function WholeOption(t: Option<Instant>): Option<Instant> {
    if t.Some? then Some(WholeSeconds(t.value)) else None
  }

  lemma TodoFieldsReadBack(td: Todo, t: TodoField, lib: Library)
    ensures TodoGet(TodoReadBack(td, WholeOption(td.due), td.status), t) == AsRead(TodoGet(td, t), OfTask(t), lib)
  {
  }

  lemma TodoReadFormFields(td: Todo, t: TodoField, lib: Library)
    requires TodoReadForm(td) && (t == TDue ==> StampableOption(td.due))
    ensures AsRead(TodoGet(td, t), OfTask(t), lib) == TodoGet(td, t)
  {
    match t {
      case TSummary => WithoutCrIdentity(td.summary);
      case TDescription => WithoutCrStable(td.description);
      case TDue =>
        if td.due.Some? {
          WholeSecondsFit(td.due.value);
        }
      case _ =>
    }
  }

  ghost predicate TodoAsAsked(td: Todo, u: TodoUpdate, again: Result<Todo, string>, cal: string, uid: string,
                              lib: Library) {
    && again.Ok? && again.value.uid == td.uid
    && forall t :: TodoGet(again.value, t) ==
         Overlay(EffectRead(UpdateTask(cal, uid, u), OfTask(t), lib), TodoGet(td, t))
  }

  lemma EditedStatusToken(td: Todo, u: TodoUpdate, cal: string, uid: string, f: Field)
    requires TodoReadForm(td) && RuleFits(UpdateTask(cal, uid, u), f) && EditedTodo(td, u).Ok?
    ensures var status := EditedTodo(td, u).value.status; status.Some? ==> status.value in STATUS_TOKENS
  {
  }

  lemma EditedTodoRead(td: Todo, u: TodoUpdate, cal: string, uid: string, t: TodoField, lib: Library)
    requires TodoReadForm(td) && EditedTodo(td, u).Ok? && EditedDueFits(td, u)
    ensures var after := EditedTodo(td, u).value;
            AsRead(TodoGet(after, t), OfTask(t), lib) ==
            Overlay(EffectRead(UpdateTask(cal, uid, u), OfTask(t), lib), TodoGet(td, t))
  {
    hide Stampable;
    hide FourDigitYear;
    hide TodoReadForm;
    EditedTodoFields(td, u, t);
    if TodoEffect(u, t).None? {
      TodoReadFormFields(td, t, lib);
    }
  }

  lemma EditedDueYear(td: Todo, u: TodoUpdate)
    requires EditedTodo(td, u).Ok? && EditedDueFits(td, u)
    ensures FourDigitOption(EditedTodo(td, u).value.due)
  {
    hide FourDigitYear;
  }

  lemma DueReads(td: Todo)
    requires FourDigitOption(td.due)
    ensures DueBack(td) == WholeOption(td.due) && StampableOption(WholeOption(td.due))
  {
    if td.due.Some? {
      StampReads(td.due.value);
      WholeSecondsFit(td.due.value);
    }
  }

  lemma TodoWriteThenRead(td: Todo, u: TodoUpdate, cal: string, uid: string, f: Field, lib: Library)
    requires TodoReadForm(td) && RuleFits(UpdateTask(cal, uid, u), f) && EditedTodo(td, u).Ok? && EditedDueFits(td, u)
    ensures var again := ParseTodo(TodoDoc(EditedTodo(td, u).value), lib);
            TodoAsAsked(td, u, again, cal, uid, lib) && again.Ok? && TodoTimesFit(again.value)
  {
    hide AsRead;
    hide EffectRead;
    hide TodoDoc;
    hide ParseTodo;
    hide DueBack;
    hide FourDigitYear;
    hide Stampable;
    var after := EditedTodo(td, u).value;
    EditedStatusToken(td, u, cal, uid, f);
    TokensClean(after.status);
    WithoutCrIdentity(td.uid);
    EditedDueYear(td, u);
    DueReads(after);
    TodoParsed(after, lib);
    assert StatusBack(after) == after.status;
    forall t
      ensures TodoGet(TodoReadBack(after, WholeOption(after.due), after.status), t) ==
              Overlay(EffectRead(UpdateTask(cal, uid, u), OfTask(t), lib), TodoGet(td, t))
    {
      EditedTodoRead(td, u, cal, uid, t, lib);
      TodoFieldsReadBack(after, t, lib);
    }
  }

  lemma AskedDue(td: Todo, u: TodoUpdate, again: Result<Todo, string>, cal: string, uid: string, lib: Library)
    requires TodoAsAsked(td, u, again, cal, uid, lib)
    ensures again.Ok?
    ensures again.value.due ==
            if u.patch.due.Some? then WholeOption(u.patch.due) else if Names(u.clear, "due") then None else td.due
  {
    assert TodoGet(again.value, TDue) ==
           Overlay(EffectRead(UpdateTask(cal, uid, u), OfTask(TDue), lib), TodoGet(td, TDue));
  }

  /** A due date that is read back as it is could be written. */
  lemma DueFits(after: Option<Instant>, before: Option<Instant>, set_: Option<Instant>, cleared: bool)
    requires after == if set_.Some? then set_ else if cleared then None else before
    requires (if after.Some? then ReadStamp(Stamp(after.value)) else None) ==
             if set_.Some? then WholeOption(set_) else if cleared then None else before
    ensures if set_.Some? then FourDigitYear(set_.value) else cleared || StampableOption(before)
  {
    hide FourDigitYear;
    hide ReadStamp;
    hide Stamp;
    hide WholeSeconds;
    if after.Some? {
      StampReads(after.value);
      WholeSecondsFit(after.value);
    }
  }

  lemma DueAsAsked(td: Todo, u: TodoUpdate, cal: string, uid: string, f: Field, lib: Library)
    requires TodoReadForm(td) && RuleFits(UpdateTask(cal, uid, u), f) && EditedTodo(td, u).Ok?
    requires TodoAsAsked(td, u, ParseTodo(TodoDoc(EditedTodo(td, u).value), lib), cal, uid, lib)
    ensures EditedDueFits(td, u)
  {
    hide TodoDoc;
    hide ParseTodo;
    hide ReadStamp;
    hide Stamp;
    hide TodoAsAsked;
    hide FourDigitYear;
    hide Stampable;
    hide WholeSeconds;
    var after := EditedTodo(td, u).value;
    EditedStatusToken(td, u, cal, uid, f);
    TokensClean(after.status);
    TodoParsed(after, lib);
    AskedDue(td, u, ParseTodo(TodoDoc(after), lib), cal, uid, lib);
    DueFits(after.due, td.due, u.patch.due, Names(u.clear, "due"));
  }

  /** The same for a task: if and only if its due date can be written. */
  lemma TodoUpdateThenRead(body: string, u: TodoUpdate, cal: string, uid: string, f: Field, lib: Library)
    requires RuleFits(UpdateTask(cal, uid, u), f)
    requires ParseTodo(body, lib).Ok? && EditedTodo(ParseTodo(body, lib).value, u).Ok?
    ensures var td := ParseTodo(body, lib).value;
            TodoAsAsked(td, u, ParseTodo(TodoDoc(EditedTodo(td, u).value), lib), cal, uid, lib) <==>
            EditedDueFits(td, u)
  {
    hide TodoAsAsked;
    hide EditedDueFits;
    var td := ParseTodo(body, lib).value;
    ParsedTodoForm(body, lib);
    if EditedDueFits(td, u) {
      TodoWriteThenRead(td, u, cal, uid, f, lib);
    }
    if TodoAsAsked(td, u, ParseTodo(TodoDoc(EditedTodo(td, u).value), lib), cal, uid, lib) {
      DueAsAsked(td, u, cal, uid, f, lib);
    }
  }

  // ----- either kind ----------------------------------------------------------------

  /** The document an update writes for what it read in `body`. */
  function Updated(r: Request, body: string, lib: Library): Option<string>
    requires IsUpdate(r)
  {
    var c := Parsed(r, body, lib);
    if c.None? || EditedCopy(r, c.value).Err? then None else Some(CopyDoc(EditedCopy(r, c.value).value))
  }

  lemma EventUpdateSeen(body: string, cal: string, uid: string, u: EventUpdate, e: EventField, lib: Library)
    requires var r := UpdateEvent(cal, uid, u);
             Lawful(lib) && Keepable(r, OfEvent(e)) && TimesFit(body, OfEvent(e), lib) && Updated(r, body, lib).Some?
    ensures var r := UpdateEvent(cal, uid, u);
            var doc := Updated(r, body, lib).value;
            && TimesFit(doc, OfEvent(e), lib) && FieldOf(body, OfEvent(e), lib).Some?
            && FieldOf(doc, OfEvent(e), lib) ==
               Some(Overlay(EffectRead(r, OfEvent(e), lib), FieldOf(body, OfEvent(e), lib).value))
  {
    hide EventDoc;
    hide ParseEvent;
    hide FourDigitYear;
    hide Stampable;
    hide HasCrlf;
    hide EffectRead;
    var ev := ParseEvent(body, lib).value;
    ParsedEventForm(body, lib);
    HeadSeen(ev, u, lib);
    EventFieldSeen(ev, u, cal, uid, e, lib);
  }

  lemma TodoUpdateSeen(body: string, cal: string, uid: string, u: TodoUpdate, t: TodoField, lib: Library)
    requires var r := UpdateTask(cal, uid, u);
             Keepable(r, OfTask(t)) && TimesFit(body, OfTask(t), lib) && Updated(r, body, lib).Some?
    ensures var r := UpdateTask(cal, uid, u);
            var doc := Updated(r, body, lib).value;
            && TimesFit(doc, OfTask(t), lib) && FieldOf(body, OfTask(t), lib).Some?
            && FieldOf(doc, OfTask(t), lib) ==
               Some(Overlay(EffectRead(r, OfTask(t), lib), FieldOf(body, OfTask(t), lib).value))
  {
    hide TodoDoc;
    hide ParseTodo;
    hide FourDigitYear;
    hide Stampable;
    hide EffectRead;
    var td := ParseTodo(body, lib).value;
    ParsedTodoForm(body, lib);
    TodoWriteThenRead(td, u, cal, uid, OfTask(t), lib);
  }

  /** What a reader finds in one field after an update; the times still fit. */
  lemma UpdateSeen(r: Request, body: string, f: Field, lib: Library)
    requires Lawful(lib) && Concerns(r, f) && Keepable(r, f) && TimesFit(body, f, lib) && Updated(r, body, lib).Some?
    ensures var doc := Updated(r, body, lib).value;
            && TimesFit(doc, f, lib) && FieldOf(body, f, lib).Some?
            && FieldOf(doc, f, lib) == Some(Overlay(EffectRead(r, f, lib), FieldOf(body, f, lib).value))
  {
    hide Updated;
    hide Keepable;
    hide TimesFit;
    hide FieldOf;
    hide EffectRead;
    match r {
      case UpdateEvent(cal, uid, u) => EventUpdateSeen(body, cal, uid, u, f.e, lib);
      case UpdateTask(cal, uid, u) => TodoUpdateSeen(body, cal, uid, u, f.t, lib);
      case _ =>
    }
  }

  /** An accepted update of an object whose times fit, seen through a reader; the times still fit. */
  lemma UpdateThenRead(r: Request, before: Contents, c: Commit, f: Field, lib: Library)
    requires Lawful(lib) && Keepable(r, f) && Concerns(r, f) && Does(r, before, c, lib)
    requires TimesFit(before[c.href], f, lib)
    ensures c.action.Wrote? && TimesFit(c.action.body, f, lib) && FieldOf(before[c.href], f, lib).Some?
    ensures FieldOf(c.action.body, f, lib) ==
            Some(Overlay(EffectRead(r, f, lib), FieldOf(before[c.href], f, lib).value))
  {
    hide Keepable;
    hide TimesFit;
    hide FieldOf;
    hide EffectRead;
    hide EventDoc;
    hide TodoDoc;
    hide ParseEvent;
    hide ParseTodo;
    UpdateSeen(r, before[c.href], f, lib);
  }

  // ----- a whole history ------------------------------------------------------------

  /** The write, if it is to `h`, is a guarded update of the field's kind of object that keeps the field. */
  predicate UpdateOn(c: Commit, calls: map<nat, Call>, h: string, f: Field) {
    c.href == h ==>
      c.author.By? && c.author.id in calls && Keepable(calls[c.author.id].req, f) && Concerns(calls[c.author.id].req, f)
  }

  predicate OnlyUpdates(log: seq<Commit>, calls: map<nat, Call>, h: string, f: Field) {
    forall k | 0 <= k < |log| :: UpdateOn(log[k], calls, h, f)
  }

  /** The value the last write to `h` that set or cleared the field gave it, else `before`. */
  function LastValue(log: seq<Commit>, calls: map<nat, Call>, h: string, f: Field, before: FieldValue,
                     lib: Library): FieldValue
    requires OnlyUpdates(log, calls, h, f)
  {
    if log == [] then before
    else
      var init, last := log[..|log| - 1], log[|log| - 1];
      if last.href == h && EffectRead(calls[last.author.id].req, f, lib).Some? then
        EffectRead(calls[last.author.id].req, f, lib).value
      else LastValue(init, calls, h, f, before, lib)
  }

  /** The object is there, its times fit, and its field reads as `v`. */
  predicate ReadsAs(contents: Contents, h: string, f: Field, v: FieldValue, lib: Library) {
    h in contents && TimesFit(contents[h], f, lib) && FieldOf(contents[h], f, lib) == Some(v)
  }

  lemma ApplyElsewhere(before: Contents, last: Commit, h: string)
    requires h in before && last.href != h
    ensures h in Apply(before, last) && Apply(before, last)[h] == before[h]
  {
  }

  lemma ApplyHere(before: Contents, last: Commit)
    requires last.action.Wrote?
    ensures last.href in Apply(before, last) && Apply(before, last)[last.href] == last.action.body
  {
  }

  lemma OneMore(before: Contents, last: Commit, calls: map<nat, Call>, h: string, f: Field, v: FieldValue, lib: Library)
    requires Lawful(lib) && ReadsAs(before, h, f, v, lib) && UpdateOn(last, calls, h, f)
    requires last.href == h ==> Does(calls[last.author.id].req, before, last, lib)
    ensures ReadsAs(Apply(before, last), h, f,
                    if last.href == h then Overlay(EffectRead(calls[last.author.id].req, f, lib), v) else v, lib)
  {
    if last.href == h {
      UpdateThenRead(calls[last.author.id].req, before, last, f, lib);
      ApplyHere(before, last);
    } else {
      ApplyElsewhere(before, last, h);
    }
  }

  lemma LastValueSnoc(log: seq<Commit>, last: Commit, calls: map<nat, Call>, h: string, f: Field, v: FieldValue,
                      lib: Library)
    requires OnlyUpdates(log + [last], calls, h, f)
    ensures OnlyUpdates(log, calls, h, f) && UpdateOn(last, calls, h, f)
    ensures LastValue(log + [last], calls, h, f, v, lib) ==
            if last.href == h then Overlay(EffectRead(calls[last.author.id].req, f, lib),
                   LastValue(log, calls, h, f, v, lib))
            else LastValue(log, calls, h, f, v, lib)
  {
    assert (log + [last])[..|log|] == log;
    forall k | 0 <= k < |log| ensures log[k] == (log + [last])[k] {}
    assert (log + [last])[|log|] == last;
  }

  lemma SerialPrefix(start: Contents, log: seq<Commit>, last: Commit, calls: map<nat, Call>, lib: Library)
    requires Serial(start, log + [last], calls, lib)
    ensures Serial(start, log, calls, lib)
    ensures last.author.By? ==>
              last.author.id in calls && Does(calls[last.author.id].req, Replay(start, log), last, lib)
  {
    var all := log + [last];
    assert all[..|log|] == log && all[|log|] == last;
    forall k | 0 <= k < |log| && log[k].author.By?
      ensures log[k].author.id in calls && Does(calls[log[k].author.id].req, Replay(start, log[..k]), log[k], lib)
    {
      assert all[k] == log[k] && all[..k] == log[..k];
    }
  }

  lemma {:induction false} HistoryOf(start: Contents, head: seq<Commit>, tail: seq<Commit>, calls: map<nat, Call>,
                                    h: string, f: Field, v: FieldValue, lib: Library)
    requires Lawful(lib) && Serial(start, head + tail, calls, lib)
    requires ReadsAs(Replay(start, head), h, f, v, lib) && OnlyUpdates(tail, calls, h, f)
    ensures ReadsAs(Replay(start, head + tail), h, f, LastValue(tail, calls, h, f, v, lib), lib)
    decreases |tail|
  {
    hide ReadsAs;
    hide EffectRead;
    hide Serial;
    if tail == [] {
      assert head + tail == head;
    } else {
      var init, last := tail[..|tail| - 1], tail[|tail| - 1];
      assert tail == init + [last] && head + tail == (head + init) + [last];
      SerialPrefix(start, head + init, last, calls, lib);
      LastValueSnoc(init, last, calls, h, f, v, lib);
      HistoryOf(start, head, init, calls, h, f, v, lib);
      ReplaySnoc(start, head + init, last);
      OneMore(Replay(start, head + init), last, calls, h, f, LastValue(init, calls, h, f, v, lib), lib);
    }
  }

  /**
   From any moment of any run at which the object can be read: as long as only guarded updates touch it, it
   stays readable, and each of its fields has the value the last update that set or cleared it gave it.
   */
  lemma FieldsFollowHistory(s: State, labels: seq<Label>, m: nat, h: string, f: Field, lib: Library)
    requires Lawful(lib) && Initial(s) && IsRun(s, labels, lib)
    requires var start, end := StoreContents(s.store), Final(s, labels, lib);
             && m <= |end.log| && h in Replay(start, end.log[..m])
             && FieldOf(Replay(start, end.log[..m])[h], f, lib).Some?
             && TimesFit(Replay(start, end.log[..m])[h], f, lib)
             && OnlyUpdates(end.log[m..], end.calls, h, f)
    ensures var start, end := StoreContents(s.store), Final(s, labels, lib);
            && h in end.store
            && FieldOf(end.store[h].body, f, lib) ==
               Some(LastValue(end.log[m..], end.calls, h, f,
                              FieldOf(Replay(start, end.log[..m])[h], f, lib).value, lib))
  {
    hide FieldOf;
    hide TimesFit;
    hide WritersOk;
    hide Serial;
    var start, end := StoreContents(s.store), Final(s, labels, lib);
    RunsAreSerial(s, labels, lib);
    assert end.log == end.log[..m] + end.log[m..];
    HistoryOf(start, end.log[..m], end.log[m..], end.calls, h, f,
              FieldOf(Replay(start, end.log[..m])[h], f, lib).value, lib);
    assert h in StoreContents(end.store) && StoreContents(end.store)[h] == end.store[h].body;
  }

}
