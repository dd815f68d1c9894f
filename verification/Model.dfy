/**
 The domain objects, their partial updates, and what one update request means field by field.
 `Event` and `Todo` are values; `EventRecord` and `TodoRecord` are the mutable structs the tools edit in place.
 */
module Model {
  import opened Wrappers

  /** An instant on the UTC time line: nanoseconds since 1970-01-01T00:00:00Z. */
  type Instant = int

  type U8 = n: int | 0 <= n < 256

  datatype Event = Event(
    uid: string,
    href: Option<string>,
    etag: Option<string>,
    summary: string,
    start: Instant,
    end: Instant,
    location: Option<string>,
    description: Option<string>,
    rrule: Option<string>,
    isInstance: bool)

  datatype Todo = Todo(
    uid: string,
    href: Option<string>,
    etag: Option<string>,
    summary: string,
    due: Option<Instant>,
    status: Option<string>,
    description: Option<string>,
    priority: Option<U8>)

  datatype EventPatch = EventPatch(
    summary: Option<string>,
    start: Option<Instant>,
    end: Option<Instant>,
    location: Option<string>,
    description: Option<string>,
    rrule: Option<string>)

  datatype TodoPatch = TodoPatch(
    summary: Option<string>,
    due: Option<Instant>,
    status: Option<string>,
    description: Option<string>,
    priority: Option<U8>)

  const EVENT_CLEARABLE: set<string> := {"location", "description", "rrule"}
  const TODO_CLEARABLE: set<string> := {"due", "status", "description", "priority"}

  /** How many leading names of a clear list are accepted before the first unknown one. */
  function KnownPrefix(names: seq<string>, clearable: set<string>): (k: nat)
    ensures k <= |names|
    ensures forall i | 0 <= i < k :: names[i] in clearable
    ensures k < |names| ==> names[k] !in clearable
  {
    if names == [] || names[0] !in clearable then 0 else 1 + KnownPrefix(names[1..], clearable)
  }

  /** `Ok` when every name is accepted, otherwise the first name that is not. */
  function ClearVerdict(names: seq<string>, clearable: set<string>): Result<(), string> {
    var k := KnownPrefix(names, clearable);
    if k < |names| then Err(names[k]) else Ok(())
  }

  lemma {:induction false} KnownPrefixUnique(names: seq<string>, clearable: set<string>, k: nat)
    requires k <= |names| && forall i | 0 <= i < k :: names[i] in clearable
    requires k < |names| ==> names[k] !in clearable
    ensures k == KnownPrefix(names, clearable)
  {
    if k > 0 {
      forall i | 0 <= i < k - 1 ensures names[1..][i] in clearable {
        assert names[1..][i] == names[i + 1];
      }
      KnownPrefixUnique(names[1..], clearable, k - 1);
    }
  }

  // ----- events ---------------------------------------------------------------------

  function EventWithout(ev: Event, cleared: seq<string>): Event {
    ev.(location := if "location" in cleared then None else ev.location,
        description := if "description" in cleared then None else ev.description,
        rrule := if "rrule" in cleared then None else ev.rrule)
  }

  function PatchedEvent(ev: Event, p: EventPatch): Event {
    ev.(summary := if p.summary.Some? then p.summary.value else ev.summary,
        start := if p.start.Some? then p.start.value else ev.start,
        end := if p.end.Some? then p.end.value else ev.end,
        location := OrElse(p.location, ev.location),
        description := OrElse(p.description, ev.description),
        rrule := OrElse(p.rrule, ev.rrule))
  }

  class EventRecord {
    var uid: string
    var href: Option<string>
    var etag: Option<string>
    var summary: string
    var start: Instant
    var end: Instant
    var location: Option<string>
    var description: Option<string>
    var rrule: Option<string>
    var isInstance: bool

    constructor (ev: Event)
      ensures Value() == ev
    {
      uid, href, etag := ev.uid, ev.href, ev.etag;
      summary, start, end := ev.summary, ev.start, ev.end;
      location, description, rrule := ev.location, ev.description, ev.rrule;
      isInstance := ev.isInstance;
    }

    function Value(): Event
      reads this
    {
      Event(uid, href, etag, summary, start, end, location, description, rrule, isInstance)
    }

    method ApplyPatch(p: EventPatch)
      modifies this
      ensures Value() == PatchedEvent(old(Value()), p)
    {
      if p.summary.Some? {
        summary := p.summary.value;
      }
      if p.start.Some? {
        start := p.start.value;
      }
      if p.end.Some? {
        end := p.end.value;
      }
      if p.location.Some? {
        location := p.location;
      }
      if p.description.Some? {
        description := p.description;
      }
      if p.rrule.Some? {
        rrule := p.rrule;
      }
    }

    /** On an unknown name the fields named before it are already cleared, and only those. */
    method ClearFields(names: seq<string>) returns (r: Result<(), string>)
      modifies this
      ensures r == ClearVerdict(names, EVENT_CLEARABLE)
      ensures Value() == EventWithout(old(Value()), names[..KnownPrefix(names, EVENT_CLEARABLE)])
    {
      for i := 0 to |names|
        invariant forall j | 0 <= j < i :: names[j] in EVENT_CLEARABLE
        invariant Value() == EventWithout(old(Value()), names[..i])
      {
        assert names[..i + 1] == names[..i] + [names[i]];
        match names[i] {
          case "location" => location := None;
          case "description" => description := None;
          case "rrule" => rrule := None;
          case other =>
            KnownPrefixUnique(names, EVENT_CLEARABLE, i);
            return Err(other);
        }
      }
      KnownPrefixUnique(names, EVENT_CLEARABLE, |names|);
      return Ok(());
    }
  }

  /** One update request: what to clear first, then what to set. */
  datatype EventUpdate = EventUpdate(clear: Option<seq<string>>, patch: EventPatch)

  /** The edit between GET and PUT: clear, patch, and force a whole-series edit. */
  function EditedEvent(ev: Event, u: EventUpdate): Result<Event, string> {
    if u.clear.Some? && ClearVerdict(u.clear.value, EVENT_CLEARABLE).Err? then
      Err(ClearVerdict(u.clear.value, EVENT_CLEARABLE).error)
    else
      var cleared := if u.clear.Some? then EventWithout(ev, u.clear.value) else ev;
      Ok(PatchedEvent(cleared, u.patch).(isInstance := false))
  }

  // ----- tasks ----------------------------------------------------------------------

  function TodoWithout(td: Todo, cleared: seq<string>): Todo {
    td.(due := if "due" in cleared then None else td.due,
        status := if "status" in cleared then None else td.status,
        description := if "description" in cleared then None else td.description,
        priority := if "priority" in cleared then None else td.priority)
  }

  function PatchedTodo(td: Todo, p: TodoPatch): Todo {
    td.(summary := if p.summary.Some? then p.summary.value else td.summary,
        due := OrElse(p.due, td.due),
        status := OrElse(p.status, td.status),
        description := OrElse(p.description, td.description),
        priority := OrElse(p.priority, td.priority))
  }

  class TodoRecord {
    var uid: string
    var href: Option<string>
    var etag: Option<string>
    var summary: string
    var due: Option<Instant>
    var status: Option<string>
    var description: Option<string>
    var priority: Option<U8>

    constructor (td: Todo)
      ensures Value() == td
    {
      uid, href, etag, summary := td.uid, td.href, td.etag, td.summary;
      due, status, description, priority := td.due, td.status, td.description, td.priority;
    }

    function Value(): Todo
      reads this
    {
      Todo(uid, href, etag, summary, due, status, description, priority)
    }

    method ApplyPatch(p: TodoPatch)
      modifies this
      ensures Value() == PatchedTodo(old(Value()), p)
    {
      if p.summary.Some? {
        summary := p.summary.value;
      }
      if p.due.Some? {
        due := p.due;
      }
      if p.status.Some? {
        status := p.status;
      }
      if p.description.Some? {
        description := p.description;
      }
      if p.priority.Some? {
        priority := p.priority;
      }
    }

    method ClearFields(names: seq<string>) returns (r: Result<(), string>)
      modifies this
      ensures r == ClearVerdict(names, TODO_CLEARABLE)
      ensures Value() == TodoWithout(old(Value()), names[..KnownPrefix(names, TODO_CLEARABLE)])
    {
      for i := 0 to |names|
        invariant forall j | 0 <= j < i :: names[j] in TODO_CLEARABLE
        invariant Value() == TodoWithout(old(Value()), names[..i])
      {
        assert names[..i + 1] == names[..i] + [names[i]];
        match names[i] {
          case "due" => due := None;
          case "status" => status := None;
          case "description" => description := None;
          case "priority" => priority := None;
          case other =>
            KnownPrefixUnique(names, TODO_CLEARABLE, i);
            return Err(other);
        }
      }
      KnownPrefixUnique(names, TODO_CLEARABLE, |names|);
      return Ok(());
    }
  }

  datatype TodoUpdate = TodoUpdate(clear: Option<seq<string>>, patch: TodoPatch)

  function EditedTodo(td: Todo, u: TodoUpdate): Result<Todo, string> {
    if u.clear.Some? && ClearVerdict(u.clear.value, TODO_CLEARABLE).Err? then
      Err(ClearVerdict(u.clear.value, TODO_CLEARABLE).error)
    else
      var cleared := if u.clear.Some? then TodoWithout(td, u.clear.value) else td;
      Ok(PatchedTodo(cleared, u.patch))
  }

  // ----- one request, field by field ------------------------------------------------

  datatype FieldValue = Text(text: Option<string>) | Time(time: Option<Instant>) | Number(number: Option<U8>)

  datatype EventField = ESummary | EStart | EEnd | ELocation | EDescription | ERrule

  datatype TodoField = TSummary | TDue | TStatus | TDescription | TPriority

  function EventGet(ev: Event, f: EventField): FieldValue {
    match f
    case ESummary => Text(Some(ev.summary))
    case EStart => Time(Some(ev.start))
    case EEnd => Time(Some(ev.end))
    case ELocation => Text(ev.location)
    case EDescription => Text(ev.description)
    case ERrule => Text(ev.rrule)
  }

  function TodoGet(td: Todo, f: TodoField): FieldValue {
    match f
    case TSummary => Text(Some(td.summary))
    case TDue => Time(td.due)
    case TStatus => Text(td.status)
    case TDescription => Text(td.description)
    case TPriority => Number(td.priority)
  }

  predicate Names(clear: Option<seq<string>>, name: string) {
    clear.Some? && name in clear.value
  }

  /** A request on one text field: a new value wins over a clear, and a field it does not mention stays. */
  function TextEffect(set_: Option<string>, cleared: bool): Option<FieldValue> {
    if set_.Some? then Some(Text(set_)) else if cleared then Some(Text(None)) else None
  }

  function TimeEffect(set_: Option<Instant>, cleared: bool): Option<FieldValue> {
    if set_.Some? then Some(Time(set_)) else if cleared then Some(Time(None)) else None
  }

  function NumberEffect(set_: Option<U8>, cleared: bool): Option<FieldValue> {
    if set_.Some? then Some(Number(set_)) else if cleared then Some(Number(None)) else None
  }

  /** What request `u` says about field `f`, or nothing. */
  function EventEffect(u: EventUpdate, f: EventField): Option<FieldValue> {
    match f
    case ESummary => TextEffect(u.patch.summary, false)
    case EStart => TimeEffect(u.patch.start, false)
    case EEnd => TimeEffect(u.patch.end, false)
    case ELocation => TextEffect(u.patch.location, Names(u.clear, "location"))
    case EDescription => TextEffect(u.patch.description, Names(u.clear, "description"))
    case ERrule => TextEffect(u.patch.rrule, Names(u.clear, "rrule"))
  }

  function TodoEffect(u: TodoUpdate, f: TodoField): Option<FieldValue> {
    match f
    case TSummary => TextEffect(u.patch.summary, false)
    case TDue => TimeEffect(u.patch.due, Names(u.clear, "due"))
    case TStatus => TextEffect(u.patch.status, Names(u.clear, "status"))
    case TDescription => TextEffect(u.patch.description, Names(u.clear, "description"))
    case TPriority => NumberEffect(u.patch.priority, Names(u.clear, "priority"))
  }

  function Overlay<T>(effect: Option<T>, before: T): T {
    if effect.Some? then effect.value else before
  }

  /** The whole edit, read off its fields; identity, href and etag are never touched. */
  lemma EditedEventFields(ev: Event, u: EventUpdate, f: EventField)
    requires EditedEvent(ev, u).Ok?
    ensures var after := EditedEvent(ev, u).value;
            && EventGet(after, f) == Overlay(EventEffect(u, f), EventGet(ev, f))
            && after.uid == ev.uid && after.href == ev.href && after.etag == ev.etag && !after.isInstance
  {
    match f {
      case ESummary =>
      case EStart =>
      case EEnd =>
      case ELocation =>
      case EDescription =>
      case ERrule =>
    }
  }

  lemma EditedTodoFields(td: Todo, u: TodoUpdate, f: TodoField)
    requires EditedTodo(td, u).Ok?
    ensures var after := EditedTodo(td, u).value;
            && TodoGet(after, f) == Overlay(TodoEffect(u, f), TodoGet(td, f))
            && after.uid == td.uid && after.href == td.href && after.etag == td.etag
  {
    match f {
      case TSummary =>
      case TDue =>
      case TStatus =>
      case TDescription =>
      case TPriority =>
    }
  }

  /** The edit is refused exactly when the clear list names something that cannot be cleared. */
  lemma EventEditRefused(ev: Event, u: EventUpdate)
    ensures EditedEvent(ev, u).Err? <==>
            u.clear.Some? && exists i :: 0 <= i < |u.clear.value| && u.clear.value[i] !in EVENT_CLEARABLE
  {
    if u.clear.Some? {
      var k := KnownPrefix(u.clear.value, EVENT_CLEARABLE);
      assert k < |u.clear.value| ==> u.clear.value[k] !in EVENT_CLEARABLE;
    }
  }

  lemma TodoEditRefused(td: Todo, u: TodoUpdate)
    ensures EditedTodo(td, u).Err? <==>
            u.clear.Some? && exists i :: 0 <= i < |u.clear.value| && u.clear.value[i] !in TODO_CLEARABLE
  {
    if u.clear.Some? {
      var k := KnownPrefix(u.clear.value, TODO_CLEARABLE);
      assert k < |u.clear.value| ==> u.clear.value[k] !in TODO_CLEARABLE;
    }
  }

  // ----- requests compose -----------------------------------------------------------

  function ClearList(clear: Option<seq<string>>): seq<string> {
    if clear.Some? then clear.value else []
  }

  /** The later of two settings of one field, unless the second request clears the first one's. */
  function Later<T>(first: Option<T>, second: Option<T>, secondClears: bool): Option<T> {
    if second.Some? || secondClears then second else first
  }

  /** The single request that does what `a` and then `b` do. */
  function EventThen(a: EventUpdate, b: EventUpdate): EventUpdate {
    EventUpdate(
      Some(ClearList(a.clear) + ClearList(b.clear)),
      EventPatch(
        Later(a.patch.summary, b.patch.summary, false),
        Later(a.patch.start, b.patch.start, false),
        Later(a.patch.end, b.patch.end, false),
        Later(a.patch.location, b.patch.location, Names(b.clear, "location")),
        Later(a.patch.description, b.patch.description, Names(b.clear, "description")),
        Later(a.patch.rrule, b.patch.rrule, Names(b.clear, "rrule"))))
  }

  lemma {:induction false} KnownPrefixAll(names: seq<string>, clearable: set<string>)
    ensures ClearVerdict(names, clearable).Ok? <==> forall i | 0 <= i < |names| :: names[i] in clearable
  {
    var k := KnownPrefix(names, clearable);
    assert k < |names| ==> names[k] !in clearable;
  }

  /** Updates are closed under sequencing: two accepted requests equal one. */
  lemma EventUpdatesCompose(ev: Event, a: EventUpdate, b: EventUpdate)
    requires EditedEvent(ev, a).Ok?
    requires EditedEvent(EditedEvent(ev, a).value, b).Ok?
    ensures EditedEvent(ev, EventThen(a, b)) == EditedEvent(EditedEvent(ev, a).value, b)
  {
    var x, y := ClearList(a.clear), ClearList(b.clear);
    KnownPrefixAll(x, EVENT_CLEARABLE);
    KnownPrefixAll(y, EVENT_CLEARABLE);
    KnownPrefixAll(x + y, EVENT_CLEARABLE);
    forall name ensures name in x + y <==> name in x || name in y {}
  }
}
