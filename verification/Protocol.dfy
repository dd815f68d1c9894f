/**
 The tools against a shared calendar server. Every tool call is a small process: an update is GET, local edit,
 PUT with If-Match; a create is one PUT to a new UID; a delete is one DELETE. Any number of calls interleave
 with each other and with other clients.

 The server stores documents under hrefs, gives every write an entity tag it never used before, and evaluates
 If-Match as section 13.1.1 of RFC 9110 says: the write happens only if the object is there with that tag.
 */
module Protocol {
  import opened Wrappers
  import opened Model
  import opened Addressing
  import opened Ical

  // ----- the state ------------------------------------------------------------------

  datatype Stored = Stored(etag: string, body: string)

  /** What a tag was issued for. */
  datatype Version = Version(href: string, body: string)

  datatype Request =
    | UpdateEvent(cal: string, uid: string, eventUpdate: EventUpdate)
    | UpdateTask(cal: string, uid: string, todoUpdate: TodoUpdate)
    | CreateEvent(cal: string, event: Event)
    | CreateTask(cal: string, todo: Todo)
    | Delete(cal: string, uid: string)

  datatype Refusal = NotFound | BadDocument | UnknownField(name: string) | PreconditionFailed

  datatype Phase = Waiting | Fetched(copy: Item) | Edited(copy: Item) | Done | Refused(why: Refusal)

  datatype Call = Call(req: Request, phase: Phase)

  /** Who wrote: a call whose PUT carried a tag or needed none, a call that lost the tag, or another client. */
  datatype Author = By(id: nat) | Unguarded(id: nat) | Foreign

  datatype Action = Wrote(body: string) | Removed

  datatype Commit = Commit(author: Author, href: string, action: Action)

  datatype State = State(
    store: map<string, Stored>,
    versions: map<string, Version>,   // every tag ever issued
    calls: map<nat, Call>,
    minted: set<string>,              // every UID ever made up for a create
    log: seq<Commit>)                 // accepted writes, in the order the server took them

  // ----- one call -------------------------------------------------------------------

  function CopyHref(c: Item): Option<string> {
    match c
    case EventItem(ev) => ev.href
    case TodoItem(td) => td.href
  }

  function CopyEtag(c: Item): Option<string> {
    match c
    case EventItem(ev) => ev.etag
    case TodoItem(td) => td.etag
  }

  function CopyUid(c: Item): string {
    match c
    case EventItem(ev) => ev.uid
    case TodoItem(td) => td.uid
  }

  function CopyDoc(c: Item): string {
    match c
    case EventItem(ev) => EventDoc(ev)
    case TodoItem(td) => TodoDoc(td)
  }

  predicate IsUpdate(r: Request) {
    r.UpdateEvent? || r.UpdateTask?
  }

  predicate IsCreate(r: Request) {
    r.CreateEvent? || r.CreateTask?
  }

  /** The object a create writes; it has neither href nor tag. */
  function NewCopy(r: Request): Item
    requires IsCreate(r)
  {
    if r.CreateEvent? then EventItem(r.event) else TodoItem(r.todo)
  }

  /** Parse a body as the kind of object the request is about. */
  function Parsed(r: Request, body: string, lib: Library): Option<Item>
    requires IsUpdate(r)
  {
    if r.UpdateEvent? then
      var ev := ParseEvent(body, lib);
      if ev.Ok? then Some(EventItem(ev.value)) else None
    else
      var td := ParseTodo(body, lib);
      if td.Ok? then Some(TodoItem(td.value)) else None
  }

  function Placed(c: Item, href: string, etag: Option<string>): Item {
    match c
    case EventItem(ev) => EventItem(ev.(href := Some(href), etag := etag))
    case TodoItem(td) => TodoItem(td.(href := Some(href), etag := etag))
  }

  predicate Fits(r: Request, c: Item) {
    (r.UpdateEvent? && c.EventItem?) || (r.UpdateTask? && c.TodoItem?)
  }

  /** The local edit of an update. */
  function EditedCopy(r: Request, c: Item): Result<Item, string>
    requires Fits(r, c)
  {
    if r.UpdateEvent? then
      var ev := EditedEvent(c.ev, r.eventUpdate);
      if ev.Ok? then Ok(EventItem(ev.value)) else Err(ev.error)
    else
      var td := EditedTodo(c.td, r.todoUpdate);
      if td.Ok? then Ok(TodoItem(td.value)) else Err(td.error)
  }

  /** Where an update reads and a delete removes. */
  function Target(r: Request): string
    requires IsUpdate(r) || r.Delete?
  {
    ObjectHref(r.cal, r.uid)
  }

  /** Where a PUT goes: the href the copy carries, else one made from calendar and UID. */
  function PutHref(cal: string, c: Item): string {
    if CopyHref(c).Some? then CopyHref(c).value else ObjectHref(cal, CopyUid(c))
  }

  // ----- the server -----------------------------------------------------------------

  /** `If-Match`: no tag always passes; a tag passes only on an object that is there and has it. */
  predicate Matches(store: map<string, Stored>, href: string, ifMatch: Option<string>) {
    ifMatch.Some? ==> href in store && store[href].etag == ifMatch.value
  }

  function Written(s: State, author: Author, href: string, body: string, etag: string): State {
    s.(store := s.store[href := Stored(etag, body)],
       versions := s.versions[etag := Version(href, body)],
       log := s.log + [Commit(author, href, Wrote(body))])
  }

  function Without(s: State, author: Author, href: string): State {
    s.(store := s.store - {href}, log := s.log + [Commit(author, href, Removed)])
  }

  // ----- steps ----------------------------------------------------------------------

  datatype Label =
    | Spawn(id: nat, req: Request)
    | Get(id: nat, withEtag: bool)              // the response may lack its ETag header
    | Edit(id: nat)
    | Put(id: nat, fresh_: string)              // the tag the server would issue
    | Remove(id: nat)
    | ForeignWrite(href: string, body: string, fresh_: string)
    | ForeignRemove(href: string)

  /** A create that has not written yet holds its UID. */
  predicate Reserved(s: State, uid: string) {
    exists id :: id in s.calls && IsCreate(s.calls[id].req) && s.calls[id].phase.Waiting? &&
      CopyUid(NewCopy(s.calls[id].req)) == uid
  }

  /** No object and no call in flight is at an href with this UID. */
  predicate Unused(s: State, uid: string) {
    && uid !in s.minted
    && (forall h :: h in s.store ==> UidOf(h) != uid)
    && (forall id :: id in s.calls && InFlight(s.calls[id]) ==> UidOf(Target(s.calls[id].req)) != uid)
  }

  predicate InFlight(c: Call) {
    IsUpdate(c.req) && (c.phase.Fetched? || c.phase.Edited?)
  }

  predicate CanSpawn(s: State, id: nat, r: Request) {
    && id !in s.calls
    && (IsCreate(r) ==>
          && CopyHref(NewCopy(r)).None? && CopyEtag(NewCopy(r)).None?
          && '/' !in CopyUid(NewCopy(r)) && Unused(s, CopyUid(NewCopy(r))))
  }

  predicate Allowed(s: State, l: Label) {
    match l
    case Spawn(id, r) => CanSpawn(s, id, r)
    case Get(id, _) => id in s.calls && IsUpdate(s.calls[id].req) && s.calls[id].phase.Waiting?
    case Edit(id) => id in s.calls && IsUpdate(s.calls[id].req) && s.calls[id].phase.Fetched? &&
      Fits(s.calls[id].req, s.calls[id].phase.copy)
    case Put(id, e) =>
      && id in s.calls && e !in s.versions
      && ((IsUpdate(s.calls[id].req) && s.calls[id].phase.Edited?) || (IsCreate(s.calls[id].req) &&
        s.calls[id].phase.Waiting?))
    case Remove(id) => id in s.calls && s.calls[id].req.Delete? && s.calls[id].phase.Waiting?
    case ForeignWrite(h, _, e) => e !in s.versions && !Reserved(s, UidOf(h))
    case ForeignRemove(h) => h in s.store
  }

  function WithPhase(s: State, id: nat, p: Phase): State
    requires id in s.calls
  {
    s.(calls := s.calls[id := s.calls[id].(phase := p)])
  }

  function AfterGet(s: State, id: nat, withEtag: bool, lib: Library): State
    requires Allowed(s, Get(id, withEtag))
  {
    var r := s.calls[id].req;
    var h := Target(r);
    if h !in s.store then WithPhase(s, id, Refused(NotFound))
    else
      var c := Parsed(r, s.store[h].body, lib);
      if c.None? then WithPhase(s, id, Refused(BadDocument))
      else WithPhase(s, id, Fetched(Placed(c.value, h, if withEtag then Some(s.store[h].etag) else None)))
  }

  function AfterEdit(s: State, id: nat): State
    requires Allowed(s, Edit(id))
  {
    var edited := EditedCopy(s.calls[id].req, s.calls[id].phase.copy);
    WithPhase(s, id, if edited.Ok? then Edited(edited.value) else Refused(UnknownField(edited.error)))
  }

  function PutCopy(c: Call): Item
    requires (IsUpdate(c.req) && c.phase.Edited?) || (IsCreate(c.req) && c.phase.Waiting?)
  {
    if IsCreate(c.req) then NewCopy(c.req) else c.phase.copy
  }

  function AfterPut(s: State, id: nat, etag: string): State
    requires Allowed(s, Put(id, etag))
  {
    var r, c := s.calls[id].req, PutCopy(s.calls[id]);
    var h := PutHref(r.cal, c);
    var author := if IsUpdate(r) && CopyEtag(c).None? then Unguarded(id) else By(id);
    if Matches(s.store, h, CopyEtag(c)) then WithPhase(Written(s, author, h, CopyDoc(c), etag), id, Done)
    else WithPhase(s, id, Refused(PreconditionFailed))
  }

  function AfterRemove(s: State, id: nat): State
    requires Allowed(s, Remove(id))
  {
    var h := Target(s.calls[id].req);
    if h in s.store then WithPhase(Without(s, By(id), h), id, Done) else WithPhase(s, id, Refused(NotFound))
  }

  function Next(s: State, l: Label, lib: Library): State
    requires Allowed(s, l)
  {
    match l
    case Spawn(id, r) =>
      s.(calls := s.calls[id := Call(r, Waiting)],
         minted := if IsCreate(r) then s.minted + {CopyUid(NewCopy(r))} else s.minted)
    case Get(id, withEtag) => AfterGet(s, id, withEtag, lib)
    case Edit(id) => AfterEdit(s, id)
    case Put(id, e) => AfterPut(s, id, e)
    case Remove(id) => AfterRemove(s, id)
    case ForeignWrite(h, body, e) => Written(s, Foreign, h, body, e)
    case ForeignRemove(h) => Without(s, Foreign, h)
  }

  /** `labels` can happen one after the other from `s`. */
  predicate IsRun(s: State, labels: seq<Label>, lib: Library)
    decreases |labels|
  {
    labels != [] ==> Allowed(s, labels[0]) && IsRun(Next(s, labels[0], lib), labels[1..], lib)
  }

  function Final(s: State, labels: seq<Label>, lib: Library): State
    requires IsRun(s, labels, lib)
    decreases |labels|
  {
    if labels == [] then s else Final(Next(s, labels[0], lib), labels[1..], lib)
  }

  lemma RunOne(s: State, a: Label, lib: Library)
    requires Allowed(s, a)
    ensures IsRun(s, [a], lib) && Final(s, [a], lib) == Next(s, a, lib)
  {
    assert [a][1..] == [];
    assert Final(Next(s, a, lib), [], lib) == Next(s, a, lib);
  }

  lemma RunTwo(s: State, a: Label, b: Label, lib: Library)
    requires Allowed(s, a) && Allowed(Next(s, a, lib), b)
    ensures IsRun(s, [a, b], lib) && Final(s, [a, b], lib) == Next(Next(s, a, lib), b, lib)
  {
    RunOne(Next(s, a, lib), b, lib);
    assert [a, b][1..] == [b];
  }

  lemma {:induction false} RunSplit(s: State, a: seq<Label>, b: seq<Label>, lib: Library)
    requires IsRun(s, a, lib) && IsRun(Final(s, a, lib), b, lib)
    ensures IsRun(s, a + b, lib) && Final(s, a + b, lib) == Final(Final(s, a, lib), b, lib)
    decreases |a|
  {
    if a == [] {
      assert a + b == b;
    } else {
      assert (a + b)[0] == a[0] && (a + b)[1..] == a[1..] + b;
      RunSplit(Next(s, a[0], lib), a[1..], b, lib);
    }
  }

  /** A server with some objects, no call yet. */
  predicate Initial(s: State) {
    && s.calls == map[] && s.log == [] && s.minted == {}
    && forall h :: h in s.store ==>
      s.store[h].etag in s.versions && s.versions[s.store[h].etag] == Version(h, s.store[h].body)
  }

  // ----- the atomic specification ---------------------------------------------------

  type Contents = map<string, string>

  function StoreContents(store: map<string, Stored>): Contents {
    map h | h in store :: store[h].body
  }

  function Apply(before: Contents, c: Commit): Contents {
    match c.action
    case Wrote(body) => before[c.href := body]
    case Removed => before - {c.href}
  }

  /** The contents after these commits, in this order. */
  function Replay(before: Contents, log: seq<Commit>): Contents {
    if log == [] then before else Apply(Replay(before, log[..|log| - 1]), log[|log| - 1])
  }

  /**
   What a request means when nothing else happens: an update replaces the object at its href by the edited
   object that is there, a create adds one where none is, a delete removes one that is there.
   */
  predicate Does(r: Request, before: Contents, c: Commit, lib: Library) {
    match r
    case CreateEvent(cal, ev) =>
      c.href == ObjectHref(cal, ev.uid) && c.href !in before && c.action == Wrote(EventDoc(ev))
    case CreateTask(cal, td) =>
      c.href == ObjectHref(cal, td.uid) && c.href !in before && c.action == Wrote(TodoDoc(td))
    case Delete(cal, uid) =>
      c.href == ObjectHref(cal, uid) && c.href in before && c.action == Removed
    case UpdateEvent(cal, uid, u) =>
      && c.href == ObjectHref(cal, uid) && c.href in before
      && var ev := ParseEvent(before[c.href], lib);
      && ev.Ok? && EditedEvent(ev.value, u).Ok? && c.action == Wrote(EventDoc(EditedEvent(ev.value, u).value))
    case UpdateTask(cal, uid, u) =>
      && c.href == ObjectHref(cal, uid) && c.href in before
      && var td := ParseTodo(before[c.href], lib);
      && td.Ok? && EditedTodo(td.value, u).Ok? && c.action == Wrote(TodoDoc(EditedTodo(td.value, u).value))
  }
}
