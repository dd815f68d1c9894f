/**
 The tool calls as code: GET, edit in place, PUT, against a server that other clients keep writing to between
 any two requests. Each method is tied to the same atomic meaning of a request as the interleaved model.
 */
module Tools {
  import opened Wrappers
  import opened Model
  import opened Civil
  import opened Addressing
  import opened Ical
  import opened Protocol
  import opened ProtocolSafety

  /** The tag of the `n`-th write the server ever accepted. */
  function Tag(n: nat): string {
    "\"" + Decimal(n) + "\""
  }

  lemma TagInjective(m: nat, n: nat)
    requires Tag(m) == Tag(n)
    ensures m == n
  {
    assert Tag(m)[1..|Tag(m)| - 1] == Decimal(m) && Tag(n)[1..|Tag(n)| - 1] == Decimal(n);
    ReadInvertsDecimal(m);
    ReadInvertsDecimal(n);
  }

  class CalDavServer {
    var store: map<string, Stored>
    var issued: nat
    const sendsEtag: bool             // GET responses carry the ETag header
    ghost const start: Contents
    ghost var log: seq<Commit>

    constructor (objects: map<string, string>, sendsEtag: bool)
      ensures Valid() && StoreContents(store) == objects && log == [] && this.sendsEtag == sendsEtag
    {
      store := map h | h in objects :: Stored(Tag(0), objects[h]);
      issued := 1;
      this.sendsEtag := sendsEtag;
      start := objects;
      log := [];
    }

    ghost predicate Valid()
      reads this
    {
      && StoreContents(store) == Replay(start, log)
      && forall h :: h in store ==> exists n: nat :: n < issued && store[h].etag == Tag(n)
    }

    /** Old objects that still have their old tag are the old objects. */
    ghost predicate TagsAreStrong(before: map<string, Stored>)
      reads this
    {
      forall h :: h in before && h in store && store[h].etag == before[h].etag ==> store[h] == before[h]
    }

    method Get(href: string) returns (r: Option<(string, Option<string>)>)
      ensures r.Some? <==> href in store
      ensures r.Some? ==> r.value == (store[href].body, if sendsEtag then Some(store[href].etag) else None)
    {
      if href !in store {
        return None;
      }
      return Some((store[href].body, if sendsEtag then Some(store[href].etag) else None));
    }

    method Put(href: string, body: string, ifMatch: Option<string>, ghost author: Author) returns (accepted: bool)
      requires Valid()
      modifies this
      ensures Valid()
      ensures accepted == Matches(old(store), href, ifMatch)
      ensures accepted ==> store == old(store)[href := Stored(Tag(old(issued)), body)] && issued == old(issued) + 1
      ensures accepted ==> log == old(log) + [Commit(author, href, Wrote(body))]
      ensures !accepted ==> store == old(store) && issued == old(issued) && log == old(log)
    {
      hide Tag;
      hide Replay;
      accepted := Matches(store, href, ifMatch);
      if accepted {
        ReplaySnoc(start, log, Commit(author, href, Wrote(body)));
        store := store[href := Stored(Tag(issued), body)];
        issued := issued + 1;
        log := log + [Commit(author, href, Wrote(body))];
        assert store[href].etag == Tag(issued - 1);
      }
    }

    method Remove(href: string, ghost author: Author) returns (found: bool)
      requires Valid()
      modifies this
      ensures Valid()
      ensures found == (href in old(store)) && store == old(store) - {href} && issued == old(issued)
      ensures log == if found then old(log) + [Commit(author, href, Removed)] else old(log)
    {
      hide Tag;
      hide Replay;
      found := href in store;
      if found {
        ReplaySnoc(start, log, Commit(author, href, Removed));
        store := store - {href};
        log := log + [Commit(author, href, Removed)];
      } else {
        assert store - {href} == store;
      }
    }

    /** Any number of writes and removals by other clients. */
    method Others()
      requires Valid()
      modifies this
      ensures Valid() && TagsAreStrong(old(store))
      ensures old(log) <= log && forall k | |old(log)| <= k < |log| :: log[k].author == Foreign
    {
      var n: int := *;
      for i := 0 to if n < 0 then 0 else n
        invariant Valid() && old(issued) <= issued
        invariant old(log) <= log && forall k | |old(log)| <= k < |log| :: log[k].author == Foreign
        invariant forall h :: h in old(store) && h in store ==>
                    store[h] == old(store)[h] || exists m: nat :: old(issued) <= m && store[h].etag == Tag(m)
      {
        var href: string, body: string, removes: bool := *, *, *;
        if removes {
          var _ := Remove(href, Foreign);
        } else {
          var _ := Put(href, body, None, Foreign);
        }
      }
      forall h | h in old(store) && h in store && store[h].etag == old(store)[h].etag
        ensures store[h] == old(store)[h]
      {
        if store[h] != old(store)[h] {
          var m: nat :| old(issued) <= m && store[h].etag == Tag(m);
          var k: nat :| k < old(issued) && old(store)[h].etag == Tag(k);
          TagInjective(m, k);
        }
      }
    }
  }

  // ----- the client -----------------------------------------------------------------

  method GetEvent(server: CalDavServer, cal: string, uid: string, lib: Library)
    returns (r: Result<EventRecord, Refusal>)
    ensures r.Ok? ==>
              var h := ObjectHref(cal, uid);
              && fresh(r.value) && h in server.store && ParseEvent(server.store[h].body, lib).Ok?
              && r.value.Value() == ParseEvent(server.store[h].body, lib).value.(
                 href := Some(h), etag := if server.sendsEtag then Some(server.store[h].etag) else None)
    ensures var h := ObjectHref(cal, uid);
            && (r.Ok? <==> h in server.store && ParseEvent(server.store[h].body, lib).Ok?)
            && (r.Err? ==> r.error == if h in server.store then BadDocument else NotFound)
  {
    var href := ObjectHref(cal, uid);
    var response := server.Get(href);
    if response.None? {
      return Err(NotFound);
    }
    var parsed := ParseEvent(response.value.0, lib);
    if parsed.Err? {
      return Err(BadDocument);
    }
    var ev := new EventRecord(parsed.value);
    ev.href := Some(href);
    ev.etag := response.value.1;
    return Ok(ev);
  }

  method PutEvent(server: CalDavServer, cal: string, ev: EventRecord, ghost author: Author) returns (accepted: bool)
    requires server.Valid()
    modifies server
    ensures server.Valid()
    ensures var h := PutHref(cal, EventItem(ev.Value()));
            && accepted == Matches(old(server.store), h, ev.etag)
            && (accepted ==> server.log == old(server.log) + [Commit(author, h, Wrote(EventDoc(ev.Value())))])
            && (!accepted ==> server.log == old(server.log) && server.store == old(server.store))
  {
    var href := if ev.href.Some? then ev.href.value else ObjectHref(cal, ev.uid);
    var body := BuildEvent(ev.Value());
    accepted := server.Put(href, body, ev.etag, author);
  }

  method GetTodo(server: CalDavServer, cal: string, uid: string, lib: Library) returns (r: Result<TodoRecord, Refusal>)
    ensures r.Ok? ==>
              var h := ObjectHref(cal, uid);
              && fresh(r.value) && h in server.store && ParseTodo(server.store[h].body, lib).Ok?
              && r.value.Value() == ParseTodo(server.store[h].body, lib).value.(
                 href := Some(h), etag := if server.sendsEtag then Some(server.store[h].etag) else None)
    ensures var h := ObjectHref(cal, uid);
            && (r.Ok? <==> h in server.store && ParseTodo(server.store[h].body, lib).Ok?)
            && (r.Err? ==> r.error == if h in server.store then BadDocument else NotFound)
  {
    var href := ObjectHref(cal, uid);
    var response := server.Get(href);
    if response.None? {
      return Err(NotFound);
    }
    var parsed := ParseTodo(response.value.0, lib);
    if parsed.Err? {
      return Err(BadDocument);
    }
    var td := new TodoRecord(parsed.value);
    td.href := Some(href);
    td.etag := response.value.1;
    return Ok(td);
  }

  method PutTodo(server: CalDavServer, cal: string, td: TodoRecord, ghost author: Author) returns (accepted: bool)
    requires server.Valid()
    modifies server
    ensures server.Valid()
    ensures var h := PutHref(cal, TodoItem(td.Value()));
            && accepted == Matches(old(server.store), h, td.etag)
            && (accepted ==> server.log == old(server.log) + [Commit(author, h, Wrote(TodoDoc(td.Value())))])
            && (!accepted ==> server.log == old(server.log) && server.store == old(server.store))
  {
    var href := if td.href.Some? then td.href.value else ObjectHref(cal, td.uid);
    var body := BuildTodo(td.Value());
    accepted := server.Put(href, body, td.etag, author);
  }

  // ----- the tools ------------------------------------------------------------------

  /** Clear, patch, and edit the whole series: the local half of an update, in place. */
  method EditEvent(event: EventRecord, u: EventUpdate) returns (r: Result<(), string>)
    modifies event
    ensures r.Ok? <==> EditedEvent(old(event.Value()), u).Ok?
    ensures r.Ok? ==> event.Value() == EditedEvent(old(event.Value()), u).value
    ensures r.Err? ==> r.error == EditedEvent(old(event.Value()), u).error
  {
    if u.clear.Some? {
      var cleared := event.ClearFields(u.clear.value);
      if cleared.Err? {
        return cleared;
      }
      var names := u.clear.value;
      assert names[..KnownPrefix(names, EVENT_CLEARABLE)] == names;
    }
    event.ApplyPatch(u.patch);
    event.isInstance := false;
    return Ok(());
  }

  method EditTodo(todo: TodoRecord, u: TodoUpdate) returns (r: Result<(), string>)
    modifies todo
    ensures r.Ok? <==> EditedTodo(old(todo.Value()), u).Ok?
    ensures r.Ok? ==> todo.Value() == EditedTodo(old(todo.Value()), u).value
    ensures r.Err? ==> r.error == EditedTodo(old(todo.Value()), u).error
  {
    if u.clear.Some? {
      var cleared := todo.ClearFields(u.clear.value);
      if cleared.Err? {
        return cleared;
      }
      var names := u.clear.value;
      assert names[..KnownPrefix(names, TODO_CLEARABLE)] == names;
    }
    todo.ApplyPatch(u.patch);
    return Ok(());
  }

  /** The writes since `before` are other clients', but for a last one by `id` that does what `r` asks. */
  ghost predicate DidAtomically(server: CalDavServer, before: seq<Commit>, id: nat, r: Request, lib: Library)
    reads server
  {
    var n := |server.log|;
    && |before| < n && before <= server.log
    && (forall k | |before| <= k < n - 1 :: server.log[k].author == Foreign)
    && server.log[n - 1].author == By(id)
    && Does(r, Replay(server.start, server.log[..n - 1]), server.log[n - 1], lib)
  }

  ghost predicate OnlyOthers(server: CalDavServer, before: seq<Commit>)
    reads server
  {
    before <= server.log && forall k | |before| <= k < |server.log| :: server.log[k].author == Foreign
  }

  /** One accepted write by `id` on top of other clients' writes is atomic if it does what is asked there and then. */
  lemma Atomically(server: CalDavServer, before: seq<Commit>, others: seq<Commit>, c: Commit, id: nat, r: Request,
                   lib: Library)
    requires before <= others && forall k | |before| <= k < |others| :: others[k].author == Foreign
    requires server.log == others + [c] && c.author == By(id) && Does(r, Replay(server.start, others), c, lib)
    ensures DidAtomically(server, before, id, r, lib)
  {
    hide Replay;
    hide Does;
    assert server.log[..|others|] == others;
  }

  /** The edited copy of what the server holds now, ready for its PUT. */
  ghost predicate ReadyToPut(server: CalDavServer, r: Request, c: Item, lib: Library)
    requires IsUpdate(r)
    reads server
  {
    && Target(r) in server.store && EditedFrom(r, c, server.store[Target(r)].body, lib)
    && CopyHref(c) == Some(Target(r))
    && CopyEtag(c) == if server.sendsEtag then Some(server.store[Target(r)].etag) else None
  }

  /** What GET and the local edit make of a store. */
  function FetchEvent(store: map<string, Stored>, h: string, withEtag: bool, u: EventUpdate,
                      lib: Library): Result<Event, Refusal> {
    if h !in store then Err(NotFound)
    else if ParseEvent(store[h].body, lib).Err? then Err(BadDocument)
    else
      var copy := ParseEvent(store[h].body, lib).value.(href := Some(h),
                                                etag := if withEtag then Some(store[h].etag) else None);
      var edited := EditedEvent(copy, u);
      if edited.Err? then Err(UnknownField(edited.error)) else Ok(edited.value)
  }

  /** What GET and the local edit make of a store. */
  function FetchTodo(store: map<string, Stored>, h: string, withEtag: bool, u: TodoUpdate,
                     lib: Library): Result<Todo, Refusal> {
    if h !in store then Err(NotFound)
    else if ParseTodo(store[h].body, lib).Err? then Err(BadDocument)
    else
      var copy := ParseTodo(store[h].body, lib).value.(href := Some(h),
                                                etag := if withEtag then Some(store[h].etag) else None);
      var edited := EditedTodo(copy, u);
      if edited.Err? then Err(UnknownField(edited.error)) else Ok(edited.value)
  }

  method FetchAndEditEvent(server: CalDavServer, cal: string, uid: string, u: EventUpdate, lib: Library)
    returns (r: Result<EventRecord, Refusal>)
    ensures r.Ok? ==> fresh(r.value) && ReadyToPut(server, UpdateEvent(cal, uid, u), EventItem(r.value.Value()), lib)
    ensures var f := FetchEvent(server.store, ObjectHref(cal, uid), server.sendsEtag, u, lib);
            if r.Ok? then f == Ok(r.value.Value()) else f == Err(r.error)
  {
    var fetched := GetEvent(server, cal, uid, lib);
    if fetched.Err? {
      return fetched;
    }
    var edited := EditEvent(fetched.value, u);
    if edited.Err? {
      return Err(UnknownField(edited.error));
    }
    return fetched;
  }

  method FetchAndEditTodo(server: CalDavServer, cal: string, uid: string, u: TodoUpdate, lib: Library)
    returns (r: Result<TodoRecord, Refusal>)
    ensures r.Ok? ==> fresh(r.value) && ReadyToPut(server, UpdateTask(cal, uid, u), TodoItem(r.value.Value()), lib)
    ensures var f := FetchTodo(server.store, ObjectHref(cal, uid), server.sendsEtag, u, lib);
            if r.Ok? then f == Ok(r.value.Value()) else f == Err(r.error)
  {
    var fetched := GetTodo(server, cal, uid, lib);
    if fetched.Err? {
      return fetched;
    }
    var edited := EditTodo(fetched.value, u);
    if edited.Err? {
      return Err(UnknownField(edited.error));
    }
    return fetched;
  }

  /** If the tag read then still matches now, the copy is the request's edit of what is there now. */
  lemma StillCurrent(r: Request, c: Item, then_: map<string, Stored>, now: map<string, Stored>, author: Author,
                     lib: Library)
    requires IsUpdate(r) && Target(r) in then_ && EditedFrom(r, c, then_[Target(r)].body, lib)
    requires CopyEtag(c) == Some(then_[Target(r)].etag) && Matches(now, Target(r), CopyEtag(c))
    requires now[Target(r)] == then_[Target(r)]
    ensures Does(r, StoreContents(now), Commit(author, Target(r), Wrote(CopyDoc(c))), lib)
  {
    GuardedPutDoes(r, c, StoreContents(now), lib);
  }

  /** The PUT of an update: what it writes, if accepted, is the request's edit of what it replaces. */
  method PutBackEvent(server: CalDavServer, cal: string, event: EventRecord, ghost req: Request,
                      ghost then_: map<string, Stored>,
                    ghost before: seq<Commit>, ghost id: nat, lib: Library) returns (accepted: bool)
    requires server.Valid() && server.TagsAreStrong(then_) && OnlyOthers(server, before)
    requires IsUpdate(req) && CopyHref(EventItem(event.Value())) == Some(Target(req))
    requires server.sendsEtag ==>
               && Target(req) in then_ && EditedFrom(req, EventItem(event.Value()), then_[Target(req)].body, lib)
               && CopyEtag(EventItem(event.Value())) == Some(then_[Target(req)].etag)
    modifies server
    ensures server.Valid() && event.Value() == old(event.Value())
    ensures accepted == Matches(old(server.store), Target(req), event.etag)
    ensures accepted && server.sendsEtag ==> DidAtomically(server, before, id, req, lib)
    ensures server.log ==
              if accepted then old(server.log) + [Commit(By(id), Target(req), Wrote(EventDoc(event.Value())))]
              else old(server.log)
  {
    hide EventDoc;
    hide Replay;
    hide EditedFrom;
    hide Does;
    ghost var others, now, copy := server.log, server.store, EventItem(event.Value());
    accepted := PutEvent(server, cal, event, By(id));
    if accepted && server.sendsEtag {
      StillCurrent(req, copy, then_, now, By(id), lib);
      Atomically(server, before, others, server.log[|others|], id, req, lib);
    }
  }

  /** The PUT of an update: what it writes, if accepted, is the request's edit of what it replaces. */
  method PutBackTodo(server: CalDavServer, cal: string, todo: TodoRecord, ghost req: Request,
                     ghost then_: map<string, Stored>,
                    ghost before: seq<Commit>, ghost id: nat, lib: Library) returns (accepted: bool)
    requires server.Valid() && server.TagsAreStrong(then_) && OnlyOthers(server, before)
    requires IsUpdate(req) && CopyHref(TodoItem(todo.Value())) == Some(Target(req))
    requires server.sendsEtag ==>
               && Target(req) in then_ && EditedFrom(req, TodoItem(todo.Value()), then_[Target(req)].body, lib)
               && CopyEtag(TodoItem(todo.Value())) == Some(then_[Target(req)].etag)
    modifies server
    ensures server.Valid() && todo.Value() == old(todo.Value())
    ensures accepted == Matches(old(server.store), Target(req), todo.etag)
    ensures accepted && server.sendsEtag ==> DidAtomically(server, before, id, req, lib)
    ensures server.log ==
              if accepted then old(server.log) + [Commit(By(id), Target(req), Wrote(TodoDoc(todo.Value())))]
              else old(server.log)
  {
    hide TodoDoc;
    hide Replay;
    hide EditedFrom;
    hide Does;
    ghost var others, now, copy := server.log, server.store, TodoItem(todo.Value());
    accepted := PutTodo(server, cal, todo, By(id));
    if accepted && server.sendsEtag {
      StillCurrent(req, copy, then_, now, By(id), lib);
      Atomically(server, before, others, server.log[|others|], id, req, lib);
    }
  }

  /** The server held exactly `store` at some moment since `before`. */
  ghost predicate Served(server: CalDavServer, before: seq<Commit>, store: map<string, Stored>)
    reads server
  {
    exists n :: |before| <= n <= |server.log| && StoreContents(store) == Replay(server.start, server.log[..n])
  }

  lemma PrefixServed(server: CalDavServer, before: seq<Commit>, log: seq<Commit>, store: map<string, Stored>)
    requires before <= log <= server.log && StoreContents(store) == Replay(server.start, log)
    ensures Served(server, before, store)
  {
    hide Replay;
    assert server.log[..|log|] == log;
  }

  /** The only write since `before` that is not another client's is `c`, and it is the last one. */
  ghost predicate WroteLast(server: CalDavServer, before: seq<Commit>, c: Commit)
    reads server
  {
    && |before| < |server.log| && before <= server.log && server.log[|server.log| - 1] == c
    && forall k | |before| <= k < |server.log| - 1 :: server.log[k].author == Foreign
  }

  /**
   `update_event`, between whose requests other clients may write: its outcome is decided by what the server
   held at the GET and at the PUT. If the server sends tags, its single write is the atomic update of the
   object as it was at that moment; if it fails it has written nothing.
   */
  method UpdateEventTool(server: CalDavServer, cal: string, uid: string, u: EventUpdate, ghost id: nat, lib: Library)
    returns (r: Result<Event, Refusal>, ghost atGet: map<string, Stored>, ghost atPut: map<string, Stored>)
    requires server.Valid()
    modifies server
    ensures server.Valid()
    ensures Served(server, old(server.log), atGet) && Served(server, old(server.log), atPut)
    ensures var f := FetchEvent(atGet, ObjectHref(cal, uid), server.sendsEtag, u, lib);
            r == if f.Ok? && !Matches(atPut, ObjectHref(cal, uid), f.value.etag) then Err(PreconditionFailed) else f
    ensures r.Ok? ==> WroteLast(server, old(server.log), Commit(By(id), ObjectHref(cal, uid), Wrote(EventDoc(r.value))))
    ensures r.Ok? && server.sendsEtag ==> DidAtomically(server, old(server.log), id, UpdateEvent(cal, uid, u), lib)
    ensures r.Err? ==> OnlyOthers(server, old(server.log))
  {
    hide EventDoc;
    hide DidAtomically;
    hide EditedFrom;
    hide Replay;
    hide FetchEvent;
    server.Others();
    atGet, atPut := server.store, server.store;
    ghost var before, logAtGet := old(server.log), server.log;
    PrefixServed(server, before, logAtGet, atGet);
    var fetched := FetchAndEditEvent(server, cal, uid, u, lib);
    if fetched.Err? {
      r := Err(fetched.error);
      return;
    }
    var event := fetched.value;
    server.Others();
    atPut := server.store;
    ghost var logAtPut := server.log;
    var accepted := PutBackEvent(server, cal, event, UpdateEvent(cal, uid, u), atGet, before, id, lib);
    PrefixServed(server, before, logAtGet, atGet);
    PrefixServed(server, before, logAtPut, atPut);
    r := if accepted then Ok(event.Value()) else Err(PreconditionFailed);
  }

  /** `update_task` */
  method UpdateTaskTool(server: CalDavServer, cal: string, uid: string, u: TodoUpdate, ghost id: nat, lib: Library)
    returns (r: Result<Todo, Refusal>, ghost atGet: map<string, Stored>, ghost atPut: map<string, Stored>)
    requires server.Valid()
    modifies server
    ensures server.Valid()
    ensures Served(server, old(server.log), atGet) && Served(server, old(server.log), atPut)
    ensures var f := FetchTodo(atGet, ObjectHref(cal, uid), server.sendsEtag, u, lib);
            r == if f.Ok? && !Matches(atPut, ObjectHref(cal, uid), f.value.etag) then Err(PreconditionFailed) else f
    ensures r.Ok? ==> WroteLast(server, old(server.log), Commit(By(id), ObjectHref(cal, uid), Wrote(TodoDoc(r.value))))
    ensures r.Ok? && server.sendsEtag ==> DidAtomically(server, old(server.log), id, UpdateTask(cal, uid, u), lib)
    ensures r.Err? ==> OnlyOthers(server, old(server.log))
  {
    hide TodoDoc;
    hide DidAtomically;
    hide EditedFrom;
    hide Replay;
    hide FetchTodo;
    server.Others();
    atGet, atPut := server.store, server.store;
    ghost var before, logAtGet := old(server.log), server.log;
    PrefixServed(server, before, logAtGet, atGet);
    var fetched := FetchAndEditTodo(server, cal, uid, u, lib);
    if fetched.Err? {
      r := Err(fetched.error);
      return;
    }
    var todo := fetched.value;
    server.Others();
    atPut := server.store;
    ghost var logAtPut := server.log;
    var accepted := PutBackTodo(server, cal, todo, UpdateTask(cal, uid, u), atGet, before, id, lib);
    PrefixServed(server, before, logAtGet, atGet);
    PrefixServed(server, before, logAtPut, atPut);
    r := if accepted then Ok(todo.Value()) else Err(PreconditionFailed);
  }

  lemma CreateEventDoes(cal: string, ev: Event, before: Contents, id: nat, lib: Library)
    requires ObjectHref(cal, ev.uid) !in before
    ensures Does(CreateEvent(cal, ev), before, Commit(By(id), ObjectHref(cal, ev.uid), Wrote(EventDoc(ev))), lib)
  {
  }

  /** `create_event`: an unguarded PUT, which always succeeds and is atomic if nothing was there before it. */
  method CreateEventTool(server: CalDavServer, cal: string, ev: Event, ghost id: nat, lib: Library)
    returns (accepted: bool, ghost atPut: map<string, Stored>)
    requires server.Valid()
    requires ev.href.None? && ev.etag.None?
    modifies server
    ensures server.Valid() && accepted && Served(server, old(server.log), atPut)
    ensures WroteLast(server, old(server.log), Commit(By(id), ObjectHref(cal, ev.uid), Wrote(EventDoc(ev))))
    ensures ObjectHref(cal, ev.uid) !in atPut ==> DidAtomically(server, old(server.log), id, CreateEvent(cal, ev), lib)
  {
    hide EventDoc;
    hide Replay;
    hide Does;
    server.Others();
    atPut := server.store;
    ghost var others := server.log;
    var event := new EventRecord(ev);
    accepted := PutEvent(server, cal, event, By(id));
    PrefixServed(server, old(server.log), others, atPut);
    if ObjectHref(cal, ev.uid) !in atPut {
      CreateEventDoes(cal, ev, StoreContents(atPut), id, lib);
      Atomically(server, old(server.log), others, server.log[|others|], id, CreateEvent(cal, ev), lib);
    }
  }

  lemma CreateTaskDoes(cal: string, td: Todo, before: Contents, id: nat, lib: Library)
    requires ObjectHref(cal, td.uid) !in before
    ensures Does(CreateTask(cal, td), before, Commit(By(id), ObjectHref(cal, td.uid), Wrote(TodoDoc(td))), lib)
  {
  }

  /** `create_task` */
  method CreateTaskTool(server: CalDavServer, cal: string, td: Todo, ghost id: nat, lib: Library)
    returns (accepted: bool, ghost atPut: map<string, Stored>)
    requires server.Valid()
    requires td.href.None? && td.etag.None?
    modifies server
    ensures server.Valid() && accepted && Served(server, old(server.log), atPut)
    ensures WroteLast(server, old(server.log), Commit(By(id), ObjectHref(cal, td.uid), Wrote(TodoDoc(td))))
    ensures ObjectHref(cal, td.uid) !in atPut ==> DidAtomically(server, old(server.log), id, CreateTask(cal, td), lib)
  {
    hide TodoDoc;
    hide Replay;
    hide Does;
    server.Others();
    atPut := server.store;
    ghost var others := server.log;
    var todo := new TodoRecord(td);
    accepted := PutTodo(server, cal, todo, By(id));
    PrefixServed(server, old(server.log), others, atPut);
    if ObjectHref(cal, td.uid) !in atPut {
      CreateTaskDoes(cal, td, StoreContents(atPut), id, lib);
      Atomically(server, old(server.log), others, server.log[|others|], id, CreateTask(cal, td), lib);
    }
  }

  /** `delete_event` and `delete_task`: unconditional, one request. */
  method DeleteTool(server: CalDavServer, cal: string, uid: string, ghost id: nat, lib: Library)
    returns (r: Result<(), Refusal>)
    requires server.Valid()
    modifies server
    ensures server.Valid()
    ensures r.Ok? ==> DidAtomically(server, old(server.log), id, Delete(cal, uid), lib)
    ensures r.Ok? ==> ObjectHref(cal, uid) !in server.store
    ensures r.Err? ==> OnlyOthers(server, old(server.log)) && ObjectHref(cal, uid) !in server.store
  {
    hide Replay;
    server.Others();
    ghost var others := server.log;
    var found := server.Remove(ObjectHref(cal, uid), By(id));
    if !found {
      return Err(NotFound);
    }
    Atomically(server, old(server.log), others, server.log[|others|], id, Delete(cal, uid), lib);
    return Ok(());
  }
}
