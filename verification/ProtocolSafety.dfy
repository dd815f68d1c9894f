/**
 No lost updates: over every run, the store is the replay of the accepted writes, and every guarded write
 is the atomic effect of its request on exactly the contents it replaced.
 */
module ProtocolSafety {
  import opened Wrappers
  import opened Model
  import opened Addressing
  import opened Ical
  import opened Protocol

  // ----- invariants -----------------------------------------------------------------

  /** Every object is the version its tag was issued for. */
  predicate StoreOk(s: State) {
    forall h :: h in s.store ==>
      s.store[h].etag in s.versions && s.versions[s.store[h].etag] == Version(h, s.store[h].body)
  }

  /** The copy an update fetched was parsed from the version its tag names. */
  predicate FetchedFrom(r: Request, c: Item, body: string, lib: Library) {
    && IsUpdate(r) && Parsed(r, body, lib).Some?
    && c == Placed(Parsed(r, body, lib).value, Target(r), CopyEtag(c))
  }

  /** ... and the edited copy is the request's edit of that. */
  predicate EditedFrom(r: Request, c: Item, body: string, lib: Library) {
    && IsUpdate(r) && Parsed(r, body, lib).Some?
    && var fetched := Placed(Parsed(r, body, lib).value, Target(r), CopyEtag(c));
    && Fits(r, fetched) && EditedCopy(r, fetched) == Ok(c)
  }

  predicate CallOk(c: Call, versions: map<string, Version>, lib: Library) {
    match c.phase
    case Fetched(copy) =>
      && IsUpdate(c.req) && Fits(c.req, copy) && CopyHref(copy) == Some(Target(c.req))
      && (CopyEtag(copy).Some? ==>
            && CopyEtag(copy).value in versions
            && versions[CopyEtag(copy).value].href == Target(c.req)
            && FetchedFrom(c.req, copy, versions[CopyEtag(copy).value].body, lib))
    case Edited(copy) =>
      && IsUpdate(c.req) && Fits(c.req, copy) && CopyHref(copy) == Some(Target(c.req))
      && (CopyEtag(copy).Some? ==>
            && CopyEtag(copy).value in versions
            && versions[CopyEtag(copy).value].href == Target(c.req)
            && EditedFrom(c.req, copy, versions[CopyEtag(copy).value].body, lib))
    case Waiting =>
      IsCreate(c.req) ==>
        CopyHref(NewCopy(c.req)).None? && CopyEtag(NewCopy(c.req)).None? && '/' !in CopyUid(NewCopy(c.req))
    case _ => true
  }

  predicate CallsOk(s: State, lib: Library) {
    forall id :: id in s.calls ==> CallOk(s.calls[id], s.versions, lib)
  }

  predicate Pending(s: State, id: nat) {
    id in s.calls && IsCreate(s.calls[id].req) && s.calls[id].phase.Waiting?
  }

  function PendingUid(s: State, id: nat): string
    requires Pending(s, id)
  {
    CopyUid(NewCopy(s.calls[id].req))
  }

  /** The UID of a pending create is nobody else's. */
  predicate UidsOk(s: State) {
    forall id | id in s.calls && Pending(s, id) ::
      && PendingUid(s, id) in s.minted
      && (forall h :: h in s.store ==> UidOf(h) != PendingUid(s, id))
      && (forall j :: j in s.calls && InFlight(s.calls[j]) ==> UidOf(Target(s.calls[j].req)) != PendingUid(s, id))
      && (forall j :: j in s.calls && j != id && Pending(s, j) ==> PendingUid(s, j) != PendingUid(s, id))
  }

  function Writer(a: Author): Option<nat> {
    match a
    case By(id) => Some(id)
    case Unguarded(id) => Some(id)
    case Foreign => None
  }

  /** A call has written exactly if it is done, and then once. */
  predicate WritersOk(s: State) {
    && (forall k | 0 <= k < |s.log| :: Writer(s.log[k].author).Some? ==>
          Writer(s.log[k].author).value in s.calls && s.calls[Writer(s.log[k].author).value].phase.Done?)
    && (forall j, k | 0 <= j < k < |s.log| ::
          Writer(s.log[j].author).Some? ==> Writer(s.log[j].author) != Writer(s.log[k].author))
    && (forall id :: id in s.calls && s.calls[id].phase.Done? ==>
          exists k :: 0 <= k < |s.log| && Writer(s.log[k].author) == Some(id))
  }

  /** Write `k` is the atomic effect of its author's request on the contents of that moment. */
  predicate AtomicAt(s: State, start: Contents, k: nat, lib: Library)
    requires k < |s.log|
  {
    s.log[k].author.By? ==>
      s.log[k].author.id in s.calls && Does(s.calls[s.log[k].author.id].req, Replay(start, s.log[..k]), s.log[k], lib)
  }

  predicate LogOk(s: State, start: Contents, lib: Library) {
    && StoreContents(s.store) == Replay(start, s.log)
    && (forall k | 0 <= k < |s.log| :: AtomicAt(s, start, k, lib))
  }

  predicate Inv(s: State, start: Contents, lib: Library) {
    StoreOk(s) && CallsOk(s, lib) && UidsOk(s) && WritersOk(s) && LogOk(s, start, lib)
  }

  lemma InitialInv(s: State, lib: Library)
    requires Initial(s)
    ensures Inv(s, StoreContents(s.store), lib)
  {
  }

  // ----- documents do not depend on where the copy came from ------------------------

  lemma PlacedDoc(c: Item, href: string, etag: Option<string>)
    ensures CopyDoc(Placed(c, href, etag)) == CopyDoc(c)
  {
    match c {
      case EventItem(ev) => EventDocPlaced(ev, Some(href), etag);
      case TodoItem(td) => TodoDocPlaced(td, Some(href), etag);
    }
  }

  lemma {:induction false} ContentsPlaced(a: Item, b: Item, props: seq<Property>)
    requires forall p :: RawOf(a, p) == RawOf(b, p)
    ensures ContentsOf(a, props) == ContentsOf(b, props)
  {
    if props != [] {
      ContentsPlaced(a, b, props[..|props| - 1]);
    }
  }

  lemma EventRawPlaced(ev: Event, href: Option<string>, etag: Option<string>, p: Property)
    ensures RawOf(EventItem(ev.(href := href, etag := etag)), p) == RawOf(EventItem(ev), p)
  {
  }

  lemma TodoRawPlaced(td: Todo, href: Option<string>, etag: Option<string>, p: Property)
    ensures RawOf(TodoItem(td.(href := href, etag := etag)), p) == RawOf(TodoItem(td), p)
  {
  }

  lemma EventDocPlaced(ev: Event, href: Option<string>, etag: Option<string>)
    ensures EventDoc(ev.(href := href, etag := etag)) == EventDoc(ev)
  {
    var placed := ev.(href := href, etag := etag);
    forall p ensures RawOf(EventItem(placed), p) == RawOf(EventItem(ev), p) {
      EventRawPlaced(ev, href, etag, p);
    }
    ContentsPlaced(EventItem(placed), EventItem(ev), EVENT_PROPS);
  }

  lemma TodoDocPlaced(td: Todo, href: Option<string>, etag: Option<string>)
    ensures TodoDoc(td.(href := href, etag := etag)) == TodoDoc(td)
  {
    var placed := td.(href := href, etag := etag);
    forall p ensures RawOf(TodoItem(placed), p) == RawOf(TodoItem(td), p) {
      TodoRawPlaced(td, href, etag, p);
    }
    ContentsPlaced(TodoItem(placed), TodoItem(td), TODO_PROPS);
  }

  lemma EditPlaced(r: Request, c: Item, href: string, etag: Option<string>)
    requires Fits(r, c)
    ensures var placed := Placed(c, href, etag);
            Fits(r, placed) && EditedCopy(r, placed) ==
            var e := EditedCopy(r, c); if e.Ok? then Ok(Placed(e.value, CopyHref(placed).value, etag)) else Err(e.error)
  {
  }

  lemma EditKeepsPlace(r: Request, c: Item)
    requires Fits(r, c) && EditedCopy(r, c).Ok?
    ensures var e := EditedCopy(r, c).value; Fits(r, e) && CopyHref(e) == CopyHref(c) && CopyEtag(e) == CopyEtag(c)
  {
  }

  /** A guarded update's PUT, accepted, is the atomic update of the version it read. */
  lemma GuardedPutDoes(r: Request, c: Item, before: Contents, lib: Library)
    requires IsUpdate(r) && Target(r) in before && EditedFrom(r, c, before[Target(r)], lib)
    ensures Does(r, before, Commit(Foreign, Target(r), Wrote(CopyDoc(c))), lib)
  {
    var p := Parsed(r, before[Target(r)], lib).value;
    EditPlaced(r, p, Target(r), CopyEtag(c));
    PlacedDoc(EditedCopy(r, p).value, Target(r), CopyEtag(c));
  }

  // ----- steps that write nothing ---------------------------------------------------

  /** Nobody waits for the UID of this href. */
  predicate Unclaimed(s: State, href: string) {
    forall j :: j in s.calls && Pending(s, j) ==> UidOf(href) != PendingUid(s, j)
  }

  lemma PhaseUids(s: State, id: nat, p: Phase)
    requires UidsOk(s) && id in s.calls && !p.Waiting?
    requires InFlight(s.calls[id].(phase := p)) ==> Unclaimed(s, Target(s.calls[id].req))
    ensures UidsOk(WithPhase(s, id, p))
  {
    var s' := WithPhase(s, id, p);
    forall i | i in s'.calls && Pending(s', i)
      ensures && PendingUid(s', i) in s'.minted
              && (forall h :: h in s'.store ==> UidOf(h) != PendingUid(s', i))
              && (forall j :: j in s'.calls && InFlight(s'.calls[j]) ==>
                UidOf(Target(s'.calls[j].req)) != PendingUid(s', i))
              && (forall j :: j in s'.calls && j != i && Pending(s', j) ==> PendingUid(s', j) != PendingUid(s', i))
    {
      assert i != id && Pending(s, i) && PendingUid(s', i) == PendingUid(s, i);
      forall j | j in s'.calls && j != i && Pending(s', j) ensures PendingUid(s', j) != PendingUid(s', i) {
        assert j != id && Pending(s, j);
      }
    }
  }

  lemma PhaseWriters(s: State, id: nat, p: Phase)
    requires WritersOk(s) && id in s.calls && !s.calls[id].phase.Done? && !p.Done?
    ensures WritersOk(WithPhase(s, id, p))
  {
  }

  lemma PhaseLog(s: State, id: nat, p: Phase, start: Contents, lib: Library)
    requires LogOk(s, start, lib) && id in s.calls
    ensures LogOk(WithPhase(s, id, p), start, lib)
  {
    var s' := WithPhase(s, id, p);
    forall k | 0 <= k < |s'.log| ensures AtomicAt(s', start, k, lib) {
      assert AtomicAt(s, start, k, lib);
    }
  }

  lemma PhaseInv(s: State, id: nat, p: Phase, start: Contents, lib: Library)
    requires Inv(s, start, lib) && id in s.calls && !s.calls[id].phase.Done? && !p.Done? && !p.Waiting?
    requires CallOk(s.calls[id].(phase := p), s.versions, lib)
    requires InFlight(s.calls[id].(phase := p)) ==> Unclaimed(s, Target(s.calls[id].req))
    ensures Inv(WithPhase(s, id, p), start, lib)
  {
    PhaseUids(s, id, p);
    PhaseWriters(s, id, p);
    PhaseLog(s, id, p, start, lib);
  }

  lemma GetInv(s: State, id: nat, withEtag: bool, start: Contents, lib: Library)
    requires Inv(s, start, lib) && Allowed(s, Get(id, withEtag))
    ensures Inv(AfterGet(s, id, withEtag, lib), start, lib)
  {
    var r := s.calls[id].req;
    var h := Target(r);
    if h in s.store && Parsed(r, s.store[h].body, lib).Some? {
      var c := Parsed(r, s.store[h].body, lib).value;
      var copy := Placed(c, h, if withEtag then Some(s.store[h].etag) else None);
      assert s.versions[s.store[h].etag] == Version(h, s.store[h].body);
      PhaseInv(s, id, Fetched(copy), start, lib);
    } else {
      PhaseInv(s, id, Refused(if h in s.store then BadDocument else NotFound), start, lib);
    }
  }

  lemma EditInv(s: State, id: nat, start: Contents, lib: Library)
    requires Inv(s, start, lib) && Allowed(s, Edit(id))
    ensures Inv(AfterEdit(s, id), start, lib)
  {
    var r, c := s.calls[id].req, s.calls[id].phase.copy;
    var edited := EditedCopy(r, c);
    assert InFlight(s.calls[id]) && CallOk(s.calls[id], s.versions, lib);
    if edited.Ok? {
      EditKeepsPlace(r, c);
      PhaseInv(s, id, Edited(edited.value), start, lib);
    } else {
      PhaseInv(s, id, Refused(UnknownField(edited.error)), start, lib);
    }
  }

  lemma SpawnUids(s: State, id: nat, r: Request, lib: Library)
    requires UidsOk(s) && CanSpawn(s, id, r)
    ensures UidsOk(Next(s, Spawn(id, r), lib))
  {
    var s' := Next(s, Spawn(id, r), lib);
    forall i | i in s'.calls && Pending(s', i)
      ensures && PendingUid(s', i) in s'.minted
              && (forall h :: h in s'.store ==> UidOf(h) != PendingUid(s', i))
              && (forall j :: j in s'.calls && InFlight(s'.calls[j]) ==>
                UidOf(Target(s'.calls[j].req)) != PendingUid(s', i))
              && (forall j :: j in s'.calls && j != i && Pending(s', j) ==> PendingUid(s', j) != PendingUid(s', i))
    {
      if i != id {
        assert Pending(s, i) && PendingUid(s', i) == PendingUid(s, i);
      }
      forall j | j in s'.calls && j != i && Pending(s', j) ensures PendingUid(s', j) != PendingUid(s', i) {
        if j != id {
          assert Pending(s, j) && PendingUid(s, j) in s.minted;
        }
      }
    }
  }

  lemma SpawnInv(s: State, id: nat, r: Request, start: Contents, lib: Library)
    requires Inv(s, start, lib) && CanSpawn(s, id, r)
    ensures Inv(Next(s, Spawn(id, r), lib), start, lib)
  {
    var s' := Next(s, Spawn(id, r), lib);
    SpawnUids(s, id, r, lib);
    forall k | 0 <= k < |s'.log| ensures AtomicAt(s', start, k, lib) {
      assert AtomicAt(s, start, k, lib);
    }
  }

  // ----- steps that write -----------------------------------------------------------

  lemma ReplaySnoc(start: Contents, log: seq<Commit>, c: Commit)
    ensures Replay(start, log + [c]) == Apply(Replay(start, log), c)
  {
    assert (log + [c])[..|log|] == log;
  }

  lemma WrittenContents(s: State, author: Author, h: string, body: string, e: string)
    ensures StoreContents(Written(s, author, h, body, e).store) ==
            Apply(StoreContents(s.store), Commit(author, h, Wrote(body)))
  {
  }

  lemma RemovedContents(s: State, author: Author, h: string)
    ensures StoreContents(Without(s, author, h).store) == Apply(StoreContents(s.store), Commit(author, h, Removed))
  {
  }

  /** The log grows by one write, whose author (if a call) is `id`. */
  predicate Commits(s: State, s': State, c: Commit) {
    && s'.log == s.log + [c]
    && StoreContents(s'.store) == Apply(StoreContents(s.store), c)
    && s'.calls == if Writer(c.author).None? then s.calls
                   else if Writer(c.author).value in s.calls then
                     s.calls[Writer(c.author).value := s.calls[Writer(c.author).value].(phase := Done)]
                   else s.calls
  }

  lemma CommitLog(s: State, s': State, c: Commit, start: Contents, lib: Library)
    requires LogOk(s, start, lib) && Commits(s, s', c)
    requires Writer(c.author).Some? ==> Writer(c.author).value in s.calls
    requires c.author.By? ==> Does(s.calls[c.author.id].req, StoreContents(s.store), c, lib)
    ensures LogOk(s', start, lib)
  {
    ReplaySnoc(start, s.log, c);
    forall k | 0 <= k < |s'.log| ensures AtomicAt(s', start, k, lib) {
      if k < |s.log| {
        assert AtomicAt(s, start, k, lib);
        assert s'.log[..k] == s.log[..k] && s'.log[k] == s.log[k];
      } else {
        assert s'.log[..k] == s.log;
      }
    }
  }

  lemma CommitWriters(s: State, s': State, c: Commit)
    requires WritersOk(s) && Commits(s, s', c)
    requires Writer(c.author).Some? ==>
               Writer(c.author).value in s.calls && !s.calls[Writer(c.author).value].phase.Done?
    ensures WritersOk(s')
  {
    forall k | 0 <= k < |s'.log| && Writer(s'.log[k].author).Some?
      ensures Writer(s'.log[k].author).value in s'.calls && s'.calls[Writer(s'.log[k].author).value].phase.Done?
    {
      if k < |s.log| {
        assert s'.log[k] == s.log[k];
      }
    }
    forall id | id in s'.calls && s'.calls[id].phase.Done?
      ensures exists k :: 0 <= k < |s'.log| && Writer(s'.log[k].author) == Some(id)
    {
      if Writer(c.author) == Some(id) {
        assert Writer(s'.log[|s.log|].author) == Some(id);
      } else {
        var k :| 0 <= k < |s.log| && Writer(s.log[k].author) == Some(id);
        assert s'.log[k] == s.log[k];
      }
    }
  }

  /** The server's side of an accepted write. */
  lemma WrittenServer(s: State, author: Author, h: string, body: string, e: string, lib: Library)
    requires StoreOk(s) && CallsOk(s, lib) && e !in s.versions
    ensures StoreOk(Written(s, author, h, body, e)) && CallsOk(Written(s, author, h, body, e), lib)
  {
    var s' := Written(s, author, h, body, e);
    forall id | id in s'.calls ensures CallOk(s'.calls[id], s'.versions, lib) {
      assert CallOk(s.calls[id], s.versions, lib);
    }
  }

  lemma WrittenUids(s: State, author: Author, h: string, body: string, e: string)
    requires UidsOk(s) && Unclaimed(s, h)
    ensures UidsOk(Written(s, author, h, body, e))
  {
    var s' := Written(s, author, h, body, e);
    forall i | i in s'.calls && Pending(s', i)
      ensures && PendingUid(s', i) in s'.minted
              && (forall x :: x in s'.store ==> UidOf(x) != PendingUid(s', i))
              && (forall j :: j in s'.calls && InFlight(s'.calls[j]) ==>
                UidOf(Target(s'.calls[j].req)) != PendingUid(s', i))
              && (forall j :: j in s'.calls && j != i && Pending(s', j) ==> PendingUid(s', j) != PendingUid(s', i))
    {
      assert Pending(s, i) && PendingUid(s', i) == PendingUid(s, i);
      forall j | j in s'.calls && j != i && Pending(s', j) ensures PendingUid(s', j) != PendingUid(s', i) {
        assert Pending(s, j);
      }
    }
  }

  lemma RemovedUids(s: State, author: Author, h: string)
    requires UidsOk(s)
    ensures UidsOk(Without(s, author, h))
  {
    var s' := Without(s, author, h);
    forall i | i in s'.calls && Pending(s', i)
      ensures && PendingUid(s', i) in s'.minted
              && (forall x :: x in s'.store ==> UidOf(x) != PendingUid(s', i))
              && (forall j :: j in s'.calls && InFlight(s'.calls[j]) ==>
                UidOf(Target(s'.calls[j].req)) != PendingUid(s', i))
              && (forall j :: j in s'.calls && j != i && Pending(s', j) ==> PendingUid(s', j) != PendingUid(s', i))
    {
      assert Pending(s, i) && PendingUid(s', i) == PendingUid(s, i);
      forall j | j in s'.calls && j != i && Pending(s', j) ensures PendingUid(s', j) != PendingUid(s', i) {
        assert Pending(s, j);
      }
    }
  }

  lemma ForeignWriteInv(s: State, h: string, body: string, e: string, start: Contents, lib: Library)
    requires Inv(s, start, lib) && Allowed(s, ForeignWrite(h, body, e))
    ensures Inv(Written(s, Foreign, h, body, e), start, lib)
  {
    var s' := Written(s, Foreign, h, body, e);
    var c := Commit(Foreign, h, Wrote(body));
    WrittenContents(s, Foreign, h, body, e);
    assert Commits(s, s', c);
    WrittenServer(s, Foreign, h, body, e, lib);
    WrittenUids(s, Foreign, h, body, e);
    CommitWriters(s, s', c);
    CommitLog(s, s', c, start, lib);
  }

  lemma ForeignRemoveInv(s: State, h: string, start: Contents, lib: Library)
    requires Inv(s, start, lib)
    ensures Inv(Without(s, Foreign, h), start, lib)
  {
    var s' := Without(s, Foreign, h);
    var c := Commit(Foreign, h, Removed);
    RemovedContents(s, Foreign, h);
    assert Commits(s, s', c);
    RemovedUids(s, Foreign, h);
    CommitWriters(s, s', c);
    CommitLog(s, s', c, start, lib);
  }

  lemma OwnRemoveInv(s: State, id: nat, h: string, start: Contents, lib: Library)
    requires Inv(s, start, lib) && id in s.calls && !s.calls[id].phase.Done?
    requires Does(s.calls[id].req, StoreContents(s.store), Commit(By(id), h, Removed), lib)
    ensures Inv(WithPhase(Without(s, By(id), h), id, Done), start, lib)
  {
    var mid := WithPhase(s, id, Done);
    var s' := WithPhase(Without(s, By(id), h), id, Done);
    var c := Commit(By(id), h, Removed);
    assert s' == Without(mid, By(id), h);
    RemovedContents(s, By(id), h);
    assert Commits(s, s', c);
    CommitWriters(s, s', c);
    CommitLog(s, s', c, start, lib);
    PhaseUids(s, id, Done);
    RemovedUids(mid, By(id), h);
    RemovedServer(s, id, h, lib);
  }

  lemma RemovedServer(s: State, id: nat, h: string, lib: Library)
    requires StoreOk(s) && CallsOk(s, lib) && id in s.calls
    ensures StoreOk(WithPhase(Without(s, By(id), h), id, Done)) &&
            CallsOk(WithPhase(Without(s, By(id), h), id, Done), lib)
  {
  }

  lemma RemoveInv(s: State, id: nat, start: Contents, lib: Library)
    requires Inv(s, start, lib) && Allowed(s, Remove(id))
    ensures Inv(AfterRemove(s, id), start, lib)
  {
    var h := Target(s.calls[id].req);
    if h in s.store {
      OwnRemoveInv(s, id, h, start, lib);
    } else {
      PhaseInv(s, id, Refused(NotFound), start, lib);
    }
  }

  /** What an accepted PUT writes is what its request asks for. */
  lemma PutDoes(s: State, id: nat, e: string, lib: Library)
    requires StoreOk(s) && CallsOk(s, lib) && UidsOk(s) && Allowed(s, Put(id, e))
    requires var r, c := s.calls[id].req, PutCopy(s.calls[id]);
             Matches(s.store, PutHref(r.cal, c), CopyEtag(c)) && (IsUpdate(r) ==> CopyEtag(c).Some?)
    ensures var r, c := s.calls[id].req, PutCopy(s.calls[id]);
            Does(r, StoreContents(s.store), Commit(By(id), PutHref(r.cal, c), Wrote(CopyDoc(c))), lib)
  {
    var r, c := s.calls[id].req, PutCopy(s.calls[id]);
    assert CallOk(s.calls[id], s.versions, lib);
    if IsUpdate(r) {
      GuardedPutDoes(r, c, StoreContents(s.store), lib);
    } else {
      assert Pending(s, id);
      UidOfObjectHref(r.cal, CopyUid(c));
      assert ObjectHref(r.cal, CopyUid(c)) !in s.store;
    }
  }

  /** A PUT never lands where a create is still to come. */
  lemma PutUnclaimed(s: State, id: nat, e: string, lib: Library)
    requires CallsOk(s, lib) && UidsOk(s) && Allowed(s, Put(id, e))
    ensures forall j :: j in s.calls && j != id && Pending(s, j) ==>
              UidOf(PutHref(s.calls[id].req.cal, PutCopy(s.calls[id]))) != PendingUid(s, j)
  {
    var r, c := s.calls[id].req, PutCopy(s.calls[id]);
    assert CallOk(s.calls[id], s.versions, lib);
    if IsUpdate(r) {
      assert InFlight(s.calls[id]);
    } else {
      assert Pending(s, id);
      UidOfObjectHref(r.cal, CopyUid(c));
    }
  }

  lemma OwnWriteInv(s: State, id: nat, author: Author, h: string, body: string, e: string, start: Contents,
                    lib: Library)
    requires Inv(s, start, lib) && id in s.calls && !s.calls[id].phase.Done? && e !in s.versions
    requires Writer(author) == Some(id)
    requires author.By? ==> Does(s.calls[id].req, StoreContents(s.store), Commit(author, h, Wrote(body)), lib)
    requires forall j :: j in s.calls && j != id && Pending(s, j) ==> UidOf(h) != PendingUid(s, j)
    ensures Inv(WithPhase(Written(s, author, h, body, e), id, Done), start, lib)
  {
    var c := Commit(author, h, Wrote(body));
    var mid := WithPhase(s, id, Done);
    var s' := WithPhase(Written(s, author, h, body, e), id, Done);
    assert s' == Written(mid, author, h, body, e);
    WrittenContents(s, author, h, body, e);
    assert Commits(s, s', c);
    CommitWriters(s, s', c);
    CommitLog(s, s', c, start, lib);
    PhaseUids(s, id, Done);
    forall j | j in mid.calls && Pending(mid, j) ensures UidOf(h) != PendingUid(mid, j) {
      assert j != id && Pending(s, j);
    }
    WrittenUids(mid, author, h, body, e);
    WrittenServer(mid, author, h, body, e, lib);
  }

  lemma PutInv(s: State, id: nat, e: string, start: Contents, lib: Library)
    requires Inv(s, start, lib) && Allowed(s, Put(id, e))
    ensures Inv(AfterPut(s, id, e), start, lib)
  {
    var r, c := s.calls[id].req, PutCopy(s.calls[id]);
    var h := PutHref(r.cal, c);
    if Matches(s.store, h, CopyEtag(c)) {
      var author := if IsUpdate(r) && CopyEtag(c).None? then Unguarded(id) else By(id);
      if author.By? {
        PutDoes(s, id, e, lib);
      }
      PutUnclaimed(s, id, e, lib);
      OwnWriteInv(s, id, author, h, CopyDoc(c), e, start, lib);
    } else {
      PhaseInv(s, id, Refused(PreconditionFailed), start, lib);
    }
  }

  lemma StepInv(s: State, l: Label, start: Contents, lib: Library)
    requires Inv(s, start, lib) && Allowed(s, l)
    ensures Inv(Next(s, l, lib), start, lib)
  {
    match l {
      case Spawn(id, r) => SpawnInv(s, id, r, start, lib);
      case Get(id, withEtag) => GetInv(s, id, withEtag, start, lib);
      case Edit(id) => EditInv(s, id, start, lib);
      case Put(id, e) => PutInv(s, id, e, start, lib);
      case Remove(id) => RemoveInv(s, id, start, lib);
      case ForeignWrite(h, body, e) => ForeignWriteInv(s, h, body, e, start, lib);
      case ForeignRemove(h) => ForeignRemoveInv(s, h, start, lib);
    }
  }

  lemma {:induction false} RunInv(s: State, labels: seq<Label>, start: Contents, lib: Library)
    requires Inv(s, start, lib) && IsRun(s, labels, lib)
    ensures Inv(Final(s, labels, lib), start, lib)
    decreases |labels|
  {
    if labels != [] {
      StepInv(s, labels[0], start, lib);
      RunInv(Next(s, labels[0], lib), labels[1..], start, lib);
    }
  }
}
