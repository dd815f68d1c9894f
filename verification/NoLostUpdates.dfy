/** What the invariants of `ProtocolSafety` give a reader: the theorems about whole runs. */
module NoLostUpdates {
  import opened Wrappers
  import opened Model
  import opened Addressing
  import opened Ical
  import opened Protocol
  import opened ProtocolSafety

  /** `log` executes one by one: each guarded write is its request's effect on what the earlier ones left. */
  ghost predicate Serial(start: Contents, log: seq<Commit>, calls: map<nat, Call>, lib: Library) {
    forall k | 0 <= k < |log| && log[k].author.By? ::
      log[k].author.id in calls && Does(calls[log[k].author.id].req, Replay(start, log[..k]), log[k], lib)
  }

  /** A guarded update never brings back a deleted object, and a create never replaces one. */
  ghost predicate NoneRevived(start: Contents, log: seq<Commit>, calls: map<nat, Call>) {
    forall k | 0 <= k < |log| && log[k].author.By? && log[k].author.id in calls ::
      && (IsUpdate(calls[log[k].author.id].req) ==> log[k].href in Replay(start, log[..k]))
      && (IsCreate(calls[log[k].author.id].req) ==> log[k].href !in Replay(start, log[..k]))
  }

  lemma SerialRevivesNone(start: Contents, log: seq<Commit>, calls: map<nat, Call>, lib: Library)
    requires Serial(start, log, calls, lib)
    ensures NoneRevived(start, log, calls)
  {
    hide Replay;
    hide EventDoc;
    hide TodoDoc;
    hide ParseEvent;
    hide ParseTodo;
  }

  /**
   Every run is a serial execution: the server's contents are the replay of the accepted writes, each guarded
   write is atomic at its place in that order, and a call is done exactly if it wrote, and then once.
   */
  lemma RunsAreSerial(s: State, labels: seq<Label>, lib: Library)
    requires Initial(s) && IsRun(s, labels, lib)
    ensures var start, end := StoreContents(s.store), Final(s, labels, lib);
            && StoreContents(end.store) == Replay(start, end.log)
            && Serial(start, end.log, end.calls, lib)
            && NoneRevived(start, end.log, end.calls)
            && WritersOk(end)
  {
    var start, end := StoreContents(s.store), Final(s, labels, lib);
    InitialInv(s, lib);
    RunInv(s, labels, start, lib);
    forall k | 0 <= k < |end.log| && end.log[k].author.By?
      ensures end.log[k].author.id in end.calls
              && Does(end.calls[end.log[k].author.id].req, Replay(start, end.log[..k]), end.log[k], lib)
    {
      assert AtomicAt(end, start, k, lib);
    }
    SerialRevivesNone(start, end.log, end.calls, lib);
  }

  /** In every run an update's PUT goes to the href it read, and its tag was issued for an object there. */
  lemma PutsGoWhereTheyRead(s: State, labels: seq<Label>, id: nat, lib: Library)
    requires Initial(s) && IsRun(s, labels, lib)
    requires var end := Final(s, labels, lib);
             id in end.calls && IsUpdate(end.calls[id].req) && end.calls[id].phase.Edited?
    ensures var end := Final(s, labels, lib);
            var r, copy := end.calls[id].req, end.calls[id].phase.copy;
            && PutHref(r.cal, copy) == Target(r)
            && (CopyEtag(copy).Some? ==>
                  CopyEtag(copy).value in end.versions && end.versions[CopyEtag(copy).value].href == Target(r))
  {
    InitialInv(s, lib);
    RunInv(s, labels, StoreContents(s.store), lib);
    var end := Final(s, labels, lib);
    assert CallOk(end.calls[id], end.versions, lib);
  }

  // ----- every GET returned a tag ---------------------------------------------------

  predicate AllTagged(labels: seq<Label>) {
    forall k | 0 <= k < |labels| :: labels[k].Get? ==> labels[k].withEtag
  }

  predicate Tagged(s: State) {
    && (forall id :: id in s.calls && InFlight(s.calls[id]) ==> CopyEtag(s.calls[id].phase.copy).Some?)
    && (forall k | 0 <= k < |s.log| :: !s.log[k].author.Unguarded?)
  }

  lemma PhaseTagged(s: State, id: nat, p: Phase)
    requires Tagged(s) && id in s.calls
    requires InFlight(s.calls[id].(phase := p)) ==> CopyEtag(p.copy).Some?
    ensures Tagged(WithPhase(s, id, p))
  {
  }

  lemma CommitTagged(s: State, author: Author, h: string, body: string, e: string)
    requires Tagged(s) && !author.Unguarded?
    ensures Tagged(Written(s, author, h, body, e)) && Tagged(Without(s, author, h))
  {
  }

  lemma GetTagged(s: State, id: nat, lib: Library)
    requires Tagged(s) && Allowed(s, Get(id, true))
    ensures Tagged(AfterGet(s, id, true, lib))
  {
    PhaseTagged(s, id, AfterGet(s, id, true, lib).calls[id].phase);
  }

  lemma EditTagged(s: State, id: nat)
    requires Tagged(s) && Allowed(s, Edit(id))
    ensures Tagged(AfterEdit(s, id))
  {
    var r, c := s.calls[id].req, s.calls[id].phase.copy;
    assert InFlight(s.calls[id]);
    if EditedCopy(r, c).Ok? {
      EditKeepsPlace(r, c);
    }
    PhaseTagged(s, id, AfterEdit(s, id).calls[id].phase);
  }

  lemma PutTagged(s: State, id: nat, e: string)
    requires Tagged(s) && Allowed(s, Put(id, e))
    ensures Tagged(AfterPut(s, id, e))
  {
    var r, c := s.calls[id].req, PutCopy(s.calls[id]);
    var h := PutHref(r.cal, c);
    assert IsUpdate(r) ==> InFlight(s.calls[id]);
    if Matches(s.store, h, CopyEtag(c)) {
      CommitTagged(s, By(id), h, CopyDoc(c), e);
      PhaseTagged(Written(s, By(id), h, CopyDoc(c), e), id, Done);
    } else {
      PhaseTagged(s, id, Refused(PreconditionFailed));
    }
  }

  lemma RemoveTagged(s: State, id: nat)
    requires Tagged(s) && Allowed(s, Remove(id))
    ensures Tagged(AfterRemove(s, id))
  {
    var h := Target(s.calls[id].req);
    CommitTagged(s, By(id), h, "", "");
    if h in s.store {
      PhaseTagged(Without(s, By(id), h), id, Done);
    } else {
      PhaseTagged(s, id, Refused(NotFound));
    }
  }

  lemma StepTagged(s: State, l: Label, lib: Library)
    requires Tagged(s) && Allowed(s, l) && (l.Get? ==> l.withEtag)
    ensures Tagged(Next(s, l, lib))
  {
    match l {
      case Spawn(_, _) =>
      case Get(id, _) => GetTagged(s, id, lib);
      case Edit(id) => EditTagged(s, id);
      case Put(id, e) => PutTagged(s, id, e);
      case Remove(id) => RemoveTagged(s, id);
      case ForeignWrite(h, body, e) => CommitTagged(s, Foreign, h, body, e);
      case ForeignRemove(h) => CommitTagged(s, Foreign, h, "", "");
    }
  }

  lemma {:induction false} RunTagged(s: State, labels: seq<Label>, lib: Library)
    requires Tagged(s) && IsRun(s, labels, lib) && AllTagged(labels)
    ensures Tagged(Final(s, labels, lib))
    decreases |labels|
  {
    if labels != [] {
      StepTagged(s, labels[0], lib);
      RunTagged(Next(s, labels[0], lib), labels[1..], lib);
    }
  }

  /** Where every GET returned a tag, every write of every call is atomic: no update is ever lost. */
  lemma NothingIsLost(s: State, labels: seq<Label>, k: nat, lib: Library)
    requires Initial(s) && IsRun(s, labels, lib) && AllTagged(labels)
    requires k < |Final(s, labels, lib).log| && Final(s, labels, lib).log[k].author != Foreign
    ensures var start, end := StoreContents(s.store), Final(s, labels, lib);
            var c := end.log[k];
            && c.author.By? && c.author.id in end.calls
            && Does(end.calls[c.author.id].req, Replay(start, end.log[..k]), c, lib)
            && StoreContents(end.store) == Replay(start, end.log)
  {
    RunsAreSerial(s, labels, lib);
    RunTagged(s, labels, lib);
  }

  // ----- the version an update saw --------------------------------------------------

  predicate Touched(log: seq<Commit>, m: nat, h: string) {
    exists k :: m <= k < |log| && log[k].href == h
  }

  /** Until `h` is written again it is `v`; after that its tag is none of the tags known before. */
  predicate Renewed(s: State, m: nat, known: set<string>, h: string, v: Stored) {
    && m <= |s.log| && known <= s.versions.Keys
    && (if Touched(s.log, m, h) then h !in s.store || s.store[h].etag !in known else h in s.store && s.store[h] == v)
  }

  lemma SameRenewed(s: State, s': State, m: nat, known: set<string>, h: string, v: Stored)
    requires Renewed(s, m, known, h, v) && s'.store == s.store && s'.versions == s.versions && s'.log == s.log
    ensures Renewed(s', m, known, h, v)
  {
  }

  /** A longer history either touched `h` before or does so in its last entry. */
  lemma TouchedSnoc(log: seq<Commit>, c: Commit, m: nat, h: string)
    requires m <= |log|
    ensures Touched(log + [c], m, h) <==> Touched(log, m, h) || c.href == h
  {
    if Touched(log + [c], m, h) && c.href != h {
      var k :| m <= k < |log + [c]| && (log + [c])[k].href == h;
      assert log[k].href == h;
    }
    if Touched(log, m, h) {
      var k :| m <= k < |log| && log[k].href == h;
      assert (log + [c])[k].href == h;
    }
    assert (log + [c])[|log|] == c;
  }

  lemma WriteRenewed(s: State, author: Author, x: string, body: string, e: string, m: nat, known: set<string>,
                     h: string, v: Stored)
    requires Renewed(s, m, known, h, v) && e !in s.versions
    ensures Renewed(Written(s, author, x, body, e), m, known, h, v)
  {
    TouchedSnoc(s.log, Commit(author, x, Wrote(body)), m, h);
  }

  lemma RemoveRenewed(s: State, author: Author, x: string, m: nat, known: set<string>, h: string, v: Stored)
    requires Renewed(s, m, known, h, v)
    ensures Renewed(Without(s, author, x), m, known, h, v)
  {
    TouchedSnoc(s.log, Commit(author, x, Removed), m, h);
  }

  lemma PutRenewed(s: State, id: nat, e: string, m: nat, known: set<string>, h: string, v: Stored)
    requires Renewed(s, m, known, h, v) && Allowed(s, Put(id, e))
    ensures Renewed(AfterPut(s, id, e), m, known, h, v)
  {
    hide Renewed;
    var r, c := s.calls[id].req, PutCopy(s.calls[id]);
    var x, author := PutHref(r.cal, c), if IsUpdate(r) && CopyEtag(c).None? then Unguarded(id) else By(id);
    if Matches(s.store, x, CopyEtag(c)) {
      WriteRenewed(s, author, x, CopyDoc(c), e, m, known, h, v);
      SameRenewed(Written(s, author, x, CopyDoc(c), e), AfterPut(s, id, e), m, known, h, v);
    } else {
      SameRenewed(s, AfterPut(s, id, e), m, known, h, v);
    }
  }

  lemma StepRenews(s: State, l: Label, m: nat, known: set<string>, h: string, v: Stored, lib: Library)
    requires Renewed(s, m, known, h, v) && Allowed(s, l)
    ensures Renewed(Next(s, l, lib), m, known, h, v)
  {
    hide Renewed;
    match l {
      case Put(id, e) => PutRenewed(s, id, e, m, known, h, v);
      case Remove(id) =>
        var x := Target(s.calls[id].req);
        RemoveRenewed(s, By(id), x, m, known, h, v);
        SameRenewed(if x in s.store then Without(s, By(id), x) else s, AfterRemove(s, id), m, known, h, v);
      case ForeignWrite(x, body, e) => WriteRenewed(s, Foreign, x, body, e, m, known, h, v);
      case ForeignRemove(x) => RemoveRenewed(s, Foreign, x, m, known, h, v);
      case _ => SameRenewed(s, Next(s, l, lib), m, known, h, v);
    }
  }

  lemma {:induction false} RunRenews(s: State, labels: seq<Label>, m: nat, known: set<string>, h: string, v: Stored,
                                     lib: Library)
    requires Renewed(s, m, known, h, v) && IsRun(s, labels, lib)
    ensures Renewed(Final(s, labels, lib), m, known, h, v)
    decreases |labels|
  {
    if labels != [] {
      StepRenews(s, labels[0], m, known, h, v, lib);
      RunRenews(Next(s, labels[0], lib), labels[1..], m, known, h, v, lib);
    }
  }

  /**
   A PUT that presents the tag an earlier GET returned is accepted exactly if nobody wrote or removed the
   object in between, whatever else happened.
   */
  lemma AcceptedIffUntouched(s: State, labels: seq<Label>, h: string, lib: Library)
    requires StoreOk(s) && h in s.store && IsRun(s, labels, lib)
    ensures Matches(Final(s, labels, lib).store, h, Some(s.store[h].etag)) <==>
            !Touched(Final(s, labels, lib).log, |s.log|, h)
  {
    RunRenews(s, labels, |s.log|, s.versions.Keys, h, s.store[h], lib);
  }

  /**
   A call that was refused, for whatever reason and at whatever point, has left no trace: in no run is any of
   the writes that make up the store its own.
   */
  lemma RefusedCallsLeaveNoTrace(s: State, labels: seq<Label>, id: nat, lib: Library)
    requires Initial(s) && IsRun(s, labels, lib)
    requires id in Final(s, labels, lib).calls && Final(s, labels, lib).calls[id].phase.Refused?
    ensures var start, end := StoreContents(s.store), Final(s, labels, lib);
            && StoreContents(end.store) == Replay(start, end.log)
            && forall k | 0 <= k < |end.log| :: Writer(end.log[k].author) != Some(id)
  {
    RunsAreSerial(s, labels, lib);
  }

  // ----- unknown clear fields -------------------------------------------------------

  predicate NamesUnknownField(r: Request) {
    match r
    case UpdateEvent(_, _, u) => u.clear.Some? && ClearVerdict(u.clear.value, EVENT_CLEARABLE).Err?
    case UpdateTask(_, _, u) => u.clear.Some? && ClearVerdict(u.clear.value, TODO_CLEARABLE).Err?
    case _ => false
  }

  predicate Harmless(s: State) {
    forall id :: id in s.calls && NamesUnknownField(s.calls[id].req) ==>
      !s.calls[id].phase.Edited? && !s.calls[id].phase.Done?
  }

  lemma UnknownFieldRefused(r: Request, c: Item)
    requires Fits(r, c) && NamesUnknownField(r)
    ensures EditedCopy(r, c).Err?
  {
  }

  lemma PhaseHarmless(s: State, s': State, id: nat, p: Phase)
    requires Harmless(s) && id in s.calls && s'.calls == s.calls[id := s.calls[id].(phase := p)]
    requires NamesUnknownField(s.calls[id].req) ==> !p.Edited? && !p.Done?
    ensures Harmless(s')
  {
  }

  lemma EditHarmless(s: State, id: nat)
    requires Harmless(s) && Allowed(s, Edit(id))
    ensures Harmless(AfterEdit(s, id))
  {
    if NamesUnknownField(s.calls[id].req) {
      UnknownFieldRefused(s.calls[id].req, s.calls[id].phase.copy);
    }
    PhaseHarmless(s, AfterEdit(s, id), id, AfterEdit(s, id).calls[id].phase);
  }

  lemma PutHarmless(s: State, id: nat, e: string)
    requires Harmless(s) && Allowed(s, Put(id, e))
    ensures Harmless(AfterPut(s, id, e))
  {
    PhaseHarmless(s, AfterPut(s, id, e), id, AfterPut(s, id, e).calls[id].phase);
  }

  lemma StepHarmless(s: State, l: Label, lib: Library)
    requires Harmless(s) && Allowed(s, l)
    ensures Harmless(Next(s, l, lib))
  {
    match l {
      case Get(id, t) => PhaseHarmless(s, AfterGet(s, id, t, lib), id, AfterGet(s, id, t, lib).calls[id].phase);
      case Edit(id) => EditHarmless(s, id);
      case Put(id, e) => PutHarmless(s, id, e);
      case Remove(id) => PhaseHarmless(s, AfterRemove(s, id), id, AfterRemove(s, id).calls[id].phase);
      case _ =>
    }
  }

  lemma {:induction false} RunHarmless(s: State, labels: seq<Label>, lib: Library)
    requires Harmless(s) && IsRun(s, labels, lib)
    ensures Harmless(Final(s, labels, lib))
    decreases |labels|
  {
    if labels != [] {
      StepHarmless(s, labels[0], lib);
      RunHarmless(Next(s, labels[0], lib), labels[1..], lib);
    }
  }

  /** An update that names an unknown field never changes the server, in no run. */
  lemma UnknownFieldNeverWrites(s: State, labels: seq<Label>, id: nat, lib: Library)
    requires Initial(s) && IsRun(s, labels, lib)
    requires id in Final(s, labels, lib).calls && NamesUnknownField(Final(s, labels, lib).calls[id].req)
    ensures forall k | 0 <= k < |Final(s, labels, lib).log| :: Writer(Final(s, labels, lib).log[k].author) != Some(id)
  {
    RunHarmless(s, labels, lib);
    RunsAreSerial(s, labels, lib);
  }

  // ----- progress -------------------------------------------------------------------

  function Alone(id: nat, r: Request, tag: string): seq<Label> {
    [Spawn(id, r), Get(id, true)] + [Edit(id), Put(id, tag)]
  }

  /** The object an update works on, as its GET returns it. */
  function Read(r: Request, stored: Stored, lib: Library): Option<Item>
    requires IsUpdate(r)
  {
    var c := Parsed(r, stored.body, lib);
    if c.Some? then Some(Placed(c.value, Target(r), Some(stored.etag))) else None
  }

  lemma ReadingFetches(s: State, id: nat, r: Request, lib: Library)
    requires IsUpdate(r) && id !in s.calls && Target(r) in s.store && Read(r, s.store[Target(r)], lib).Some?
    ensures var copy := Read(r, s.store[Target(r)], lib).value;
            var s' := s.(calls := s.calls[id := Call(r, Fetched(copy))]);
            IsRun(s, [Spawn(id, r), Get(id, true)], lib) && Final(s, [Spawn(id, r), Get(id, true)], lib) == s'
  {
    hide Parsed;
    hide Placed;
    hide Target;
    var s1 := s.(calls := s.calls[id := Call(r, Waiting)]);
    assert Next(s, Spawn(id, r), lib) == s1;
    RunTwo(s, Spawn(id, r), Get(id, true), lib);
    assert s1.calls[id := Call(r, Fetched(Read(r, s.store[Target(r)], lib).value))] ==
           s.calls[id := Call(r, Fetched(Read(r, s.store[Target(r)], lib).value))];
  }

  lemma WritingCommits(s: State, id: nat, r: Request, copy: Item, tag: string, lib: Library)
    requires id in s.calls && s.calls[id] == Call(r, Fetched(copy)) && tag !in s.versions
    requires Fits(r, copy) && EditedCopy(r, copy).Ok? && CopyHref(copy) == Some(Target(r))
    requires Matches(s.store, Target(r), CopyEtag(copy))
    ensures IsRun(s, [Edit(id), Put(id, tag)], lib)
    ensures var end := Final(s, [Edit(id), Put(id, tag)], lib);
            var body := CopyDoc(EditedCopy(r, copy).value);
            && end.calls == s.calls[id := Call(r, Done)]
            && end.store == s.store[Target(r) := Stored(tag, body)]
            && end.versions == s.versions[tag := Version(Target(r), body)]
  {
    hide CopyDoc;
    EditKeepsPlace(r, copy);
    RunTwo(s, Edit(id), Put(id, tag), lib);
  }

  /** Nothing stands in the way of an update that nobody contests: it ends, and its edit is what is stored. */
  lemma UncontestedUpdateCommits(s: State, id: nat, r: Request, tag: string, lib: Library)
    requires IsUpdate(r) && id !in s.calls && tag !in s.versions
    requires Target(r) in s.store && Read(r, s.store[Target(r)], lib).Some?
    requires EditedCopy(r, Read(r, s.store[Target(r)], lib).value).Ok?
    ensures IsRun(s, Alone(id, r, tag), lib)
    ensures var end, copy := Final(s, Alone(id, r, tag), lib), Read(r, s.store[Target(r)], lib).value;
            var body := CopyDoc(EditedCopy(r, copy).value);
            && end.calls == s.calls[id := Call(r, Done)]
            && end.store == s.store[Target(r) := Stored(tag, body)]
            && end.versions == s.versions[tag := Version(Target(r), body)]
  {
    hide CopyDoc;
    hide ParseEvent;
    hide ParseTodo;
    hide Target;
    hide EditedCopy;
    var copy := Read(r, s.store[Target(r)], lib).value;
    ReadingFetches(s, id, r, lib);
    var s' := s.(calls := s.calls[id := Call(r, Fetched(copy))]);
    assert s'.calls[id := Call(r, Done)] == s.calls[id := Call(r, Done)];
    WritingCommits(s', id, r, copy, tag, lib);
    RunSplit(s, [Spawn(id, r), Get(id, true)], [Edit(id), Put(id, tag)], lib);
  }

  /** A create ends: its document is stored at the href of its calendar and UID. */
  lemma CreateCommits(s: State, id: nat, r: Request, tag: string, lib: Library)
    requires IsCreate(r) && CanSpawn(s, id, r) && tag !in s.versions
    ensures IsRun(s, [Spawn(id, r), Put(id, tag)], lib)
    ensures var end := Final(s, [Spawn(id, r), Put(id, tag)], lib);
            var href := ObjectHref(r.cal, if r.CreateEvent? then r.event.uid else r.todo.uid);
            var body := if r.CreateEvent? then EventDoc(r.event) else TodoDoc(r.todo);
            && end.calls == s.calls[id := Call(r, Done)]
            && end.store == s.store[href := Stored(tag, body)]
            && end.versions == s.versions[tag := Version(href, body)]
  {
    hide EventDoc;
    hide TodoDoc;
    hide ObjectHref;
    hide Unused;
    RunTwo(s, Spawn(id, r), Put(id, tag), lib);
  }

  /** A delete ends with the object gone; it is done if the object was there, else refused as not found. */
  lemma DeleteEnds(s: State, id: nat, cal: string, uid: string, lib: Library)
    requires id !in s.calls
    ensures IsRun(s, [Spawn(id, Delete(cal, uid)), Remove(id)], lib)
    ensures var end := Final(s, [Spawn(id, Delete(cal, uid)), Remove(id)], lib);
            var phase := if ObjectHref(cal, uid) in s.store then Done else Refused(NotFound);
            && end.calls == s.calls[id := Call(Delete(cal, uid), phase)]
            && end.store == s.store - {ObjectHref(cal, uid)}
            && end.versions == s.versions
  {
    hide ObjectHref;
    RunTwo(s, Spawn(id, Delete(cal, uid)), Remove(id), lib);
  }

  /** An update of nothing, or of what cannot be read as its kind, ends at its GET and says which it was. */
  lemma UpdateRefusedAtGet(s: State, id: nat, r: Request, withEtag: bool, lib: Library)
    requires IsUpdate(r) && id !in s.calls
    requires Target(r) in s.store ==>
               var body := s.store[Target(r)].body;
               if r.UpdateEvent? then ParseEvent(body, lib).Err? else ParseTodo(body, lib).Err?
    ensures IsRun(s, [Spawn(id, r), Get(id, withEtag)], lib)
    ensures var why := if Target(r) in s.store then BadDocument else NotFound;
            Final(s, [Spawn(id, r), Get(id, withEtag)], lib) == s.(calls := s.calls[id := Call(r, Refused(why))])
  {
    hide ParseEvent;
    hide ParseTodo;
    hide Target;
    var s1 := s.(calls := s.calls[id := Call(r, Waiting)]);
    assert Next(s, Spawn(id, r), lib) == s1;
    RunTwo(s, Spawn(id, r), Get(id, withEtag), lib);
    var why := if Target(r) in s.store then BadDocument else NotFound;
    assert s1.calls[id := Call(r, Refused(why))] == s.calls[id := Call(r, Refused(why))];
  }

  /** The clear list of an update, and what it may name. */
  predicate Clears(r: Request, names: seq<string>, clearable: set<string>) {
    match r
    case UpdateEvent(_, _, u) => u.clear == Some(names) && clearable == {"location", "description", "rrule"}
    case UpdateTask(_, _, u) => u.clear == Some(names) && clearable == {"due", "status", "description", "priority"}
    case _ => false
  }

  /** An update whose clear list names an unknown field ends at its edit, and says which one came first. */
  lemma UpdateRefusedAtEdit(s: State, id: nat, copy: Item, names: seq<string>, clearable: set<string>, k: nat,
                            lib: Library)
    requires id in s.calls && s.calls[id].phase == Fetched(copy) && Fits(s.calls[id].req, copy)
    requires Clears(s.calls[id].req, names, clearable)
    requires k < |names| && names[k] !in clearable && forall i | 0 <= i < k :: names[i] in clearable
    ensures Allowed(s, Edit(id))
    ensures Next(s, Edit(id), lib) ==
            s.(calls := s.calls[id := Call(s.calls[id].req, Refused(UnknownField(names[k])))])
  {
    KnownPrefixUnique(names, clearable, k);
  }

  lemma ReservedSame(s: State, id: nat, r: Request, p: Phase, uid: string)
    requires IsUpdate(r) && (id in s.calls ==> s.calls[id].req == r)
    ensures Reserved(s.(calls := s.calls[id := Call(r, p)]), uid) ==> Reserved(s, uid)
  {
  }

  lemma EditThenForeign(s: State, id: nat, r: Request, copy: Item, l: Label, lib: Library)
    requires id in s.calls && s.calls[id] == Call(r, Fetched(copy)) && Fits(r, copy) && EditedCopy(r, copy).Ok?
    requires var edited := s.(calls := s.calls[id := Call(r, Edited(EditedCopy(r, copy).value))]);
             Allowed(edited, l) && (l.ForeignWrite? || l.ForeignRemove?)
    ensures IsRun(s, [Edit(id), l], lib)
    ensures var edited := s.(calls := s.calls[id := Call(r, Edited(EditedCopy(r, copy).value))]);
            Final(s, [Edit(id), l], lib) == Next(edited, l, lib)
  {
    RunTwo(s, Edit(id), l, lib);
  }

  lemma LateIsRefused(s: State, id: nat, r: Request, copy: Item, seen: string, l: Label, tag: string, lib: Library)
    requires id in s.calls && s.calls[id] == Call(r, Edited(copy)) && IsUpdate(r) && tag !in s.versions
    requires CopyHref(copy) == Some(Target(r)) && CopyEtag(copy) == Some(seen)
    requires Allowed(s, l) && Overtakes(s, l, Target(r)) && (l.ForeignWrite? ==> l.fresh_ != tag && l.fresh_ != seen)
    ensures IsRun(Next(s, l, lib), [Put(id, tag)], lib)
    ensures Final(Next(s, l, lib), [Put(id, tag)], lib) == WithPhase(Next(s, l, lib), id, Refused(PreconditionFailed))
  {
    hide Reserved;
    hide Target;
    hide CopyDoc;
    RunOne(Next(s, l, lib), Put(id, tag), lib);
  }

  lemma OvertakenAfterGet(s: State, id: nat, r: Request, copy: Item, seen: string, l: Label, tag: string, lib: Library)
    requires id in s.calls && s.calls[id] == Call(r, Fetched(copy)) && tag !in s.versions
    requires Fits(r, copy) && EditedCopy(r, copy).Ok?
    requires CopyHref(copy) == Some(Target(r)) && CopyEtag(copy) == Some(seen)
    requires Overtakes(s, l, Target(r)) && (l.ForeignWrite? ==> l.fresh_ != tag && l.fresh_ != seen)
    ensures IsRun(s, [Edit(id), l] + [Put(id, tag)], lib)
    ensures var end := Final(s, [Edit(id), l] + [Put(id, tag)], lib);
            && end.calls == s.calls[id := Call(r, Refused(PreconditionFailed))]
            && end.store == if l.ForeignWrite? then s.store[Target(r) := Stored(l.fresh_, l.body)]
                            else s.store - {Target(r)}
  {
    hide Target;
    hide Reserved;
    hide EditedCopy;
    var edited := EditedCopy(r, copy).value;
    var s' := s.(calls := s.calls[id := Call(r, Edited(edited))]);
    if l.ForeignWrite? {
      ReservedSame(s, id, r, Edited(edited), UidOf(l.href));
    }
    EditThenForeign(s, id, r, copy, l, lib);
    EditKeepsPlace(r, copy);
    LateIsRefused(s', id, r, edited, seen, l, tag, lib);
    RunSplit(s, [Edit(id), l], [Put(id, tag)], lib);
  }

  /**
   An update whose object another client writes or removes between its GET and its PUT is refused, and what the
   other client did stays.
   */
  lemma OvertakenUpdateIsRefused(s: State, id: nat, r: Request, l: Label, tag: string, lib: Library)
    requires StoreOk(s) && IsUpdate(r) && id !in s.calls && tag !in s.versions
    requires Target(r) in s.store && Read(r, s.store[Target(r)], lib).Some?
    requires EditedCopy(r, Read(r, s.store[Target(r)], lib).value).Ok?
    requires Overtakes(s, l, Target(r)) && (l.ForeignWrite? ==> l.fresh_ != tag)
    ensures IsRun(s, Overtaken(id, r, l, tag), lib)
    ensures var end := Final(s, Overtaken(id, r, l, tag), lib);
            && end.calls == s.calls[id := Call(r, Refused(PreconditionFailed))]
            && end.store == if l.ForeignWrite? then s.store[Target(r) := Stored(l.fresh_, l.body)]
                            else s.store - {Target(r)}
  {
    hide ParseEvent;
    hide ParseTodo;
    hide Target;
    hide Reserved;
    hide EditedCopy;
    hide IsRun;
    hide Final;
    var copy := Read(r, s.store[Target(r)], lib).value;
    var s' := s.(calls := s.calls[id := Call(r, Fetched(copy))]);
    ReadingFetches(s, id, r, lib);
    if l.ForeignWrite? {
      ReservedSame(s, id, r, Fetched(copy), UidOf(l.href));
    }
    OvertakenAfterGet(s', id, r, copy, s.store[Target(r)].etag, l, tag, lib);
    RunSplit(s, [Spawn(id, r), Get(id, true)], [Edit(id), l] + [Put(id, tag)], lib);
  }

  /** Another client writes, or removes, the object at `h`. */
  predicate Overtakes(s: State, l: Label, h: string) {
    || (l.ForeignWrite? && l.href == h && l.fresh_ !in s.versions && !Reserved(s, UidOf(h)))
    || (l.ForeignRemove? && l.href == h && h in s.store)
  }

  function Overtaken(id: nat, r: Request, l: Label, tag: string): seq<Label> {
    [Spawn(id, r), Get(id, true)] + ([Edit(id), l] + [Put(id, tag)])
  }

  // ----- from GET to PUT ------------------------------------------------------------

  /** The call still carries the href and tag of its GET, or it has been refused. */
  predicate Carries(s: State, id: nat, h: string, tag: string) {
    && id in s.calls && IsUpdate(s.calls[id].req)
    && var p := s.calls[id].phase;
       p.Refused? || (InFlight(s.calls[id]) && CopyHref(p.copy) == Some(h) && CopyEtag(p.copy) == Some(tag))
  }

  predicate NoPutOf(labels: seq<Label>, id: nat) {
    forall k | 0 <= k < |labels| :: labels[k].Put? ==> labels[k].id != id
  }

  lemma StepCarries(s: State, l: Label, id: nat, h: string, tag: string, lib: Library)
    requires Carries(s, id, h, tag) && Allowed(s, l) && !(l.Put? && l.id == id)
    ensures Carries(Next(s, l, lib), id, h, tag)
  {
    if l.Edit? && l.id == id && EditedCopy(s.calls[id].req, s.calls[id].phase.copy).Ok? {
      EditKeepsPlace(s.calls[id].req, s.calls[id].phase.copy);
    }
  }

  lemma {:induction false} RunCarries(s: State, labels: seq<Label>, id: nat, h: string, tag: string, lib: Library)
    requires Carries(s, id, h, tag) && IsRun(s, labels, lib) && NoPutOf(labels, id)
    ensures Carries(Final(s, labels, lib), id, h, tag)
    decreases |labels|
  {
    if labels != [] {
      StepCarries(s, labels[0], id, h, tag, lib);
      RunCarries(Next(s, labels[0], lib), labels[1..], id, h, tag, lib);
    }
  }

  lemma GetCarries(s: State, id: nat, lib: Library)
    requires Allowed(s, Get(id, true)) && Target(s.calls[id].req) in s.store
    ensures var h := Target(s.calls[id].req); Carries(Next(s, Get(id, true), lib), id, h, s.store[h].etag)
  {
    hide Parsed;
    hide Target;
  }

  /** The call is done and its copy stored at `h`, or it is refused and nothing is stored. */
  predicate PutEnded(before: State, after: State, id: nat, h: string, tag: string, done: bool) {
    && id in before.calls && id in after.calls
    && if !done then after.calls[id].phase == Refused(PreconditionFailed) && after.store == before.store
       else
         && before.calls[id].phase.Edited? && after.calls[id].phase == Done
         && after.store == before.store[h := Stored(tag, CopyDoc(before.calls[id].phase.copy))]
  }

  /**
   From an update's GET to its PUT, whatever happens in between: the PUT ends the call as done, with its edit
   stored, if nobody touched the object meanwhile; otherwise it is refused and the store is left as it is.
   */
  lemma PutDoneIffUntouched(s: State, got: State, labels: seq<Label>, before: State, id: nat, e: string, lib: Library)
    requires StoreOk(s) && Allowed(s, Get(id, true)) && Target(s.calls[id].req) in s.store
    requires got == Next(s, Get(id, true), lib) && IsRun(got, labels, lib) && NoPutOf(labels, id)
    requires before == Final(got, labels, lib) && Allowed(before, Put(id, e))
    ensures var h := Target(s.calls[id].req);
            PutEnded(before, Next(before, Put(id, e), lib), id, h, e, !Touched(before.log, |s.log|, h))
  {
    hide CopyDoc;
    hide Target;
    hide AfterGet;
    hide IsRun;
    hide Final;
    var h := Target(s.calls[id].req);
    GetCarries(s, id, lib);
    GetKeeps(s, id, lib);
    RunCarries(got, labels, id, h, s.store[h].etag, lib);
    AcceptedIffUntouched(got, labels, h, lib);
  }

  lemma GetKeeps(s: State, id: nat, lib: Library)
    requires Allowed(s, Get(id, true))
    ensures var got := Next(s, Get(id, true), lib);
            got.store == s.store && got.log == s.log && got.versions == s.versions && (StoreOk(s) ==> StoreOk(got))
  {
  }
}
