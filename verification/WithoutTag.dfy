/**
 What the tag is worth. When a GET comes back without one, the PUT that follows is unconditional: whatever
 another update did in between is overwritten. Exactly what of it is lost, field by field.
 */
module WithoutTag {
  import opened Wrappers
  import opened Model
  import opened Ical
  import opened Stable
  import opened Protocol
  import opened ProtocolSafety
  import opened NoLostUpdates
  import opened FieldHistory

  /** A slow update, its GET answered without a tag, and a fast one of the same object that gets in between. */
  datatype Contest = Contest(slow: Request, fast: Request, slowId: nat, fastId: nat, tag1: string, tag2: string) {
    predicate SameObject() {
      IsUpdate(slow) && IsUpdate(fast) && slow.UpdateEvent? == fast.UpdateEvent? && Target(slow) == Target(fast)
    }

    function Href(): string
      requires SameObject()
    {
      Target(slow)
    }

    /** The fast update from start to end, ... */
    function Overtaking(): seq<Label> { Alone(fastId, fast, tag1) }

    /** ... and then the rest of the slow one. */
    function Overtaken(): seq<Label> { [Edit(slowId), Put(slowId, tag2)] }
  }

  /** The slow update has just fetched the object and got no tag. */
  predicate JustFetchedUntagged(s: State, x: Contest, lib: Library) {
    && x.SameObject() && x.Href() in s.store && Parsed(x.slow, s.store[x.Href()].body, lib).Some?
    && x.slowId in s.calls
    && s.calls[x.slowId] ==
       Call(x.slow, Fetched(Placed(Parsed(x.slow, s.store[x.Href()].body, lib).value, x.Href(), None)))
  }

  /** The names of the fast call and of the two writes are new. */
  predicate NewNames(s: State, x: Contest) {
    x.fastId !in s.calls && x.tag1 !in s.versions && x.tag2 !in s.versions && x.tag1 != x.tag2
  }

  lemma ParsedFits(r: Request, body: string, lib: Library)
    requires IsUpdate(r) && Parsed(r, body, lib).Some?
    ensures Fits(r, Parsed(r, body, lib).value)
  {
    hide ParseEvent;
    hide ParseTodo;
  }

  /** Where a copy came from does not matter to the edit, nor to the document. */
  lemma PlacedEdit(r: Request, c: Item, h: string, etag: Option<string>)
    requires Fits(r, c)
    ensures var copy := Placed(c, h, etag);
            && Fits(r, copy) && CopyHref(copy) == Some(h) && CopyEtag(copy) == etag
            && (EditedCopy(r, copy).Ok? <==> EditedCopy(r, c).Ok?)
            && (EditedCopy(r, c).Ok? ==>
                  CopyDoc(EditedCopy(r, copy).value) == CopyDoc(EditedCopy(r, c).value))
  {
    hide CopyDoc;
    EditPlaced(r, c, h, etag);
    if EditedCopy(r, c).Ok? {
      PlacedDoc(EditedCopy(r, c).value, h, etag);
    }
  }

  /** The fast update commits. */
  lemma OvertakingCommits(s: State, x: Contest, lib: Library) returns (mid: State)
    requires JustFetchedUntagged(s, x, lib) && NewNames(s, x) && Updated(x.fast, s.store[x.Href()].body, lib).Some?
    ensures IsRun(s, x.Overtaking(), lib) && mid == Final(s, x.Overtaking(), lib)
    ensures mid.calls == s.calls[x.fastId := Call(x.fast, Done)] && mid.versions.Keys == s.versions.Keys + {x.tag1}
    ensures x.Href() in mid.store
    ensures mid.store[x.Href()].body == Updated(x.fast, s.store[x.Href()].body, lib).value
  {
    hide CopyDoc;
    hide EditedCopy;
    hide ParseEvent;
    hide ParseTodo;
    var stored := s.store[x.Href()];
    var c := Parsed(x.fast, stored.body, lib).value;
    ParsedFits(x.fast, stored.body, lib);
    PlacedEdit(x.fast, c, x.Href(), Some(stored.etag));
    assert Read(x.fast, stored, lib) == Some(Placed(c, x.Href(), Some(stored.etag)));
    UncontestedUpdateCommits(s, x.fastId, x.fast, x.tag1, lib);
    mid := Final(s, x.Overtaking(), lib);
  }

  /** The slow update, accepted whatever is there by now. */
  lemma OvertakenCommits(s: State, mid: State, x: Contest, lib: Library) returns (end: State)
    requires JustFetchedUntagged(s, x, lib) && NewNames(s, x) && Updated(x.slow, s.store[x.Href()].body, lib).Some?
    requires mid.calls == s.calls[x.fastId := Call(x.fast, Done)] && mid.versions.Keys == s.versions.Keys + {x.tag1}
    ensures IsRun(mid, x.Overtaken(), lib) && end == Final(mid, x.Overtaken(), lib)
    ensures end.calls == mid.calls[x.slowId := Call(x.slow, Done)] && x.Href() in end.store
    ensures end.store[x.Href()].body == Updated(x.slow, s.store[x.Href()].body, lib).value
  {
    hide CopyDoc;
    hide EditedCopy;
    hide ParseEvent;
    hide ParseTodo;
    var c := Parsed(x.slow, s.store[x.Href()].body, lib).value;
    ParsedFits(x.slow, s.store[x.Href()].body, lib);
    PlacedEdit(x.slow, c, x.Href(), None);
    WritingCommits(mid, x.slowId, x.slow, Placed(c, x.Href(), None), x.tag2, lib);
    end := Final(mid, x.Overtaken(), lib);
  }

  /**
   In any state in which an update has just fetched its object without a tag: any other update of the object
   can be accepted and read back, and then the first one is accepted too and every field reads as if the other
   one had never been. What the other did to a field is lost exactly where the two would leave it differently.
   */
  lemma OvertakenUpdateIsLost(s: State, x: Contest, f: Field, lib: Library)
    requires Lawful(lib) && JustFetchedUntagged(s, x, lib) && NewNames(s, x)
    requires var body := s.store[x.Href()].body;
             Updated(x.fast, body, lib).Some? && Updated(x.slow, body, lib).Some? && TimesFit(body, f, lib)
    requires Concerns(x.fast, f) && Keepable(x.fast, f) && Keepable(x.slow, f)
    ensures IsRun(s, x.Overtaking(), lib) && IsRun(s, x.Overtaking() + x.Overtaken(), lib)
    ensures var h, mid, end := x.Href(), Final(s, x.Overtaking(), lib), Final(s, x.Overtaking() + x.Overtaken(), lib);
            var old_ := FieldOf(s.store[h].body, f, lib);
            && old_.Some? && h in mid.store && h in end.store
            && end.calls == s.calls[x.fastId := Call(x.fast, Done)][x.slowId := Call(x.slow, Done)]
            && FieldOf(mid.store[h].body, f, lib) == Some(Overlay(EffectRead(x.fast, f, lib), old_.value))
            && FieldOf(end.store[h].body, f, lib) == Some(Overlay(EffectRead(x.slow, f, lib), old_.value))
            && (FieldOf(end.store[h].body, f, lib) != FieldOf(mid.store[h].body, f, lib) <==>
                  Overlay(EffectRead(x.slow, f, lib), old_.value) != Overlay(EffectRead(x.fast, f, lib), old_.value))
  {
    hide Updated;
    hide Parsed;
    hide FieldOf;
    hide EffectRead;
    hide Keepable;
    hide TimesFit;
    var mid := OvertakingCommits(s, x, lib);
    var end := OvertakenCommits(s, mid, x, lib);
    RunSplit(s, x.Overtaking(), x.Overtaken(), lib);
    UpdateSeen(x.fast, s.store[x.Href()].body, f, lib);
    UpdateSeen(x.slow, s.store[x.Href()].body, f, lib);
  }

  /** If the slow update is refused, because it names an unknown field, nothing is lost. */
  lemma RefusedOvertakenLosesNothing(s: State, x: Contest, lib: Library)
    requires JustFetchedUntagged(s, x, lib) && NewNames(s, x) && Updated(x.fast, s.store[x.Href()].body, lib).Some?
    requires Updated(x.slow, s.store[x.Href()].body, lib).None?
    ensures IsRun(s, x.Overtaking(), lib) && IsRun(s, x.Overtaking() + [Edit(x.slowId)], lib)
    ensures var mid, end := Final(s, x.Overtaking(), lib), Final(s, x.Overtaking() + [Edit(x.slowId)], lib);
            && end.store == mid.store && end.log == mid.log
            && x.slowId in end.calls && end.calls[x.slowId].phase.Refused?
            && x.Href() in mid.store && mid.store[x.Href()].body == Updated(x.fast, s.store[x.Href()].body, lib).value
  {
    hide CopyDoc;
    hide EditedCopy;
    hide ParseEvent;
    hide ParseTodo;
    var c := Parsed(x.slow, s.store[x.Href()].body, lib).value;
    ParsedFits(x.slow, s.store[x.Href()].body, lib);
    PlacedEdit(x.slow, c, x.Href(), None);
    var mid := OvertakingCommits(s, x, lib);
    RunOne(mid, Edit(x.slowId), lib);
    RunSplit(s, x.Overtaking(), [Edit(x.slowId)], lib);
  }
}
