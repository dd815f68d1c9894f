/**
 Recurrence expansion against a time window. The generator's occurrences are an arbitrary sequence; what is
 proved is what the filter and the sort make of it, and how windows compose.
 */
module Expand {
  import opened Wrappers
  import opened Model
  import opened Civil
  import opened ContentLines
  import Ical

  /** One generated occurrence: the component it belongs to and its start in seconds since the epoch. */
  datatype Occurrence = Occurrence(compId: nat, startTs: int)

  /** The seconds the date-time library can represent: the years -262143 to 262142. */
  const MIN_TS: int := -8334601228800
  const MAX_TS: int := 8210266876799

  predicate Representable(ts: int) {
    MIN_TS <= ts <= MAX_TS
  }

  /** The occurrence `[t, t + duration)` meets the window `[start, end)`. */
  predicate Overlaps(t: Instant, duration: int, start: Instant, end: Instant) {
    t < end && t + duration > start
  }

  function Duration(base: Event): int {
    base.end - base.start
  }

  /** The occurrence at `t`: everything of the base event but its times and its place on the server. */
  function Instance(base: Event, t: Instant): Event {
    Event(base.uid, None, None, base.summary, t, t + Duration(base), base.location, base.description, base.rrule, true)
  }

  predicate Keeps(occ: Occurrence, compId: nat, base: Event, start: Instant, end: Instant) {
    occ.compId == compId && Overlaps(occ.startTs * NANOS, Duration(base), start, end)
  }

  /** The instances a window keeps, in the generator's order. */
  function Kept(occs: seq<Occurrence>, compId: nat, base: Event, start: Instant, end: Instant): seq<Event> {
    if occs == [] then []
    else
      (if Keeps(occs[0], compId, base, start, end) then [Instance(base, occs[0].startTs * NANOS)] else [])
      + Kept(occs[1..], compId, base, start, end)
  }

  /** The generator produced a start for this component that no date-time can hold. */
  predicate Overflows(occs: seq<Occurrence>, compId: nat) {
    exists i :: 0 <= i < |occs| && occs[i].compId == compId && !Representable(occs[i].startTs)
  }

  // ----- stable sort ----------------------------------------------------------------

  function InsertByStart(e: Event, s: seq<Event>): seq<Event> {
    if s == [] || e.start <= s[0].start then [e] + s else [s[0]] + InsertByStart(e, s[1..])
  }

  /** `sort_by_key(|e| e.start)` */
  function SortByStart(s: seq<Event>): seq<Event> {
    if s == [] then [] else InsertByStart(s[0], SortByStart(s[1..]))
  }

  predicate Ordered(s: seq<Event>) {
    forall i, j | 0 <= i < j < |s| :: s[i].start <= s[j].start
  }

  /** The events that start at `t`, in order. */
  function AtStart(s: seq<Event>, t: Instant): seq<Event> {
    if s == [] then [] else (if s[0].start == t then [s[0]] else []) + AtStart(s[1..], t)
  }

  /** `out` is `s` sorted by start, events that start together keeping their order. */
  ghost predicate IsStableSort(out: seq<Event>, s: seq<Event>) {
    Ordered(out) && forall t :: AtStart(out, t) == AtStart(s, t)
  }

  lemma AtStartStep(s: seq<Event>, t: Instant)
    requires s != []
    ensures s[0].start == t ==> AtStart(s, t) == [s[0]] + AtStart(s[1..], t) && AtStart(s, t)[1..] == AtStart(s[1..], t)
    ensures s[0].start != t ==> AtStart(s, t) == AtStart(s[1..], t)
  {
  }

  lemma AtStartCons(e: Event, s: seq<Event>, t: Instant)
    ensures AtStart([e] + s, t) == if e.start == t then [e] + AtStart(s, t) else AtStart(s, t)
  {
    assert ([e] + s)[1..] == s;
  }

  lemma ConsConcat(e: Event, a: seq<Event>, b: seq<Event>)
    ensures ([e] + a) + b == [e] + (a + b)
  {
  }

  lemma {:induction false} AtStartConcat(a: seq<Event>, b: seq<Event>, t: Instant)
    ensures AtStart(a + b, t) == AtStart(a, t) + AtStart(b, t)
    decreases |a|
  {
    if |a| == 0 {
      assert a + b == b;
    } else {
      var first, rest := a[0], a[1..];
      AtStartConcat(rest, b, t);
      AtStartConcatStep(first, rest, b, t);
      assert a == [first] + rest;
    }
  }

  lemma AtStartConcatStep(e: Event, a: seq<Event>, b: seq<Event>, t: Instant)
    requires AtStart(a + b, t) == AtStart(a, t) + AtStart(b, t)
    ensures AtStart(([e] + a) + b, t) == AtStart([e] + a, t) + AtStart(b, t)
  {
    ConsConcat(e, a, b);
    AtStartCons(e, a + b, t);
    AtStartCons(e, a, t);
    ConsConcat(e, AtStart(a, t), AtStart(b, t));
  }

  lemma {:induction false} InsertMembers(e: Event, s: seq<Event>, bound: Instant)
    requires bound <= e.start && forall i | 0 <= i < |s| :: bound <= s[i].start
    ensures forall i | 0 <= i < |InsertByStart(e, s)| :: bound <= InsertByStart(e, s)[i].start
  {
    if s != [] && e.start > s[0].start {
      InsertMembers(e, s[1..], bound);
    }
  }

  lemma {:induction false} InsertOrdered(e: Event, s: seq<Event>)
    requires Ordered(s)
    ensures Ordered(InsertByStart(e, s))
  {
    if s != [] && e.start > s[0].start {
      InsertOrdered(e, s[1..]);
      InsertMembers(e, s[1..], s[0].start);
    }
  }

  lemma {:induction false} InsertAtStart(e: Event, s: seq<Event>, t: Instant)
    requires Ordered(s)
    ensures AtStart(InsertByStart(e, s), t) == AtStart([e] + s, t)
  {
    if s != [] && e.start > s[0].start {
      InsertAtStart(e, s[1..], t);
      AtStartCons(s[0], InsertByStart(e, s[1..]), t);
      AtStartCons(e, s[1..], t);
      AtStartCons(e, s, t);
      AtStartStep(s, t);
    }
  }

  lemma {:induction false} SortIsStable(s: seq<Event>)
    ensures IsStableSort(SortByStart(s), s)
  {
    if s != [] {
      var rest := SortByStart(s[1..]);
      SortIsStable(s[1..]);
      InsertOrdered(s[0], rest);
      forall t ensures AtStart(SortByStart(s), t) == AtStart(s, t) {
        InsertAtStart(s[0], rest, t);
        assert ([s[0]] + rest)[1..] == rest;
      }
    }
  }

  lemma {:induction false} AtStartHead(s: seq<Event>, t: Instant)
    requires AtStart(s, t) != []
    ensures exists i :: 0 <= i < |s| && s[i].start == t
  {
    if s[0].start != t {
      AtStartHead(s[1..], t);
      var i :| 0 <= i < |s[1..]| && s[1..][i].start == t;
      assert s[i + 1].start == t;
    }
  }

  lemma LowestStart(s: seq<Event>, t: Instant)
    requires Ordered(s) && AtStart(s, t) != []
    ensures s != [] && s[0].start <= t
  {
    AtStartHead(s, t);
  }

  lemma FirstAtStart(s: seq<Event>)
    requires s != []
    ensures AtStart(s, s[0].start) != [] && AtStart(s, s[0].start)[0] == s[0]
  {
    AtStartStep(s, s[0].start);
  }

  lemma TailAtStart(a: seq<Event>, b: seq<Event>, t: Instant)
    requires a != [] && b != [] && a[0] == b[0] && AtStart(a, t) == AtStart(b, t)
    ensures AtStart(a[1..], t) == AtStart(b[1..], t)
  {
    AtStartStep(a, t);
    AtStartStep(b, t);
  }

  /** A stable sort leaves no choice: two sequences that sort the same thing are equal. */
  lemma {:induction false} StableSortUnique(a: seq<Event>, b: seq<Event>)
    requires Ordered(a) && Ordered(b) && forall t :: AtStart(a, t) == AtStart(b, t)
    ensures a == b
  {
    if b != [] {
      FirstAtStart(b);
      LowestStart(a, b[0].start);
    }
    if a != [] {
      FirstAtStart(a);
      LowestStart(b, a[0].start);
      forall t ensures AtStart(a[1..], t) == AtStart(b[1..], t) {
        TailAtStart(a, b, t);
      }
      StableSortUnique(a[1..], b[1..]);
      assert a == [a[0]] + a[1..] && b == [b[0]] + b[1..];
    }
  }

  // ----- the expansion --------------------------------------------------------------

  /** Position of the first component of a kind among all components of the document. */
  function ComponentId(lines: seq<string>, kind: string, before: nat): Option<nat> {
    if lines == [] then None
    else if lines[0] == "BEGIN:" + kind then Some(before)
    else ComponentId(lines[1..], kind, if "BEGIN:" <= lines[0] then before + 1 else before)
  }

  function EventId(doc: string): Option<nat> {
    var lines := ReadLines(doc);
    if lines.None? then None else ComponentId(lines.value, "VEVENT", 0)
  }

  /** How many components begin in these lines. */
  function BeginCount(lines: seq<string>): nat {
    |set k | 0 <= k < |lines| && "BEGIN:" <= lines[k]|
  }

  /** Line `k` begins the first component of its kind. */
  predicate BeginsFirst(lines: seq<string>, kind: string, k: nat) {
    k < |lines| && lines[k] == "BEGIN:" + kind && forall i | 0 <= i < k :: lines[i] != "BEGIN:" + kind
  }

  /** The event of the document is component number `id`: so many components begin before it. */
  ghost predicate IsEventNumber(doc: string, id: nat) {
    var lines := ReadLines(doc);
    lines.Some? && exists k: nat :: BeginsFirst(lines.value, "VEVENT", k) && id == BeginCount(lines.value[..k])
  }

  lemma BeginCountSnoc(lines: seq<string>, line: string)
    ensures BeginCount(lines + [line]) == BeginCount(lines) + if "BEGIN:" <= line then 1 else 0
  {
    var all := lines + [line];
    var a := set k | 0 <= k < |all| && "BEGIN:" <= all[k];
    var b := set k | 0 <= k < |lines| && "BEGIN:" <= lines[k];
    assert a == if "BEGIN:" <= line then b + {|lines|} else b;
  }

  /** The scan and the reader both stop at the first component of the kind. */
  lemma {:induction false} ScanStops(lines: seq<string>, kind: string, k: nat, i: nat)
    requires BeginsFirst(lines, kind, k) && i <= k
    ensures ComponentId(lines[i..], kind, BeginCount(lines[..i])) == Some(BeginCount(lines[..k]))
    ensures Ical.FindComponent(lines[i..], kind) == Some(Ical.ComponentLines(lines[k + 1..], 0))
    decreases k - i
  {
    assert lines[i..][0] == lines[i] && lines[i..][1..] == lines[i + 1..];
    if i < k {
      BeginCountSnoc(lines[..i], lines[i]);
      assert lines[..i] + [lines[i]] == lines[..i + 1];
      ScanStops(lines, kind, k, i + 1);
    }
  }

  lemma ComponentAt(lines: seq<string>, kind: string, k: nat)
    requires BeginsFirst(lines, kind, k)
    ensures ComponentId(lines, kind, 0) == Some(BeginCount(lines[..k]))
    ensures Ical.FindComponent(lines, kind) == Some(Ical.ComponentLines(lines[k + 1..], 0))
  {
    ScanStops(lines, kind, k, 0);
    assert lines[0..] == lines && lines[..0] == [];
  }

  lemma {:induction false} FoundBegins(lines: seq<string>, kind: string) returns (k: nat)
    requires Ical.FindComponent(lines, kind).Some?
    ensures BeginsFirst(lines, kind, k)
  {
    if lines[0] == "BEGIN:" + kind {
      k := 0;
    } else {
      var i := FoundBegins(lines[1..], kind);
      k := i + 1;
    }
  }

  /** The number the scan returns is the number of the event's component, and there is one. */
  lemma EventIdIsComponent(doc: string, lib: Ical.Library)
    requires Ical.ParseEvent(doc, lib).Ok?
    ensures EventId(doc).Some? && forall id :: IsEventNumber(doc, id) <==> id == EventId(doc).value
  {
    hide BeginsFirst;
    hide BeginCount;
    hide ComponentId;
    hide Ical.FindComponent;
    hide ReadLines;
    hide Ical.EventFromComponent;
    hide Ical.ReadEntries;
    var lines := ReadLines(doc).value;
    var k := FoundBegins(lines, "VEVENT");
    ComponentAt(lines, "VEVENT", k);
    FirstUnique(lines, "VEVENT", k);
    assert IsEventNumber(doc, EventId(doc).value);
  }

  lemma FirstUnique(lines: seq<string>, kind: string, k: nat)
    requires BeginsFirst(lines, kind, k)
    ensures forall j: nat | BeginsFirst(lines, kind, j) :: j == k
  {
    forall j: nat | BeginsFirst(lines, kind, j) ensures j == k {
      assert !(j < k) && !(k < j);
    }
  }

  /** The instances of an event in the window, in order of start. */
  function Expansion(occs: seq<Occurrence>, compId: nat, base: Event, start: Instant, end: Instant): seq<Event> {
    SortByStart(Kept(occs, compId, base, start, end))
  }

  lemma {:induction false} KeptSnoc(occs: seq<Occurrence>, occ: Occurrence, compId: nat, base: Event, start: Instant,
                                    end: Instant)
    ensures Kept(occs + [occ], compId, base, start, end) ==
            Kept(occs, compId, base, start, end) + Kept([occ], compId, base, start, end)
  {
    if occs == [] {
      assert [] + [occ] == [occ];
    } else {
      assert (occs + [occ])[0] == occs[0] && (occs + [occ])[1..] == occs[1..] + [occ];
      KeptSnoc(occs[1..], occ, compId, base, start, end);
    }
  }

  lemma KeptOne(occ: Occurrence, compId: nat, base: Event, start: Instant, end: Instant)
    ensures Kept([occ], compId, base, start, end) ==
            if Keeps(occ, compId, base, start, end) then [Instance(base, occ.startTs * NANOS)] else []
  {
    assert [occ][1..] == [];
  }

  lemma KeptNext(occs: seq<Occurrence>, i: nat, compId: nat, base: Event, start: Instant, end: Instant)
    requires i < |occs|
    ensures Kept(occs[..i + 1], compId, base, start, end) ==
            Kept(occs[..i], compId, base, start, end)
            + if Keeps(occs[i], compId, base, start, end) then [Instance(base, occs[i].startTs * NANOS)] else []
  {
    assert occs[..i + 1] == occs[..i] + [occs[i]];
    KeptSnoc(occs[..i], occs[i], compId, base, start, end);
    KeptOne(occs[i], compId, base, start, end);
  }

  /**
   What the expansion of `doc` over `[start, end)` must be. A recurring event yields exactly the occurrences of
   its own component that overlap the window, stably sorted; a start outside the calendar's range fails it all.
   */
  ghost predicate IsExpansion(doc: string, occs: seq<Occurrence>, start: Instant, end: Instant, lib: Ical.Library,
                              r: Result<seq<Event>, string>) {
    match Ical.ParseEvent(doc, lib)
    case Err(error) => r == Err(error)
    case Ok(base) =>
      if base.rrule.None? then r == Ok(if base.start < end && base.end > start then [base] else [])
      else
        exists id ::
          && IsEventNumber(doc, id)
          && (r.Err? <==> Overflows(occs, id))
          && (r.Ok? ==> IsStableSort(r.value, Kept(occs, id, base, start, end)))
  }

  method ExpandEvent(doc: string, occs: seq<Occurrence>, start: Instant, end: Instant, lib: Ical.Library)
    returns (r: Result<seq<Event>, string>)
    ensures IsExpansion(doc, occs, start, end, lib, r)
  {
    var parsed := Ical.ParseEvent(doc, lib);
    if parsed.Err? {
      return Err(parsed.error);
    }
    var base := parsed.value;
    if base.rrule.None? {
      return Ok(if base.start < end && base.end > start then [base] else []);
    }
    EventIdIsComponent(doc, lib);
    assert IsEventNumber(doc, EventId(doc).value);
    var instances := CollectInstances(base, EventId(doc).value, occs, start, end);
    if instances.Err? {
      return instances;
    }
    SortIsStable(instances.value);
    r := Ok(SortByStart(instances.value));
  }

  /** The loop of `expand_event`: filter by component and window, in the generator's order. */
  method CollectInstances(base: Event, compId: nat, occs: seq<Occurrence>, start: Instant, end: Instant)
    returns (r: Result<seq<Event>, string>)
    ensures r.Err? <==> Overflows(occs, compId)
    ensures r.Ok? ==> r.value == Kept(occs, compId, base, start, end)
  {
    var duration := base.end - base.start;
    var out := [];
    for i := 0 to |occs|
      invariant out == Kept(occs[..i], compId, base, start, end)
      invariant forall j | 0 <= j < i :: occs[j].compId == compId ==> Representable(occs[j].startTs)
    {
      var occ := occs[i];
      KeptNext(occs, i, compId, base, start, end);
      if occ.compId != compId {
        continue;
      }
      if !Representable(occ.startTs) {
        return Err("expanded occurrence had an invalid timestamp");
      }
      var occStart := occ.startTs * NANOS;
      if occStart < end && occStart + duration > start {
        out := out + [Event(base.uid, None, None, base.summary, occStart, occStart + duration,
                            base.location, base.description, base.rrule, true)];
      }
    }
    assert occs[..|occs|] == occs;
    r := Ok(out);
  }

  // ----- what is in an expansion ----------------------------------------------------

  /** The seconds that can be represented are those of the years -262143 to 262142. */
  lemma RepresentableYears(ts: int)
    ensures Representable(ts) <==> -262143 <= FieldsOf(ts * 1_000_000_000).year <= 262142
  {
    hide FieldsOf;
    hide ValidFields;
    hide YearStart;
    hide MonthStart;
    var c := FieldsOf(ts * 1_000_000_000);
    InstantInvertsFields(ts * 1_000_000_000);
    YearBounds(c);
    if c.year < -262143 {
      YearStartMonotone(c.year + 1, -262143);
    } else if c.year > 262142 {
      YearStartMonotone(262143, c.year);
    } else {
      YearStartMonotone(-262143, c.year);
      YearStartMonotone(c.year + 1, 262143);
    }
    RangeStarts();
  }

  lemma YearBounds(c: Fields)
    requires ValidFields(c)
    ensures (YearStart(c.year) - EPOCH_DAY) * DAY <= SecondsOf(c) < (YearStart(c.year + 1) - EPOCH_DAY) * DAY
  {
    YearStep(c.year);
  }

  lemma RangeStarts()
    ensures (YearStart(-262143) - EPOCH_DAY) * DAY == MIN_TS && (YearStart(262143) - EPOCH_DAY) * DAY == MAX_TS + 1
  {
  }

  lemma {:induction false} KeptMembers(occs: seq<Occurrence>, compId: nat, base: Event, start: Instant, end: Instant,
                                       e: Event)
    ensures e in Kept(occs, compId, base, start, end) <==>
            exists i :: 0 <= i < |occs| && Keeps(occs[i], compId, base, start, end) &&
              e == Instance(base, occs[i].startTs * NANOS)
  {
    if occs != [] {
      KeptMembers(occs[1..], compId, base, start, end, e);
      if e in Kept(occs[1..], compId, base, start, end) {
        var i :| 0 <= i < |occs[1..]| && Keeps(occs[1..][i], compId, base, start, end) &&
          e == Instance(base, occs[1..][i].startTs * NANOS);
        assert Keeps(occs[i + 1], compId, base, start, end) && e == Instance(base, occs[i + 1].startTs * NANOS);
      }
      if i :|
        && 0 <= i < |occs|
        && Keeps(occs[i], compId, base, start, end) && e == Instance(base, occs[i].startTs * NANOS)
      {
        if i > 0 {
          assert Keeps(occs[1..][i - 1], compId, base, start, end);
        }
      }
    }
  }

  lemma {:induction false} AtStartMember(s: seq<Event>, e: Event)
    ensures e in s <==> e in AtStart(s, e.start)
  {
    if s != [] {
      AtStartMember(s[1..], e);
      AtStartStep(s, e.start);
      assert s == [s[0]] + s[1..];
    }
  }

  /** A stable sort neither drops nor adds. */
  lemma StableSortMembers(out: seq<Event>, s: seq<Event>, e: Event)
    requires IsStableSort(out, s)
    ensures e in out <==> e in s
  {
    AtStartMember(out, e);
    AtStartMember(s, e);
  }

  // ----- splitting a window ---------------------------------------------------------

  /** Where one occurrence of positive length goes when `[a, c)` is cut at `b`. */
  lemma SplitOccurrence(t: Instant, duration: int, a: Instant, b: Instant, c: Instant)
    requires a < b < c
    ensures (Overlaps(t, duration, a, c) && !Overlaps(t, duration, a, b) && !Overlaps(t, duration, b, c)) <==>
            (a < t + duration <= b <= t < c)
    ensures duration > 0 ==>
              (Overlaps(t, duration, a, c) <==> Overlaps(t, duration, a, b) || Overlaps(t, duration, b, c))
    ensures duration > 0 ==>
              (Overlaps(t, duration, a, b) && Overlaps(t, duration, b, c) <==> t < b < t + duration)
  {
  }

  /** The events that start at `b` or later. */
  function From(s: seq<Event>, b: Instant): seq<Event> {
    if s == [] then [] else (if s[0].start >= b then [s[0]] else []) + From(s[1..], b)
  }

  lemma {:induction false} FromAtStart(s: seq<Event>, b: Instant, t: Instant)
    ensures AtStart(From(s, b), t) == if t >= b then AtStart(s, t) else []
  {
    if s != [] {
      FromAtStart(s[1..], b, t);
      AtStartStep(s, t);
      AtStartCons(s[0], From(s[1..], b), t);
      assert From(s, b) == if s[0].start >= b then [s[0]] + From(s[1..], b) else From(s[1..], b);
    }
  }

  lemma {:induction false} FromOrdered(s: seq<Event>, b: Instant)
    requires Ordered(s)
    ensures Ordered(From(s, b))
    ensures forall i | 0 <= i < |From(s, b)| :: From(s, b)[i].start >= b && s[0].start <= From(s, b)[i].start
  {
    if s != [] {
      FromOrdered(s[1..], b);
    }
  }

  /** The law of window splitting, for one list of occurrences. */
  ghost predicate SplitLaw(occs: seq<Occurrence>, compId: nat, base: Event, a: Instant, b: Instant, c: Instant) {
    Expansion(occs, compId, base, a, c) ==
    Expansion(occs, compId, base, a, b) + From(Expansion(occs, compId, base, b, c), b)
  }

  lemma {:induction false} KeptAtStart(occs: seq<Occurrence>, compId: nat, base: Event, a: Instant, b: Instant,
                                       c: Instant, t: Instant)
    requires a < b < c && Duration(base) > 0
    ensures AtStart(Kept(occs, compId, base, a, c), t) ==
            if t < b then AtStart(Kept(occs, compId, base, a, b), t) else AtStart(Kept(occs, compId, base, b, c), t)
    ensures t >= b ==> AtStart(Kept(occs, compId, base, a, b), t) == []
  {
    if occs != [] {
      KeptAtStart(occs[1..], compId, base, a, b, c, t);
      AtStartKept(occs, compId, base, a, c, t);
      AtStartKept(occs, compId, base, a, b, t);
      AtStartKept(occs, compId, base, b, c, t);
    }
  }

  lemma AtStartKept(occs: seq<Occurrence>, compId: nat, base: Event, start: Instant, end: Instant, t: Instant)
    requires occs != []
    ensures AtStart(Kept(occs, compId, base, start, end), t) ==
            (if Keeps(occs[0], compId, base, start, end) && occs[0].startTs * NANOS == t
              then [Instance(base, t)] else [])
            + AtStart(Kept(occs[1..], compId, base, start, end), t)
  {
    var rest := Kept(occs[1..], compId, base, start, end);
    AtStartCons(Instance(base, occs[0].startTs * NANOS), rest, t);
    assert Kept(occs, compId, base, start, end) ==
           if Keeps(occs[0], compId, base, start, end) then [Instance(base, occs[0].startTs * NANOS)] + rest else rest;
  }

  lemma {:induction false} KeptBounds(occs: seq<Occurrence>, compId: nat, base: Event, start: Instant, end: Instant)
    ensures forall i | 0 <= i < |Kept(occs, compId, base, start, end)| ::
              Kept(occs, compId, base, start, end)[i].start < end
  {
    if occs != [] {
      KeptBounds(occs[1..], compId, base, start, end);
    }
  }

  lemma {:induction false} SortBounds(s: seq<Event>, end: Instant)
    requires forall i | 0 <= i < |s| :: s[i].start < end
    ensures forall i | 0 <= i < |SortByStart(s)| :: SortByStart(s)[i].start < end
  {
    SortIsStable(s);
    var out := SortByStart(s);
    forall i | 0 <= i < |out| ensures out[i].start < end {
      AtStartHas(out, i);
      assert AtStart(s, out[i].start) == AtStart(out, out[i].start);
      AtStartHead(s, out[i].start);
    }
  }

  lemma {:induction false} AtStartHas(s: seq<Event>, i: nat)
    requires i < |s|
    ensures AtStart(s, s[i].start) != []
  {
    if i > 0 {
      AtStartHas(s[1..], i - 1);
    }
  }

  /** Events of positive length: expanding two halves and dropping the straddlers of the second gives the whole. */
  lemma WindowsCompose(occs: seq<Occurrence>, compId: nat, base: Event, a: Instant, b: Instant, c: Instant)
    requires a < b < c && Duration(base) > 0
    ensures SplitLaw(occs, compId, base, a, b, c)
  {
    var whole, left, right := Kept(occs, compId, base, a, c),
        Kept(occs, compId, base, a, b), Kept(occs, compId, base, b, c);
    SortIsStable(whole);
    SortIsStable(left);
    SortIsStable(right);
    KeptBounds(occs, compId, base, a, b);
    SortBounds(left, b);
    var first, second := SortByStart(left), From(SortByStart(right), b);
    FromOrdered(SortByStart(right), b);
    forall t ensures AtStart(SortByStart(whole), t) == AtStart(first + second, t) {
      AtStartConcat(first, second, t);
      KeptAtStart(occs, compId, base, a, b, c, t);
      FromAtStart(SortByStart(right), b, t);
    }
    StableSortUnique(SortByStart(whole), first + second);
  }

  /** The law holds for all windows and all occurrence lists exactly for events of positive length. */
  lemma WindowsComposeIff(compId: nat, base: Event)
    ensures (forall occs, a, b, c | a < b < c :: SplitLaw(occs, compId, base, a, b, c)) <==> Duration(base) > 0
  {
    if Duration(base) > 0 {
      forall occs, a, b, c | a < b < c ensures SplitLaw(occs, compId, base, a, b, c) {
        WindowsCompose(occs, compId, base, a, b, c);
      }
    } else {
      // An occurrence that starts at the cut and has no length lies in neither half.
      var d := Duration(base);
      var occ := Occurrence(compId, 0);
      KeptOne(occ, compId, base, d - 1, 1);
      KeptOne(occ, compId, base, d - 1, 0);
      KeptOne(occ, compId, base, 0, 1);
      var e := Instance(base, 0);
      assert [e][1..] == [] && SortByStart([e]) == InsertByStart(e, []) == [e] + [];
      assert !SplitLaw([occ], compId, base, d - 1, 0, 1);
    }
  }

  /** The duration a component states is positive: some part is not zero and the sign is not minus. */
  predicate StatesPositiveDuration(comp: Ical.Component) {
    match Ical.FirstValue(comp, Ical.Property.Duration)
    case Some(DurationValue(x)) =>
      !x.neg && (x.weeks > 0 || x.days > 0 || x.hours > 0 || x.minutes > 0 || x.seconds > 0)
    case _ => false
  }

  predicate StatesDuration(comp: Ical.Component) {
    var v := Ical.FirstValue(comp, Ical.Property.Duration);
    v.Some? && v.value.DurationValue?
  }

  lemma DurationSign(comp: Ical.Component)
    ensures Ical.DurationProp(comp).Some? <==> StatesDuration(comp)
    ensures StatesDuration(comp) ==> (Ical.DurationProp(comp).value > 0 <==> StatesPositiveDuration(comp))
  {
  }

  /**
   Which documents obey the law, read off the component: those whose DTEND is after DTSTART, or without DTEND
   whose DURATION is positive, or with neither whose DTSTART is a date.
   */
  lemma WindowsComposeForComponent(comp: Ical.Component, lib: Ical.Library, compId: nat)
    requires Ical.EventFromComponent(comp, lib).Ok?
    ensures var base := Ical.EventFromComponent(comp, lib).value;
            var dtend := Ical.DateTimeProp(comp, Ical.Property.Dtend, lib);
            (forall occs, a, b, c | a < b < c :: SplitLaw(occs, compId, base, a, b, c)) <==>
            if dtend.Some? then dtend.value > base.start
            else if StatesDuration(comp) then StatesPositiveDuration(comp)
            else Ical.IsAllDayStart(comp)
  {
    WindowsComposeIff(compId, Ical.EventFromComponent(comp, lib).value);
    DurationSign(comp);
  }
}
