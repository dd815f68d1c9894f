/** Expanding the documents the bridge itself writes: its own layout puts the event first in the calendar. */
module WrittenExpansion {
  import opened Wrappers
  import opened Model
  import opened Civil
  import opened Escape
  import opened ContentLines
  import opened Ical
  import opened RoundTrip
  import opened RawRule
  import opened Expand

  lemma HeaderCount()
    ensures BeginCount(["BEGIN:VCALENDAR", "VERSION:2.0", "PRODID:-//mcp-caldav-fastmail//EN"]) == 1
  {
    var h := ["BEGIN:VCALENDAR", "VERSION:2.0", "PRODID:-//mcp-caldav-fastmail//EN"];
    assert h[0] == "BEGIN:" + "VCALENDAR" && h[1][0] == 'V' && h[2][0] == 'P';
    assert (set k | 0 <= k < |h| && "BEGIN:" <= h[k]) == {0};
  }

  lemma HeaderBegins(more: seq<string>)
    ensures BeginsFirst(HeaderLines(VEVENT) + more, "VEVENT", 3)
  {
    var h := HeaderLines(VEVENT);
    assert h[3] == "BEGIN:" + "VEVENT" && |h[0]| == 15 && h[1][0] == 'V' && h[2][0] == 'P';
  }

  /** In every written event, the event is component 1: only the calendar begins before it. */
  lemma WrittenEventIsFirst(ev: Event, id: nat)
    ensures IsEventNumber(EventDoc(ev), id) <==> id == 1
  {
    hide BeginsFirst;
    hide BeginCount;
    hide HeaderLines;
    hide FoldedAll;
    hide ReadLines;
    hide DocumentLines;
    EventHeadFacts(ev);
    EventSplit(ev);
    var more := ReadHead(VEVENT, EventHead(ev), RawContent(Rrule, ev.rrule));
    var rest := LinesOf(EventHead(ev)) + more;
    var lines := HeaderLines(VEVENT) + rest;
    HeaderBegins(rest);
    HeaderCount();
    FirstThree(rest);
    FirstUnique(lines, "VEVENT", 3);
  }

  lemma FirstThree(rest: seq<string>)
    ensures (HeaderLines(VEVENT) + rest)[..3] == ["BEGIN:VCALENDAR", "VERSION:2.0", "PRODID:-//mcp-caldav-fastmail//EN"]
  {
  }

  /** An occurrence of component 1 of a written event that overlaps the window. */
  predicate Shows(occ: Occurrence, ev: Event, start: Instant, end: Instant) {
    var t := occ.startTs * 1_000_000_000;
    occ.compId == 1 && t < end && start < t + (ev.end - ev.start)
  }

  /** What the window shows of it: the event, moved. */
  function Shown(occ: Occurrence, ev: Event, lib: Library): Event {
    var t := occ.startTs * 1_000_000_000;
    Event(WithoutCr(ev.uid), None, None, WithoutCr(ev.summary), t, t + (ev.end - ev.start),
          WithoutCrOption(ev.location), WithoutCrOption(ev.description),
          if ev.rrule.Some? then lib.canon(ev.rrule.value) else None, true)
  }

  /**
   Expanding a written recurring event: in order of start, exactly the occurrences of component 1 that overlap
   the window, each with the texts of the event, its rule and its length, without href and ETag. It fails
   exactly if a start of that component is out of range.
   */
  lemma WrittenEventExpands(ev: Event, occs: seq<Occurrence>, start: Instant, end: Instant, lib: Library,
                            r: Result<seq<Event>, string>)
    requires Stampable(ev.start) && Stampable(ev.end) && CleanOption(ev.rrule)
    requires ev.rrule.Some? && lib.canon(ev.rrule.value).Some?
    requires IsExpansion(EventDoc(ev), occs, start, end, lib, r)
    ensures r.Err? <==> exists i :: 0 <= i < |occs| && occs[i].compId == 1 && !Representable(occs[i].startTs)
    ensures r.Ok? ==> Ordered(r.value)
    ensures r.Ok? ==> forall e :: e in r.value <==>
              exists i :: 0 <= i < |occs| && Shows(occs[i], ev, start, end) && e == Shown(occs[i], ev, lib)
  {
    hide EventDoc;
    hide ParseEvent;
    hide Stampable;
    hide CleanOption;
    hide IsEventNumber;
    hide Overflows;
    EventRoundTrip(ev, lib);
    var base := ReadBack(ev, ev.start, ev.end, lib);
    forall id: nat ensures IsEventNumber(EventDoc(ev), id) <==> id == 1 {
      WrittenEventIsFirst(ev, id);
    }
    OverflowsOne(occs);
    if r.Ok? {
      var kept := Kept(occs, 1, base, start, end);
      forall e ensures e in r.value <==>
        exists i :: 0 <= i < |occs| && Shows(occs[i], ev, start, end) && e == Shown(occs[i], ev, lib)
      {
        StableSortMembers(r.value, kept, e);
        ShownMembers(occs, ev, start, end, lib, e);
      }
    }
  }

  lemma OverflowsOne(occs: seq<Occurrence>)
    ensures Overflows(occs, 1) <==>
            exists i :: 0 <= i < |occs| && occs[i].compId == 1 && !Representable(occs[i].startTs)
  {
  }

  lemma ShownMembers(occs: seq<Occurrence>, ev: Event, start: Instant, end: Instant, lib: Library, e: Event)
    ensures e in Kept(occs, 1, ReadBack(ev, ev.start, ev.end, lib), start, end) <==>
            exists i :: 0 <= i < |occs| && Shows(occs[i], ev, start, end) && e == Shown(occs[i], ev, lib)
  {
    var base := ReadBack(ev, ev.start, ev.end, lib);
    KeptMembers(occs, 1, base, start, end, e);
    forall i | 0 <= i < |occs|
      ensures Keeps(occs[i], 1, base, start, end) <==> Shows(occs[i], ev, start, end)
      ensures Instance(base, occs[i].startTs * NANOS) == Shown(occs[i], ev, lib)
    {
    }
    if i :| 0 <= i < |occs| && Keeps(occs[i], 1, base, start, end) && e == Instance(base, occs[i].startTs * NANOS) {
      assert Shows(occs[i], ev, start, end) && e == Shown(occs[i], ev, lib);
    }
  }
}
