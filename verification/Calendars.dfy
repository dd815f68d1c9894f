/** Which responses of a calendar-home listing are calendars, from the XML tree to the returned list. */
module Calendars {
  import opened Wrappers
  import opened Chars
  import opened Multistatus
  import opened MultistatusTree

  datatype Calendar = Calendar(
    href: string,
    displayName: string,
    color: Option<string>,
    components: seq<string>,
    ctag: Option<string>)

  // ----- from an entry --------------------------------------------------------------

  predicate IsCalendarEntry(r: DavResponse, home: string) {
    && TrimEndChar(r.href, '/') != TrimEndChar(home, '/')
    && RESOURCETYPE in r.props && "calendar" in SplitWhitespace(r.props[RESOURCETYPE])
    && "displayname" in r.props
  }

  function ComponentsFrom(r: DavResponse): seq<string> {
    if COMPSET in r.props && Trim(r.props[COMPSET]) != "" then SplitWhitespace(r.props[COMPSET]) else ["VEVENT"]
  }

  function CalendarFrom(r: DavResponse): Calendar
    requires "displayname" in r.props
  {
    Calendar(r.href, r.props["displayname"], Lookup(r.props, "calendar-color"), ComponentsFrom(r),
             Lookup(r.props, "getctag"))
  }

  function Selected(rs: seq<DavResponse>, home: string): seq<Calendar> {
    if rs == [] then []
    else (if IsCalendarEntry(rs[0], home) then [CalendarFrom(rs[0])] else []) + Selected(rs[1..], home)
  }

  lemma {:induction false} SelectedSnoc(rs: seq<DavResponse>, r: DavResponse, home: string)
    ensures Selected(rs + [r], home) ==
            Selected(rs, home) + if IsCalendarEntry(r, home) then [CalendarFrom(r)] else []
  {
    if rs == [] {
      assert [r][1..] == [];
    } else {
      assert (rs + [r])[0] == rs[0] && (rs + [r])[1..] == rs[1..] + [r];
      SelectedSnoc(rs[1..], r, home);
    }
  }

  /** The loop of `list_calendars` over the parsed responses. */
  method SelectCalendars(rs: seq<DavResponse>, home: string) returns (calendars: seq<Calendar>)
    ensures calendars == Selected(rs, home)
  {
    var homeTrimmed := TrimEndChar(home, '/');
    calendars := [];
    for i := 0 to |rs|
      invariant calendars == Selected(rs[..i], home)
    {
      var r := rs[i];
      SelectedSnoc(rs[..i], r, home);
      assert rs[..i + 1] == rs[..i] + [r];
      if TrimEndChar(r.href, '/') == homeTrimmed {
        continue;
      }
      var isCalendar := RESOURCETYPE in r.props && "calendar" in SplitWhitespace(r.props[RESOURCETYPE]);
      if !isCalendar {
        continue;
      }
      if "displayname" !in r.props {
        continue;
      }
      var components := ["VEVENT"];
      if COMPSET in r.props && Trim(r.props[COMPSET]) != "" {
        components := SplitWhitespace(r.props[COMPSET]);
      }
      calendars := calendars + [Calendar(r.href, r.props["displayname"], Lookup(r.props, "calendar-color"),
                                         components, Lookup(r.props, "getctag"))];
    }
    assert rs[..|rs|] == rs;
  }

  // ----- from the tree --------------------------------------------------------------

  function NonEmpty(words: seq<string>): seq<string> {
    if words == [] then []
    else NonEmpty(words[..|words| - 1]) + if words[|words| - 1] == "" then [] else [words[|words| - 1]]
  }

  predicate Words(values: seq<string>) {
    forall i | 0 <= i < |values| :: values[i] == "" || IsWord(values[i])
  }

  /** Element and component names hold no whitespace. */
  predicate NamesAreWords(f: Found) {
    Words(Contained(f.children, ResourceType)) && Words(Contained(f.children, CompSet))
  }

  function TextOf(f: Found, key: string): Option<string> {
    LastText(Leaves(f.children, f.active), key)
  }

  /** The response is not the home itself, has a calendar element among its resource types, and a name. */
  predicate IsCalendar(f: Found, home: string) {
    && TrimEndChar(FirstHref(Leaves(f.children, f.active)), '/') != TrimEndChar(home, '/')
    && "calendar" in Contained(f.children, ResourceType)
    && TextOf(f, "displayname").Some?
  }

  function CalendarOf(f: Found): Calendar
    requires TextOf(f, "displayname").Some?
  {
    var comps := NonEmpty(Contained(f.children, CompSet));
    Calendar(FirstHref(Leaves(f.children, f.active)), TextOf(f, "displayname").value, TextOf(f, "calendar-color"),
             if comps == [] then ["VEVENT"] else comps, TextOf(f, "getctag"))
  }

  function CalendarsOf(found: seq<Found>, home: string): seq<Calendar> {
    if found == [] then []
    else (if IsCalendar(found[0], home) then [CalendarOf(found[0])] else []) + CalendarsOf(found[1..], home)
  }

  lemma {:induction false} NonEmptyFacts(words: seq<string>)
    ensures Joined(words) == Joined(NonEmpty(words))
    ensures forall w :: w in NonEmpty(words) <==> w in words && w != ""
    decreases |words|
  {
    if words != [] {
      var init, last := words[..|words| - 1], words[|words| - 1];
      NonEmptyFacts(init);
      assert words == init + [last];
      var n := NonEmpty(words);
      if last != "" {
        assert n[..|n| - 1] == NonEmpty(init);
      } else {
        assert n == NonEmpty(init);
      }
    }
  }

  /** Splitting what a container joined gives back what it collected. */
  lemma SplitContainer(values: seq<string>)
    requires Words(values)
    ensures Joined(values).Some? <==> NonEmpty(values) != []
    ensures Joined(values).Some? ==> SplitWhitespace(Joined(values).value) == NonEmpty(values)
    ensures Joined(values).Some? ==> Trim(Joined(values).value) != ""
  {
    NonEmptyFacts(values);
    var words := NonEmpty(values);
    if words != [] {
      forall i | 0 <= i < |words| ensures IsWord(words[i]) {
        assert words[i] in words;
      }
      SplitInvertsJoined(words);
    }
  }

  lemma KeysDiffer()
    ensures "displayname" != RESOURCETYPE && "displayname" != COMPSET
    ensures "calendar-color" != RESOURCETYPE && "calendar-color" != COMPSET
    ensures "getctag" != RESOURCETYPE && "getctag" != COMPSET && RESOURCETYPE != COMPSET
  {
    assert |"displayname"| == 11 && |"calendar-color"| == 14 && |"getctag"| == 7;
    assert |RESOURCETYPE| == 12 && |COMPSET| == 32;
  }

  lemma EntryIsCalendar(r: DavResponse, f: Found, home: string)
    requires IsEntry(r, f) && NamesAreWords(f)
    ensures IsCalendarEntry(r, home) <==> IsCalendar(f, home)
    ensures IsCalendar(f, home) ==> CalendarFrom(r) == CalendarOf(f)
  {
    var types, comps := Contained(f.children, ResourceType), Contained(f.children, CompSet);
    KeysDiffer();
    SplitContainer(types);
    SplitContainer(comps);
    NonEmptyFacts(types);
    assert Lookup(r.props, RESOURCETYPE) == Joined(types);
    assert Lookup(r.props, COMPSET) == Joined(comps);
    assert Lookup(r.props, "displayname") == TextOf(f, "displayname");
    assert Lookup(r.props, "calendar-color") == TextOf(f, "calendar-color");
    assert Lookup(r.props, "getctag") == TextOf(f, "getctag");
  }

  lemma {:induction false} EntriesAreCalendars(rs: seq<DavResponse>, found: seq<Found>, home: string)
    requires AreEntries(rs, found) && forall i | 0 <= i < |found| :: NamesAreWords(found[i])
    ensures Selected(rs, home) == CalendarsOf(found, home)
  {
    if rs != [] {
      EntryIsCalendar(rs[0], found[0], home);
      EntriesAreCalendars(rs[1..], found[1..], home);
    }
  }

  /**
   From listing to result: of every well-nested tree whose names hold no whitespace, parsing and selecting
   returns, in document order, exactly the responses that are calendars.
   */
  lemma ListingIsExact(nodes: seq<Node>, home: string)
    requires WellNested(nodes, false)
    requires forall i | 0 <= i < |Responses(nodes, None)| :: NamesAreWords(Responses(nodes, None)[i])
    ensures var parsed := ResponsesOf(Run(INIT, EventsOf(nodes)));
            parsed.Ok? && Selected(parsed.value, home) == CalendarsOf(Responses(nodes, None), home)
  {
    ParseIsProjection(nodes);
    EntriesAreCalendars(ResponsesOf(Run(INIT, EventsOf(nodes))).value, Responses(nodes, None), home);
  }

  /** The calendars listed are the same whatever prefixes the names of the body carry. */
  lemma ListingIgnoresPrefixes(a: seq<Node>, b: seq<Node>, home: string)
    requires SameTree(a, b)
    ensures var x, y := ResponsesOf(Run(INIT, EventsOf(a))), ResponsesOf(Run(INIT, EventsOf(b)));
            x == y && (x.Ok? ==> Selected(x.value, home) == Selected(y.value, home))
  {
    ParseIgnoresPrefixes(a, b);
  }
}
