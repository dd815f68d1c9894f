# Verified model of the CalDAV bridge

The bridge lets a client list, read, create, change and delete calendar events and tasks (VTODOs) on a CalDAV
server. This project models the parts of it that carry unbounded behaviour and proves what they promise.

| modules | what they model |
|---|---|
| `Escape`, `Utf8`, `Fold`, `ContentLines`, `Civil`, `Durations` | the text layer of iCalendar: TEXT escaping, the octets of a text, the greedy folding loop, content lines, timestamps with the civil calendar behind them, durations |
| `Ical`, `RoundTrip`, `RawRule` | the document writers, the reader and its accessors, whole-document round trips, and what a value that is written unescaped can damage |
| `Documents` | what is read from documents of other programs: properties in any order, with parameters, nested components, and times in every form |
| `Stable`, `Forms` | what an event that was read from any document keeps when it is written again, whatever forms of time the document uses |
| `LocalTime`, `Expand`, `WrittenExpansion` | wall-clock time to UTC in zones with transitions; expansion of a recurring event against a window |
| `Model` | events and tasks, partial updates, clear lists, edited in place as the structs are |
| `Addressing`, `Protocol`, `ProtocolSafety`, `NoLostUpdates`, `FieldHistory`, `WithoutTag` | the ETag-guarded read-modify-write protocol: any number of tool calls and other clients interleaved, over every run |
| `Tools` | the same tool calls as imperative code against a server object that other clients change between any two requests |
| `Chars`, `Multistatus`, `MultistatusTree`, `NestedHref`, `Calendars` | the two streaming XML passes, as machines and as projections of the tree (with declarations, comments and processing instructions anywhere in it), and the selection of calendars |
| `KeyCache` | the JWKS cache: code for one caller, and a step model for any number of callers and a rotating issuer |

Code that changes things step by step is a method with a loop or a class with fields, proved against a function;
what that function means is then proved as lemmas. `dafny verify dfyconfig.toml` checks the whole project.

## What is assumed of the surroundings

* The parsing library below the accessors is represented by what RFC 5545 asks of its text layer: unfolding
  (section 3.1), parameters (section 3.2, of which TZID matters here), TEXT (section 3.3.11), DATE and the UTC and
  local forms of DATE-TIME (sections 3.3.4 and 3.3.5), DURATION (section 3.3.6). Its zone database and its spelling of
  recurrence rules are parameters (`Ical.Library`). `Stable.Lawful`, used where a document is written, read and written
  again, says that the spelling of a rule is one line and is its own spelling (a library for which it holds is called
  lawful below); `Forms.WholeZones` says that zones are
  whole seconds away from UTC.
* The server gives every accepted write an entity tag it never gave before and evaluates `If-Match` as section 13.1.1
  of RFC 9110 says. A UID made up for a create is used by nobody else while the create is pending.
* A `char` is a Unicode scalar value; lengths that count are octets of the UTF-8 form.
* A zone is a list of transitions. Where gaps matter the transitions are `Spaced`: at least an hour apart and at least
  as far apart as a neighbouring backward jump is wide. Times that exist need only the order of the transitions.

## Where a promise does not hold as stated

* `EscapeRoundTrip`, `ReadInvertsWrite`, `EventRoundTripIff`, `TodoRoundTripIff`: the round trip is lossless exactly for
  texts without CR, lines without CRLF, and times that are whole seconds of four-digit years. RRULE and STATUS are
  written unescaped; `EventHeadSurvives` says what a broken RRULE cannot damage, `EventParsedIff` that it damages the rest.
* `ParsedEventSurvives`, `SurvivesByYear`: an event that was read is not always safe to write. DTSTART at 23:00 on 31
  December 9999 with a DURATION of two hours ends where no timestamp can say it, and the next write loses it
  (`LastEveningEndsUnwritable`; `SurvivesByYear` gives the exact condition, and `EventOfDocument` the end of every document).
* `EventUpdateThenRead`: reading after an update shows what was asked for, with every lawful library, exactly when new times
  are in four-digit years, old ones that stay can be written, and the new RRULE text, which the tool takes as any string,
  has no CRLF. A fraction of a second in a new time is dropped.
* `ResolveMeetsStandard`, `FallbackUnused`: the one-hour retry agrees with RFC 5545 exactly in zones whose forward jumps
  are all one hour; the fallback to UTC is dead code exactly when no gap is wider than an hour.
* `WindowsComposeIff`: windows compose exactly for events of positive length.
* `OvertakenUpdateIsLost`: when a GET came back without an ETag and that update is accepted, every field ends as if no other
  update had been accepted in between: what the other one did to a field is lost exactly where the two would leave it
  differently. `RefusedOvertakenLosesNothing`: if the update is refused, nothing is lost.
* `OwnFetchDecidesIff`: a call whose fetch of the key set succeeded returns what that fetch bound, in every run, exactly
  when all sets the issuer may serve agree on the key ID; for any two that do not, `StaleRefillDecides` builds the run.
* `SlashInUidCollides`: a UID addresses an object that a slash-free UID of another collection addresses too exactly when
  it has a slash and the character before its last slash exists and is not a slash.
* The comment on `expand_event` (src/ical.rs:122) says that occurrences start in the window; the code (src/ical.rs:162)
  keeps those that overlap it. The model follows the code.

## Model

| member | source | states |
|---|---|---|
| Escape.EscapeText | src/ical.rs:384-397 | the loop computes `Escaped`, which the next rows characterise without it |
| Escape.EscapedDistributes | src/ical.rs:384-397 | escaping a concatenation is concatenating the escaped parts |
| Escape.UnescapeInvertsEscaped | src/ical.rs:384-397 | a reader by section 3.3.11 of RFC 5545 accepts every escaped text and gets the text without its CRs |
| Escape.EscapeRoundTrip | src/ical.rs:384-397 | the text itself comes back if and only if it has no CR |
| Escape.EscapedInvertsUnescape | src/ical.rs:384-397 | whatever that reader accepts is what the writer would write, if and only if it never spells a line break with capital N |
| Escape.EscapedImage | src/ical.rs:384-397 | the exact set of texts escaping can produce |
| Escape.EscapedIsSafe | src/ical.rs:384-397 | no CR, no LF, and no comma or semicolon after an even run of backslashes, anywhere in the output |
| Escape.SplitInvertsTextList | src/ical.rs:203-208 | a comma-separated list of escaped texts splits at unescaped commas into exactly those texts |
| Escape.FirstTextOfEscaped | src/ical.rs:203-208 | the first value of a written text is the whole text, without CR |
| Fold.FoldLine | src/ical.rs:406-422 | the loop with its two counters appends `Folded(line)` and changes nothing before it |
| Utf8.DecodedInvertsBytes | src/ical.rs:412-413 | the octets of a text decode, by a decoder of their own, to exactly its scalar values |
| Fold.Utf8LenIsSize | src/ical.rs:412-413 | the length the loop counts for a character is the number of its octets |
| Fold.FoldPieces | src/ical.rs:399-422 | the pieces concatenate to the line; at most 75 octets of UTF-8 in the first and 74 in every later one |
| Fold.PhysicalLineBounds | src/ical.rs:399-422 | the UTF-8 form of every physical line is at most 75 octets, of every one but the last at least 72 |
| Fold.FoldedOctets | src/ical.rs:406-422 | the UTF-8 form of the output has the octets of the line plus three a break plus two |
| Fold.AsciiBreaks | src/ical.rs:406-422 | for ASCII the number of breaks is the ceiling of (n - 75) / 74 |
| Fold.GreedyStaysAhead | src/ical.rs:406-422 | from any point where greedy is not behind, it needs no more pieces than any legal cut |
| Fold.FoldIsOptimal | src/ical.rs:406-422 | no legal way to fold a line uses fewer physical lines |
| Fold.FoldAheadAtEveryPrefix | src/ical.rs:406-422 | after every number of physical lines greedy has written at least as much as any legal fold |
| ContentLines.ReadInvertsWrite | src/ical.rs:399-422 | unfolding and splitting a folded document gives back its lines if and only if no line has a line break of its own |
| ContentLines.FoldRoundTrip | src/ical.rs:399-422 | unfolding one folded line gives that line if and only if it has no CRLF |
| ContentLines.PhysicalLinesWithin | src/ical.rs:399-405 | every physical line of a written document is at most 75 octets of UTF-8, whatever the lines hold |
| Civil.EpochIsNewYear1970 | src/ical.rs:428-430 | instant 0 is midnight of 1 January 1970 |
| Civil.DayAfterDay | src/ical.rs:428-430 | 86400 seconds after any instant the fields are those of the next calendar day, by month lengths and the leap rule, at the same time; with the row above this fixes the calendar for all instants |
| Civil.TimeOfDay | src/ical.rs:428-430 | hour, minute and second count the seconds of the day |
| Civil.InstantInvertsFields | src/ical.rs:428-430 | splitting an instant into date and time fields loses only the fraction of a second |
| Civil.FieldsInvertInstant | src/ical.rs:428-430 | valid date and time fields are exactly those of the instant they name, over the whole civil calendar |
| Civil.LongYearText | src/ical.rs:428-430 | a year outside 0 to 9999 is printed with its sign and read back from its digits |
| Civil.StampRoundTrip | src/ical.rs:428-430 | the printed timestamp reads back as the instant if and only if it is a whole second of a year 0 to 9999 |
| Ical.WriteTextLine | src/ical.rs:424-426 | for every name and value: the buffer grows by the folded line of the name and the escaped value, and by nothing else |
| Ical.WriteDateTimeLine | src/ical.rs:428-430 | the same for a timestamp |
| Ical.BuildEvent | src/ical.rs:63-86 | the document is the folded form of exactly the intended lines of the event, in order |
| Ical.BuildTodo | src/ical.rs:92-114 | the same for a VTODO |
| RoundTrip.EventLinesSurvive | src/ical.rs:63-86 | unfolding an event document gives the intended content lines if and only if the RRULE text has no CRLF; the reader takes only CRLF for a line end, so a bare LF is part of the line |
| RoundTrip.TodoLinesSurvive | src/ical.rs:92-114 | the same for a VTODO and its STATUS text, with the same reader |
| RawRule.EventHeadSurvives | src/ical.rs:68-77 | of every event, whatever its RRULE text: UID, title, times, place and description come back |
| RawRule.EventParsedIff | src/ical.rs:38-43 | for every event: parsing its document returns what it is meant to, with every lawful library, if and only if the RRULE text has no CRLF or the start cannot be read at all |
| RawRule.EventRoundTripIff | src/ical.rs:53-86 | for every event: all fields come back (texts without CR, rule in the library's spelling), with every lawful library, if and only if both times are writable and the RRULE text has no CRLF |
| RawRule.TodoHeadSurvives | src/ical.rs:92-101 | of every VTODO, whatever its STATUS text: UID, title, and the due date as far as it is writable come back |
| RawRule.TodoRoundTripIff | src/ical.rs:88-114 | for every VTODO: all fields come back if and only if due date and status have a text form |
| RoundTrip.DocumentWithin75 | src/ical.rs:61-62 | no physical line of either kind of document exceeds 75 octets of UTF-8 |
| Stable.ParsedEventSurvives | src/ical.rs:38-86 | of every document: the event read from it is read again after writing it if and only if both its times are writable |
| Stable.ParsedTodoSurvives | src/ical.rs:46-114 | the same for a VTODO and its due date |
| Stable.EventSurvives | src/ical.rs:38-86 | writing and reading an event in the form reading gives it yields the same event, but for its place on the server, if and only if both times are writable |
| Stable.TodoSurvives | src/ical.rs:46-114 | the same for a VTODO |
| Forms.SurvivesByYear | src/ical.rs:210-341 | in terms of years: of every document, with DURATION, DATE or TZID, the event read survives writing if and only if it starts and ends in a four-digit year |
| Durations.ReadsForm | src/ical.rs:223-238 | every DURATION the grammar allows, weeks or any of days, hours, minutes and seconds, with either sign or none, is read as exactly those parts |
| Documents.MomentRead | src/ical.rs:210-221 | a DTSTART, DTEND or DUE in UTC, on the clock of the zone that property itself names, floating, or a date, is read as the instant it means |
| Documents.EventOfDocument | src/ical.rs:320-359 | every VEVENT document, its properties in any order, repeated, unknown or with parameters: the event read has exactly the texts, rule and start it states, and the end of DTEND by its own zone, else of DURATION in seconds, else of the day, else the start |
| Documents.TodoOfDocument | src/ical.rs:361-380 | every VTODO document likewise: its due date by the zone DUE names, its status, and its priority if it fits eight bits |
| Documents.EventIncomplete | src/ical.rs:320-324 | without UID, or without DTSTART, the error that says so |
| Documents.NestedIgnored | src/ical.rs:193-208 | an alarm or any other component nested in an event or VTODO, whatever properties it has, changes nothing |
| LocalTime.WallClockMeaning | src/ical.rs:304-311 | what the clock of a zone shows, from its first offset and its transitions |
| LocalTime.EarliestIsFirst | src/ical.rs:304-311 | the scan over a zone's segments finds an instant if and only if the clock ever shows the time, and then the first |
| LocalTime.ResolveExisting | src/ical.rs:304-311 | a local time that exists resolves to its first occurrence, in every zone |
| LocalTime.ToUtcInvertsClock | src/ical.rs:287-311 | a time with an explicit offset, and a wall-clock reading of a zone, give back the instant they came from, the latter exactly when the clock had not shown it before |
| LocalTime.ResolveInGap | src/ical.rs:312-317 | what the cascade, its hour written out in nanoseconds, makes of a time in a gap of any width, and exactly when the retry succeeds |
| LocalTime.GapMeaning | src/ical.rs:304-317 | for each gap, the exact condition under which the result is what section 3.3.5 of RFC 5545 asks for |
| LocalTime.ResolveMeetsStandard | src/ical.rs:304-317 | a zone resolves every local time as the standard says if and only if all its forward jumps are one hour |
| LocalTime.FallbackUnused | src/ical.rs:308-317 | the UTC fallback is never reached if and only if no gap is wider than an hour |
| LocalTime.GapLandsAfterTransition | src/ical.rs:306-315 | in a gap of at most an hour the result lies at or after the transition and less than an hour after it |
| LocalTime.ResolveStrictlyMonotone | src/ical.rs:304-317 | on local times that exist, resolution is strictly monotone |
| Expand.ExpandEvent | src/ical.rs:125-179 | all outcomes: parse errors, the single event, the overflow error, and a stable sort of exactly the occurrences kept for the component whose number is the count of BEGIN lines before the first BEGIN:VEVENT |
| Expand.ComponentAt | src/ical.rs:193-201 | for every list of lines and every kind: the first component of that kind is the one that is read, and its number is how many components begin before it |
| WrittenExpansion.WrittenEventIsFirst | src/ical.rs:63-86 | in the document of every event, the event is component 1 and no other |
| WrittenExpansion.WrittenEventExpands | src/ical.rs:125-179 | expanding the document of a recurring event gives, in order of start, exactly the occurrences of component 1 that overlap the window, field by field, and fails exactly if a start of that component is out of range |
| Expand.RepresentableYears | src/ical.rs:157-159 | the starts that can be represented are those of the years -262143 to 262142 |
| Expand.CollectInstances | src/ical.rs:151-176 | the loop keeps exactly the occurrences of the component that overlap the window, in order, or fails if a start is out of range |
| Expand.SortIsStable | src/ical.rs:177 | sorting by start gives an ordered sequence that keeps the order and number of events that start together |
| Expand.StableSortUnique | src/ical.rs:177 | a stable sort leaves no choice: the result is determined |
| Expand.KeptMembers | src/ical.rs:153-175 | an instance is in the expansion if and only if some occurrence of the component overlaps the window and yields it |
| Expand.SplitOccurrence | src/ical.rs:160-162 | where an occurrence goes when a window is cut: in the whole iff in a half, in both iff it straddles the cut |
| Expand.WindowsCompose | src/ical.rs:151-178 | for positive lengths, expanding two halves and dropping the straddlers of the second is expanding the whole |
| Expand.WindowsComposeIff | src/ical.rs:151-178 | that law holds for all windows and occurrences if and only if the event has positive length |
| Expand.WindowsComposeForComponent | src/ical.rs:325-341 | which components obey the law, by the precedence of DTEND, DURATION and all-day DTSTART |
| Model.EventRecord.ApplyPatch | src/caldav/model.rs:69-88 | the struct becomes the patched value; unset fields and identity stay |
| Model.EventRecord.ClearFields | src/caldav/model.rs:94-104 | the verdict, and that on an unknown name exactly the fields named before it are already cleared |
| Model.TodoRecord.ApplyPatch | src/caldav/model.rs:110-126 | the struct becomes the patched value |
| Model.TodoRecord.ClearFields | src/caldav/model.rs:132-143 | the verdict and the partial effect, as for events |
| Model.EditedEventFields | src/mcp/tools.rs:288-294 | each field after an edit: a set beats a clear of the same field, a field not mentioned stays, identity is untouched |
| Model.EditedTodoFields | src/mcp/tools.rs:403-408 | the same for VTODOs |
| Model.EventEditRefused | src/caldav/model.rs:94-104 | an edit is refused if and only if the clear list names something that cannot be cleared |
| Model.TodoEditRefused | src/caldav/model.rs:132-143 | the same for VTODOs |
| Model.EventUpdatesCompose | src/mcp/tools.rs:288-294 | two accepted requests in a row equal one request, given explicitly |
| Addressing.UidOfObjectHref | src/caldav/client.rs:178-182 | a slash-free UID can be read off its href |
| Addressing.ObjectHrefInjective | src/caldav/client.rs:178-182 | for slash-free UIDs two hrefs are equal if and only if UIDs and trimmed collections are |
| Addressing.SlashInUidCollides | src/caldav/client.rs:178-182 | for every collection and UID: some other collection has an object with a slash-free UID at the same href if and only if the UID has a slash and the character before its last slash exists and is not a slash |
| ProtocolSafety.GuardedPutDoes | src/mcp/tools.rs:283-298 | a copy that was fetched, placed and edited is, once its guarded PUT is accepted, the atomic update of what it replaces |
| ProtocolSafety.PutInv | src/caldav/client.rs:295-311 | an accepted or refused PUT keeps the invariant of the whole system |
| ProtocolSafety.StepInv | src/caldav/client.rs:283-317 | every step of every call and of every other client keeps it |
| ProtocolSafety.RunInv | src/caldav/client.rs:283-317 | it holds after every run |
| NoLostUpdates.RunsAreSerial | src/mcp/tools.rs:271-300 | every run is serial: the store is the replay of the accepted writes, each guarded one atomic at its place, one write per finished call; so a guarded update never brings back a deleted object and a create never replaces one |
| NoLostUpdates.NothingIsLost | src/mcp/tools.rs:271-300 | where every GET returned a tag, every write of every call is atomic |
| NoLostUpdates.PutsGoWhereTheyRead | src/caldav/client.rs:283-311 | an update's PUT goes to the href it read, and its tag was issued for an object there |
| NoLostUpdates.AcceptedIffUntouched | src/caldav/client.rs:301-308 | a PUT with an earlier tag is accepted if and only if nobody wrote or removed the object in between |
| NoLostUpdates.UncontestedUpdateCommits | src/mcp/tools.rs:283-298 | from any state, an update nobody contests ends done and its edit is what is stored |
| NoLostUpdates.PutDoneIffUntouched | src/caldav/client.rs:283-311 | from an update's GET to its PUT, whatever happens in between: the call ends done, with its edit stored, if nobody touched the object, and refused, with the store as it was, otherwise |
| NoLostUpdates.CreateCommits | src/mcp/tools.rs:245-266 | from any state, a create ends done with its document stored at the href of its calendar and UID |
| NoLostUpdates.DeleteEnds | src/mcp/tools.rs:303-312 | from any state, a delete ends with the object gone: done if it was there, else refused as not found |
| NoLostUpdates.OvertakenUpdateIsRefused | src/mcp/tools.rs:283-298 | an update whose object another client writes or removes between its GET and its PUT can run and ends refused, and what the other client did stays |
| NoLostUpdates.UpdateRefusedAtGet | src/caldav/client.rs:283-293 | an update of nothing, or of what cannot be read as its kind, ends at its GET, with the error for each, and changes nothing else |
| NoLostUpdates.UpdateRefusedAtEdit | src/mcp/tools.rs:290-292 | an update whose clear list has an unknown name ends at its edit with the first such name, and changes nothing else |
| NoLostUpdates.RefusedCallsLeaveNoTrace | src/mcp/tools.rs:283-298 | in every run, none of the writes that make up the store is by a call that was refused, at whatever point |
| NoLostUpdates.UnknownFieldNeverWrites | src/mcp/tools.rs:290-292 | a call that names an unknown clear field never writes, in any run |
| FieldHistory.EventUpdateThenRead | src/mcp/tools.rs:275-298 | of every document and accepted update: reading, editing, writing and reading again changes exactly the fields of the request, with every lawful library that knows the same zones, if and only if the edited times are writable (new ones up to their fraction of a second) and the new RRULE text has no CRLF |
| FieldHistory.TodoUpdateThenRead | src/mcp/tools.rs:391-412 | the same for VTODOs, whose new status is one of the tool's tokens: if and only if the edited due date is writable |
| FieldHistory.UpdateThenRead | src/mcp/tools.rs:275-298 | an accepted update of an object whose times are writable, field by field: the field is what was asked for, or what it was; for title, times, and a place or description the request sets, whatever the RRULE text; for the others if that text has no CRLF |
| FieldHistory.FieldsFollowHistory | src/mcp/tools.rs:283-298 | over any run, from any moment at which an object can be read and its times are writable, each of its fields has the value the last accepted update that set or cleared it gave it, as long as the updates of the object satisfy the conditions of the row above for that field |
| WithoutTag.OvertakenUpdateIsLost | src/caldav/client.rs:288-291 | from every state in which an update has fetched its object, event or VTODO, without a tag: any other update is accepted and read back, then the first one is accepted, and each field is what the first one alone makes of the old value; the other's effect on a field is lost if and only if the two differ there |
| WithoutTag.RefusedOvertakenLosesNothing | src/mcp/tools.rs:290-292 | in the same states, if the first update is refused for an unknown field, the store keeps the other's write |
| Tools.CalDavServer.Put | src/caldav/client.rs:301-309 | the conditional write: accepted if and only if `If-Match` holds, with a new tag, and no other effect |
| Tools.GetEvent | src/caldav/client.rs:283-293 | success exactly for a readable object that is there; href and tag are those of the object; which error otherwise |
| Tools.PutEvent | src/caldav/client.rs:295-311 | writes the event's document at the href it carries, under its tag |
| Tools.GetTodo | src/caldav/client.rs:346-356 | as for events |
| Tools.PutTodo | src/caldav/client.rs:358-374 | as for events |
| Tools.EditEvent | src/mcp/tools.rs:288-294 | the in-place edit is the pure edit, with the same error |
| Tools.EditTodo | src/mcp/tools.rs:403-408 | as for events |
| Tools.UpdateEventTool | src/mcp/tools.rs:271-300 | the outcome as a function of what the server held at GET and at PUT; one write, last, and atomic if the server sends tags; none on failure |
| Tools.UpdateTaskTool | src/mcp/tools.rs:387-414 | as for events |
| Tools.CreateEventTool | src/mcp/tools.rs:245-266 | one unguarded write of the event's document, atomic when nothing was at its href |
| Tools.CreateTaskTool | src/mcp/tools.rs:365-384 | as for events |
| Tools.DeleteTool | src/mcp/tools.rs:303-312 | removes the object there at that moment, or reports that there is none; gone in both cases |
| Multistatus.ParseMultistatus | src/caldav/xml.rs:71-180 | the loop with its four variables computes the machine's run on every event stream, errors included |
| Multistatus.RunValid | src/caldav/xml.rs:84-174 | on every stream: no leaf property is selected inside a container, and no leaf property is a container's key |
| Multistatus.GuardIsRedundant | src/caldav/xml.rs:126-159 | on every stream the container guard on text and CDATA changes neither result nor error |
| Multistatus.ContainerKeysOnlyGrow | src/caldav/xml.rs:31-44 | on every stream the two container keys are only ever appended to |
| Multistatus.AppendAddsWord | src/caldav/xml.rs:31-44 | appending a word adds it at the end of the words the property has, and changes no other property |
| MultistatusTree.AppendRepresents | src/caldav/xml.rs:31-44 | appending a value to a container's key keeps the entry equal to its description with one more word |
| MultistatusTree.RunContainer | src/caldav/xml.rs:84-125 | inside a container the machine appends exactly the preorder member values |
| MultistatusTree.RunChildren | src/caldav/xml.rs:84-174 | the children of a response extend the entry by exactly what the tree projection says |
| MultistatusTree.ParseIsProjection | src/caldav/xml.rs:58-180 | one entry per response, in document order: first non-empty href, last text per leaf, joined container members; declarations, comments and processing instructions may stand anywhere |
| Multistatus.LocalName | src/caldav/xml.rs:213-219 | the local name of an element or attribute is `l` if and only if the name is `l` or a prefix, a colon and `l`, and `l` has no colon |
| Multistatus.AttrLocalIsFirst | src/caldav/xml.rs:46-56 | an attribute lookup gives the value of the first attribute of that local name that can be unescaped |
| Multistatus.ChildContributes | src/caldav/xml.rs:190-211 | what an element adds to each container, by its own name or its name attribute, whatever prefixes they carry |
| Multistatus.ContainerNames | src/caldav/xml.rs:183-188 | which elements, with any prefix, are which container, and under which key each is kept |
| MultistatusTree.ParseIgnoresPrefixes | src/caldav/xml.rs:71-180 | two trees whose element and attribute names differ only in prefixes give the same entries or the same error |
| MultistatusTree.EntryUnique | src/caldav/xml.rs:6-11 | that description determines the entry completely |
| NestedHref.FindNestedHref | src/caldav/xml.rs:234-273 | the loop with its two variables computes the scan on every stream |
| NestedHref.StepTracks | src/caldav/xml.rs:245-267 | every event keeps depth and flag equal to what the stack of open elements says; the decrement never saturates |
| NestedHref.RunTracks | src/caldav/xml.rs:234-273 | after every properly nested prefix, depth is the number of open targets and the flag implies depth above zero |
| NestedHref.PassIsSearch | src/caldav/xml.rs:221-273 | on every tree without nested hrefs the pass returns the first text under an href under the target, or none |
| NestedHref.PassIgnoresPrefixes | src/caldav/xml.rs:234-273 | the pass finds the same href in two trees that differ only in prefixes |
| NestedHref.FindsPrefixedHref | src/caldav/xml.rs:234-273 | an href under the target, each with any prefix or none, is found |
| Chars.TrimEndCharMeaning | src/caldav/client.rs:181 | trimming a character off the end takes all of it and nothing else |
| Chars.TrimMeaning | src/caldav/xml.rs:153 | trimming takes whitespace off both ends, all of it, and nothing else |
| Chars.SplitAtWhite | src/caldav/client.rs:218-234 | words are cut at every whitespace character |
| Calendars.SelectCalendars | src/caldav/client.rs:205-243 | the filter loop computes `Selected` |
| Calendars.SplitContainer | src/caldav/client.rs:218-234 | splitting what a container joined gives back what it collected |
| Calendars.ListingIsExact | src/caldav/client.rs:205-243 | from the tree to the result: exactly the non-home responses with a calendar element and a name, in document order |
| Calendars.ListingIgnoresPrefixes | src/caldav/client.rs:205-243 | two bodies that differ only in prefixes list the same calendars |
| KeyCache.JwksKeySource.Refresh | src/auth/validator.rs:114-125 | the loop leaves exactly the fetched set; a failed fetch leaves the cache alone |
| KeyCache.JwksKeySource.Key | src/auth/validator.rs:130-141 | all outcomes of one call and the cache after it: a cached key, the fetched set's key, a key ID the fetched set does not have refused, a failed fetch |
| KeyCache.StepInv | src/auth/validator.rs:114-141 | every step of every caller keeps the invariant of cache, lock and calls |
| KeyCache.ReadsSeeOneSet | src/auth/validator.rs:130-141 | in every run each read sees the empty cache or exactly one served set, the last filled in, never a mixture |
| KeyCache.KnownKeyNeedsNoFetch | src/auth/validator.rs:130-133 | in every run: a key ID of the last refill is answered at once, any other goes to fetch |
| KeyCache.LoneCallEnds | src/auth/validator.rs:114-141 | a call that is alone ends with the issuer's answer and the issuer's set in the cache |
| KeyCache.KeysAreServed | src/auth/validator.rs:130-141 | every key ever returned is a binding of that key ID in a served set |
| KeyCache.AgreedKeyIsAnswered | src/auth/validator.rs:130-141 | whatever the issuer rotates, as long as all its sets agree on a key ID every finished call for it has the issuer's answer or its fetch failed |
| KeyCache.RereadUsesLastRefill | src/auth/validator.rs:134-140 | the second read is decided by the last refill alone, whoever made it |
| KeyCache.OwnFetchDecidesIff | src/auth/validator.rs:114-141 | for a key ID and any family of sets the issuer may serve: every finished call whose fetch succeeded returns what its own fetch bound, in every run, if and only if all sets of the family agree on the key ID |
| KeyCache.StaleRefillDecides | src/auth/validator.rs:114-141 | for any two sets, a run in which a call that fetched the newer one answers from the older one |

## Left out

- The recurrence engine: its occurrences are an arbitrary sequence, and the spelling it gives a rule is a parameter; that the parts of a rule come back in the same order is not claimed.
- Parameters other than TZID, a DATE-TIME with a numeric offset, and a DTSTART with VALUE=DATE whose text is not a date: the form of the text decides, as the comment at src/ical.rs:240-247 says of the library.
- Case-insensitive names, bare-LF line ends and other leniency of the parsing library: the text reader is the strict one of RFC 5545. With a reader that takes a bare LF for a line end, an RRULE with one would break the document too.
- Component numbering of the library: components are taken to be numbered in the order of their BEGIN lines.
- Unknown properties of a document are dropped by the domain types, so preservation is stated for the fields of events and VTODOs, not for raw documents.
- HTTP, TLS, URL joining and origin checks, sign-in, and the wording of errors.
- XML lexing, entity unescaping and whitespace trimming of text: the passes start from the event stream, where a text either unescapes or does not.
- `list_events`, `list_todos`, `list_tasks` and the request bodies: single passes that would add only easy members.
- JWT signature and claim checks and the static key source: library calls.
- Overflow of dates at the end of the calendar's range (`start + duration`, `occ_start + duration`, the hour of the retry) and of the 32-bit depth counter.
- What a server may change in a document it stores: a body is kept as it was sent.
- A sort is modelled by stable insertion; `StableSortUnique` says that every stable sort gives the same result.
- FieldHistory.FieldsFollowHistory: about stretches in which only guarded updates touch an object whose times are writable; `EventUpdateThenRead` says exactly when one of them goes wrong.
- Tools.DeleteTool: models `delete_event`; `delete_task` (src/mcp/tools.rs:417-426) sends the same request.
