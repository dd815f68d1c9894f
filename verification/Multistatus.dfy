/**
 The streaming reader of WebDAV multistatus bodies: one flat state machine over XML events. Lexing, entity
 unescaping and the trimming of text events are the XML library's; the model starts from its events.
 */
module Multistatus {
  import opened Wrappers
  import opened Chars

  /** An attribute; the value is missing when it cannot be unescaped. */
  datatype Attr = Attr(qname: string, value: Option<string>)

  /** `Text(None)` is a text event whose entities cannot be unescaped. */
  datatype XmlEvent =
    | Start(qname: string, attrs: seq<Attr>)
    | Empty(qname: string, attrs: seq<Attr>)
    | End(qname: string)
    | Text(text: Option<string>)
    | CData(raw: string)
    | Ignored
    | Malformed

  datatype XmlError = LexError | UnescapeError

  datatype DavResponse = DavResponse(href: string, props: map<string, string>)

  datatype Container = ResourceType | CompSet

  const RESOURCETYPE: string := "resourcetype"
  const COMPSET: string := "supported-calendar-component-set"

  // ----- helpers --------------------------------------------------------------------

  /** The name after the last colon. */
  function Local(qname: string): string {
    if qname == "" then ""
    else if qname[|qname| - 1] == ':' then ""
    else Local(qname[..|qname| - 1]) + [qname[|qname| - 1]]
  }

  function ContainerKey(c: Container): string {
    match c
    case ResourceType => RESOURCETYPE
    case CompSet => COMPSET
  }

  function ContainerOf(name: string): Option<Container> {
    if name == RESOURCETYPE then Some(ResourceType) else if name == COMPSET then Some(CompSet) else None
  }

  /** The value of the first attribute with this local name that can be unescaped. */
  function AttrLocal(attrs: seq<Attr>, name: string): Option<string> {
    if attrs == [] then None
    else if Local(attrs[0].qname) == name && attrs[0].value.Some? then attrs[0].value
    else AttrLocal(attrs[1..], name)
  }

  function AppendProp(props: map<string, string>, key: string, value: string): map<string, string> {
    if value == "" then props
    else if key !in props then props[key := value]
    else if props[key] == "" then props[key := value]
    else props[key := props[key] + " " + value]
  }

  /** What one child element adds to the property of the container it stands in. */
  function ChildValue(c: Container, name: string, attrs: seq<Attr>): string {
    match c
    case ResourceType => name
    case CompSet =>
      if name == "comp" && AttrLocal(attrs, "name").Some? then AttrLocal(attrs, "name").value else ""
  }

  function CollectChild(c: Container, name: string, attrs: seq<Attr>, r: DavResponse): DavResponse {
    r.(props := AppendProp(r.props, ContainerKey(c), ChildValue(c, name, attrs)))
  }

  function PutText(r: DavResponse, prop: string, text: string): DavResponse {
    if prop == "href" && r.href == "" then r.(href := text) else r.(props := r.props[prop := text])
  }

  // ----- the machine ----------------------------------------------------------------

  datatype State = State(
    responses: seq<DavResponse>,
    cur: Option<DavResponse>,
    curProp: Option<string>,
    container: Option<Container>)

  const INIT: State := State([], None, None, None)

  function Collected(s: State, name: string, attrs: seq<Attr>): State {
    if s.container.Some? && s.cur.Some? then
      s.(cur := Some(CollectChild(s.container.value, name, attrs, s.cur.value)))
    else s
  }

  /** What a text or CDATA event stores, if anything. */
  function Stored(s: State, text: string): State {
    if s.container.None? && s.cur.Some? && s.curProp.Some? then
      s.(cur := Some(PutText(s.cur.value, s.curProp.value, text)))
    else s
  }

  function Step(s: State, e: XmlEvent): Result<State, XmlError> {
    match e
    case Malformed => Err(LexError)
    case Start(q, attrs) =>
      var name := Local(q);
      if s.container.Some? then Ok(Collected(s, name, attrs))
      else if name == "response" then Ok(s.(cur := Some(DavResponse("", map[]))))
      else if ContainerOf(name).Some? then Ok(s.(container := ContainerOf(name), curProp := None))
      else Ok(s.(curProp := Some(name)))
    case Empty(q, attrs) => Ok(Collected(s, Local(q), attrs))
    case Text(text) =>
      if s.container.None? && s.cur.Some? && s.curProp.Some? then
        if text.Some? then Ok(Stored(s, text.value)) else Err(UnescapeError)
      else Ok(s)
    case CData(raw) => Ok(Stored(s, Trim(raw)))
    case End(q) =>
      var name := Local(q);
      var s1 := if name == "response" && s.cur.Some?
                then s.(responses := s.responses + [s.cur.value], cur := None) else s;
      var s2 := if s1.container.Some? && ContainerOf(name).Some? then s1.(container := None) else s1;
      Ok(s2.(curProp := None))
    case Ignored => Ok(s)
  }

  function Run(s: State, events: seq<XmlEvent>): Result<State, XmlError>
    decreases |events|
  {
    if events == [] then Ok(s)
    else
      var next := Step(s, events[0]);
      if next.Err? then next else Run(next.value, events[1..])
  }

  lemma {:induction false} RunConcat(s: State, a: seq<XmlEvent>, b: seq<XmlEvent>)
    ensures Run(s, a + b) == if Run(s, a).Err? then Run(s, a) else Run(Run(s, a).value, b)
    decreases |a|
  {
    if a == [] {
      assert a + b == b;
    } else {
      assert (a + b)[0] == a[0] && (a + b)[1..] == a[1..] + b;
      if Step(s, a[0]).Ok? {
        RunConcat(Step(s, a[0]).value, a[1..], b);
      }
    }
  }

  lemma RunOne(s: State, e: XmlEvent)
    ensures Run(s, [e]) == Step(s, e)
  {
    assert [e][1..] == [];
  }

  function ResponsesOf(r: Result<State, XmlError>): Result<seq<DavResponse>, XmlError> {
    if r.Ok? then Ok(r.value.responses) else Err(r.error)
  }

  /** The loop of the parser, its four variables kept as they are. */
  method ParseMultistatus(events: seq<XmlEvent>) returns (r: Result<seq<DavResponse>, XmlError>)
    ensures r == ResponsesOf(Run(INIT, events))
  {
    var responses: seq<DavResponse> := [];
    var cur: Option<DavResponse> := None;
    var curProp: Option<string> := None;
    var container: Option<Container> := None;
    assert events[..0] == [] && Run(INIT, []) == Ok(INIT);
    for i := 0 to |events|
      invariant Run(INIT, events[..i]) == Ok(State(responses, cur, curProp, container))
    {
      ghost var before := State(responses, cur, curProp, container);
      RunConcat(INIT, events[..i], [events[i]]);
      RunOne(before, events[i]);
      assert events[..i + 1] == events[..i] + [events[i]];
      if Step(before, events[i]).Err? {
        RunConcat(INIT, events[..i + 1], events[i + 1..]);
        assert events == events[..i + 1] + events[i + 1..];
      }
      match events[i] {
        case Malformed =>
          return Err(LexError);
        case Start(q, attrs) =>
          var name := Local(q);
          if container.Some? {
            if cur.Some? {
              cur := Some(CollectChild(container.value, name, attrs, cur.value));
            }
            continue;
          }
          match name {
            case "response" => cur := Some(DavResponse("", map[]));
            case "href" => curProp := Some("href");
            case "resourcetype" =>
              container := Some(ResourceType);
              curProp := None;
            case "supported-calendar-component-set" =>
              container := Some(CompSet);
              curProp := None;
            case other => curProp := Some(other);
          }
        case Empty(q, attrs) =>
          if container.Some? && cur.Some? {
            cur := Some(CollectChild(container.value, Local(q), attrs, cur.value));
          }
        case Text(text) =>
          if container.None? && cur.Some? && curProp.Some? {
            if text.None? {
              return Err(UnescapeError);
            }
            cur := Some(PutText(cur.value, curProp.value, text.value));
          }
        case CData(raw) =>
          if container.None? && cur.Some? && curProp.Some? {
            cur := Some(PutText(cur.value, curProp.value, Trim(raw)));
          }
        case End(q) =>
          var name := Local(q);
          if name == "response" && cur.Some? {
            responses := responses + [cur.value];
            cur := None;
          }
          if container.Some? && (name == "resourcetype" || name == "supported-calendar-component-set") {
            container := None;
          }
          curProp := None;
        case Ignored =>
      }
    }
    assert events[..|events|] == events;
    r := Ok(responses);
  }

  // ----- invariants over every stream, well-formed or not ---------------------------

  /** No leaf property is selected inside a container, and no leaf property is ever a container's key. */
  predicate Valid(s: State) {
    && (s.container.Some? ==> s.curProp.None?)
    && (s.curProp.Some? ==> ContainerOf(s.curProp.value).None?)
  }

  lemma {:induction false} RunValid(s: State, events: seq<XmlEvent>)
    requires Valid(s)
    ensures Run(s, events).Ok? ==> Valid(Run(s, events).value)
    decreases |events|
  {
    if events != [] && Step(s, events[0]).Ok? {
      RunValid(Step(s, events[0]).value, events[1..]);
    }
  }

  /** The machine without the container guard on text and CDATA. */
  function StepUnguarded(s: State, e: XmlEvent): Result<State, XmlError> {
    match e
    case Text(text) =>
      if s.cur.Some? && s.curProp.Some? then
        if text.Some? then Ok(s.(cur := Some(PutText(s.cur.value, s.curProp.value, text.value))))
        else Err(UnescapeError)
      else Ok(s)
    case CData(raw) =>
      if s.cur.Some? && s.curProp.Some? then
        Ok(s.(cur := Some(PutText(s.cur.value, s.curProp.value, Trim(raw)))))
      else Ok(s)
    case _ => Step(s, e)
  }

  function RunUnguarded(s: State, events: seq<XmlEvent>): Result<State, XmlError>
    decreases |events|
  {
    if events == [] then Ok(s)
    else
      var next := StepUnguarded(s, events[0]);
      if next.Err? then next else RunUnguarded(next.value, events[1..])
  }

  lemma {:induction false} UnguardedFrom(s: State, events: seq<XmlEvent>)
    requires Valid(s)
    ensures RunUnguarded(s, events) == Run(s, events)
    decreases |events|
  {
    if events != [] && Step(s, events[0]).Ok? {
      assert StepUnguarded(s, events[0]) == Step(s, events[0]);
      UnguardedFrom(Step(s, events[0]).value, events[1..]);
    }
  }

  /** The guard never changes the outcome: every stream gives the same result, or the same error, without it. */
  lemma GuardIsRedundant(events: seq<XmlEvent>)
    ensures RunUnguarded(INIT, events) == Run(INIT, events)
  {
    UnguardedFrom(INIT, events);
  }

  function Lookup(props: map<string, string>, key: string): Option<string> {
    if key in props then Some(props[key]) else None
  }

  /** `after` is `before`, or `before` with one more word. */
  predicate Extends(before: Option<string>, after: Option<string>) {
    || after == before
    || (after.Some? && before.None? && after.value != "")
    || (after.Some? && before.Some? && before.value == "" && after.value != "")
    || (after.Some? && before.Some? && before.value + " " < after.value)
  }

  /**
   The two container keys only ever grow: after any stream, one more event leaves them alone or appends a
   word, unless it opens a new response.
   */
  lemma ContainerKeysOnlyGrow(events: seq<XmlEvent>, e: XmlEvent, c: Container)
    requires Run(INIT, events).Ok?
    requires var s := Run(INIT, events).value;
             s.cur.Some? && Step(s, e).Ok? && Step(s, e).value.cur.Some? && !(e.Start? && Local(e.qname) == "response")
    ensures var s := Run(INIT, events).value;
            Extends(Lookup(s.cur.value.props, ContainerKey(c)),
                    Lookup(Step(s, e).value.cur.value.props, ContainerKey(c)))
  {
    RunValid(INIT, events);
    var s := Run(INIT, events).value;
    if s.container.Some? && (e.Start? || e.Empty?) {
      var value := ChildValue(s.container.value, Local(e.qname), e.attrs);
      AppendExtends(s.cur.value.props, ContainerKey(s.container.value), value, ContainerKey(c));
    }
  }

  lemma AppendExtends(props: map<string, string>, key: string, value: string, k: string)
    ensures Extends(Lookup(props, k), Lookup(AppendProp(props, key, value), k))
  {
    if k == key && key in props && value != "" && props[key] != "" {
      assert props[key] + " " + value == (props[key] + " ") + value;
    }
  }

  /** Appending a word adds it to the words of the property and changes no other property. */
  lemma AppendAddsWord(props: map<string, string>, key: string, word: string)
    requires IsWord(word)
    ensures var after := AppendProp(props, key, word);
            && key in after && after == props[key := after[key]]
            && SplitWhitespace(after[key]) == (if key in props then SplitWhitespace(props[key]) else []) + [word]
  {
    SplitOneWord(word);
    if key in props && props[key] != "" {
      SplitSnoc(props[key], word);
    }
  }

  // ----- names ----------------------------------------------------------------------

  /** `q` is the name `l`, with a namespace prefix or without one. */
  ghost predicate Names(q: string, l: string) {
    ':' !in l && (q == l || exists prefix :: q == prefix + ":" + l)
  }

  lemma {:induction false} LocalPlain(l: string)
    requires ':' !in l
    ensures Local(l) == l
  {
    if l != "" {
      LocalPlain(l[..|l| - 1]);
      assert l[..|l| - 1] + [l[|l| - 1]] == l;
    }
  }

  lemma {:induction false} LocalPrefixed(prefix: string, l: string)
    requires ':' !in l
    ensures Local(prefix + ":" + l) == l
  {
    var q := prefix + ":" + l;
    if l == "" {
      assert q[|q| - 1] == ':';
    } else {
      var init, c := l[..|l| - 1], l[|l| - 1];
      LocalPrefixed(prefix, init);
      assert q[..|q| - 1] == prefix + ":" + init && q[|q| - 1] == c && init + [c] == l;
    }
  }

  lemma {:induction false} LocalShape(q: string) returns (prefix: string)
    ensures ':' !in Local(q)
    ensures q == Local(q) || q == prefix + ":" + Local(q)
  {
    prefix := "";
    if q != "" {
      var init, c := q[..|q| - 1], q[|q| - 1];
      assert q == init + [c];
      if c == ':' {
        prefix := init;
        assert prefix + ":" + "" == q;
      } else {
        prefix := LocalShape(init);
        if init != Local(init) {
          assert prefix + ":" + (Local(init) + [c]) == init + [c];
        }
      }
    }
  }

  /** The local name is what is left without the prefix: exactly that. */
  lemma LocalName(q: string, l: string)
    ensures Local(q) == l <==> Names(q, l)
  {
    var p := LocalShape(q);
    if Local(q) == l && q != l {
      assert q == p + ":" + l;
    }
    if Names(q, l) {
      if q == l {
        LocalPlain(l);
      } else {
        var prefix :| q == prefix + ":" + l;
        LocalPrefixed(prefix, l);
      }
    }
  }

  /** The attribute looked up is the first with that name, prefixed or not, whose value can be unescaped. */
  predicate Carries(a: Attr, name: string) {
    Local(a.qname) == name && a.value.Some?
  }

  lemma {:induction false} AttrLocalIsFirst(attrs: seq<Attr>, name: string, value: string)
    ensures AttrLocal(attrs, name) == Some(value) <==>
            exists i :: 0 <= i < |attrs| && Carries(attrs[i], name) && attrs[i].value == Some(value)
                        && forall j | 0 <= j < i :: !Carries(attrs[j], name)
  {
    if attrs != [] {
      AttrLocalIsFirst(attrs[1..], name, value);
      if !Carries(attrs[0], name) {
        if i :| 0 <= i < |attrs| && Carries(attrs[i], name) && attrs[i].value == Some(value)
                && forall j | 0 <= j < i :: !Carries(attrs[j], name) {
          assert attrs[1..][i - 1] == attrs[i];
          forall j | 0 <= j < i - 1 ensures !Carries(attrs[1..][j], name) {
            assert attrs[1..][j] == attrs[j + 1];
          }
        }
        if i :| 0 <= i < |attrs[1..]| && Carries(attrs[1..][i], name) && attrs[1..][i].value == Some(value)
                && forall j | 0 <= j < i :: !Carries(attrs[1..][j], name) {
          assert attrs[i + 1] == attrs[1..][i];
          forall j | 0 <= j < i + 1 ensures !Carries(attrs[j], name) {
            assert j > 0 ==> attrs[j] == attrs[1..][j - 1];
          }
        }
      } else {
        assert attrs[0].value == Some(value) ==> Carries(attrs[0], name);
      }
    }
  }

  /** What an element adds to a container: its own name to resourcetype, the name attribute of a comp to the set. */
  lemma ChildContributes(q: string, attrs: seq<Attr>, value: string)
    requires value != ""
    ensures ChildValue(ResourceType, Local(q), attrs) == value <==> Names(q, value)
    ensures ChildValue(CompSet, Local(q), attrs) == value <==>
            Names(q, "comp") && AttrLocal(attrs, "name") == Some(value)
  {
    LocalName(q, value);
    LocalName(q, "comp");
  }

  /** Which element is which container, and under which key it is kept. */
  lemma ContainerNames(q: string)
    ensures ContainerOf(Local(q)) == Some(ResourceType) <==> Names(q, "resourcetype")
    ensures ContainerOf(Local(q)) == Some(CompSet) <==> Names(q, "supported-calendar-component-set")
    ensures ContainerKey(ResourceType) == "resourcetype" && ContainerKey(CompSet) == "supported-calendar-component-set"
  {
    LocalName(q, "resourcetype");
    LocalName(q, "supported-calendar-component-set");
    assert |RESOURCETYPE| == 12 && |COMPSET| == 32;
  }

  // ----- prefixes do not matter -----------------------------------------------------

  /** Both are the same name, each with some prefix or none. */
  ghost predicate SameName(p: string, q: string) {
    exists l :: Names(p, l) && Names(q, l)
  }

  ghost predicate SameAttrs(a: seq<Attr>, b: seq<Attr>) {
    |a| == |b| && forall i | 0 <= i < |a| :: SameName(a[i].qname, b[i].qname) && a[i].value == b[i].value
  }

  /** The two events differ in prefixes at most. */
  ghost predicate SameEvent(a: XmlEvent, b: XmlEvent) {
    match (a, b)
    case (Start(p, x), Start(q, y)) => SameName(p, q) && SameAttrs(x, y)
    case (Empty(p, x), Empty(q, y)) => SameName(p, q) && SameAttrs(x, y)
    case (End(p), End(q)) => SameName(p, q)
    case _ => a == b
  }

  ghost predicate SameStream(a: seq<XmlEvent>, b: seq<XmlEvent>) {
    |a| == |b| && forall i | 0 <= i < |a| :: SameEvent(a[i], b[i])
  }

  lemma SameNameSameLocal(p: string, q: string)
    ensures SameName(p, q) <==> Local(p) == Local(q)
  {
    if l :| Names(p, l) && Names(q, l) {
      LocalName(p, l);
      LocalName(q, l);
    }
    LocalName(p, Local(p));
    LocalName(q, Local(q));
  }

  lemma {:induction false} SameAttrsSameValue(a: seq<Attr>, b: seq<Attr>, name: string)
    requires SameAttrs(a, b)
    ensures AttrLocal(a, name) == AttrLocal(b, name)
  {
    hide SameName;
    if a != [] {
      SameNameSameLocal(a[0].qname, b[0].qname);
      forall i | 0 <= i < |a[1..]|
        ensures SameName(a[1..][i].qname, b[1..][i].qname) && a[1..][i].value == b[1..][i].value
      {
        assert a[1..][i] == a[i + 1] && b[1..][i] == b[i + 1];
      }
      SameAttrsSameValue(a[1..], b[1..], name);
    }
  }

  lemma SameStep(s: State, a: XmlEvent, b: XmlEvent)
    requires SameEvent(a, b)
    ensures Step(s, a) == Step(s, b)
  {
    hide SameName;
    hide SameAttrs;
    match a {
      case Start(p, x) =>
        SameNameSameLocal(p, b.qname);
        SameAttrsSameValue(x, b.attrs, "name");
      case Empty(p, x) =>
        SameNameSameLocal(p, b.qname);
        SameAttrsSameValue(x, b.attrs, "name");
      case End(p) => SameNameSameLocal(p, b.qname);
      case _ =>
    }
  }

  lemma SameRest(a: seq<XmlEvent>, b: seq<XmlEvent>)
    requires SameStream(a, b) && a != []
    ensures SameEvent(a[0], b[0]) && SameStream(a[1..], b[1..])
  {
    hide SameEvent;
    forall i | 0 <= i < |a[1..]| ensures SameEvent(a[1..][i], b[1..][i]) {
      assert a[1..][i] == a[i + 1] && b[1..][i] == b[i + 1];
    }
  }

  /** Two bodies that differ in namespace prefixes only are parsed alike, from any state. */
  lemma {:induction false} PrefixesDoNotMatter(s: State, a: seq<XmlEvent>, b: seq<XmlEvent>)
    requires SameStream(a, b)
    ensures Run(s, a) == Run(s, b)
    decreases |a|
  {
    hide SameEvent;
    if a != [] {
      SameRest(a, b);
      SameStep(s, a[0], b[0]);
      if Step(s, a[0]).Ok? {
        PrefixesDoNotMatter(Step(s, a[0]).value, a[1..], b[1..]);
      }
    }
  }
}
