/**
 The multistatus machine as a projection of the XML tree. For every tree in which responses do not nest and
 containers hold no element that would close them, the machine yields one entry per response, in document
 order, and each entry is described by three lists read off the tree by recursion.
 */
module MultistatusTree {
  import opened Wrappers
  import opened Chars
  import opened Multistatus

  datatype Node =
    | Elem(qname: string, attrs: seq<Attr>, children: seq<Node>)
    | EmptyElem(qname: string, attrs: seq<Attr>)
    | Chars(text: string)
    | CDataNode(raw: string)
    | Misc                         // a declaration, comment or processing instruction

  function Events(node: Node): seq<XmlEvent> {
    match node
    case Elem(q, attrs, children) => [Start(q, attrs)] + EventsOf(children) + [End(q)]
    case EmptyElem(q, attrs) => [Empty(q, attrs)]
    case Chars(text) => [Text(Some(text))]
    case CDataNode(raw) => [CData(raw)]
    case Misc => [Ignored]
  }

  function EventsOf(nodes: seq<Node>): seq<XmlEvent> {
    if nodes == [] then [] else Events(nodes[0]) + EventsOf(nodes[1..])
  }

  // ----- which trees ----------------------------------------------------------------

  /** No element below is a response or a container written with a start tag. */
  predicate Sealed(nodes: seq<Node>) {
    nodes != [] ==>
      && (nodes[0].Elem? ==>
            && Local(nodes[0].qname) != "response" && ContainerOf(Local(nodes[0].qname)).None?
            && Sealed(nodes[0].children))
      && Sealed(nodes[1..])
  }

  /** Responses do not nest and containers are sealed. */
  predicate WellNested(nodes: seq<Node>, inResponse: bool) {
    nodes != [] ==>
      && (nodes[0].Elem? ==>
            var name := Local(nodes[0].qname);
            if ContainerOf(name).Some? then Sealed(nodes[0].children)
            else if name == "response" then !inResponse && WellNested(nodes[0].children, true)
            else WellNested(nodes[0].children, inResponse))
      && WellNested(nodes[1..], inResponse)
  }

  // ----- the projection -------------------------------------------------------------

  datatype Leaf = Leaf(prop: string, text: string)

  /** Text `t` read while `active` names the enclosing property. */
  function LeafText(active: Option<string>, t: string): seq<Leaf> {
    if active.Some? then [Leaf(active.value, t)] else []
  }

  /**
   The property texts below, in document order. Text counts for the element it stands in as long as no child
   element with a start tag precedes it there.
   */
  function Leaves(nodes: seq<Node>, active: Option<string>): seq<Leaf> {
    if nodes == [] then []
    else
      match nodes[0]
      case Chars(t) => LeafText(active, t) + Leaves(nodes[1..], active)
      case CDataNode(raw) => LeafText(active, Trim(raw)) + Leaves(nodes[1..], active)
      case EmptyElem(_, _) => Leaves(nodes[1..], active)
      case Misc => Leaves(nodes[1..], active)
      case Elem(q, _, children) =>
        (if ContainerOf(Local(q)).Some? then [] else Leaves(children, Some(Local(q)))) + Leaves(nodes[1..], None)
  }

  /** What the elements below a container contribute, in preorder. */
  function Members(nodes: seq<Node>, c: Container): seq<string> {
    if nodes == [] then []
    else
      match nodes[0]
      case Elem(q, attrs, children) =>
        [ChildValue(c, Local(q), attrs)] + Members(children, c) + Members(nodes[1..], c)
      case EmptyElem(q, attrs) => [ChildValue(c, Local(q), attrs)] + Members(nodes[1..], c)
      case _ => Members(nodes[1..], c)
  }

  /** The members of all containers of kind `c` below. */
  function Contained(nodes: seq<Node>, c: Container): seq<string> {
    if nodes == [] then []
    else if nodes[0].Elem? then
      var kind := ContainerOf(Local(nodes[0].qname));
      (if kind.None? then Contained(nodes[0].children, c)
       else if kind.value == c then Members(nodes[0].children, c)
       else []) + Contained(nodes[1..], c)
    else Contained(nodes[1..], c)
  }

  /** A response element: its children, and the property name still selected where it starts. */
  datatype Found = Found(active: Option<string>, children: seq<Node>)

  /** The response elements below, in document order. */
  function Responses(nodes: seq<Node>, active: Option<string>): seq<Found> {
    if nodes == [] then []
    else if nodes[0].Elem? then
      var name := Local(nodes[0].qname);
      (if ContainerOf(name).Some? then []
       else if name == "response" then [Found(active, nodes[0].children)]
       else Responses(nodes[0].children, Some(name))) + Responses(nodes[1..], None)
    else Responses(nodes[1..], active)
  }

  /** The first non-empty href. */
  function FirstHref(leaves: seq<Leaf>): string {
    if leaves == [] then ""
    else
      var before := FirstHref(leaves[..|leaves| - 1]);
      var last := leaves[|leaves| - 1];
      if before == "" && last.prop == "href" then last.text else before
  }

  /** The last text of property `key`; an href counts only after the entry has its own. */
  function LastText(leaves: seq<Leaf>, key: string): Option<string> {
    if leaves == [] then None
    else
      var init, last := leaves[..|leaves| - 1], leaves[|leaves| - 1];
      if last.prop == key && !(key == "href" && FirstHref(init) == "") then Some(last.text)
      else LastText(init, key)
  }

  function Expected(leaves: seq<Leaf>, types: seq<string>, comps: seq<string>, key: string): Option<string> {
    if key == RESOURCETYPE then Joined(types)
    else if key == COMPSET then Joined(comps)
    else LastText(leaves, key)
  }

  /** `r` is the entry of a response with these texts, resource types and components: all of it. */
  ghost predicate Represents(r: DavResponse, leaves: seq<Leaf>, types: seq<string>, comps: seq<string>) {
    r.href == FirstHref(leaves) && forall key :: Lookup(r.props, key) == Expected(leaves, types, comps, key)
  }

  ghost predicate IsEntry(r: DavResponse, f: Found) {
    Represents(r, Leaves(f.children, f.active), Contained(f.children, ResourceType), Contained(f.children, CompSet))
  }

  // ----- one event keeps the description --------------------------------------------

  lemma PutTextRepresents(r: DavResponse, leaves: seq<Leaf>, types: seq<string>, comps: seq<string>, prop: string,
                          text: string)
    requires Represents(r, leaves, types, comps) && ContainerOf(prop).None?
    ensures Represents(PutText(r, prop, text), leaves + [Leaf(prop, text)], types, comps)
  {
    var after := leaves + [Leaf(prop, text)];
    assert after[..|after| - 1] == leaves;
    forall key ensures Lookup(PutText(r, prop, text).props, key) == Expected(after, types, comps, key) {
      assert Lookup(r.props, key) == Expected(leaves, types, comps, key);
    }
  }

  lemma AppendLooks(props: map<string, string>, key: string, words: seq<string>, value: string, other: string)
    requires Lookup(props, key) == Joined(words)
    ensures Lookup(AppendProp(props, key, value), other) ==
            if other == key then Joined(words + [value]) else Lookup(props, other)
  {
    JoinedSnoc(words, value);
  }

  lemma AppendRepresents(r: DavResponse, leaves: seq<Leaf>, types: seq<string>, comps: seq<string>, c: Container,
                         value: string)
    requires Represents(r, leaves, types, comps)
    ensures var r' := r.(props := AppendProp(r.props, ContainerKey(c), value));
            if c == ResourceType then Represents(r', leaves, types + [value], comps)
            else Represents(r', leaves, types, comps + [value])
  {
    var words := if c == ResourceType then types else comps;
    assert Lookup(r.props, ContainerKey(c)) == Expected(leaves, types, comps, ContainerKey(c)) == Joined(words);
    forall key
      ensures Lookup(AppendProp(r.props, ContainerKey(c), value), key) ==
              if key == ContainerKey(c) then Joined(words + [value]) else Expected(leaves, types, comps, key)
    {
      assert Lookup(r.props, key) == Expected(leaves, types, comps, key);
      AppendLooks(r.props, ContainerKey(c), words, value, key);
    }
  }

  lemma {:induction false} JoinedSnoc(words: seq<string>, value: string)
    ensures Joined(words + [value]) ==
            if value == "" then Joined(words)
            else if Joined(words).None? then Some(value)
            else Some(Joined(words).value + " " + value)
    ensures Joined(words).Some? ==> Joined(words).value != ""
    decreases |words|
  {
    assert (words + [value])[..|words|] == words;
    if words != [] {
      var init, last := words[..|words| - 1], words[|words| - 1];
      JoinedSnoc(init, last);
      assert init + [last] == words;
    }
  }

  // ----- containers -----------------------------------------------------------------

  function Added(r: DavResponse, c: Container, values: seq<string>): DavResponse
    decreases |values|
  {
    if values == [] then r
    else Added(r.(props := AppendProp(r.props, ContainerKey(c), values[0])), c, values[1..])
  }

  lemma {:induction false} AddedConcat(r: DavResponse, c: Container, a: seq<string>, b: seq<string>)
    ensures Added(r, c, a + b) == Added(Added(r, c, a), c, b)
    decreases |a|
  {
    if a == [] {
      assert a + b == b;
    } else {
      assert (a + b)[0] == a[0] && (a + b)[1..] == a[1..] + b;
      AddedConcat(r.(props := AppendProp(r.props, ContainerKey(c), a[0])), c, a[1..], b);
    }
  }

  lemma {:induction false} AddedRepresents(r: DavResponse, leaves: seq<Leaf>, types: seq<string>, comps: seq<string>,
                                          c: Container, values: seq<string>)
    requires Represents(r, leaves, types, comps)
    ensures if c == ResourceType then Represents(Added(r, c, values), leaves, types + values, comps)
            else Represents(Added(r, c, values), leaves, types, comps + values)
    decreases |values|
  {
    if values == [] {
      assert types + values == types && comps + values == comps;
    } else {
      AppendRepresents(r, leaves, types, comps, c, values[0]);
      var r' := r.(props := AppendProp(r.props, ContainerKey(c), values[0]));
      if c == ResourceType {
        AddedRepresents(r', leaves, types + [values[0]], comps, c, values[1..]);
        assert types + [values[0]] + values[1..] == types + values;
      } else {
        AddedRepresents(r', leaves, types, comps + [values[0]], c, values[1..]);
        assert comps + [values[0]] + values[1..] == comps + values;
      }
    }
  }

  /** Inside a container the machine only appends member values; outside a response it does nothing. */
  lemma {:induction false} RunContainer(nodes: seq<Node>, s: State)
    requires Sealed(nodes) && s.container.Some? && s.curProp.None?
    ensures Run(s, EventsOf(nodes)) ==
            Ok(if s.cur.None? then s
               else s.(cur := Some(Added(s.cur.value, s.container.value, Members(nodes, s.container.value)))))
    decreases nodes
  {
    if nodes != [] {
      var c := s.container.value;
      var first, rest := nodes[0], nodes[1..];
      RunConcat(s, Events(first), EventsOf(rest));
      match first {
        case Elem(q, attrs, children) =>
          var s1 := Collected(s, Local(q), attrs);
          RunConcat(s, [Start(q, attrs)] + EventsOf(children), [End(q)]);
          RunConcat(s, [Start(q, attrs)], EventsOf(children));
          RunOne(s, Start(q, attrs));
          RunContainer(children, s1);
          var s2 := Run(s1, EventsOf(children)).value;
          RunOne(s2, End(q));
          RunContainer(rest, s2);
          if s.cur.Some? {
            AddedConcat(s.cur.value, c, [ChildValue(c, Local(q), attrs)], Members(children, c));
            AddedConcat(s.cur.value, c, [ChildValue(c, Local(q), attrs)] + Members(children, c), Members(rest, c));
          }
        case EmptyElem(q, attrs) =>
          var s1 := Collected(s, Local(q), attrs);
          RunOne(s, Empty(q, attrs));
          RunContainer(rest, s1);
          if s.cur.Some? {
            AddedConcat(s.cur.value, c, [ChildValue(c, Local(q), attrs)], Members(rest, c));
          }
        case Chars(t) =>
          RunOne(s, Text(Some(t)));
          RunContainer(rest, s);
        case CDataNode(raw) =>
          RunOne(s, CData(raw));
          RunContainer(rest, s);
        case Misc =>
          RunOne(s, Ignored);
          RunContainer(rest, s);
      }
    }
  }

  lemma RunContainerElem(q: string, attrs: seq<Attr>, children: seq<Node>, s: State)
    requires s.container.None? && ContainerOf(Local(q)).Some? && Sealed(children)
    ensures var c := ContainerOf(Local(q)).value;
            Run(s, Events(Elem(q, attrs, children))) ==
            Ok(State(s.responses,
                     if s.cur.None? then None else Some(Added(s.cur.value, c, Members(children, c))), None, None))
  {
    var c := ContainerOf(Local(q)).value;
    var s1 := s.(container := Some(c), curProp := None);
    RunConcat(s, [Start(q, attrs)] + EventsOf(children), [End(q)]);
    RunConcat(s, [Start(q, attrs)], EventsOf(children));
    RunOne(s, Start(q, attrs));
    RunContainer(children, s1);
    RunOne(Run(s1, EventsOf(children)).value, End(q));
  }

  // ----- inside a response ----------------------------------------------------------

  /** Which property is selected after these children: an element with a start tag deselects. */
  function ActiveAfter(nodes: seq<Node>, active: Option<string>): Option<string> {
    if nodes == [] then active else ActiveAfter(nodes[1..], if nodes[0].Elem? then None else active)
  }

  ghost predicate InResponse(s: State, leaves: seq<Leaf>, types: seq<string>, comps: seq<string>) {
    Valid(s) && s.container.None? && s.cur.Some? && Represents(s.cur.value, leaves, types, comps)
  }

  lemma RunText(s: State, e: XmlEvent, text: string, leaves: seq<Leaf>, types: seq<string>, comps: seq<string>)
    requires InResponse(s, leaves, types, comps)
    requires e == Text(Some(text)) || (e.CData? && text == Trim(e.raw))
    ensures Run(s, [e]) == Ok(Stored(s, text))
    ensures InResponse(Stored(s, text), leaves + LeafText(s.curProp, text), types, comps)
  {
    RunOne(s, e);
    if s.curProp.Some? {
      PutTextRepresents(s.cur.value, leaves, types, comps, s.curProp.value, text);
    } else {
      assert leaves + [] == leaves;
    }
  }

  lemma RunElem(first: Node, s: State, leaves: seq<Leaf>, types: seq<string>, comps: seq<string>) returns (s': State)
    requires InResponse(s, leaves, types, comps)
    requires first.Elem? && ContainerOf(Local(first.qname)).Some? && Sealed(first.children)
    ensures Run(s, Events(first)) == Ok(s') && s'.responses == s.responses && s'.curProp == None
    ensures InResponse(s', leaves, types + Contained([first], ResourceType), comps + Contained([first], CompSet))
  {
    var c := ContainerOf(Local(first.qname)).value;
    var members := Members(first.children, c);
    RunContainerElem(first.qname, first.attrs, first.children, s);
    AddedRepresents(s.cur.value, leaves, types, comps, c, members);
    s' := State(s.responses, Some(Added(s.cur.value, c, members)), None, None);
    assert [first][1..] == [];
    assert members + [] == members && types + [] == types && comps + [] == comps;
  }

  lemma ContainedStep(nodes: seq<Node>, c: Container)
    requires nodes != []
    ensures Contained(nodes, c) == Contained([nodes[0]], c) + Contained(nodes[1..], c)
  {
    assert [nodes[0]][1..] == [];
  }

  lemma Regroup(s: State, leaves: seq<Leaf>, l1: seq<Leaf>, l2: seq<Leaf>, types: seq<string>, t1: seq<string>,
                t2: seq<string>,
                comps: seq<string>, c1: seq<string>, c2: seq<string>)
    requires InResponse(s, leaves + l1 + l2, types + t1 + t2, comps + c1 + c2)
    ensures InResponse(s, leaves + (l1 + l2), types + (t1 + t2), comps + (c1 + c2))
  {
    assert leaves + l1 + l2 == leaves + (l1 + l2);
    assert types + t1 + t2 == types + (t1 + t2);
    assert comps + c1 + c2 == comps + (c1 + c2);
  }

  /** The children of a response extend the three lists by what the tree says, and nothing else changes. */
  lemma {:induction false} RunChildren(nodes: seq<Node>, s: State, leaves: seq<Leaf>, types: seq<string>,
                                       comps: seq<string>)
    returns (s': State)
    requires WellNested(nodes, true) && InResponse(s, leaves, types, comps)
    ensures Run(s, EventsOf(nodes)) == Ok(s')
    ensures s'.responses == s.responses && s'.curProp == ActiveAfter(nodes, s.curProp)
    ensures InResponse(s', leaves + Leaves(nodes, s.curProp), types + Contained(nodes, ResourceType),
                       comps + Contained(nodes, CompSet))
    decreases nodes, 1
  {
    if nodes == [] {
      s' := s;
      assert leaves + [] == leaves && types + [] == types && comps + [] == comps;
    } else {
      var first, rest := nodes[0], nodes[1..];
      RunConcat(s, Events(first), EventsOf(rest));
      var s1, more := RunFirst(nodes, s, leaves, types, comps);
      ContainedStep(nodes, ResourceType);
      ContainedStep(nodes, CompSet);
      var t, k := Contained([first], ResourceType), Contained([first], CompSet);
      s' := RunChildren(rest, s1, leaves + more, types + t, comps + k);
      Regroup(s', leaves, more, Leaves(rest, s1.curProp), types, t, Contained(rest, ResourceType),
              comps, k, Contained(rest, CompSet));
    }
  }

  lemma {:induction false} RunFirst(nodes: seq<Node>, s: State, leaves: seq<Leaf>, types: seq<string>,
                                    comps: seq<string>)
    returns (s1: State, more: seq<Leaf>)
    requires nodes != [] && WellNested(nodes, true) && InResponse(s, leaves, types, comps)
    ensures Run(s, Events(nodes[0])) == Ok(s1) && s1.responses == s.responses
    ensures s1.curProp == if nodes[0].Elem? then None else s.curProp
    ensures InResponse(s1, leaves + more, types + Contained([nodes[0]], ResourceType),
                       comps + Contained([nodes[0]], CompSet))
    ensures Leaves(nodes, s.curProp) == more + Leaves(nodes[1..], s1.curProp)
    decreases nodes, 0
  {
    var first := nodes[0];
    assert [first][1..] == [];
    if !first.Elem? {
      assert types + [] == types && comps + [] == comps && leaves + [] == leaves;
    }
    match first {
      case Chars(t) =>
        RunText(s, Text(Some(t)), t, leaves, types, comps);
        s1, more := Stored(s, t), LeafText(s.curProp, t);
      case CDataNode(raw) =>
        RunText(s, CData(raw), Trim(raw), leaves, types, comps);
        s1, more := Stored(s, Trim(raw)), LeafText(s.curProp, Trim(raw));
      case EmptyElem(q, attrs) =>
        RunOne(s, Empty(q, attrs));
        s1, more := s, [];
        assert more + Leaves(nodes[1..], s.curProp) == Leaves(nodes[1..], s.curProp);
      case Misc =>
        RunOne(s, Ignored);
        s1, more := s, [];
        assert more + Leaves(nodes[1..], s.curProp) == Leaves(nodes[1..], s.curProp);
      case Elem(q, attrs, children) =>
        if ContainerOf(Local(q)).Some? {
          s1 := RunElem(first, s, leaves, types, comps);
          more := [];
          assert leaves + [] == leaves;
        } else {
          var open := s.(curProp := Some(Local(q)));
          RunConcat(s, [Start(q, attrs)] + EventsOf(children), [End(q)]);
          RunConcat(s, [Start(q, attrs)], EventsOf(children));
          RunOne(s, Start(q, attrs));
          var done := RunChildren(children, open, leaves, types, comps);
          RunOne(done, End(q));
          s1, more := done.(curProp := None), Leaves(children, Some(Local(q)));
          assert Contained([first], ResourceType)
                 == Contained(children, ResourceType) + [] == Contained(children, ResourceType);
          assert Contained([first], CompSet) == Contained(children, CompSet) + [] == Contained(children, CompSet);
        }
    }
  }

  // ----- whole documents ------------------------------------------------------------

  ghost predicate AreEntries(rs: seq<DavResponse>, found: seq<Found>) {
    |rs| == |found| && forall i | 0 <= i < |rs| :: IsEntry(rs[i], found[i])
  }

  lemma EntriesConcat(a: seq<DavResponse>, f: seq<Found>, b: seq<DavResponse>, g: seq<Found>)
    requires AreEntries(a, f) && AreEntries(b, g)
    ensures AreEntries(a + b, f + g)
  {
  }

  lemma RunResponse(q: string, attrs: seq<Attr>, children: seq<Node>, s: State) returns (r: DavResponse)
    requires Local(q) == "response" && WellNested(children, true)
    requires Valid(s) && s.cur.None? && s.container.None?
    ensures Run(s, Events(Elem(q, attrs, children))) == Ok(State(s.responses + [r], None, None, None))
    ensures IsEntry(r, Found(s.curProp, children))
  {
    var fresh_ := DavResponse("", map[]);
    var open := s.(cur := Some(fresh_));
    RunConcat(s, [Start(q, attrs)] + EventsOf(children), [End(q)]);
    RunConcat(s, [Start(q, attrs)], EventsOf(children));
    RunOne(s, Start(q, attrs));
    assert Represents(fresh_, [], [], []);
    var done := RunChildren(children, open, [], [], []);
    RunOne(done, End(q));
    r := done.cur.value;
    assert [] + Leaves(children, s.curProp) == Leaves(children, s.curProp);
    assert [] + Contained(children, ResourceType) == Contained(children, ResourceType);
    assert [] + Contained(children, CompSet) == Contained(children, CompSet);
  }

  /** The state between responses. */
  function Between(s: State, rs: seq<DavResponse>, active: Option<string>): State {
    State(s.responses + rs, None, active, None)
  }

  lemma BetweenTwice(s: State, a: seq<DavResponse>, b: seq<DavResponse>, x: Option<string>, y: Option<string>)
    ensures Between(Between(s, a, x), b, y) == Between(s, a + b, y)
  {
    assert s.responses + a + b == s.responses + (a + b);
  }

  predicate Outside(s: State) {
    Valid(s) && s.cur.None? && s.container.None?
  }

  lemma ResponsesStep(nodes: seq<Node>, active: Option<string>)
    requires nodes != []
    ensures Responses(nodes, active) ==
            Responses([nodes[0]], active) + Responses(nodes[1..], if nodes[0].Elem? then None else active)
  {
    assert [nodes[0]][1..] == [];
  }

  lemma ResponsesOne(q: string, attrs: seq<Attr>, children: seq<Node>, active: Option<string>)
    ensures Responses([Elem(q, attrs, children)], active) ==
            if ContainerOf(Local(q)).Some? then []
            else if Local(q) == "response" then [Found(active, children)]
            else Responses(children, Some(Local(q)))
  {
    assert [Elem(q, attrs, children)][1..] == [];
  }

  lemma RunOther(node: Node, s: State)
    requires Outside(s) && !node.Elem?
    ensures Run(s, Events(node)) == Ok(Between(s, [], s.curProp))
    ensures Responses([node], s.curProp) == []
  {
    assert s.responses + [] == s.responses && [node][1..] == [];
    match node {
      case Chars(t) => RunOne(s, Text(Some(t)));
      case CDataNode(raw) => RunOne(s, CData(raw));
      case EmptyElem(q, attrs) => RunOne(s, Empty(q, attrs));
      case Misc => RunOne(s, Ignored);
    }
  }

  /** An element that is neither a response nor a container: its children decide. */
  lemma RunPlain(q: string, attrs: seq<Attr>, children: seq<Node>, s: State, rs: seq<DavResponse>,
                 active: Option<string>)
    requires Outside(s) && Local(q) != "response" && ContainerOf(Local(q)).None?
    requires Run(s.(curProp := Some(Local(q))), EventsOf(children)) == Ok(Between(s, rs, active))
    ensures Run(s, Events(Elem(q, attrs, children))) == Ok(Between(s, rs, None))
  {
    RunConcat(s, [Start(q, attrs)] + EventsOf(children), [End(q)]);
    RunConcat(s, [Start(q, attrs)], EventsOf(children));
    RunOne(s, Start(q, attrs));
    RunOne(Between(s, rs, active), End(q));
  }

  lemma {:induction false} RunNode(node: Node, s: State) returns (rs: seq<DavResponse>)
    requires WellNested([node], false) && Outside(s)
    ensures Run(s, Events(node)) == Ok(Between(s, rs, if node.Elem? then None else s.curProp))
    ensures AreEntries(rs, Responses([node], s.curProp))
    decreases node, 0
  {
    rs := [];
    if !node.Elem? {
      RunOther(node, s);
    } else {
      var q, attrs, children := node.qname, node.attrs, node.children;
      ResponsesOne(q, attrs, children, s.curProp);
      if ContainerOf(Local(q)).Some? {
        RunContainerElem(q, attrs, children, s);
        assert s.responses + [] == s.responses;
      } else if Local(q) == "response" {
        var r := RunResponse(q, attrs, children, s);
        rs := [r];
      } else {
        var open := s.(curProp := Some(Local(q)));
        rs := RunDocument(children, open);
        RunPlain(q, attrs, children, s, rs, ActiveAfter(children, open.curProp));
      }
    }
  }

  lemma {:induction false} RunDocument(nodes: seq<Node>, s: State) returns (rs: seq<DavResponse>)
    requires WellNested(nodes, false) && Outside(s)
    ensures Run(s, EventsOf(nodes)) == Ok(Between(s, rs, ActiveAfter(nodes, s.curProp)))
    ensures AreEntries(rs, Responses(nodes, s.curProp))
    decreases nodes, 1
  {
    if nodes == [] {
      rs := [];
      assert s.responses + [] == s.responses;
    } else {
      var first, rest := nodes[0], nodes[1..];
      RunConcat(s, Events(first), EventsOf(rest));
      WellNestedParts(nodes, false);
      var mine := RunNode(first, s);
      var s1 := Between(s, mine, if first.Elem? then None else s.curProp);
      var others := RunDocument(rest, s1);
      rs := mine + others;
      BetweenTwice(s, mine, others, s1.curProp, ActiveAfter(rest, s1.curProp));
      ResponsesStep(nodes, s.curProp);
      EntriesConcat(mine, Responses([first], s.curProp), others, Responses(rest, s1.curProp));
    }
  }

  lemma WellNestedParts(nodes: seq<Node>, inResponse: bool)
    requires nodes != [] && WellNested(nodes, inResponse)
    ensures WellNested([nodes[0]], inResponse) && WellNested(nodes[1..], inResponse)
  {
    assert [nodes[0]][1..] == [];
  }

  /** The parser, run on the events of any such tree, returns exactly the entries of its responses. */
  lemma ParseIsProjection(nodes: seq<Node>)
    requires WellNested(nodes, false)
    ensures ResponsesOf(Run(INIT, EventsOf(nodes))).Ok?
    ensures AreEntries(ResponsesOf(Run(INIT, EventsOf(nodes))).value, Responses(nodes, None))
  {
    var rs := RunDocument(nodes, INIT);
    assert [] + rs == rs;
  }

  /** The description leaves no room: two entries of one response are equal. */
  lemma EntryUnique(a: DavResponse, b: DavResponse, f: Found)
    requires IsEntry(a, f) && IsEntry(b, f)
    ensures a == b
  {
    forall key ensures Lookup(a.props, key) == Lookup(b.props, key) {
    }
    forall key ensures key in a.props <==> key in b.props {
      assert Lookup(a.props, key) == Lookup(b.props, key);
    }
    forall key | key in a.props ensures a.props[key] == b.props[key] {
      assert Lookup(a.props, key) == Lookup(b.props, key);
    }
    assert a.props == b.props;
  }

  // ----- prefixes do not matter -----------------------------------------------------

  /** The two trees differ in namespace prefixes of elements and attributes at most. */
  ghost predicate SameTree(a: seq<Node>, b: seq<Node>) {
    |a| == |b| &&
    (a != [] ==> SameNode(a[0], b[0]) && SameTree(a[1..], b[1..]))
  }

  ghost predicate SameNode(a: Node, b: Node) {
    match (a, b)
    case (Elem(p, x, kids), Elem(q, y, others)) => SameName(p, q) && SameAttrs(x, y) && SameTree(kids, others)
    case (EmptyElem(p, x), EmptyElem(q, y)) => SameName(p, q) && SameAttrs(x, y)
    case _ => a == b
  }

  lemma SameStreams(a: seq<XmlEvent>, b: seq<XmlEvent>, x: seq<XmlEvent>, y: seq<XmlEvent>)
    requires SameStream(a, b) && SameStream(x, y)
    ensures SameStream(a + x, b + y)
  {
    hide SameEvent;
  }

  lemma SameOne(a: XmlEvent, b: XmlEvent)
    requires SameEvent(a, b)
    ensures SameStream([a], [b])
  {
    hide SameEvent;
  }

  lemma {:induction false} SameNodeEvents(a: Node, b: Node)
    requires SameNode(a, b)
    ensures SameStream(Events(a), Events(b))
    decreases a, 0
  {
    hide SameName;
    hide SameAttrs;
    hide SameStream;
    match a {
      case Elem(p, x, kids) =>
        SameTreeEvents(kids, b.children);
        SameOne(Start(p, x), Start(b.qname, b.attrs));
        SameOne(End(p), End(b.qname));
        SameStreams([Start(p, x)], [Start(b.qname, b.attrs)], EventsOf(kids), EventsOf(b.children));
        SameStreams([Start(p, x)] + EventsOf(kids), [Start(b.qname, b.attrs)] + EventsOf(b.children),
                    [End(p)], [End(b.qname)]);
      case EmptyElem(p, x) => SameOne(Empty(p, x), Empty(b.qname, b.attrs));
      case Chars(t) => SameOne(Text(Some(t)), Text(Some(t)));
      case CDataNode(raw) => SameOne(CData(raw), CData(raw));
      case Misc => SameOne(Ignored, Ignored);
    }
  }

  lemma {:induction false} SameTreeEvents(a: seq<Node>, b: seq<Node>)
    requires SameTree(a, b)
    ensures SameStream(EventsOf(a), EventsOf(b))
    decreases a, 1
  {
    hide SameNode;
    if a != [] {
      SameNodeEvents(a[0], b[0]);
      SameTreeEvents(a[1..], b[1..]);
      SameStreams(Events(a[0]), Events(b[0]), EventsOf(a[1..]), EventsOf(b[1..]));
    }
  }

  /** A body parses to the same entries, or fails alike, whatever prefixes its names carry. */
  lemma ParseIgnoresPrefixes(a: seq<Node>, b: seq<Node>)
    requires SameTree(a, b)
    ensures ResponsesOf(Run(INIT, EventsOf(a))) == ResponsesOf(Run(INIT, EventsOf(b)))
  {
    SameTreeEvents(a, b);
    PrefixesDoNotMatter(INIT, EventsOf(a), EventsOf(b));
  }
}
