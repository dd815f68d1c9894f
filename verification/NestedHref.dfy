/**
 The second XML pass: the text of an href inside a named property. Two counters stand in for the stack of
 open elements; the theorems say when that is enough and what the pass finds in the tree.
 */
module NestedHref {
  import opened Wrappers
  import opened Multistatus
  import opened MultistatusTree

  datatype Scan = Scanning(depth: nat, inHref: bool) | Hit(text: string) | Failed(error: XmlError)

  function StepHref(s: Scan, e: XmlEvent, target: string): Scan
    requires s.Scanning?
  {
    match e
    case Malformed => Failed(LexError)
    case Start(q, _) =>
      if Local(q) == target then s.(depth := s.depth + 1)
      else if s.depth > 0 && Local(q) == "href" then s.(inHref := true)
      else s
    case Text(text) =>
      if s.depth > 0 && s.inHref then (if text.Some? then Hit(text.value) else Failed(UnescapeError)) else s
    case End(q) =>
      if Local(q) == target then s.(depth := if s.depth == 0 then 0 else s.depth - 1)
      else if Local(q) == "href" then s.(inHref := false)
      else s
    case _ => s
  }

  function RunHref(s: Scan, events: seq<XmlEvent>, target: string): Scan
    decreases |events|
  {
    if events == [] || !s.Scanning? then s else RunHref(StepHref(s, events[0], target), events[1..], target)
  }

  function Answer(s: Scan): Result<Option<string>, XmlError> {
    match s
    case Scanning(_, _) => Ok(None)
    case Hit(text) => Ok(Some(text))
    case Failed(e) => Err(e)
  }

  /** The loop of the pass, with its two variables and its saturating decrement. */
  method FindNestedHref(events: seq<XmlEvent>, target: string) returns (r: Result<Option<string>, XmlError>)
    ensures r == Answer(RunHref(Scanning(0, false), events, target))
  {
    var depth: nat := 0;
    var inHref := false;
    assert events[0..] == events;
    for i := 0 to |events|
      invariant RunHref(Scanning(0, false), events, target) == RunHref(Scanning(depth, inHref), events[i..], target)
    {
      assert events[i..][0] == events[i] && events[i..][1..] == events[i + 1..];
      match events[i] {
        case Malformed => return Err(LexError);
        case Start(q, _) =>
          if Local(q) == target {
            depth := depth + 1;
          } else if depth > 0 && Local(q) == "href" {
            inHref := true;
          }
        case Text(text) =>
          if depth > 0 && inHref {
            return if text.Some? then Ok(text) else Err(UnescapeError);
          }
        case End(q) =>
          if Local(q) == target {
            depth := if depth > 0 then depth - 1 else 0;
          } else if Local(q) == "href" {
            inHref := false;
          }
        case _ =>
      }
    }
    r := Ok(None);
  }

  // ----- the counters against the stack of open elements ----------------------------

  /** The names of the open elements after `events`, or nothing when an end tag does not match. */
  function Open(stack: seq<string>, events: seq<XmlEvent>): Option<seq<string>>
    decreases |events|
  {
    if events == [] then Some(stack)
    else
      match events[0]
      case Start(q, _) => Open(stack + [Local(q)], events[1..])
      case End(q) =>
        if stack == [] || stack[|stack| - 1] != Local(q) then None else Open(stack[..|stack| - 1], events[1..])
      case _ => Open(stack, events[1..])
  }

  function Count(stack: seq<string>, name: string): nat {
    if stack == [] then 0
    else Count(stack[..|stack| - 1], name) + if stack[|stack| - 1] == name then 1 else 0
  }

  /** An href is open that was opened under the target. */
  predicate UnderTarget(stack: seq<string>, target: string) {
    stack != [] &&
    (UnderTarget(stack[..|stack| - 1], target)
     || (stack[|stack| - 1] == "href" && target != "href" && Count(stack[..|stack| - 1], target) > 0))
  }

  /** No href is open inside another one. */
  predicate Unnested(stack: seq<string>) {
    Count(stack, "href") <= 1
  }

  /** At no point of the stream is an href open inside another. */
  predicate HrefsUnnested(stack: seq<string>, events: seq<XmlEvent>)
    decreases |events|
  {
    Unnested(stack) && (events != [] ==>
      match events[0]
      case Start(q, _) => HrefsUnnested(stack + [Local(q)], events[1..])
      case End(q) => stack != [] ==> HrefsUnnested(stack[..|stack| - 1], events[1..])
      case _ => HrefsUnnested(stack, events[1..]))
  }

  ghost predicate Tracks(s: Scan, stack: seq<string>, target: string) {
    s.Scanning? && s.depth == Count(stack, target) && s.inHref == UnderTarget(stack, target)
  }

  lemma {:induction false} UnderTargetCounts(stack: seq<string>, target: string)
    ensures UnderTarget(stack, target) ==> Count(stack, target) > 0 && Count(stack, "href") > 0
  {
    if stack != [] {
      UnderTargetCounts(stack[..|stack| - 1], target);
    }
  }

  /** What opening an element called `name` does to the two readings of the stack. */
  lemma Pushed(stack: seq<string>, name: string, target: string)
    ensures Count(stack + [name], target) == Count(stack, target) + if name == target then 1 else 0
    ensures UnderTarget(stack + [name], target) ==
            (UnderTarget(stack, target) || (name == "href" && target != "href" && Count(stack, target) > 0))
  {
    assert (stack + [name])[..|stack|] == stack;
  }

  lemma StartTracks(s: Scan, stack: seq<string>, e: XmlEvent, target: string)
    requires Tracks(s, stack, target) && e.Start?
    ensures Tracks(StepHref(s, e, target), stack + [Local(e.qname)], target)
  {
    Pushed(stack, Local(e.qname), target);
  }

  lemma EndTracks(s: Scan, init: seq<string>, e: XmlEvent, target: string)
    requires e.End? && Tracks(s, init + [Local(e.qname)], target) && Unnested(init + [Local(e.qname)])
    ensures Tracks(StepHref(s, e, target), init, target)
    ensures Local(e.qname) == target ==> s.depth > 0
  {
    Pushed(init, Local(e.qname), target);
    Pushed(init, Local(e.qname), "href");
    UnderTargetCounts(init, target);
  }

  /** One event keeps the counters equal to what the stack says, and never decrements a zero depth. */
  lemma StepTracks(s: Scan, stack: seq<string>, e: XmlEvent, target: string)
    requires Tracks(s, stack, target) && HrefsUnnested(stack, [e]) && Open(stack, [e]).Some?
    ensures StepHref(s, e, target).Scanning? ==> Tracks(StepHref(s, e, target), Open(stack, [e]).value, target)
    ensures e.End? && Local(e.qname) == target ==> s.depth > 0
  {
    assert [e][1..] == [];
    if e.Start? {
      StartTracks(s, stack, e, target);
    } else if e.End? {
      var init := stack[..|stack| - 1];
      assert stack == init + [Local(e.qname)];
      EndTracks(s, init, e, target);
    }
  }

  lemma {:induction false} RunTracksFrom(s: Scan, stack: seq<string>, events: seq<XmlEvent>, target: string)
    requires Tracks(s, stack, target) && HrefsUnnested(stack, events) && Open(stack, events).Some?
    ensures var r := RunHref(s, events, target); r.Scanning? ==> Tracks(r, Open(stack, events).value, target)
    decreases |events|
  {
    if events != [] {
      var e := events[0];
      assert [e][1..] == [];
      StepTracks(s, stack, e, target);
      if StepHref(s, e, target).Scanning? {
        RunTracksFrom(StepHref(s, e, target), Open(stack, [e]).value, events[1..], target);
      }
    }
  }

  /**
   After every properly nested stream or prefix of one: the depth is the number of open targets, so the
   saturating decrement never saturates, and `in_href` says that an href is open under a target.
   */
  lemma RunTracks(events: seq<XmlEvent>, target: string)
    requires HrefsUnnested([], events) && Open([], events).Some?
    ensures var r := RunHref(Scanning(0, false), events, target);
            r.Scanning? ==>
              && r.depth == Count(Open([], events).value, target)
              && r.inHref == UnderTarget(Open([], events).value, target)
              && (r.inHref ==> r.depth > 0)
  {
    RunTracksFrom(Scanning(0, false), [], events, target);
    UnderTargetCounts(Open([], events).value, target);
  }

  // ----- the tree search ------------------------------------------------------------

  /** The first text node under an href under the target; CDATA is not looked at. */
  function Search(nodes: seq<Node>, inTarget: bool, inHref: bool, target: string): Option<string> {
    if nodes == [] then None
    else
      match nodes[0]
      case Chars(t) => if inHref then Some(t) else Search(nodes[1..], inTarget, inHref, target)
      case Elem(q, _, children) =>
        var isTarget := Local(q) == target;
        var below := Search(children, inTarget || isTarget,
                            inHref || (inTarget && !isTarget && Local(q) == "href"), target);
        OrElse(below, Search(nodes[1..], inTarget, inHref, target))
      case _ => Search(nodes[1..], inTarget, inHref, target)
  }

  /** No href element below holds another one, nor is there one below when `inHref` holds. */
  predicate TreeUnnested(nodes: seq<Node>, inHref: bool) {
    nodes != [] ==>
      && (nodes[0].Elem? ==>
            && !(inHref && Local(nodes[0].qname) == "href")
            && TreeUnnested(nodes[0].children, inHref || Local(nodes[0].qname) == "href"))
      && TreeUnnested(nodes[1..], inHref)
  }

  lemma {:induction false} RunHrefConcat(s: Scan, a: seq<XmlEvent>, b: seq<XmlEvent>, target: string)
    ensures RunHref(s, a + b, target) == RunHref(RunHref(s, a, target), b, target)
    decreases |a|
  {
    if a == [] {
      assert a + b == b;
    } else if s.Scanning? {
      assert (a + b)[0] == a[0] && (a + b)[1..] == a[1..] + b;
      RunHrefConcat(StepHref(s, a[0], target), a[1..], b, target);
    }
  }

  lemma RunHrefOne(s: Scan, e: XmlEvent, target: string)
    requires s.Scanning?
    ensures RunHref(s, [e], target) == StepHref(s, e, target)
  {
    assert [e][1..] == [];
  }

  lemma RunElement(s: Scan, q: string, attrs: seq<Attr>, children: seq<Node>, target: string)
    requires s.Scanning?
    ensures RunHref(s, Events(Elem(q, attrs, children)), target) ==
            var r := RunHref(StepHref(s, Start(q, attrs), target), EventsOf(children), target);
            if r.Scanning? then StepHref(r, End(q), target) else r
  {
    hide StepHref;
    RunHrefConcat(s, [Start(q, attrs)] + EventsOf(children), [End(q)], target);
    RunHrefConcat(s, [Start(q, attrs)], EventsOf(children), target);
    RunHrefOne(s, Start(q, attrs), target);
    var r := RunHref(StepHref(s, Start(q, attrs), target), EventsOf(children), target);
    if r.Scanning? {
      RunHrefOne(r, End(q), target);
    }
  }

  /** What the pass makes of a search result. */
  function Outcome(found: Option<string>, s: Scan): Scan {
    if found.Some? then Hit(found.value) else s
  }

  lemma SearchStep(nodes: seq<Node>, inTarget: bool, inHref: bool, target: string)
    requires nodes != []
    ensures Search(nodes, inTarget, inHref, target) ==
            OrElse(Search([nodes[0]], inTarget, inHref, target), Search(nodes[1..], inTarget, inHref, target))
  {
    assert [nodes[0]][1..] == [];
  }

  lemma SearchElement(q: string, attrs: seq<Attr>, children: seq<Node>, inTarget: bool, inHref: bool, target: string)
    ensures Search([Elem(q, attrs, children)], inTarget, inHref, target) ==
            Search(children, inTarget || Local(q) == target,
                   inHref || (inTarget && Local(q) != target && Local(q) == "href"), target)
  {
    assert [Elem(q, attrs, children)][1..] == [];
  }

  lemma UnnestedParts(nodes: seq<Node>, inHref: bool)
    requires nodes != [] && TreeUnnested(nodes, inHref)
    ensures TreeUnnested([nodes[0]], inHref) && TreeUnnested(nodes[1..], inHref)
  {
    assert [nodes[0]][1..] == [];
  }

  lemma RunLeaf(node: Node, depth: nat, inHref: bool, target: string)
    requires !node.Elem? && (inHref ==> depth > 0)
    ensures RunHref(Scanning(depth, inHref), Events(node), target) ==
            Outcome(Search([node], depth > 0, inHref, target), Scanning(depth, inHref))
  {
    var s := Scanning(depth, inHref);
    assert [node][1..] == [];
    match node {
      case Chars(t) => RunHrefOne(s, Text(Some(t)), target);
      case CDataNode(raw) => RunHrefOne(s, CData(raw), target);
      case EmptyElem(q, attrs) => RunHrefOne(s, Empty(q, attrs), target);
      case Misc => RunHrefOne(s, Ignored, target);
    }
  }

  lemma {:induction false} RunNodeIsSearch(node: Node, depth: nat, inHref: bool, inAnyHref: bool, target: string)
    requires TreeUnnested([node], inAnyHref) && (inHref ==> inAnyHref && depth > 0)
    ensures RunHref(Scanning(depth, inHref), Events(node), target) ==
            Outcome(Search([node], depth > 0, inHref, target), Scanning(depth, inHref))
    decreases node, 0
  {
    if node.Elem? {
      hide Search;
      hide RunHref;
      var q, attrs, children := node.qname, node.attrs, node.children;
      var s := Scanning(depth, inHref);
      var inner := StepHref(s, Start(q, attrs), target);
      RunElement(s, q, attrs, children, target);
      SearchElement(q, attrs, children, depth > 0, inHref, target);
      RunIsSearch(children, inner.depth, inner.inHref, inAnyHref || Local(q) == "href", target);
    } else {
      RunLeaf(node, depth, inHref, target);
    }
  }

  lemma {:induction false} RunIsSearch(nodes: seq<Node>, depth: nat, inHref: bool, inAnyHref: bool, target: string)
    requires TreeUnnested(nodes, inAnyHref) && (inHref ==> inAnyHref && depth > 0)
    ensures RunHref(Scanning(depth, inHref), EventsOf(nodes), target) ==
            Outcome(Search(nodes, depth > 0, inHref, target), Scanning(depth, inHref))
    decreases nodes, 1
  {
    if nodes != [] {
      var s := Scanning(depth, inHref);
      RunHrefConcat(s, Events(nodes[0]), EventsOf(nodes[1..]), target);
      UnnestedParts(nodes, inAnyHref);
      SearchStep(nodes, depth > 0, inHref, target);
      RunNodeIsSearch(nodes[0], depth, inHref, inAnyHref, target);
      RunIsSearch(nodes[1..], depth, inHref, inAnyHref, target);
    }
  }

  /** On every document without nested hrefs the pass returns what the tree search finds, or nothing. */
  lemma PassIsSearch(nodes: seq<Node>, target: string)
    requires TreeUnnested(nodes, false)
    ensures Answer(RunHref(Scanning(0, false), EventsOf(nodes), target)) == Ok(Search(nodes, false, false, target))
  {
    RunIsSearch(nodes, 0, false, false, target);
  }

  // ----- prefixes do not matter -----------------------------------------------------

  lemma SameStepHref(s: Scan, a: XmlEvent, b: XmlEvent, target: string)
    requires s.Scanning? && SameEvent(a, b)
    ensures StepHref(s, a, target) == StepHref(s, b, target)
  {
    hide SameName;
    hide SameAttrs;
    match a {
      case Start(p, _) => SameNameSameLocal(p, b.qname);
      case End(p) => SameNameSameLocal(p, b.qname);
      case _ =>
    }
  }

  lemma {:induction false} SameRunHref(s: Scan, a: seq<XmlEvent>, b: seq<XmlEvent>, target: string)
    requires SameStream(a, b)
    ensures RunHref(s, a, target) == RunHref(s, b, target)
    decreases |a|
  {
    hide SameEvent;
    if a != [] && s.Scanning? {
      SameRest(a, b);
      SameStepHref(s, a[0], b[0], target);
      SameRunHref(StepHref(s, a[0], target), a[1..], b[1..], target);
    }
  }

  /** The pass finds the same href whatever prefixes the names of the body carry. */
  lemma PassIgnoresPrefixes(a: seq<Node>, b: seq<Node>, target: string)
    requires SameTree(a, b)
    ensures Answer(RunHref(Scanning(0, false), EventsOf(a), target)) ==
            Answer(RunHref(Scanning(0, false), EventsOf(b), target))
  {
    SameTreeEvents(a, b);
    SameRunHref(Scanning(0, false), EventsOf(a), EventsOf(b), target);
  }

  /** An href element under the target, each with any prefix or none, gives its text. */
  lemma FindsPrefixedHref(outer: string, inner: string, target: string, text: string, attrs: seq<Attr>, more: seq<Attr>)
    requires Names(outer, target) && Names(inner, "href") && target != "href"
    ensures Search([Elem(outer, attrs, [Elem(inner, more, [Chars(text)])])], false, false, target) == Some(text)
  {
    LocalName(outer, target);
    LocalName(inner, "href");
    SearchElement(outer, attrs, [Elem(inner, more, [Chars(text)])], false, false, target);
    SearchElement(inner, more, [Chars(text)], true, false, target);
  }
}
