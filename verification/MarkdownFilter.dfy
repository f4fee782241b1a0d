/** The event filter inside `safe_markdown` of desktop/src/markdown.rs: images and HTML become text,
    and links that are not allowed lose their tags. */
module MarkdownFilter {
  import opened Prelude
  import opened MarkdownEvents

  /** Whether a link's URL is an allowed destination: URL parsing, taken as given. */
  type Policy = string -> bool

  /** What one event becomes, and the links open after it with whether each was kept. */
  function Step(event: Event, open: seq<bool>, allowed: Policy): (seq<Event>, seq<bool>) {
    match event
    case Start(ImageTag(_)) => ([Text("[Image: ")], open)
    case End(ImageEnd) => ([Text("]")], open)
    case Start(LinkTag(url)) => (if allowed(url) then [event] else [], open + [allowed(url)])
    case End(LinkEnd) =>
      if open == [] then ([], open)
      else (if open[|open| - 1] then [event] else [], open[..|open| - 1])
    case Html(text) => ([Text(text)], open)
    case InlineHtml(text) => ([Text(text)], open)
    case _ => ([event], open)
  }

  function SafeFrom(events: seq<Event>, open: seq<bool>, allowed: Policy): seq<Event> {
    if events == [] then []
    else
      var (out, after) := Step(events[0], open, allowed);
      out + SafeFrom(events[1..], after, allowed)
  }

  /** One event; `open` holds whether each open link was kept. */
  method FilterEvent(event: Event, open: seq<bool>, allowed: Policy) returns (out: seq<Event>, after: seq<bool>)
    ensures (out, after) == Step(event, open, allowed)
  {
    out, after := [], open;
    match event
    case Start(ImageTag(_)) => out := [Text("[Image: ")];
    case End(ImageEnd) => out := [Text("]")];
    case Start(LinkTag(url)) =>
      after := open + [allowed(url)];
      if allowed(url) {
        out := [event];
      }
    case End(LinkEnd) =>
      if open != [] {
        if open[|open| - 1] {
          out := [event];
        }
        after := open[..|open| - 1];
      }
    case Html(text) => out := [Text(text)];
    case InlineHtml(text) => out := [Text(text)];
    case _ => out := [event];
  }

  method SafeEvents(events: seq<Event>, allowed: Policy) returns (safe: seq<Event>)
    ensures safe == SafeFrom(events, [], allowed)
    ensures WellNested(events) ==> safe == FlatAll(SafeForest(Parse(events), allowed))
  {
    hide Step, SafeForest;
    safe := [];
    var open := [];
    for k := 0 to |events|
      invariant safe + SafeFrom(events[k..], open, allowed) == SafeFrom(events, [], allowed)
    {
      assert events[k..] == [events[k]] + events[k + 1..];
      StepOne(events[k], events[k + 1..], open, allowed);
      var out, after := FilterEvent(events[k], open, allowed);
      Regroup(safe, out, SafeFrom(events[k + 1..], after, allowed));
      safe, open := safe + out, after;
    }
    assert events[|events|..] == [];
    SafeIsForest(events, allowed);
  }

  // ---------------------------------------------------------------- the filter on trees

  function SafeNode(node: Node, allowed: Policy): seq<Node> {
    match node
    case Leaf(Html(text)) => [Leaf(Text(text))]
    case Leaf(InlineHtml(text)) => [Leaf(Text(text))]
    case Leaf(_) => [node]
    case Elem(ImageTag(_), kids) => [Leaf(Text("[Image: "))] + SafeForest(kids, allowed) + [Leaf(Text("]"))]
    case Elem(LinkTag(url), kids) =>
      if allowed(url) then [Elem(LinkTag(url), SafeForest(kids, allowed))] else SafeForest(kids, allowed)
    case Elem(tag, kids) => [Elem(tag, SafeForest(kids, allowed))]
  }

  function SafeForest(nodes: seq<Node>, allowed: Policy): seq<Node> {
    if nodes == [] then [] else SafeNode(nodes[0], allowed) + SafeForest(nodes[1..], allowed)
  }

  lemma StepOne(event: Event, rest: seq<Event>, open: seq<bool>, allowed: Policy)
    ensures SafeFrom([event] + rest, open, allowed) ==
            Step(event, open, allowed).0 + SafeFrom(rest, Step(event, open, allowed).1, allowed)
  {
    assert ([event] + rest)[1..] == rest;
  }

  lemma SafeOfLeaf(event: Event, rest: seq<Event>, open: seq<bool>, allowed: Policy)
    requires !event.Start? && !event.End?
    ensures SafeFrom([event] + rest, open, allowed) == FlatAll(SafeNode(Leaf(event), allowed)) +
            SafeFrom(rest, open, allowed)
  {
    StepOne(event, rest, open, allowed);
    FlatOne(SafeNode(Leaf(event), allowed)[0]);
  }

  /** The links open inside an element. */
  function Inside(tag: Tag, open: seq<bool>, allowed: Policy): seq<bool> {
    if tag.LinkTag? then open + [allowed(tag.url)] else open
  }

  lemma StepsAround(tag: Tag, open: seq<bool>, allowed: Policy)
    ensures Step(Start(tag), open, allowed) == (Step(Start(tag), [], allowed).0, Inside(tag, open, allowed))
    ensures var now := Inside(tag, open, allowed);
            Step(End(EndOf(tag)), now, allowed) == (Step(End(EndOf(tag)), Inside(tag, [], allowed), allowed).0, open)
  {
    assert tag.LinkTag? ==> (open + [allowed(tag.url)])[..|open|] == open;
  }

  lemma {:induction false} SafeOfNode(node: Node, rest: seq<Event>, open: seq<bool>, allowed: Policy)
    requires Proper([node])
    ensures SafeFrom(Flat(node) + rest, open, allowed) ==
            FlatAll(SafeNode(node, allowed)) + SafeFrom(rest, open, allowed)
    decreases node, 1
  {
    assert [node][0] == node;
    if node.Leaf? {
      SafeOfLeaf(node.event, rest, open, allowed);
    } else {
      var tag, kids, now := node.tag, node.kids, Inside(node.tag, open, allowed);
      var end := [End(EndOf(tag))];
      var before, safe, behind := Step(Start(tag), [], allowed).0, FlatAll(SafeForest(kids, allowed)),
                                  Step(End(EndOf(tag)), Inside(tag, [], allowed), allowed).0;
      assert Flat(node) + rest == [Start(tag)] + (FlatAll(kids) + (end + rest));
      SafeOfForest(kids, end + rest, now, allowed);
      FlatAround(node, allowed);
      StepsAround(tag, open, allowed);
      hide Step, SafeFrom, FlatAll, SafeNode, Inside, Proper;
      StepOne(Start(tag), FlatAll(kids) + (end + rest), open, allowed);
      StepOne(End(EndOf(tag)), rest, now, allowed);
      Regroup(safe, behind, SafeFrom(rest, open, allowed));
      Regroup(before, safe + behind, SafeFrom(rest, open, allowed));
      Regroup(before, safe, behind);
    }
  }

  /** An element's kept nodes spell what its tags become around what its kids become. */
  lemma FlatAround(node: Node, allowed: Policy)
    requires node.Elem?
    ensures FlatAll(SafeNode(node, allowed)) ==
            Step(Start(node.tag), [], allowed).0 + FlatAll(SafeForest(node.kids, allowed)) +
            Step(End(EndOf(node.tag)), Inside(node.tag, [], allowed), allowed).0
  {
    var safe := SafeForest(node.kids, allowed);
    TagsAround(node, allowed);
    hide FlatAll, SafeForest, SafeNode, Step, Inside;
    if node.tag.ImageTag? {
      FlatBetween("[Image: ", safe, "]");
    } else if !node.tag.LinkTag? || allowed(node.tag.url) {
      FlatOne(Elem(node.tag, safe));
    } else {
      Nothing(FlatAll(safe));
    }
  }

  lemma Nothing(events: seq<Event>)
    ensures [] + events + [] == events
  {
  }

  /** What becomes of an element, and of its two tags. */
  lemma TagsAround(node: Node, allowed: Policy)
    requires node.Elem?
    ensures var safe := SafeForest(node.kids, allowed);
            var before, behind := Step(Start(node.tag), [], allowed).0,
                                  Step(End(EndOf(node.tag)), Inside(node.tag, [], allowed), allowed).0;
            if node.tag.ImageTag? then
              && SafeNode(node, allowed) == [Leaf(Text("[Image: "))] + safe + [Leaf(Text("]"))]
              && before == [Text("[Image: ")] && behind == [Text("]")]
            else if !node.tag.LinkTag? || allowed(node.tag.url) then
              && SafeNode(node, allowed) == [Elem(node.tag, safe)]
              && before == [Start(node.tag)] && behind == [End(EndOf(node.tag))]
            else SafeNode(node, allowed) == safe && before == [] && behind == []
  {
    hide SafeForest;
  }

  lemma FlatBetween(before: string, safe: seq<Node>, behind: string)
    ensures FlatAll([Leaf(Text(before))] + safe + [Leaf(Text(behind))]) == [Text(before)] + FlatAll(safe) +
            [Text(behind)]
  {
    var first, last := Leaf(Text(before)), Leaf(Text(behind));
    FlatOne(first);
    FlatOne(last);
    hide FlatAll;
    FlatConcat([first], safe);
    FlatConcat([first] + safe, [last]);
  }

  lemma {:induction false} SafeOfForest(nodes: seq<Node>, rest: seq<Event>, open: seq<bool>, allowed: Policy)
    requires Proper(nodes)
    ensures SafeFrom(FlatAll(nodes) + rest, open, allowed) ==
            FlatAll(SafeForest(nodes, allowed)) + SafeFrom(rest, open, allowed)
    decreases nodes, 0
  {
    if nodes == [] {
      assert FlatAll(nodes) + rest == rest;
    } else {
      var node, more := nodes[0], nodes[1..];
      assert nodes == [node] + more;
      ProperCons(node, more);
      FlatCons(node, more);
      FlatConcat(SafeNode(node, allowed), SafeForest(more, allowed));
      Regroup(Flat(node), FlatAll(more), rest);
      SafeOfNode(node, FlatAll(more) + rest, open, allowed);
      SafeOfForest(more, rest, open, allowed);
      Regroup(FlatAll(SafeNode(node, allowed)), FlatAll(SafeForest(more, allowed)), SafeFrom(rest, open, allowed));
    }
  }

  lemma SafeIsForest(events: seq<Event>, allowed: Policy)
    ensures WellNested(events) ==> SafeFrom(events, [], allowed) == FlatAll(SafeForest(Parse(events), allowed))
  {
    if WellNested(events) {
      WellNestedSpellsForest(events);
      SafeOfForest(Parse(events), [], [], allowed);
      assert events + [] == events;
    }
  }

  // ---------------------------------------------------------------- what the filter promises

  lemma {:induction false} SafeIsProper(nodes: seq<Node>, allowed: Policy)
    requires Proper(nodes)
    ensures Proper(SafeForest(nodes, allowed))
  {
    if nodes != [] {
      var node, more := nodes[0], nodes[1..];
      assert nodes == [node] + more;
      ProperCons(node, more);
      SafeIsProper(more, allowed);
      if node.Elem? {
        assert [node][0] == node;
        SafeIsProper(node.kids, allowed);
      }
      assert Proper(SafeNode(node, allowed)) by {
        assert [node][0] == node;
      }
      ProperConcat(SafeNode(node, allowed), SafeForest(more, allowed));
    }
  }

  lemma ProperConcat(a: seq<Node>, b: seq<Node>)
    requires Proper(a) && Proper(b)
    ensures Proper(a + b)
  {
  }

  /** Nesting is preserved: a well-nested stream stays well-nested. */
  lemma FilterKeepsNesting(events: seq<Event>, allowed: Policy)
    requires WellNested(events)
    ensures WellNested(SafeFrom(events, [], allowed))
  {
    WellNestedSpellsForest(events);
    SafeIsForest(events, allowed);
    SafeIsProper(Parse(events), allowed);
    WellNestedSpellsForest(SafeFrom(events, [], allowed));
  }

  predicate Harmless(event: Event, allowed: Policy) {
    match event
    case Start(ImageTag(_)) => false
    case End(ImageEnd) => false
    case Start(LinkTag(url)) => allowed(url)
    case Html(_) => false
    case InlineHtml(_) => false
    case _ => true
  }

  predicate LinkTags(event: Event) {
    (event.Start? && event.tag.LinkTag?) || (event.End? && event.end.LinkEnd?)
  }

  /** What an event that is no link tag reads as: images and HTML as text, all others as they are. */
  function Read(event: Event): Event {
    match event
    case Start(ImageTag(_)) => Text("[Image: ")
    case End(ImageEnd) => Text("]")
    case Html(text) => Text(text)
    case InlineHtml(text) => Text(text)
    case _ => event
  }

  function Prose(events: seq<Event>): seq<Event> {
    if events == [] then [] else (if LinkTags(events[0]) then [] else [Read(events[0])]) + Prose(events[1..])
  }

  function AllowedLinks(events: seq<Event>, allowed: Policy): seq<Event> {
    if events == [] then []
    else (if events[0].Start? && events[0].tag.LinkTag? && allowed(events[0].tag.url) then [events[0]] else []) +
         AllowedLinks(events[1..], allowed)
  }

  lemma ProseConcat(a: seq<Event>, b: seq<Event>)
    ensures Prose(a + b) == Prose(a) + Prose(b)
  {
    if a == [] {
      assert a + b == b;
    } else {
      assert (a + b)[1..] == a[1..] + b;
      ProseConcat(a[1..], b);
    }
  }

  lemma AllowedConcat(a: seq<Event>, b: seq<Event>, allowed: Policy)
    ensures AllowedLinks(a + b, allowed) == AllowedLinks(a, allowed) + AllowedLinks(b, allowed)
  {
    if a == [] {
      assert a + b == b;
    } else {
      assert (a + b)[1..] == a[1..] + b;
      AllowedConcat(a[1..], b, allowed);
    }
  }

  lemma StepKeepsProse(event: Event, open: seq<bool>, allowed: Policy)
    ensures var out := Step(event, open, allowed).0;
            && |out| <= 1 && (out != [] ==> Harmless(out[0], allowed))
            && Prose(out) == Prose([event]) && AllowedLinks(out, allowed) == AllowedLinks([event], allowed)
  {
    assert [event][1..] == [];
    var out := Step(event, open, allowed).0;
    assert out != [] ==> out[1..] == [];
  }

  /** On any stream: no image, HTML or disallowed link is left, every allowed link is, and all other
      events stay in order, read as what they stand for. */
  lemma {:induction false} FilterKeepsProse(events: seq<Event>, open: seq<bool>, allowed: Policy)
    ensures var safe := SafeFrom(events, open, allowed);
            && (forall k :: 0 <= k < |safe| ==> Harmless(safe[k], allowed))
            && Prose(safe) == Prose(events)
            && AllowedLinks(safe, allowed) == AllowedLinks(events, allowed)
  {
    if events != [] {
      var (out, after) := Step(events[0], open, allowed);
      FilterKeepsProse(events[1..], after, allowed);
      StepKeepsProse(events[0], open, allowed);
      hide Step, Prose, AllowedLinks, Harmless;
      assert events == [events[0]] + events[1..];
      ProseConcat([events[0]], events[1..]);
      AllowedConcat([events[0]], events[1..], allowed);
      ProseConcat(out, SafeFrom(events[1..], after, allowed));
      AllowedConcat(out, SafeFrom(events[1..], after, allowed), allowed);
    }
  }
}
