/** Markdown event streams of desktop/src/markdown.rs: well-nested streams and the trees they spell. */
module MarkdownEvents {
  import opened Prelude

  datatype Tag =
    | ListTag(start: Option<nat>) | ItemTag | LinkTag(url: string) | ImageTag(url: string) | OtherTag(name: string)

  datatype TagEnd = ListEnd(ordered: bool) | ItemEnd | LinkEnd | ImageEnd | OtherEnd(name: string)

  datatype Event =
    | Start(tag: Tag)
    | End(end: TagEnd)
    | Text(text: string)
    | Code(text: string)
    | Html(text: string)
    | InlineHtml(text: string)
    | SoftBreak
    | HardBreak
    | TaskListMarker(checked: bool)
    | OtherEvent(name: string)

  function EndOf(tag: Tag): TagEnd {
    match tag
    case ListTag(start) => ListEnd(start.Some?)
    case ItemTag => ItemEnd
    case LinkTag(_) => LinkEnd
    case ImageTag(_) => ImageEnd
    case OtherTag(name) => OtherEnd(name)
  }

  /** The events close what the stack holds open, innermost last, and whatever they open themselves. */
  predicate Closes(events: seq<Event>, stack: seq<TagEnd>) {
    if events == [] then stack == []
    else match events[0]
      case Start(tag) => Closes(events[1..], stack + [EndOf(tag)])
      case End(end) => stack != [] && stack[|stack| - 1] == end && Closes(events[1..], stack[..|stack| - 1])
      case _ => Closes(events[1..], stack)
  }

  predicate WellNested(events: seq<Event>) {
    Closes(events, [])
  }

  datatype Node = Leaf(event: Event) | Elem(tag: Tag, kids: seq<Node>)

  /** Leaves are events that neither open nor close. */
  predicate Proper(nodes: seq<Node>) {
    forall i :: 0 <= i < |nodes| ==>
      match nodes[i]
      case Leaf(event) => !event.Start? && !event.End?
      case Elem(_, kids) => Proper(kids)
  }

  function Flat(node: Node): (r: seq<Event>)
    ensures r != []
  {
    match node
    case Leaf(event) => [event]
    case Elem(tag, kids) => [Start(tag)] + FlatAll(kids) + [End(EndOf(tag))]
  }

  function FlatAll(nodes: seq<Node>): (r: seq<Event>)
    ensures |r| >= |nodes|
  {
    if nodes == [] then [] else Flat(nodes[0]) + FlatAll(nodes[1..])
  }

  lemma {:induction false} FlatConcat(a: seq<Node>, b: seq<Node>)
    ensures FlatAll(a + b) == FlatAll(a) + FlatAll(b)
  {
    if a == [] {
      assert a + b == b && FlatAll(a) + FlatAll(b) == FlatAll(b);
    } else {
      hide FlatAll, Flat;
      FlatConcat(a[1..], b);
      assert a + b == [a[0]] + (a[1..] + b) && a == [a[0]] + a[1..];
      FlatCons(a[0], a[1..] + b);
      FlatCons(a[0], a[1..]);
      Regroup(Flat(a[0]), FlatAll(a[1..]), FlatAll(b));
    }
  }

  lemma FlatCons(node: Node, more: seq<Node>)
    ensures FlatAll([node] + more) == Flat(node) + FlatAll(more)
  {
    assert ([node] + more)[1..] == more;
  }

  lemma FlatOne(node: Node)
    ensures FlatAll([node]) == Flat(node)
  {
    assert [node] + [] == [node];
    FlatCons(node, []);
  }

  lemma ProperCons(node: Node, more: seq<Node>)
    ensures Proper([node] + more) <==> Proper([node]) && Proper(more)
  {
    var all := [node] + more;
    assert [node][0] == all[0] && forall i :: 0 <= i < |more| ==> all[i + 1] == more[i];
  }

  // ---------------------------------------------------------------- trees spell the well-nested streams

  lemma {:induction false} ClosesNode(node: Node, rest: seq<Event>, stack: seq<TagEnd>)
    requires Proper([node])
    ensures Closes(Flat(node) + rest, stack) <==> Closes(rest, stack)
    decreases node, 1
  {
    var events := Flat(node) + rest;
    match node
    case Leaf(event) =>
      assert [node][0] == node && events[0] == event && events[1..] == rest;
    case Elem(tag, kids) =>
      assert [node][0] == node && Proper(kids);
      var tail := [End(EndOf(tag))] + rest;
      assert events[0] == Start(tag) && events[1..] == FlatAll(kids) + tail;
      ClosesForest(kids, tail, stack + [EndOf(tag)]);
      assert tail[1..] == rest && (stack + [EndOf(tag)])[..|stack|] == stack;
  }

  lemma {:induction false} ClosesForest(nodes: seq<Node>, rest: seq<Event>, stack: seq<TagEnd>)
    requires Proper(nodes)
    ensures Closes(FlatAll(nodes) + rest, stack) <==> Closes(rest, stack)
    decreases nodes, 0
  {
    if nodes == [] {
      assert FlatAll(nodes) + rest == rest;
    } else {
      assert Proper([nodes[0]]) && Proper(nodes[1..]);
      var tail := FlatAll(nodes[1..]) + rest;
      assert FlatAll(nodes) + rest == Flat(nodes[0]) + tail;
      ClosesNode(nodes[0], tail, stack);
      ClosesForest(nodes[1..], rest, stack);
    }
  }

  /** Reads nodes up to an end that they do not open. */
  function ParseFrom(events: seq<Event>): (r: (seq<Node>, seq<Event>))
    ensures |r.1| <= |events|
    decreases |events|, 1
  {
    if events == [] || events[0].End? then ([], events)
    else
      var (node, rest) := ParseNode(events);
      var (more, left) := ParseFrom(rest);
      ([node] + more, left)
  }

  function ParseNode(events: seq<Event>): (r: (Node, seq<Event>))
    requires events != []
    ensures |r.1| < |events|
    decreases |events|, 0
  {
    if events[0].Start? then
      var (kids, rest) := ParseFrom(events[1..]);
      (Elem(events[0].tag, kids), if rest == [] then [] else rest[1..])
    else (Leaf(events[0]), events[1..])
  }

  function Parse(events: seq<Event>): seq<Node> {
    ParseFrom(events).0
  }

  predicate Stops(rest: seq<Event>, stack: seq<TagEnd>) {
    Closes(rest, stack) && (rest == [] || rest[0].End?)
  }

  lemma {:induction false} ParseFromReads(events: seq<Event>, stack: seq<TagEnd>)
    requires Closes(events, stack)
    ensures var r := ParseFrom(events); Proper(r.0) && FlatAll(r.0) + r.1 == events && Stops(r.1, stack)
    decreases |events|, 1
  {
    if events == [] || events[0].End? {
    } else {
      ParseNodeReads(events, stack);
      var (node, rest) := ParseNode(events);
      ParseFromReads(rest, stack);
      var (more, left) := ParseFrom(rest);
      ProperCons(node, more);
      FlatCons(node, more);
      hide Proper, FlatAll, Flat;
      assert Flat(node) + FlatAll(more) + left == Flat(node) + (FlatAll(more) + left);
    }
  }

  lemma {:induction false} ParseNodeReads(events: seq<Event>, stack: seq<TagEnd>)
    requires Closes(events, stack) && events != [] && !events[0].End?
    ensures var r := ParseNode(events); Proper([r.0]) && Flat(r.0) + r.1 == events && Closes(r.1, stack)
    decreases |events|, 0
  {
    if events[0].Start? {
      var tag := events[0].tag;
      ParseFromReads(events[1..], stack + [EndOf(tag)]);
      var (kids, rest) := ParseFrom(events[1..]);
      assert (stack + [EndOf(tag)])[..|stack|] == stack;
      assert rest != [] && rest[0] == End(EndOf(tag)) && rest == [rest[0]] + rest[1..];
      assert events == [events[0]] + events[1..];
    }
  }

  /** A stream is well-nested exactly when it spells a forest, and then Parse reads that forest. */
  lemma WellNestedSpellsForest(events: seq<Event>)
    ensures WellNested(events) <==> exists nodes :: Proper(nodes) && FlatAll(nodes) == events
    ensures WellNested(events) ==> Proper(Parse(events)) && FlatAll(Parse(events)) == events
  {
    if WellNested(events) {
      ParseFromReads(events, []);
      var r := ParseFrom(events);
      assert r.1 == [];
      assert FlatAll(r.0) == events;
    }
    forall nodes | Proper(nodes) && FlatAll(nodes) == events ensures WellNested(events) {
      ClosesForest(nodes, [], []);
      assert FlatAll(nodes) + [] == events;
    }
  }

  lemma {:induction false} ReadsForest(nodes: seq<Node>, rest: seq<Event>)
    requires Proper(nodes) && (rest == [] || rest[0].End?)
    ensures ParseFrom(FlatAll(nodes) + rest) == (nodes, rest)
    decreases nodes, 0
  {
    if nodes == [] {
      assert FlatAll(nodes) + rest == rest;
    } else {
      var node, more := nodes[0], nodes[1..];
      assert nodes == [node] + more;
      ProperCons(node, more);
      FlatCons(node, more);
      assert Flat(node) + FlatAll(more) + rest == Flat(node) + (FlatAll(more) + rest);
      ReadsNode(node, FlatAll(more) + rest);
      ReadsForest(more, rest);
      hide Proper, FlatAll;
      var events := Flat(node) + (FlatAll(more) + rest);
      assert events[0] == Flat(node)[0];
    }
  }

  lemma {:induction false} ReadsNode(node: Node, rest: seq<Event>)
    requires Proper([node])
    ensures ParseNode(Flat(node) + rest) == (node, rest) && !Flat(node)[0].End?
    decreases node, 1
  {
    var events := Flat(node) + rest;
    assert [node][0] == node;
    match node
    case Leaf(event) =>
      assert events[0] == event && events[1..] == rest;
    case Elem(tag, kids) =>
      var tail := [End(EndOf(tag))] + rest;
      assert events[0] == Start(tag) && events[1..] == FlatAll(kids) + tail;
      ReadsForest(kids, tail);
      assert tail[1..] == rest;
  }

  /** The forest that a stream spells is unique: reading it back gives it again. */
  lemma ParseFlat(nodes: seq<Node>)
    requires Proper(nodes)
    ensures Parse(FlatAll(nodes)) == nodes
  {
    ReadsForest(nodes, []);
    assert FlatAll(nodes) + [] == FlatAll(nodes);
  }
}
