/** One list item in `blocks` of desktop/src/markdown.rs: its marker is taken out, its title read. */
module MarkdownItems {
  import opened Prelude
  import opened MarkdownEvents

  // ---------------------------------------------------------------- one item

  datatype Scanned = Scanned(checked: Option<bool>, title: string, body: seq<Event>)

  predicate Takes(event: Event, depth: int, checked: Option<bool>) {
    event.TaskListMarker? && depth == 0 && checked.None?
  }

  function Deeper(event: Event, depth: int): int {
    if event.Start? && event.tag.ListTag? then depth + 1
    else if event.End? && event.end.ListEnd? then depth - 1
    else depth
  }

  function TitlePart(event: Event, depth: int): string {
    if depth != 0 then ""
    else if event.Text? || event.Code? then event.text
    else if event.SoftBreak? || event.HardBreak? then " "
    else ""
  }

  /** What the rest of an item's events give, at a list depth and with what is already checked. */
  function Scan(events: seq<Event>, depth: int, checked: Option<bool>): Scanned {
    if events == [] then Scanned(checked, "", [])
    else if Takes(events[0], depth, checked) then Scan(events[1..], depth, Some(events[0].checked))
    else
      var s := Scan(events[1..], Deeper(events[0], depth), checked);
      Scanned(s.checked, TitlePart(events[0], depth) + s.title, [events[0]] + s.body)
  }

  method ScanItem(events: seq<Event>) returns (checked: Option<bool>, title: string, body: seq<Event>)
    ensures Scanned(checked, title, body) == Scan(events, 0, None)
  {
    hide Deeper, TitlePart;
    checked, title, body := None, "", [];
    var depth := 0;
    for k := 0 to |events|
      invariant var s := Scan(events[k..], depth, checked);
                Scanned(s.checked, title + s.title, body + s.body) == Scan(events, 0, None)
    {
      var event := events[k];
      assert events[k..][0] == event && events[k..][1..] == events[k + 1..];
      if Takes(event, depth, checked) {
        checked := Some(event.checked);
      } else {
        ghost var s := Scan(events[k + 1..], Deeper(event, depth), checked);
        Regroup(title, TitlePart(event, depth), s.title);
        Regroup(body, [event], s.body);
        title := title + TitlePart(event, depth);
        body := body + [event];
        depth := Deeper(event, depth);
      }
    }
    assert events[|events|..] == [] && title + "" == title && body + [] == body;
  }

  // ---------------------------------------------------------------- its text, by depth

  /** How many lists are open after these events. */
  function ListDepth(events: seq<Event>): int {
    if events == [] then 0
    else
      var last := events[|events| - 1];
      ListDepth(events[..|events| - 1]) +
      (match last case Start(ListTag(_)) => 1 case End(ListEnd(_)) => -1 case _ => 0)
  }

  /** The text, the code, and a space for each break, of the events at which no list is open. */
  function Label(events: seq<Event>): string {
    if events == [] then ""
    else
      var before, last := events[..|events| - 1], events[|events| - 1];
      Label(before) +
      if ListDepth(before) != 0 then ""
      else match last
           case Text(text) => text
           case Code(text) => text
           case SoftBreak => " "
           case HardBreak => " "
           case _ => ""
  }

  /** The title that the scan reads from the front is that text. */
  lemma {:induction false} TitleIsLabel(events: seq<Event>, k: nat, checked: Option<bool>)
    requires k <= |events|
    ensures Label(events[..k]) + Scan(events[k..], ListDepth(events[..k]), checked).title == Label(events)
    decreases |events| - k
  {
    if k == |events| {
      assert events[..k] == events && events[k..] == [] && Label(events) + "" == Label(events);
    } else {
      var event, now := events[k], ListDepth(events[..k]);
      assert events[..k + 1][..k] == events[..k] && events[..k + 1][k] == event;
      assert events[k..][0] == event && events[k..][1..] == events[k + 1..];
      var next := if Takes(event, now, checked) then Some(event.checked) else checked;
      assert ListDepth(events[..k + 1]) == Deeper(event, now);
      TitleIsLabel(events, k + 1, next);
      hide Scan, ListDepth, Label;
      assert Label(events[..k + 1]) == Label(events[..k]) + TitlePart(event, now) by {
        LabelNext(events, k);
      }
      ScanOne(event, events[k + 1..], now, checked);
      assert events[k..] == [event] + events[k + 1..];
      var rest := Scan(events[k + 1..], Deeper(event, now), next);
      Regroup(Label(events[..k]), TitlePart(event, now), rest.title);
      assert Takes(event, now, checked) ==> TitlePart(event, now) == "" && "" + rest.title == rest.title;
    }
  }

  lemma LabelNext(events: seq<Event>, k: nat)
    requires k < |events|
    ensures Label(events[..k + 1]) == Label(events[..k]) + TitlePart(events[k], ListDepth(events[..k]))
  {
    assert events[..k + 1][..k] == events[..k] && events[..k + 1][k] == events[k];
  }

  // ---------------------------------------------------------------- one item, on its tree

  /** The markers of an item that are not inside a list nested in it. */
  function Own(nodes: seq<Node>): seq<bool> {
    if nodes == [] then [] else OwnOf(nodes[0]) + Own(nodes[1..])
  }

  function OwnOf(node: Node): seq<bool> {
    match node
    case Leaf(TaskListMarker(checked)) => [checked]
    case Leaf(_) => []
    case Elem(tag, kids) => if tag.ListTag? then [] else Own(kids)
  }

  function First(values: seq<bool>): Option<bool> {
    if values == [] then None else Some(values[0])
  }

  /** The item's body: its nodes without its first own marker. */
  function Strip(nodes: seq<Node>): seq<Node> {
    if nodes == [] then []
    else if OwnOf(nodes[0]) == [] then [nodes[0]] + Strip(nodes[1..])
    else StripNode(nodes[0]) + nodes[1..]
  }

  function StripNode(node: Node): seq<Node> {
    match node
    case Leaf(_) => []
    case Elem(tag, kids) => [Elem(tag, Strip(kids))]
  }

  /** The text of the nodes that is in no list nested in them; a break counts as a space. */
  function Title(nodes: seq<Node>): string {
    if nodes == [] then "" else TitleOf(nodes[0]) + Title(nodes[1..])
  }

  function TitleOf(node: Node): string {
    match node
    case Leaf(Text(text)) => text
    case Leaf(Code(text)) => text
    case Leaf(SoftBreak) => " "
    case Leaf(HardBreak) => " "
    case Leaf(_) => ""
    case Elem(tag, kids) => if tag.ListTag? then "" else Title(kids)
  }

  function Prepend(title: string, body: seq<Event>, s: Scanned): Scanned {
    Scanned(s.checked, title + s.title, body + s.body)
  }

  lemma PrependTwice(a: string, x: seq<Event>, b: string, y: seq<Event>, s: Scanned)
    ensures Prepend(a, x, Prepend(b, y, s)) == Prepend(a + b, x + y, s)
  {
    Regroup(a, b, s.title);
    Regroup(x, y, s.body);
  }

  lemma ScanOne(event: Event, rest: seq<Event>, depth: int, checked: Option<bool>)
    ensures Scan([event] + rest, depth, checked) ==
            if Takes(event, depth, checked) then Scan(rest, depth, Some(event.checked))
            else Prepend(TitlePart(event, depth), [event], Scan(rest, Deeper(event, depth), checked))
  {
    assert ([event] + rest)[1..] == rest;
  }

  /** An element adds its tags around what the scan makes of its kids. */
  lemma ScanAround(node: Node, rest: seq<Event>, depth: int, inside: int, title: string, body: seq<Event>,
                   before: Option<bool>, after: Option<bool>)
    requires node.Elem? && inside == depth + if node.tag.ListTag? then 1 else 0
    requires var tail := [End(EndOf(node.tag))] + rest;
             Scan(FlatAll(node.kids) + tail, inside, before) == Prepend(title, body, Scan(tail, inside, after))
    ensures Scan(Flat(node) + rest, depth, before) ==
            Prepend(title, [Start(node.tag)] + body + [End(EndOf(node.tag))], Scan(rest, depth, after))
  {
    var start, end := Start(node.tag), End(EndOf(node.tag));
    assert Flat(node) + rest == [start] + (FlatAll(node.kids) + ([end] + rest));
    ScanOne(start, FlatAll(node.kids) + ([end] + rest), depth, before);
    ScanOne(end, rest, inside, after);
    hide Scan, FlatAll, Flat, Prepend;
    PrependTwice(title, body, "", [end], Scan(rest, depth, after));
    PrependTwice("", [start], title + "", body + [end], Scan(rest, depth, after));
    Regroup([start], body, [end]);
    assert "" + (title + "") == title;
  }

  /** Inside a nested list nothing is taken. */
  lemma {:induction false} ScanNested(nodes: seq<Node>, rest: seq<Event>, depth: int, checked: Option<bool>)
    requires Proper(nodes) && depth > 0
    ensures Scan(FlatAll(nodes) + rest, depth, checked) == Prepend("", FlatAll(nodes), Scan(rest, depth, checked))
    decreases nodes, 0
  {
    if nodes == [] {
      assert FlatAll(nodes) + rest == rest;
    } else {
      var node, more := nodes[0], nodes[1..];
      assert nodes == [node] + more;
      ProperCons(node, more);
      FlatCons(node, more);
      ScanNestedNode(node, FlatAll(more) + rest, depth, checked);
      ScanNested(more, rest, depth, checked);
      hide Scan, FlatAll, Flat, Prepend, Proper;
      Regroup(Flat(node), FlatAll(more), rest);
      PrependTwice("", Flat(node), "", FlatAll(more), Scan(rest, depth, checked));
      assert "" + "" == "";
    }
  }

  lemma {:induction false} ScanNestedNode(node: Node, rest: seq<Event>, depth: int, checked: Option<bool>)
    requires Proper([node]) && depth > 0
    ensures Scan(Flat(node) + rest, depth, checked) == Prepend("", Flat(node), Scan(rest, depth, checked))
    decreases node, 1
  {
    assert [node][0] == node;
    if node.Leaf? {
      ScanOne(node.event, rest, depth, checked);
    } else {
      var inside := if node.tag.ListTag? then depth + 1 else depth;
      ScanNested(node.kids, [End(EndOf(node.tag))] + rest, inside, checked);
      ScanAround(node, rest, depth, inside, "", FlatAll(node.kids), checked, checked);
    }
  }

  function Body(nodes: seq<Node>, checked: Option<bool>): seq<Node> {
    if checked.Some? then nodes else Strip(nodes)
  }

  function OrFirst(checked: Option<bool>, own: seq<bool>): Option<bool> {
    if checked.Some? then checked else First(own)
  }

  /** At the item's own level the scan takes the first own marker and keeps the rest. */
  lemma {:induction false} ScanOwn(nodes: seq<Node>, rest: seq<Event>, checked: Option<bool>)
    requires Proper(nodes)
    ensures Scan(FlatAll(nodes) + rest, 0, checked) ==
            Prepend(Title(nodes), FlatAll(Body(nodes, checked)), Scan(rest, 0, OrFirst(checked, Own(nodes))))
    decreases nodes, 0
  {
    if nodes == [] {
      assert FlatAll(nodes) + rest == rest;
    } else {
      var node, more := nodes[0], nodes[1..];
      assert nodes == [node] + more;
      ProperCons(node, more);
      FlatCons(node, more);
      ScanOwnNode(node, FlatAll(more) + rest, checked);
      var now := OrFirst(checked, OwnOf(node));
      ScanOwn(more, rest, now);
      BodyCons(node, more, checked);
      hide Scan, FlatAll, Flat, Prepend, Proper, Own, OwnOf, Strip, StripNode;
      Regroup(Flat(node), FlatAll(more), rest);
      PrependTwice(TitleOf(node), FlatAll(BodyOf(node, checked)), Title(more), FlatAll(Body(more, now)),
                   Scan(rest, 0, OrFirst(checked, Own(nodes))));
    }
  }

  function BodyOf(node: Node, checked: Option<bool>): seq<Node> {
    if checked.Some? || OwnOf(node) == [] then [node] else StripNode(node)
  }

  lemma BodyCons(node: Node, more: seq<Node>, checked: Option<bool>)
    ensures var now := OrFirst(checked, OwnOf(node));
            && OrFirst(checked, Own([node] + more)) == OrFirst(now, Own(more))
            && FlatAll(Body([node] + more, checked)) == FlatAll(BodyOf(node, checked)) + FlatAll(Body(more, now))
  {
    assert ([node] + more)[1..] == more;
    OwnCons(node, more);
    hide FlatAll, Own, OwnOf, StripNode;
    FlatConcat(BodyOf(node, checked), Body(more, OrFirst(checked, OwnOf(node))));
  }

  lemma OwnCons(node: Node, more: seq<Node>)
    ensures Own([node] + more) == OwnOf(node) + Own(more)
    ensures Strip([node] + more) == if OwnOf(node) == [] then [node] + Strip(more) else StripNode(node) + more
  {
    assert ([node] + more)[1..] == more;
  }

  lemma {:induction false} ScanOwnNode(node: Node, rest: seq<Event>, checked: Option<bool>)
    requires Proper([node])
    ensures Scan(Flat(node) + rest, 0, checked) ==
            Prepend(TitleOf(node), FlatAll(BodyOf(node, checked)), Scan(rest, 0, OrFirst(checked, OwnOf(node))))
    decreases node, 1
  {
    hide FlatAll, Scan, Prepend, Body, BodyOf;
    assert [node][0] == node;
    if node.Leaf? {
      ScanOwnLeaf(node.event, rest, checked);
    } else {
      var tail := [End(EndOf(node.tag))] + rest;
      if node.tag.ListTag? {
        ScanNested(node.kids, tail, 1, checked);
        ScanAround(node, rest, 0, 1, "", FlatAll(node.kids), checked, checked);
        BodyOfList(node, checked);
      } else {
        var now := OrFirst(checked, Own(node.kids));
        ScanOwn(node.kids, tail, checked);
        ScanAround(node, rest, 0, 0, Title(node.kids), FlatAll(Body(node.kids, checked)), checked, now);
        BodyOfElem(node, checked);
      }
    }
  }

  lemma ScanOwnLeaf(event: Event, rest: seq<Event>, checked: Option<bool>)
    requires !event.Start? && !event.End?
    ensures var node := Leaf(event);
            Scan(Flat(node) + rest, 0, checked) ==
            Prepend(TitleOf(node), FlatAll(BodyOf(node, checked)), Scan(rest, 0, OrFirst(checked, OwnOf(node))))
  {
    ScanOne(event, rest, 0, checked);
    FlatOne(Leaf(event));
  }

  lemma BodyOfList(node: Node, checked: Option<bool>)
    requires node.Elem? && node.tag.ListTag?
    ensures FlatAll(BodyOf(node, checked)) == [Start(node.tag)] + FlatAll(node.kids) + [End(EndOf(node.tag))]
  {
    FlatOne(node);
  }

  lemma BodyOfElem(node: Node, checked: Option<bool>)
    requires node.Elem? && !node.tag.ListTag?
    ensures FlatAll(BodyOf(node, checked)) == [Start(node.tag)] + FlatAll(Body(node.kids, checked)) +
            [End(EndOf(node.tag))]
  {
    StripNothing(node.kids);
    FlatOne(Elem(node.tag, Body(node.kids, checked)));
  }

  lemma {:induction false} StripNothing(nodes: seq<Node>)
    ensures Own(nodes) == [] ==> Strip(nodes) == nodes
  {
    if nodes != [] {
      StripNothing(nodes[1..]);
      assert nodes == [nodes[0]] + nodes[1..];
    }
  }
}
