/** The restructuring of event streams by `blocks` of desktop/src/markdown.rs: lists with task markers
    become trees of items, each with its own marker taken out. */
module MarkdownBlocks {
  import opened Prelude
  import opened MarkdownEvents
  import opened MarkdownItems

  /** A text block stands for the events that the serializer writes out. */
  datatype Block = TextBlock(events: seq<Event>) | ListBlock(start: Option<nat>, items: seq<ListItem>)

  datatype ListItem = ListItem(checked: Option<bool>, title: string, blocks: seq<Block>)

  /** Lists hold items only. */
  predicate Shaped(nodes: seq<Node>, inList: bool) {
    forall i :: 0 <= i < |nodes| ==>
      match nodes[i]
      case Leaf(_) => !inList
      case Elem(tag, kids) => (inList ==> tag.ItemTag?) && Shaped(kids, tag.ListTag?)
  }

  predicate Marked(events: seq<Event>) {
    exists k :: 0 <= k < |events| && events[k].TaskListMarker?
  }

  // ---------------------------------------------------------------- the matching end

  function Depth(events: seq<Event>): int {
    if events == [] then 0
    else
      Depth(events[..|events| - 1]) +
      (if events[|events| - 1].Start? then 1 else if events[|events| - 1].End? then -1 else 0)
  }

  lemma {:induction false} DepthConcat(a: seq<Event>, b: seq<Event>)
    ensures Depth(a + b) == Depth(a) + Depth(b)
  {
    if b == [] {
      assert a + b == a;
    } else {
      DepthConcat(a, b[..|b| - 1]);
      assert (a + b)[..|a + b| - 1] == a + b[..|b| - 1];
    }
  }

  /** A node's events open and close evenly, and never close more than they opened before. */
  lemma {:induction false} DepthOfNode(node: Node, k: nat)
    requires Proper([node]) && k <= |Flat(node)|
    ensures Depth(Flat(node)[..k]) >= 0 && (k == |Flat(node)| ==> Depth(Flat(node)[..k]) == 0)
    ensures node.Elem? && 0 < k < |Flat(node)| ==> Depth(Flat(node)[..k]) > 0
    decreases node, 1
  {
    var events := Flat(node);
    assert [node][0] == node;
    if node.Leaf? {
      assert events[..0] == [] && events[..|events|] == events;
    } else if k > 0 {
      var start, inner := [Start(node.tag)], FlatAll(node.kids);
      assert start[..0] == [] && Depth(start) == 1;
      if k <= |inner| + 1 {
        DepthOfForest(node.kids, k - 1);
        DepthConcat(start, inner[..k - 1]);
        assert events[..k] == start + inner[..k - 1];
      } else {
        DepthOfForest(node.kids, |inner|);
        DepthConcat(start, inner);
        assert inner[..|inner|] == inner && events[..k] == events && events[..k - 1] == start + inner;
      }
    }
  }

  lemma {:induction false} DepthOfForest(nodes: seq<Node>, k: nat)
    requires Proper(nodes) && k <= |FlatAll(nodes)|
    ensures Depth(FlatAll(nodes)[..k]) >= 0 && (k == |FlatAll(nodes)| ==> Depth(FlatAll(nodes)[..k]) == 0)
    decreases nodes, 0
  {
    if nodes != [] {
      var node, more := nodes[0], nodes[1..];
      assert nodes == [node] + more;
      ProperCons(node, more);
      var head, tail := Flat(node), FlatAll(more);
      if k <= |head| {
        DepthOfNode(node, k);
        assert (head + tail)[..k] == head[..k];
      }
      if k >= |head| {
        DepthOfNode(node, |head|);
        DepthOfForest(more, k - |head|);
        DepthConcat(head, tail[..k - |head|]);
        assert head[..|head|] == head && (head + tail)[..k] == head + tail[..k - |head|];
      }
    }
  }

  /** The position of the end that matches the start there: where the depth first returns to zero. */
  predicate Matches(events: seq<Event>, start: nat, end: nat) {
    && start < end < |events| && Depth(events[start..end + 1]) == 0
    && forall k :: start < k <= end ==> Depth(events[start..k]) > 0
  }

  /** There is never more than one. */
  lemma MatchIsUnique(events: seq<Event>, start: nat, a: nat, b: nat)
    requires Matches(events, start, a) && Matches(events, start, b)
    ensures a == b
  {
    var atA, atB := Depth(events[start..a + 1]), Depth(events[start..b + 1]);
  }

  lemma NodeMatches(events: seq<Event>, start: nat, node: Node)
    requires Proper([node]) && node.Elem? && start + |Flat(node)| <= |events|
    requires events[start..start + |Flat(node)|] == Flat(node)
    ensures Matches(events, start, start + |Flat(node)| - 1)
  {
    var end := start + |Flat(node)| - 1;
    DepthOfNode(node, |Flat(node)|);
    assert Flat(node)[..|Flat(node)|] == Flat(node);
    forall k | start < k <= end ensures Depth(events[start..k]) > 0 {
      DepthOfNode(node, k - start);
      assert events[start..k] == Flat(node)[..k - start];
    }
  }

  /** The loop returns the matching end, and where there is one it never runs off the stream. */
  method MatchingEnd(events: seq<Event>, start: nat, ghost end: nat) returns (r: nat)
    requires Matches(events, start, end)
    ensures r == end
  {
    r := start;
    var depth := 0;
    for k := start to |events|
      invariant start <= k <= end && depth == Depth(events[start..k])
    {
      assert events[start..k + 1][..k - start] == events[start..k];
      if events[k].Start? {
        depth := depth + 1;
      } else if events[k].End? {
        depth := depth - 1;
        if depth == 0 {
          return k;
        }
      }
    }
    assert false;
  }

  // ---------------------------------------------------------------- the tree of blocks

  predicate TaskList(node: Node) {
    node.Elem? && node.tag.ListTag? && Marked(FlatAll(node.kids))
  }

  function Pending(run: seq<Node>): seq<Block> {
    if run == [] then [] else [TextBlock(FlatAll(run))]
  }

  /** The blocks of the rest of a forest, with a run of nodes already waiting to become text. */
  function Split(run: seq<Node>, rest: seq<Node>): seq<Block>
    requires Shaped(rest, false)
    decreases |FlatAll(rest)|, 0
  {
    if rest == [] then Pending(run)
    else
      assert FlatAll(rest) == Flat(rest[0]) + FlatAll(rest[1..]);
      if TaskList(rest[0]) then
        Pending(run) + [ListBlock(rest[0].tag.start, ItemsOf(rest[0].kids))] + Split([], rest[1..])
      else Split(run + [rest[0]], rest[1..])
  }

  function ItemsOf(items: seq<Node>): seq<ListItem>
    requires Shaped(items, true)
    decreases |FlatAll(items)|, 0
  {
    if items == [] then []
    else
      assert FlatAll(items) == Flat(items[0]) + FlatAll(items[1..]);
      var kids := items[0].kids;
      StripShaped(kids);
      StripShorter(kids);
      [ListItem(First(Own(kids)), Title(kids), Split([], Strip(kids)))] + ItemsOf(items[1..])
  }

  function BlocksOf(nodes: seq<Node>): seq<Block>
    requires Shaped(nodes, false)
  {
    Split([], nodes)
  }

  lemma ShapedCons(node: Node, more: seq<Node>, inList: bool)
    ensures Shaped([node] + more, inList) <==> Shaped([node], inList) && Shaped(more, inList)
  {
    var all := [node] + more;
    assert [node][0] == all[0] && forall i :: 0 <= i < |more| ==> all[i + 1] == more[i];
  }

  lemma {:induction false} StripShaped(nodes: seq<Node>)
    ensures Shaped(nodes, false) ==> Shaped(Strip(nodes), false)
    ensures Proper(nodes) ==> Proper(Strip(nodes))
  {
    if nodes != [] {
      var node, more := nodes[0], nodes[1..];
      assert nodes == [node] + more;
      ShapedCons(node, more, false);
      ProperCons(node, more);
      StripShaped(more);
      ShapedCons(node, Strip(more), false);
      ProperCons(node, Strip(more));
      if node.Elem? {
        StripShaped(node.kids);
        var kept := Elem(node.tag, Strip(node.kids));
        assert [node][0] == node && [kept][0] == kept;
        ShapedCons(kept, more, false);
        ProperCons(kept, more);
      } else {
        assert [] + more == more;
      }
    }
  }

  lemma {:induction false} StripShorter(nodes: seq<Node>)
    ensures |FlatAll(Strip(nodes))| <= |FlatAll(nodes)|
  {
    if nodes != [] {
      var node, more := nodes[0], nodes[1..];
      assert nodes == [node] + more;
      StripShorter(more);
      FlatCons(node, Strip(more));
      if node.Elem? {
        StripShorter(node.kids);
        FlatCons(Elem(node.tag, Strip(node.kids)), more);
      } else {
        assert [] + more == more;
      }
    }
  }

  // ---------------------------------------------------------------- the loops

  /** Node n starts where the nodes before it end. */
  lemma NodeAt(nodes: seq<Node>, n: nat)
    requires n < |nodes|
    ensures FlatAll(nodes) == FlatAll(nodes[..n]) + (Flat(nodes[n]) + FlatAll(nodes[n + 1..]))
    ensures FlatAll(nodes[..n + 1]) == FlatAll(nodes[..n]) + Flat(nodes[n])
  {
    hide Flat, FlatAll;
    NodesAt(nodes, n);
    FlatConcat(nodes[..n], nodes[n..]);
    FlatConcat(nodes[..n], [nodes[n]]);
    FlatCons(nodes[n], nodes[n + 1..]);
    FlatOne(nodes[n]);
  }

  lemma NodesAt(nodes: seq<Node>, n: nat)
    requires n < |nodes|
    ensures nodes == nodes[..n] + nodes[n..] && nodes[n..] == [nodes[n]] + nodes[n + 1..] &&
            nodes[..n + 1] == nodes[..n] + [nodes[n]]
  {
  }

  /** The events between two nodes are those of the nodes between them. */
  lemma Between(nodes: seq<Node>, m: nat, n: nat)
    requires m <= n <= |nodes|
    ensures |FlatAll(nodes[..m])| <= |FlatAll(nodes[..n])| <= |FlatAll(nodes)|
    ensures FlatAll(nodes)[|FlatAll(nodes[..m])|..|FlatAll(nodes[..n])|] == FlatAll(nodes[m..n])
  {
    hide Flat, FlatAll;
    assert nodes[..n] == nodes[..m] + nodes[m..n] && nodes == nodes[..n] + nodes[n..];
    FlatConcat(nodes[..m], nodes[m..n]);
    FlatConcat(nodes[..n], nodes[n..]);
  }

  /** Where an element starts, its matching end is the last of its events. */
  lemma ElementAt(nodes: seq<Node>, n: nat)
    requires Proper(nodes) && n < |nodes|
    ensures var events, index := FlatAll(nodes), |FlatAll(nodes[..n])|;
            && index < |events| && index + |Flat(nodes[n])| <= |events|
            && events[index] == Flat(nodes[n])[0] && (events[index].Start? <==> nodes[n].Elem?)
            && events[index..index + |Flat(nodes[n])|] == Flat(nodes[n])
            && |FlatAll(nodes[..n + 1])| == index + |Flat(nodes[n])|
            && (nodes[n].Leaf? ==> |Flat(nodes[n])| == 1) && (nodes[n].Elem? ==> Proper(nodes[n].kids))
            && (nodes[n].Elem? ==> Matches(events, index, index + |Flat(nodes[n])| - 1))
  {
    NodeAt(nodes, n);
    assert Proper([nodes[n]]);
    var events, index := FlatAll(nodes), |FlatAll(nodes[..n])|;
    assert events[index..index + |Flat(nodes[n])|] == Flat(nodes[n]);
    if nodes[n].Elem? {
      NodeMatches(events, index, nodes[n]);
    } else {
      assert Flat(nodes[n])[0] == nodes[n].event;
    }
  }

  lemma InnerEvents(node: Node)
    requires node.Elem?
    ensures var events := Flat(node);
            && |events| >= 2 && events[0] == Start(node.tag) && events[1..|events| - 1] == FlatAll(node.kids)
            && (Marked(events[..|events| - 1]) <==> Marked(FlatAll(node.kids)))
  {
    var events, inner := Flat(node), FlatAll(node.kids);
    assert events[..|events| - 1] == [Start(node.tag)] + inner;
    MarkedConcat([Start(node.tag)], inner);
  }

  lemma MarkedConcat(a: seq<Event>, b: seq<Event>)
    ensures Marked(a + b) <==> Marked(a) || Marked(b)
  {
    assert forall k :: 0 <= k < |a| ==> (a + b)[k] == a[k];
    forall k | 0 <= k < |b| ensures b[k].TaskListMarker? ==> Marked(a + b) {
      assert (a + b)[|a| + k] == b[k];
    }
  }

  lemma SliceInside(events: seq<Event>, index: nat, part: seq<Event>)
    requires |part| >= 2 && index + |part| <= |events| && events[index..index + |part|] == part
    ensures events[index + 1..index + |part| - 1] == part[1..|part| - 1]
    ensures events[index..index + |part| - 1] == part[..|part| - 1]
  {
  }

  method AnyMarker(events: seq<Event>) returns (marked: bool)
    ensures marked == Marked(events)
  {
    for k := 0 to |events|
      invariant !Marked(events[..k])
    {
      if events[k].TaskListMarker? {
        return true;
      }
    }
    return false;
  }

  lemma SplitStart(nodes: seq<Node>)
    requires Shaped(nodes, false)
    ensures nodes[..0] == [] && FlatAll(nodes[..0]) == [] && nodes[0..0] == [] && nodes[0..] == nodes
    ensures [] + Split(nodes[0..0], nodes[0..]) == BlocksOf(nodes)
  {
  }

  lemma SplitStep(nodes: seq<Node>, m: nat, n: nat)
    requires m <= n < |nodes| && Shaped(nodes[n..], false)
    ensures Shaped(nodes[n + 1..], false) && (nodes[n].Elem? ==> Shaped(nodes[n].kids, nodes[n].tag.ListTag?))
    ensures TaskList(nodes[n]) ==> nodes[n].Elem?
    ensures Split(nodes[m..n], nodes[n..]) ==
            if TaskList(nodes[n])
            then Pending(nodes[m..n]) + [ListBlock(nodes[n].tag.start, ItemsOf(nodes[n].kids))] +
              Split(nodes[n + 1..n + 1], nodes[n + 1..])
            else Split(nodes[m..n + 1], nodes[n + 1..])
  {
    hide Marked, ItemsOf, FlatAll;
    assert nodes[n..][0] == nodes[n] && nodes[n..][1..] == nodes[n + 1..] && nodes[n + 1..n + 1] == [];
    assert nodes[m..n + 1] == nodes[m..n] + [nodes[n]];
    assert nodes[n..] == [nodes[n]] + nodes[n + 1..] && [nodes[n]][0] == nodes[n];
    ShapedCons(nodes[n], nodes[n + 1..], false);
  }

  /** A run of nodes is empty exactly when its events are. */
  lemma RunEvents(nodes: seq<Node>, m: nat, n: nat)
    requires m <= n <= |nodes|
    ensures |FlatAll(nodes[..m])| <= |FlatAll(nodes[..n])| <= |FlatAll(nodes)|
    ensures Pending(nodes[m..n]) ==
            if |FlatAll(nodes[..m])| < |FlatAll(nodes[..n])|
            then [TextBlock(FlatAll(nodes)[|FlatAll(nodes[..m])|..|FlatAll(nodes[..n])|])] else []
  {
    Between(nodes, m, n);
    assert |FlatAll(nodes[m..n])| >= n - m;
    assert m == n ==> nodes[..m] == nodes[..n];
  }

  /** Restructures the events that spell the forest. */
  method Blocks(events: seq<Event>, ghost nodes: seq<Node>) returns (result: seq<Block>)
    requires Proper(nodes) && Shaped(nodes, false) && events == FlatAll(nodes)
    ensures result == BlocksOf(nodes)
    decreases |events|, 1
  {
    hide Flat, FlatAll, Proper, Shaped, Marked, ItemsOf, Matches, Pending, Split, BlocksOf, TaskList;
    result := [];
    var pending, index := 0, 0;
    ghost var m, n := 0, 0;
    SplitStart(nodes);
    while index < |events|
      invariant m <= n <= |nodes| && Shaped(nodes[n..], false)
      invariant pending == |FlatAll(nodes[..m])| && index == |FlatAll(nodes[..n])| <= |events|
      invariant result + Split(nodes[m..n], nodes[n..]) == BlocksOf(nodes)
      decreases |nodes| - n
    {
      NodesLeft(nodes, n);
      ElementAt(nodes, n);
      SplitStep(nodes, m, n);
      if events[index].Start? {
        ListAt(nodes, n);
        var end := MatchingEnd(events, index, index + |Flat(nodes[n])| - 1);
        var marked := AnyMarker(events[index..end]);
        if events[index].tag.ListTag? && marked {
          RunEvents(nodes, m, n);
          ghost var text := Pending(nodes[m..n]);
          ghost var before := result;
          if pending < index {
            result := result + [TextBlock(events[pending..index])];
          }
          var items := Items(events[index + 1..end], nodes[n].kids);
          var block := ListBlock(events[index].tag.start, items);
          Gathered(before, text, result, block, Split(nodes[n + 1..n + 1], nodes[n + 1..]));
          result := result + [block];
          pending, m := end + 1, n + 1;
        }
        index := end + 1;
      } else {
        index := index + 1;
      }
      n := n + 1;
    }
    Exhausted(nodes, n);
    RunEvents(nodes, m, n);
    SplitEnd(nodes, m);
    if pending < |events| {
      result := result + [TextBlock(events[pending..])];
    }
  }

  lemma Gathered(before: seq<Block>, text: seq<Block>, after: seq<Block>, block: Block, rest: seq<Block>)
    requires after == before + text
    ensures before + (text + [block] + rest) == after + [block] + rest
  {
  }

  lemma SplitEnd(nodes: seq<Node>, m: nat)
    requires m <= |nodes|
    ensures nodes[|nodes|..] == [] && nodes[..|nodes|] == nodes &&
            Split(nodes[m..|nodes|], []) == Pending(nodes[m..|nodes|])
    ensures FlatAll(nodes)[..|FlatAll(nodes)|] == FlatAll(nodes)
  {
  }

  /** A started element: its events, and whether it is a task list. */
  lemma ListAt(nodes: seq<Node>, n: nat)
    requires Proper(nodes) && n < |nodes| && nodes[n].Elem?
    ensures var events, index, size := FlatAll(nodes), |FlatAll(nodes[..n])|, |Flat(nodes[n])|;
            && 2 <= size && index + size <= |events| && events[index] == Start(nodes[n].tag) && Proper(nodes[n].kids)
            && events[index + 1..index + size - 1] == FlatAll(nodes[n].kids)
            && (TaskList(nodes[n]) <==> nodes[n].tag.ListTag? && Marked(events[index..index + size - 1]))
  {
    hide FlatAll, Flat, Marked, Matches, Proper;
    ElementAt(nodes, n);
    InnerEvents(nodes[n]);
    SliceInside(FlatAll(nodes), |FlatAll(nodes[..n])|, Flat(nodes[n]));
  }

  /** Restructures the items of a list. */
  method Items(events: seq<Event>, ghost nodes: seq<Node>) returns (items: seq<ListItem>)
    requires Proper(nodes) && Shaped(nodes, true) && events == FlatAll(nodes)
    ensures items == ItemsOf(nodes)
    decreases |events|, 0
  {
    hide Flat, FlatAll, Proper, Shaped, Marked, Split, Scan, Matches;
    items := [];
    var start := 0;
    ghost var n := 0;
    ItemsStart(nodes);
    while start < |events|
      invariant n <= |nodes| && Shaped(nodes[n..], true) && start == |FlatAll(nodes[..n])| <= |events|
      invariant items + ItemsOf(nodes[n..]) == ItemsOf(nodes)
      decreases |nodes| - n
    {
      NodesLeft(nodes, n);
      ItemAt(nodes, n);
      ItemsStep(nodes, n);
      var end := MatchingEnd(events, start, start + |Flat(nodes[n])| - 1);
      var checked, title, body := ScanItem(events[start + 1..end]);
      var blocks := Blocks(body, Strip(nodes[n].kids));
      Regroup(items, [ListItem(checked, title, blocks)], ItemsOf(nodes[n + 1..]));
      items := items + [ListItem(checked, title, blocks)];
      start, n := end + 1, n + 1;
    }
    Exhausted(nodes, n);
    assert nodes[n..] == [] && items + [] == items;
  }

  lemma ItemsStart(nodes: seq<Node>)
    ensures nodes[..0] == [] && FlatAll(nodes[..0]) == [] && nodes[0..] == nodes
    ensures Shaped(nodes, true) ==> [] + ItemsOf(nodes[0..]) == ItemsOf(nodes)
  {
  }

  lemma NodesLeft(nodes: seq<Node>, n: nat)
    requires n <= |nodes|
    ensures |FlatAll(nodes[..n])| < |FlatAll(nodes)| ==> n < |nodes|
  {
    assert n == |nodes| ==> nodes[..n] == nodes;
  }

  lemma Exhausted(nodes: seq<Node>, n: nat)
    requires n <= |nodes|
    ensures |FlatAll(nodes[..n])| == |FlatAll(nodes)| ==> n == |nodes|
  {
    if n < |nodes| {
      NodeAt(nodes, n);
    }
  }

  /** An item's events, and what its scan gives. */
  lemma ItemAt(nodes: seq<Node>, n: nat)
    requires Proper(nodes) && n < |nodes| && Shaped(nodes[n..], true)
    ensures nodes[n].Elem?
    ensures var events, start, size, kids := FlatAll(nodes), |FlatAll(nodes[..n])|, |Flat(nodes[n])|, nodes[n].kids;
            && 2 <= size && start + size <= |events| && |FlatAll(nodes[..n + 1])| == start + size
            && Matches(events, start, start + size - 1)
            && Scan(events[start + 1..start + size - 1], 0, None) ==
               Scanned(First(Own(kids)), Title(kids), FlatAll(Strip(kids)))
            && |FlatAll(Strip(kids))| < |events| && Proper(Strip(kids))
  {
    hide FlatAll, Flat, Marked, Matches, Scan, Own, Strip, Title, Proper;
    var node := nodes[n];
    assert nodes[n..][0] == node && node.Elem?;
    ElementAt(nodes, n);
    ListAt(nodes, n);
    StripShaped(node.kids);
    StripShorter(node.kids);
    hide Shaped;
    ScanAll(node.kids);
  }

  lemma ItemsStep(nodes: seq<Node>, n: nat)
    requires n < |nodes| && Shaped(nodes[n..], true) && nodes[n].Elem?
    ensures var kids := nodes[n].kids;
            && Shaped(nodes[n + 1..], true) && Shaped(Strip(kids), false)
            && ItemsOf(nodes[n..]) == [ListItem(First(Own(kids)), Title(kids), Split([], Strip(kids)))] +
               ItemsOf(nodes[n + 1..])
  {
    var node := nodes[n];
    assert nodes[n..][0] == node && nodes[n..][1..] == nodes[n + 1..];
    assert nodes[n..] == [node] + nodes[n + 1..];
    ShapedCons(node, nodes[n + 1..], true);
    StripShaped(node.kids);
  }

  lemma ScanAll(kids: seq<Node>)
    requires Proper(kids)
    ensures Scan(FlatAll(kids), 0, None) == Scanned(First(Own(kids)), Title(kids), FlatAll(Strip(kids)))
  {
    ScanOwn(kids, [], None);
    assert FlatAll(kids) + [] == FlatAll(kids) && FlatAll(Strip(kids)) + [] == FlatAll(Strip(kids)) &&
           Title(kids) + "" == Title(kids);
  }
}
