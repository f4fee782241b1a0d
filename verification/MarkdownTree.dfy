/** What `blocks` of desktop/src/markdown.rs promises about the tree it builds. */
module MarkdownTree {
  import opened Prelude
  import opened MarkdownEvents
  import opened MarkdownItems
  import opened MarkdownBlocks

  /** Restructures a well-nested stream whose lists contain only items. */
  method Restructure(events: seq<Event>) returns (result: seq<Block>)
    requires WellNested(events) && Shaped(Parse(events), false)
    ensures result == BlocksOf(Parse(events))
  {
    WellNestedSpellsForest(events);
    result := Blocks(events, Parse(events));
  }

  // ---------------------------------------------------------------- what is checked

  /** The markers whose innermost enclosing item is the one with these nodes. */
  function ByItem(nodes: seq<Node>): seq<bool> {
    if nodes == [] then [] else ByItemOf(nodes[0]) + ByItem(nodes[1..])
  }

  function ByItemOf(node: Node): seq<bool> {
    match node
    case Leaf(TaskListMarker(checked)) => [checked]
    case Leaf(_) => []
    case Elem(tag, kids) => if tag.ItemTag? then [] else ByItem(kids)
  }

  /** Only lists hold items. */
  predicate Homed(nodes: seq<Node>, inList: bool) {
    forall i :: 0 <= i < |nodes| ==>
      match nodes[i]
      case Leaf(_) => true
      case Elem(tag, kids) => (tag.ItemTag? ==> inList) && Homed(kids, tag.ListTag?)
  }

  lemma HomedCons(node: Node, more: seq<Node>, inList: bool)
    ensures Homed([node] + more, inList) <==> Homed([node], inList) && Homed(more, inList)
  {
    var all := [node] + more;
    assert [node][0] == all[0] && forall i :: 0 <= i < |more| ==> all[i + 1] == more[i];
  }

  lemma {:induction false} ItemsHideMarkers(nodes: seq<Node>)
    requires Shaped(nodes, true)
    ensures ByItem(nodes) == []
  {
    if nodes != [] {
      assert nodes == [nodes[0]] + nodes[1..];
      ShapedCons(nodes[0], nodes[1..], true);
      ItemsHideMarkers(nodes[1..]);
    }
  }

  /** Where only lists hold items, leaving out nested lists leaves out exactly nested items. */
  lemma {:induction false} OwnIsByItem(nodes: seq<Node>)
    requires Shaped(nodes, false) && Homed(nodes, false)
    ensures Own(nodes) == ByItem(nodes)
  {
    if nodes != [] {
      var node, more := nodes[0], nodes[1..];
      assert nodes == [node] + more;
      ShapedCons(node, more, false);
      HomedCons(node, more, false);
      OwnIsByItem(more);
      if node.Elem? {
        assert [node][0] == node;
        if node.tag.ListTag? {
          ItemsHideMarkers(node.kids);
        } else {
          OwnIsByItem(node.kids);
        }
      }
    }
  }

  /** What an item shows: its marker, if it has one, and its text. */
  datatype Face = Face(checked: Option<bool>, title: string)

  /** There is a task marker at any depth. */
  predicate HoldsMarker(nodes: seq<Node>) {
    exists i :: 0 <= i < |nodes| && MarkerWithin(nodes[i])
  }

  predicate MarkerWithin(node: Node) {
    match node
    case Leaf(event) => event.TaskListMarker?
    case Elem(_, kids) => HoldsMarker(kids)
  }

  lemma HoldsCons(node: Node, more: seq<Node>)
    ensures HoldsMarker([node] + more) <==> MarkerWithin(node) || HoldsMarker(more)
  {
    hide MarkerWithin;
    var all := [node] + more;
    assert all[0] == node && forall i :: 0 <= i < |more| ==> all[i + 1] == more[i];
  }

  lemma {:induction false} MarkedIsHeld(nodes: seq<Node>)
    ensures Marked(FlatAll(nodes)) <==> HoldsMarker(nodes)
    decreases nodes, 0
  {
    if nodes != [] {
      assert nodes == [nodes[0]] + nodes[1..];
      MarkedNode(nodes[0]);
      MarkedIsHeld(nodes[1..]);
      HoldsCons(nodes[0], nodes[1..]);
      hide Marked, HoldsMarker, MarkerWithin;
      MarkedConcat(Flat(nodes[0]), FlatAll(nodes[1..]));
    }
  }

  lemma {:induction false} MarkedNode(node: Node)
    ensures Marked(Flat(node)) <==> MarkerWithin(node)
    decreases node, 1
  {
    if node.Elem? {
      MarkedIsHeld(node.kids);
      MarkedConcat([Start(node.tag)] + FlatAll(node.kids), [End(EndOf(node.tag))]);
      MarkedConcat([Start(node.tag)], FlatAll(node.kids));
    } else {
      assert Flat(node)[0] == node.event;
    }
  }

  /** What the items of the restructured lists should show, in document order: the first marker whose
      innermost enclosing item is that item, and the text in no list nested in it. The lists are those at
      the top, and in the items of such lists, that hold a marker at any depth. */
  function Expected(nodes: seq<Node>): seq<Face> {
    if nodes == [] then [] else ExpectedOf(nodes[0]) + Expected(nodes[1..])
  }

  function ExpectedOf(node: Node): seq<Face> {
    if node.Elem? && node.tag.ListTag? && HoldsMarker(node.kids) then ExpectedItems(node.kids) else []
  }

  function ExpectedItems(items: seq<Node>): seq<Face> {
    if items == [] then []
    else (match items[0]
          case Elem(_, kids) => [Face(First(ByItem(kids)), Title(kids))] + Expected(kids)
          case Leaf(_) => []) + ExpectedItems(items[1..])
  }

  /** The same in terms of nested lists: the first marker of each item that is in no list nested in it. */
  function Marks(nodes: seq<Node>): seq<Face> {
    if nodes == [] then [] else MarksOf(nodes[0]) + Marks(nodes[1..])
  }

  function MarksOf(node: Node): seq<Face> {
    if node.Elem? && node.tag.ListTag? && HoldsMarker(node.kids) then MarksItems(node.kids) else []
  }

  function MarksItems(items: seq<Node>): seq<Face> {
    if items == [] then []
    else (match items[0]
          case Elem(_, kids) => [Face(First(Own(kids)), Title(kids))] + Marks(kids)
          case Leaf(_) => []) + MarksItems(items[1..])
  }

  lemma {:induction false} MarksAreExpected(nodes: seq<Node>)
    requires Shaped(nodes, false) && Homed(nodes, false)
    ensures Marks(nodes) == Expected(nodes)
    decreases nodes
  {
    if nodes != [] {
      var node, more := nodes[0], nodes[1..];
      assert nodes == [node] + more && [node][0] == node;
      ShapedCons(node, more, false);
      HomedCons(node, more, false);
      MarksAreExpected(more);
      hide HoldsMarker;
      if node.Elem? && node.tag.ListTag? {
        MarkedItems(node.kids);
      }
    }
  }

  lemma {:induction false} MarkedItems(items: seq<Node>)
    requires Shaped(items, true) && Homed(items, true)
    ensures MarksItems(items) == ExpectedItems(items)
    decreases items
  {
    if items != [] {
      var node, more := items[0], items[1..];
      assert items == [node] + more && [node][0] == node;
      ShapedCons(node, more, true);
      HomedCons(node, more, true);
      MarkedItems(more);
      OwnIsByItem(node.kids);
      MarksAreExpected(node.kids);
    }
  }

  /** What the items show, in document order. */
  function AllChecked(blocks: seq<Block>): seq<Face> {
    if blocks == [] then [] else CheckedOf(blocks[0]) + AllChecked(blocks[1..])
  }

  function CheckedOf(block: Block): seq<Face> {
    match block
    case TextBlock(_) => []
    case ListBlock(_, items) => CheckedItems(items)
  }

  function CheckedItems(items: seq<ListItem>): seq<Face> {
    if items == [] then []
    else [Face(items[0].checked, items[0].title)] + AllChecked(items[0].blocks) + CheckedItems(items[1..])
  }

  lemma {:induction false} AllCheckedConcat(a: seq<Block>, b: seq<Block>)
    ensures AllChecked(a + b) == AllChecked(a) + AllChecked(b)
  {
    if a == [] {
      assert a + b == b && AllChecked(a) + AllChecked(b) == AllChecked(b);
    } else {
      hide CheckedOf;
      AllCheckedConcat(a[1..], b);
      assert (a + b)[1..] == a[1..] + b && (a + b)[0] == a[0];
      Regroup(CheckedOf(a[0]), AllChecked(a[1..]), AllChecked(b));
    }
  }

  lemma PendingChecked(run: seq<Node>)
    ensures AllChecked(Pending(run)) == []
  {
    var pending := Pending(run);
    assert pending != [] ==> pending[1..] == [];
  }

  lemma MarksCons(node: Node, more: seq<Node>)
    ensures Marks([node] + more) == MarksOf(node) + Marks(more)
  {
    assert ([node] + more)[1..] == more;
  }

  /** Taking out an item's own marker leaves the lists nested in it alone. */
  lemma {:induction false} StripKeepsMarks(nodes: seq<Node>)
    ensures Marks(Strip(nodes)) == Marks(nodes)
  {
    if nodes != [] {
      var node, more := nodes[0], nodes[1..];
      assert nodes == [node] + more;
      if OwnOf(node) == [] {
        StripKeepsMarks(more);
        MarksCons(node, Strip(more));
      } else if node.Elem? {
        MarksCons(Elem(node.tag, Strip(node.kids)), more);
      } else {
        assert [] + more == more;
      }
    }
  }

  /** Each item of the result shows its first marker that is in no list nested in it. */
  lemma {:induction false} CheckedMarks(run: seq<Node>, rest: seq<Node>)
    requires Shaped(rest, false)
    ensures AllChecked(Split(run, rest)) == Marks(rest)
    decreases |FlatAll(rest)|, 0
  {
    if rest == [] {
      PendingChecked(run);
    } else {
      var node, more := rest[0], rest[1..];
      assert rest == [node] + more;
      ShapedCons(node, more, false);
      FlatCons(node, more);
      if node.Elem? {
        MarkedIsHeld(node.kids);
      }
      hide HoldsMarker;
      if TaskList(node) {
        var list := ListBlock(node.tag.start, ItemsOf(node.kids));
        ItemsShowMarks(node.kids);
        CheckedMarks([], more);
        PendingChecked(run);
        OneChecked(list);
        hide Split, ItemsOf, AllChecked, CheckedItems, Marks, MarksItems, FlatAll, Marked;
        AllCheckedConcat(Pending(run) + [list], Split([], more));
        AllCheckedConcat(Pending(run), [list]);
      } else {
        CheckedMarks(run + [node], more);
      }
    }
  }

  /** Where only lists hold items, each item of the result shows the first marker whose innermost enclosing
      item is that item. */
  lemma CheckedAsExpected(nodes: seq<Node>)
    requires Shaped(nodes, false) && Homed(nodes, false)
    ensures AllChecked(BlocksOf(nodes)) == Expected(nodes)
  {
    CheckedMarks([], nodes);
    MarksAreExpected(nodes);
  }

  lemma OneChecked(block: Block)
    ensures AllChecked([block]) == CheckedOf(block)
  {
    assert [block][1..] == [];
  }

  lemma {:induction false} ItemsShowMarks(items: seq<Node>)
    requires Shaped(items, true)
    ensures CheckedItems(ItemsOf(items)) == MarksItems(items)
    decreases |FlatAll(items)|, 0
  {
    if items != [] {
      var node, more := items[0], items[1..];
      assert items == [node] + more;
      ShapedCons(node, more, true);
      FlatCons(node, more);
      ItemsShowMarks(more);
      StripShaped(node.kids);
      StripShorter(node.kids);
      CheckedMarks([], Strip(node.kids));
      StripKeepsMarks(node.kids);
    }
  }

  // ---------------------------------------------------------------- what is conserved

  /** The events that a tree of blocks stands for. */
  function FlatBlocks(blocks: seq<Block>): seq<Event> {
    if blocks == [] then [] else FlatBlock(blocks[0]) + FlatBlocks(blocks[1..])
  }

  function FlatBlock(block: Block): seq<Event> {
    match block
    case TextBlock(events) => events
    case ListBlock(start, items) => [Start(ListTag(start))] + FlatItems(items) + [End(ListEnd(start.Some?))]
  }

  function FlatItems(items: seq<ListItem>): seq<Event> {
    if items == [] then [] else [Start(ItemTag)] + FlatBlocks(items[0].blocks) + [End(ItemEnd)] + FlatItems(items[1..])
  }

  /** The forest without the markers that the items of its restructured lists show. */
  function Cleared(nodes: seq<Node>): seq<Node>
    decreases |FlatAll(nodes)|, 1
  {
    if nodes == [] then []
    else
      assert FlatAll(nodes) == Flat(nodes[0]) + FlatAll(nodes[1..]);
      [if TaskList(nodes[0]) then Elem(nodes[0].tag, ClearedItems(nodes[0].kids)) else nodes[0]] + Cleared(nodes[1..])
  }

  function ClearedItems(items: seq<Node>): seq<Node>
    decreases |FlatAll(items)|, 0
  {
    if items == [] then []
    else
      assert FlatAll(items) == Flat(items[0]) + FlatAll(items[1..]);
      [match items[0]
       case Elem(tag, kids) =>
         StripShorter(kids);
         Elem(tag, Cleared(Strip(kids)))
       case Leaf(_) => items[0]] + ClearedItems(items[1..])
  }

  lemma {:induction false} FlatBlocksConcat(a: seq<Block>, b: seq<Block>)
    ensures FlatBlocks(a + b) == FlatBlocks(a) + FlatBlocks(b)
  {
    if a == [] {
      assert a + b == b && FlatBlocks(a) + FlatBlocks(b) == FlatBlocks(b);
    } else {
      hide FlatBlock;
      FlatBlocksConcat(a[1..], b);
      assert (a + b)[1..] == a[1..] + b && (a + b)[0] == a[0];
      Regroup(FlatBlock(a[0]), FlatBlocks(a[1..]), FlatBlocks(b));
    }
  }

  lemma OneBlock(block: Block)
    ensures FlatBlocks([block]) == FlatBlock(block)
  {
    assert [block][1..] == [];
  }

  lemma PendingFlat(run: seq<Node>)
    ensures FlatBlocks(Pending(run)) == FlatAll(run)
  {
    if run != [] {
      OneBlock(TextBlock(FlatAll(run)));
    }
  }

  /** Flattening the result gives back the input without exactly the markers that its items show. */
  lemma {:induction false} Conserved(run: seq<Node>, rest: seq<Node>)
    requires Shaped(rest, false)
    ensures FlatBlocks(Split(run, rest)) == FlatAll(run) + FlatAll(Cleared(rest))
    decreases |FlatAll(rest)|, 1
  {
    if rest == [] {
      PendingFlat(run);
      assert FlatAll(run) + [] == FlatAll(run);
    } else {
      var node, more := rest[0], rest[1..];
      assert rest == [node] + more;
      ShapedCons(node, more, false);
      FlatCons(node, more);
      if TaskList(node) {
        ConservedList(run, node, more);
      } else {
        Conserved(run + [node], more);
        FlatConcat(run, [node]);
        FlatOne(node);
        FlatCons(node, Cleared(more));
        Regroup(FlatAll(run), Flat(node), FlatAll(Cleared(more)));
      }
    }
  }

  lemma {:induction false} ConservedList(run: seq<Node>, node: Node, more: seq<Node>)
    requires Shaped([node] + more, false) && TaskList(node)
    ensures FlatBlocks(Split(run, [node] + more)) == FlatAll(run) + FlatAll(Cleared([node] + more))
    decreases |FlatAll([node] + more)|, 0
  {
    ShapedCons(node, more, false);
    assert [node][0] == node;
    FlatCons(node, more);
    var kept := Elem(node.tag, ClearedItems(node.kids));
    var list := ListBlock(node.tag.start, ItemsOf(node.kids));
    ItemsConserved(node.kids);
    Conserved([], more);
    PendingFlat(run);
    OneBlock(list);
    assert FlatBlock(list) == Flat(kept);
    assert ([node] + more)[1..] == more;
    assert Cleared([node] + more) == [kept] + Cleared(more);
    assert Split(run, [node] + more) == Pending(run) + [list] + Split([], more);
    hide Split, ItemsOf, FlatBlocks, FlatBlock, FlatAll, Flat, Cleared, ClearedItems, Marked, Pending, Shaped;
    FlatBlocksConcat(Pending(run) + [list], Split([], more));
    FlatBlocksConcat(Pending(run), [list]);
    FlatCons(kept, Cleared(more));
    Regroup(FlatAll(run), Flat(kept), FlatAll(Cleared(more)));
    FlatNone();
    assert [] + FlatAll(Cleared(more)) == FlatAll(Cleared(more));
  }

  lemma FlatNone()
    ensures FlatAll([]) == []
  {
  }

  lemma {:induction false} ItemsConserved(items: seq<Node>)
    requires Shaped(items, true)
    ensures FlatItems(ItemsOf(items)) == FlatAll(ClearedItems(items))
    decreases |FlatAll(items)|, 0
  {
    if items != [] {
      var node, more := items[0], items[1..];
      assert items == [node] + more;
      ShapedCons(node, more, true);
      FlatCons(node, more);
      ItemsConserved(more);
      StripShaped(node.kids);
      StripShorter(node.kids);
      Conserved([], Strip(node.kids));
      assert [] + FlatAll(Cleared(Strip(node.kids))) == FlatAll(Cleared(Strip(node.kids)));
      FlatCons(Elem(node.tag, Cleared(Strip(node.kids))), ClearedItems(more));
    }
  }

  // ---------------------------------------------------------------- how text is grouped

  /** At every level text stands in one block as far as it goes: no text block is empty, and no two are
      neighbours. */
  predicate Grouped(blocks: seq<Block>) {
    && (forall i :: 0 <= i < |blocks| && blocks[i].TextBlock? ==>
          blocks[i].events != [] && (i + 1 < |blocks| ==> blocks[i + 1].ListBlock?))
    && forall i :: 0 <= i < |blocks| && blocks[i].ListBlock? ==> AllGrouped(blocks[i].items)
  }

  predicate AllGrouped(items: seq<ListItem>) {
    forall j :: 0 <= j < |items| ==> Grouped(items[j].blocks)
  }

  lemma GroupedAfterList(before: seq<Block>, list: Block, after: seq<Block>)
    requires list.ListBlock? && AllGrouped(list.items)
    requires before == [] || (|before| == 1 && before[0].TextBlock? && before[0].events != [])
    requires Grouped(after)
    ensures Grouped(before + [list] + after)
  {
    var all := before + [list] + after;
    assert forall i :: 0 <= i < |after| ==> all[|before| + 1 + i] == after[i];
  }

  lemma {:induction false} TextIsGrouped(run: seq<Node>, rest: seq<Node>)
    requires Shaped(rest, false)
    ensures Grouped(Split(run, rest))
    decreases |FlatAll(rest)|, 0
  {
    if rest != [] {
      var node, more := rest[0], rest[1..];
      assert rest == [node] + more;
      ShapedCons(node, more, false);
      FlatCons(node, more);
      if TaskList(node) {
        assert [node][0] == node;
        ItemsAreGrouped(node.kids);
        TextIsGrouped([], more);
        var list := ListBlock(node.tag.start, ItemsOf(node.kids));
        GroupedAfterList(Pending(run), list, Split([], more));
      } else {
        TextIsGrouped(run + [node], more);
      }
    }
  }

  lemma {:induction false} ItemsAreGrouped(items: seq<Node>)
    requires Shaped(items, true)
    ensures AllGrouped(ItemsOf(items))
    decreases |FlatAll(items)|, 0
  {
    if items != [] {
      var node, more := items[0], items[1..];
      assert items == [node] + more;
      ShapedCons(node, more, true);
      assert [node][0] == node;
      FlatCons(node, more);
      ItemsAreGrouped(more);
      StripShaped(node.kids);
      StripShorter(node.kids);
      TextIsGrouped([], Strip(node.kids));
      hide Grouped;
    }
  }

  // ---------------------------------------------------------------- counted by events

  function NonMarkers(events: seq<Event>): seq<Event> {
    if events == [] then [] else (if events[0].TaskListMarker? then [] else [events[0]]) + NonMarkers(events[1..])
  }

  function Markers(events: seq<Event>): multiset<bool> {
    if events == [] then multiset{} else MarkerOf(events[0]) + Markers(events[1..])
  }

  function MarkerOf(event: Event): multiset<bool> {
    if event.TaskListMarker? then multiset{event.checked} else multiset{}
  }

  function Shown(checks: seq<Face>): multiset<bool> {
    if checks == [] then multiset{} else ShownOf(checks[0]) + Shown(checks[1..])
  }

  function ShownOf(face: Face): multiset<bool> {
    if face.checked.Some? then multiset{face.checked.value} else multiset{}
  }

  lemma {:induction false} NonMarkersConcat(a: seq<Event>, b: seq<Event>)
    ensures NonMarkers(a + b) == NonMarkers(a) + NonMarkers(b)
  {
    if a == [] {
      assert a + b == b && NonMarkers(a) + NonMarkers(b) == NonMarkers(b);
    } else {
      NonMarkersConcat(a[1..], b);
      assert (a + b)[1..] == a[1..] + b && (a + b)[0] == a[0];
      Regroup(if a[0].TaskListMarker? then [] else [a[0]], NonMarkers(a[1..]), NonMarkers(b));
    }
  }

  lemma Sum(a: multiset<bool>, b: multiset<bool>, c: multiset<bool>)
    ensures a + (b + c) == a + b + c
  {
  }

  lemma MarkersCons(x: Event, rest: seq<Event>)
    ensures Markers([x] + rest) == MarkerOf(x) + Markers(rest)
  {
    assert ([x] + rest)[1..] == rest;
  }

  lemma {:induction false} MarkersConcat(a: seq<Event>, b: seq<Event>)
    ensures Markers(a + b) == Markers(a) + Markers(b)
  {
    if a == [] {
      assert a + b == b && multiset{} + Markers(b) == Markers(b);
    } else {
      hide Markers, MarkerOf;
      var first, rest := a[0], a[1..];
      assert a == [first] + rest;
      Regroup([first], rest, b);
      MarkersCons(first, rest);
      MarkersCons(first, rest + b);
      MarkersConcat(rest, b);
      Sum(MarkerOf(first), Markers(rest), Markers(b));
    }
  }

  lemma ShownCons(x: Face, rest: seq<Face>)
    ensures Shown([x] + rest) == ShownOf(x) + Shown(rest)
  {
    assert ([x] + rest)[1..] == rest;
  }

  lemma {:induction false} ShownConcat(a: seq<Face>, b: seq<Face>)
    ensures Shown(a + b) == Shown(a) + Shown(b)
  {
    if a == [] {
      assert a + b == b && multiset{} + Shown(b) == Shown(b);
    } else {
      hide Shown, ShownOf;
      var first, rest := a[0], a[1..];
      assert a == [first] + rest;
      Regroup([first], rest, b);
      ShownCons(first, rest);
      ShownCons(first, rest + b);
      ShownConcat(rest, b);
      Sum(ShownOf(first), Shown(rest), Shown(b));
    }
  }

  /** Only markers are gone, and these are the ones gone. */
  predicate Erases(before: seq<Event>, after: seq<Event>, gone: multiset<bool>) {
    NonMarkers(after) == NonMarkers(before) && Markers(before) == Markers(after) + gone
  }

  lemma ErasesConcat(a: seq<Event>, b: seq<Event>, m: multiset<bool>, c: seq<Event>, d: seq<Event>, n: multiset<bool>)
    requires Erases(a, b, m) && Erases(c, d, n)
    ensures Erases(a + c, b + d, m + n)
  {
    hide NonMarkers, Markers;
    NonMarkersConcat(a, c);
    NonMarkersConcat(b, d);
    MarkersConcat(a, c);
    MarkersConcat(b, d);
  }

  lemma ErasesAround(tag: Tag, a: seq<Event>, b: seq<Event>, m: multiset<bool>)
    requires Erases(a, b, m)
    ensures Erases([Start(tag)] + a + [End(EndOf(tag))], [Start(tag)] + b + [End(EndOf(tag))], m)
  {
    hide NonMarkers, Markers;
    var start, end := [Start(tag)], [End(EndOf(tag))];
    assert Erases(start, start, multiset{}) && Erases(end, end, multiset{});
    ErasesConcat(start, start, multiset{}, a, b, m);
    ErasesConcat(start + a, start + b, multiset{} + m, end, end, multiset{});
    assert multiset{} + m + multiset{} == m;
  }

  function FirstOf(own: seq<bool>): multiset<bool> {
    if own == [] then multiset{} else multiset{own[0]}
  }

  lemma {:induction false} StripErases(nodes: seq<Node>)
    ensures Erases(FlatAll(nodes), FlatAll(Strip(nodes)), FirstOf(Own(nodes)))
    decreases nodes, 0
  {
    if nodes == [] {
    } else {
      var node, more := nodes[0], nodes[1..];
      assert nodes == [node] + more;
      OwnCons(node, more);
      if OwnOf(node) == [] {
        StripErases(more);
        hide Own, OwnOf, Strip, StripNode, FlatAll, Flat, Erases, Markers, NonMarkers;
        Unchanged(Flat(node));
        FlatCons(node, more);
        FlatCons(node, Strip(more));
        ErasesConcat(Flat(node), Flat(node), multiset{}, FlatAll(more), FlatAll(Strip(more)), FirstOf(Own(more)));
        assert [] + Own(more) == Own(more) && multiset{} + FirstOf(Own(more)) == FirstOf(Own(more));
      } else {
        StripNodeErases(node);
        hide Own, OwnOf, Strip, StripNode, FlatAll, Flat, Erases, Markers, NonMarkers;
        Unchanged(FlatAll(more));
        FlatCons(node, more);
        FlatConcat(StripNode(node), more);
        ErasesConcat(Flat(node), FlatAll(StripNode(node)), FirstOf(OwnOf(node)), FlatAll(more), FlatAll(more),
                     multiset{});
        assert FirstOf(OwnOf(node)) + multiset{} == FirstOf(OwnOf(node));
      }
    }
  }

  lemma Unchanged(events: seq<Event>)
    ensures Erases(events, events, multiset{})
  {
  }

  lemma {:induction false} StripNodeErases(node: Node)
    requires OwnOf(node) != []
    ensures Erases(Flat(node), FlatAll(StripNode(node)), FirstOf(OwnOf(node)))
    decreases node, 1
  {
    if node.Elem? {
      StripErases(node.kids);
      FlatOne(Elem(node.tag, Strip(node.kids)));
      hide Own, Strip, FlatAll, Erases, Markers, NonMarkers;
      ErasesAround(node.tag, FlatAll(node.kids), FlatAll(Strip(node.kids)), FirstOf(Own(node.kids)));
    } else {
      assert Flat(node)[1..] == [];
    }
  }

  lemma {:induction false} ClearedErases(nodes: seq<Node>)
    requires Shaped(nodes, false)
    ensures Erases(FlatAll(nodes), FlatAll(Cleared(nodes)), Shown(Marks(nodes)))
    decreases |FlatAll(nodes)|, 1
  {
    if nodes != [] {
      var node, more := nodes[0], nodes[1..];
      assert nodes == [node] + more;
      ShapedCons(node, more, false);
      assert [node][0] == node;
      FlatCons(node, more);
      ClearedErases(more);
      var kept := if TaskList(node) then Elem(node.tag, ClearedItems(node.kids)) else node;
      if node.Elem? {
        MarkedIsHeld(node.kids);
      }
      hide HoldsMarker;
      if TaskList(node) {
        ItemsErase(node.kids);
        ErasesAround(node.tag, FlatAll(node.kids), FlatAll(ClearedItems(node.kids)), Shown(MarksItems(node.kids)));
      }
      assert Erases(Flat(node), Flat(kept), Shown(MarksOf(node)));
      hide Erases, Flat, FlatAll, Shown, MarksOf, MarksItems, ClearedItems, Marked, Shaped;
      FlatCons(kept, Cleared(more));
      ShownConcat(MarksOf(node), Marks(more));
      ErasesConcat(Flat(node), Flat(kept), Shown(MarksOf(node)), FlatAll(more), FlatAll(Cleared(more)),
                   Shown(Marks(more)));
    }
  }

  lemma {:induction false} ItemsErase(items: seq<Node>)
    requires Shaped(items, true)
    ensures Erases(FlatAll(items), FlatAll(ClearedItems(items)), Shown(MarksItems(items)))
    decreases |FlatAll(items)|, 0
  {
    if items != [] {
      var node, more := items[0], items[1..];
      assert items == [node] + more;
      ShapedCons(node, more, true);
      assert [node][0] == node;
      FlatCons(node, more);
      ItemsErase(more);
      StripShorter(node.kids);
      ItemErases(node);
      var kept := Elem(node.tag, Cleared(Strip(node.kids)));
      var shown := [Face(First(Own(node.kids)), Title(node.kids))] + Marks(node.kids);
      hide Erases, Flat, FlatAll, Shown, Own, Marks, Cleared, Strip, Marked, Shaped;
      FlatCons(kept, ClearedItems(more));
      ShownConcat(shown, MarksItems(more));
      ErasesConcat(Flat(node), Flat(kept), Shown(shown), FlatAll(more), FlatAll(ClearedItems(more)),
                   Shown(MarksItems(more)));
    }
  }

  lemma {:induction false} ItemErases(node: Node)
    requires node.Elem? && Shaped(node.kids, false)
    ensures Erases(Flat(node), Flat(Elem(node.tag, Cleared(Strip(node.kids)))),
                   Shown([Face(First(Own(node.kids)), Title(node.kids))] + Marks(node.kids)))
    decreases |FlatAll(node.kids)| + 1, 0
  {
    var kids := node.kids;
    StripShaped(kids);
    StripShorter(kids);
    StripErases(kids);
    ClearedErases(Strip(kids));
    StripKeepsMarks(kids);
    FirstShown(Own(kids), Title(kids), Marks(kids));
    hide FlatAll, Shown, Marks, Cleared, Strip, Marked, Shaped, Own, FirstOf, Markers, NonMarkers;
    var gone := FirstOf(Own(kids)) + Shown(Marks(kids));
    assert Erases(FlatAll(kids), FlatAll(Cleared(Strip(kids))), gone);
    ErasesAround(node.tag, FlatAll(kids), FlatAll(Cleared(Strip(kids))), gone);
  }

  lemma FirstShown(own: seq<bool>, title: string, checks: seq<Face>)
    ensures Shown([Face(First(own), title)] + checks) == FirstOf(own) + Shown(checks)
  {
    assert ([Face(First(own), title)] + checks)[1..] == checks;
  }

  const STRAY: seq<Node> := [Elem(ListTag(None), [Elem(ItemTag, [Elem(ItemTag, [Leaf(TaskListMarker(true))])])])]

  /** An item in an item, without a list between them, would not have its own marker. */
  lemma StrayItem()
    ensures Shaped(STRAY, false) && !Homed(STRAY, false) && AllChecked(BlocksOf(STRAY)) != Expected(STRAY)
  {
    var marker := [Leaf(TaskListMarker(true))];
    var inner := [Elem(ItemTag, marker)];
    var outer := [Elem(ItemTag, inner)];
    assert marker[1..] == [] && inner[1..] == [] && outer[1..] == [] && STRAY[1..] == [];
    assert !Homed(inner, false) by {
      assert inner[0].tag.ItemTag?;
    }
    assert outer[0] == Elem(ItemTag, inner);
    assert Shaped(outer, true) && !Homed(outer, true);
    CheckedMarks([], STRAY);
    assert Own(marker) == [true] && Own(inner) == [true] && ByItem(inner) == [];
    assert Expected(inner) == [] && ExpectedItems(outer[1..]) == [] && MarksItems(outer[1..]) == [];
    assert ExpectedItems(outer) == [Face(First(ByItem(inner)), Title(inner))];
    assert STRAY[0] == Elem(ListTag(None), outer);
    assert FlatAll(outer)[2].TaskListMarker?;
    assert TaskList(STRAY[0]);
    assert Expected(STRAY) == ExpectedOf(STRAY[0]) + Expected(STRAY[1..]);
    assert Marks(STRAY)[0].checked == Some(true) && Expected(STRAY)[0].checked == None;
  }

  /** The whole promise: flattened, the result is the input without exactly the markers that items show;
      every other event is kept in order; the markers of the input are those kept together with those
      shown; every item shows its text and its first marker outside lists nested in it, which where only
      lists hold items is the first one whose innermost enclosing item it is; and text is grouped. */
  lemma TreeConserves(events: seq<Event>)
    requires WellNested(events) && Shaped(Parse(events), false)
    ensures var blocks := BlocksOf(Parse(events));
            && FlatBlocks(blocks) == FlatAll(Cleared(Parse(events)))
            && NonMarkers(FlatBlocks(blocks)) == NonMarkers(events)
            && Markers(events) == Markers(FlatBlocks(blocks)) + Shown(AllChecked(blocks))
            && AllChecked(blocks) == Marks(Parse(events)) && Grouped(blocks)
            && (Homed(Parse(events), false) ==> AllChecked(blocks) == Expected(Parse(events)))
  {
    var nodes := Parse(events);
    WellNestedSpellsForest(events);
    CheckedMarks([], nodes);
    TextIsGrouped([], nodes);
    Conserved([], nodes);
    ClearedErases(nodes);
    FlatNone();
    assert [] + FlatAll(Cleared(nodes)) == FlatAll(Cleared(nodes));
    if Homed(nodes, false) {
      MarksAreExpected(nodes);
    }
  }
}
