/** Which paths of a root are exported, in which order, and what is recorded of each: said of the tree alone. */
module RootMembers {
  import opened Prelude
  import opened Newc
  import opened Archive
  import opened RootWalk
  import opened Reproducible
  import opened RootPaths

  // ---------------------------------------------------------------- what the walk meets

  /** The node stands at this path below the listing. */
  ghost predicate Stands(listing: seq<Entry>, q: Path, node: Node)
    decreases |q|
  {
    q != [] && exists e :: e in listing && StandsAt(e, q, node)
  }

  ghost predicate StandsAt(e: Entry, q: Path, node: Node)
    requires q != []
    decreases |q|, 0
  {
    && e.name == q[0]
    && if |q| == 1 then e.node == node else e.node.body.Directory? && Stands(e.node.body.listing, q[1..], node)
  }

  /** No directory above it is excluded. */
  predicate Entered(path: Path, q: Path, p: Params) {
    forall m :: 0 < m < |q| ==> !Excluded(path + q[..m], p)
  }

  function StopOf(path: Path, node: Node, p: Params): Stop {
    Stop(path, if (node.info.mode / 0x1000) % 16 == 12 then LiveSocket else Emits(ItemOf(path, node, p)))
  }

  lemma {:induction false} NamesAre(path: Path, names: seq<Entry>, p: Params, s: Stop)
    ensures s in ListStops(path, names, p) <==>
            exists e :: e in names && !Skipped(path + [e.name], p) && s == StopOf(path + [e.name], e.node, p)
  {
    hide Skipped, ItemOf;
    if names != [] {
      NamesAre(path, names[1..], p, s);
      assert names == [names[0]] + names[1..];
    }
  }

  lemma {:induction false} DescendIs(path: Path, directories: seq<Entry>, p: Params, height: nat, s: Stop)
    requires forall e :: e in directories ==> Height(e.node) <= height
    ensures s in Descend(path, directories, p, height) <==>
            exists e :: e in directories && s in Below(path, e, p, height)
    decreases |directories|
  {
    hide Below, Walk;
    if directories != [] {
      var rest := directories[1..];
      assert directories == [directories[0]] + rest;
      assert directories[0] in directories && forall e :: e in rest ==> e in directories;
      DescendIs(path, rest, p, height, s);
      assert s in Descend(path, directories, p, height) <==>
             s in Below(path, directories[0], p, height) || s in Descend(path, rest, p, height);
    }
  }

  /** The walk stops at each node that is not skipped, below directories that are not excluded. */
  lemma {:induction false} WalkFinds(path: Path, listing: seq<Entry>, q: Path, node: Node, p: Params)
    requires Stands(listing, q, node) && Entered(path, q, p) && !Skipped(path + q, p)
    ensures StopOf(path + q, node, p) in Walk(path, listing, p)
    decreases |q|
  {
    hide Skipped, Excluded, ListStops, SortedPart, Descend, ItemOf;
    var e :| e in listing && StandsAt(e, q, node);
    var directories, s := SortedPart(listing, true), StopOf(path + q, node, p);
    var names, h := directories + SortedPart(listing, false), ListHeight(listing);
    WalkShape(path, listing, p);
    if |q| == 1 {
      assert q == [e.name] && e in names;
      NamesAre(path, names, p, s);
    } else {
      var inner, rest := path + [e.name], q[1..];
      assert q[..1] == [e.name] && !Excluded(inner, p);
      assert q == [e.name] + rest && path + q == inner + rest;
      forall m | 0 < m < |rest| ensures !Excluded(inner + rest[..m], p) {
        assert inner + rest[..m] == path + q[..m + 1];
      }
      WalkFinds(inner, e.node.body.listing, rest, node, p);
      assert e in directories;
      assert s in Below(path, e, p, h);
      DescendIs(path, directories, p, h, s);
    }
  }

  lemma BelowIs(path: Path, e: Entry, p: Params, height: nat)
    requires Height(e.node) <= height
    ensures Below(path, e, p, height) != [] ==>
              && e.node.body.Directory? && !Excluded(path + [e.name], p) && ListHeight(e.node.body.listing) < height
              && Below(path, e, p, height) == Walk(path + [e.name], e.node.body.listing, p)
  {
    hide Walk, Excluded;
  }

  /** Wherever the walk stops there is such a node. */
  lemma {:induction false} WalkMeets(path: Path, listing: seq<Entry>, s: Stop, p: Params) returns (q: Path, node: Node)
    requires s in Walk(path, listing, p)
    ensures Stands(listing, q, node) && Entered(path, q, p) && !Skipped(path + q, p) && s == StopOf(path + q, node, p)
    decreases ListHeight(listing)
  {
    hide Skipped, Excluded, ListStops, SortedPart, Descend, ItemOf, Walk, Below, Entered;
    var directories := SortedPart(listing, true);
    var names, h := directories + SortedPart(listing, false), ListHeight(listing);
    WalkShape(path, listing, p);
    NamesAre(path, names, p, s);
    DescendIs(path, directories, p, h, s);
    if s in ListStops(path, names, p) {
      var e :| e in names && !Skipped(path + [e.name], p) && s == StopOf(path + [e.name], e.node, p);
      assert e in directories || e in SortedPart(listing, false);
      q, node := [e.name], e.node;
      assert StandsAt(e, q, node) && Entered(path, q, p) by {
        NothingAbove(path, e.name, p);
      }
    } else {
      var e :| e in directories && s in Below(path, e, p, h);
      var inner := path + [e.name];
      var rest: Path;
      BelowIs(path, e, p, h);
      rest, node := WalkMeets(inner, e.node.body.listing, s, p);
      q := [e.name] + rest;
      Deeper(path, e, rest, node, p);
    }
  }

  lemma NothingAbove(path: Path, name: Name, p: Params)
    ensures Entered(path, [name], p)
  {
  }

  lemma Deeper(path: Path, e: Entry, rest: Path, node: Node, p: Params)
    requires e.node.body.Directory? && !Excluded(path + [e.name], p)
    requires Stands(e.node.body.listing, rest, node) && Entered(path + [e.name], rest, p)
    ensures var q := [e.name] + rest;
            StandsAt(e, q, node) && Entered(path, q, p) && path + q == path + [e.name] + rest
  {
    hide Excluded;
    var inner, q := path + [e.name], [e.name] + rest;
    assert path + q == inner + rest && q[1..] == rest;
    forall m | 0 < m < |q| ensures !Excluded(path + q[..m], p) {
      assert path + q[..m] == inner + rest[..m - 1];
      assert m == 1 ==> inner + rest[..0] == inner;
    }
  }

  /** The stops of the walk, exactly: one for every node that is in no excluded directory and not skipped. */
  lemma WalkExactly(root: seq<Entry>, s: Stop, p: Params)
    ensures s in Walk([], root, p) <==>
            exists node :: Stands(root, s.path, node) && Entered([], s.path, p) && !Skipped(s.path, p) &&
                           s == StopOf(s.path, node, p)
  {
    hide Skipped, Entered, Walk, ItemOf;
    if s in Walk([], root, p) {
      var q, node := WalkMeets([], root, s, p);
      assert [] + q == q;
    }
    if node :| Stands(root, s.path, node) && Entered([], s.path, p) && !Skipped(s.path, p) &&
               s == StopOf(s.path, node, p) {
      assert [] + s.path == s.path;
      WalkFinds([], root, s.path, node, p);
    }
  }

  // ---------------------------------------------------------------- in which order

  /** The names of one directory are sorted by their bytes, those of directories before the others. */
  lemma {:induction false} NameLeIs(a: Name, b: Name)
    ensures NameLe(a, b) <==>
              a <= b || exists k :: 0 <= k < |a| && k < |b| && a[..k] == b[..k] && a[k] < b[k]
  {
    if a != [] && b != [] && a[0] == b[0] {
      NameLeIs(a[1..], b[1..]);
      assert a == [a[0]] + a[1..] && b == [b[0]] + b[1..];
      if k :| 0 <= k < |a[1..]| && k < |b[1..]| && a[1..][..k] == b[1..][..k] && a[1..][k] < b[1..][k] {
        assert a[..k + 1] == [a[0]] + a[1..][..k] && b[..k + 1] == [b[0]] + b[1..][..k];
        assert a[k + 1] < b[k + 1];
      }
      if k :| 0 <= k < |a| && k < |b| && a[..k] == b[..k] && a[k] < b[k] {
        assert a[1..][..k - 1] == a[..k][1..] && b[1..][..k - 1] == b[..k][1..];
        assert a[1..][k - 1] < b[1..][k - 1];
      }
    } else if a != [] && b != [] {
      assert a[..0] == b[..0];
    }
  }

  /** Directories, and links to directories, come before everything else; then names decide. */
  predicate Sooner(a: Node, m: Name, b: Node, n: Name) {
    var first, second := a.body.Directory? || (a.body.Symlink? && a.body.toDirectory),
                         b.body.Directory? || (b.body.Symlink? && b.body.toDirectory);
    if first == second then NameLe(m, n) else first
  }

  lemma {:induction false} NamesInTurn(path: Path, names: seq<Entry>, p: Params, i: nat, j: nat)
      returns (k: nat, l: nat)
    requires i < j < |ListStops(path, names, p)|
    ensures k < l < |names|
    ensures ListStops(path, names, p)[i].path == path + [names[k].name]
    ensures ListStops(path, names, p)[j].path == path + [names[l].name]
  {
    hide Skipped, ItemOf;
    var first, rest := StopsAt(path + [names[0].name], names[0].node, p), ListStops(path, names[1..], p);
    assert ListStops(path, names, p) == first + rest && |first| <= 1;
    if i >= |first| {
      k, l := NamesInTurn(path, names[1..], p, i - |first|, j - |first|);
      k, l := k + 1, l + 1;
    } else {
      l := NameInTurn(path, names[1..], p, j - |first|);
      k, l := 0, l + 1;
    }
  }

  lemma {:induction false} NameInTurn(path: Path, names: seq<Entry>, p: Params, i: nat) returns (k: nat)
    requires i < |ListStops(path, names, p)|
    ensures k < |names| && ListStops(path, names, p)[i].path == path + [names[k].name]
  {
    hide Skipped, ItemOf;
    var first, rest := StopsAt(path + [names[0].name], names[0].node, p), ListStops(path, names[1..], p);
    assert ListStops(path, names, p) == first + rest && |first| <= 1;
    if i < |first| {
      k := 0;
    } else {
      k := NameInTurn(path, names[1..], p, i - |first|);
      k := k + 1;
    }
  }

  lemma PartsInOrder(listing: seq<Entry>, k: nat, l: nat)
    requires DistinctNames(listing)
    requires k < l < |SortedPart(listing, true) + SortedPart(listing, false)|
    ensures var names := SortedPart(listing, true) + SortedPart(listing, false);
            && names[k] in listing && names[l] in listing
            && Sooner(names[k].node, names[k].name, names[l].node, names[l].name)
  {
    hide NameLe, SortedPart;
    var a, b := SortedPart(listing, true), SortedPart(listing, false);
    PartIsOrdered(listing, true);
    PartIsOrdered(listing, false);
    var names := a + b;
    assert names[k] in a || names[k] in b;
    assert names[l] in a || names[l] in b;
    if l < |a| {
      assert names[k] == a[k] && names[l] == a[l];
    } else if k >= |a| {
      assert names[k] == b[k - |a|] && names[l] == b[l - |a|];
    } else {
      assert names[k] == a[k] && names[l] == b[l - |a|];
    }
  }

  /** Two names of one directory, in the order in which the walk stops at them. */
  ghost predicate SiblingsInTurn(listing: seq<Entry>, q: Path, r: Path) {
    q != [] && r != [] &&
    exists a, b :: Stands(listing, q, a) && Stands(listing, r, b) && Sooner(a, q[|q| - 1], b, r[|r| - 1])
  }

  /** Stops at names of one directory come directories first, and then in the order of the names. */
  lemma {:induction false} SiblingsInOrder(path: Path, listing: seq<Entry>, p: Params, i: nat, j: nat)
    requires ProperTree(listing) && i < j < |Walk(path, listing, p)|
    requires var q, r := Walk(path, listing, p)[i].path, Walk(path, listing, p)[j].path;
             q != [] && r != [] && Parent(q) == Parent(r)
    ensures var q, r := Walk(path, listing, p)[i].path, Walk(path, listing, p)[j].path;
            Extends(q, path) && Extends(r, path) && SiblingsInTurn(listing, q[|path|..], r[|path|..])
    decreases ListHeight(listing), 1, 0
  {
    hide Skipped, Excluded, ProperName, ListStops, SortedPart, Descend, NamesOf, Named, Sooner;
    var directories := SortedPart(listing, true);
    var names, h := directories + SortedPart(listing, false), ListHeight(listing);
    var own := ListStops(path, names, p);
    WalkShape(path, listing, p);
    PartsDistinct(listing);
    NamesStop(path, names, p);
    forall k | 0 <= k < |directories| ensures ProperEntry(directories[k]) {
      assert directories[k] == names[k];
      EntryIsProper(listing, directories[k]);
    }
    PrefixDistinct(directories, SortedPart(listing, false));
    DescentIsSound(path, directories, p, h);
    if j < |own| {
      var k, l := NamesInTurn(path, names, p, i, j);
      PartsInOrder(listing, k, l);
      OneName(listing, names[k], path);
      OneName(listing, names[l], path);
    } else {
      hide ProperTree, Reached;
      var q, r := Walk(path, listing, p)[i].path, Walk(path, listing, p)[j].path;
      assert i >= |own|;
      var e := DescendSiblings(path, directories, p, h, i - |own|, j - |own|);
      InTurnAbove(path, listing, e, q, r);
    }
  }

  lemma InTurnAbove(path: Path, listing: seq<Entry>, e: Entry, q: Path, r: Path)
    requires e in listing && e.node.body.Directory? && Extends(q, path + [e.name]) && Extends(r, path + [e.name])
    requires SiblingsInTurn(e.node.body.listing, q[|path| + 1..], r[|path| + 1..])
    ensures Extends(q, path) && Extends(r, path) && SiblingsInTurn(listing, q[|path|..], r[|path|..])
  {
    hide Sooner;
    var s, t := q[|path| + 1..], r[|path| + 1..];
    var a, b :| Stands(e.node.body.listing, s, a) && Stands(e.node.body.listing, t, b) &&
      Sooner(a, s[|s| - 1], b, t[|t| - 1]);
    StandsAbove(path, listing, e, q, a);
    StandsAbove(path, listing, e, r, b);
  }

  lemma StandsAbove(path: Path, listing: seq<Entry>, e: Entry, q: Path, node: Node)
    requires e in listing && e.node.body.Directory? && Extends(q, path + [e.name])
    requires Stands(e.node.body.listing, q[|path| + 1..], node)
    ensures Extends(q, path) && Stands(listing, q[|path|..], node)
  {
    var inner := path + [e.name];
    assert q[..|inner|][..|path|] == q[..|path|] == inner[..|path|] == path;
    assert q[|path|] == q[..|inner|][|path|] == e.name;
    assert q[|path|..][1..] == q[|path| + 1..];
    assert StandsAt(e, q[|path|..], node);
  }

  lemma ApartBelow(path: Path, name: Name, names: set<Name>, q: Path, r: Path)
    requires DeepPath(path, {name}, q) && DeepPath(path, names, r) && name !in names
    ensures Parent(q) != Parent(r)
  {
    assert Parent(q)[|path|] == q[|path|] && Parent(r)[|path|] == r[|path|];
  }

  lemma OneName(listing: seq<Entry>, e: Entry, path: Path)
    requires e in listing
    ensures Stands(listing, [e.name], e.node) && (path + [e.name])[|path|..] == [e.name]
  {
    assert StandsAt(e, [e.name], e.node);
  }

  lemma {:induction false} DescendSiblings(path: Path, directories: seq<Entry>, p: Params, height: nat, i: nat, j: nat)
      returns (e: Entry)
    requires forall e :: e in directories ==> Height(e.node) <= height
    requires DistinctNames(directories) && forall k :: 0 <= k < |directories| ==> ProperEntry(directories[k])
    requires i < j < |Descend(path, directories, p, height)|
    requires var q, r := Descend(path, directories, p, height)[i].path, Descend(path, directories, p, height)[j].path;
             q != [] && r != [] && Parent(q) == Parent(r)
    ensures var q, r := Descend(path, directories, p, height)[i].path, Descend(path, directories, p, height)[j].path;
            && e in directories && e.node.body.Directory? && Extends(q, path + [e.name]) && Extends(r, path + [e.name])
            && SiblingsInTurn(e.node.body.listing, q[|path| + 1..], r[|path| + 1..])
    decreases height, 0, |directories|
  {
    hide Skipped, Excluded, ProperName, Walk, NamesOf, ProperTree, Reached, SiblingsInTurn, Below;
    assert directories[0] in directories;
    var first, rest := Below(path, directories[0], p, height), Descend(path, directories[1..], p, height);
    assert Descend(path, directories, p, height) == first + rest;
    if i >= |first| {
      e := DescendSiblings(path, directories[1..], p, height, i - |first|, j - |first|);
    } else if j < |first| {
      e := directories[0];
      BelowIs(path, e, p, height);
      SiblingsInOrder(path + [e.name], e.node.body.listing, p, i, j);
    } else {
      TailNames(directories);
      BelowIsSound(path, directories[0], p, height);
      DescentIsSound(path, directories[1..], p, height);
      ApartBelow(path, directories[0].name, NamesOf(directories[1..]), first[i].path, rest[j - |first|].path);
      assert false;
    }
  }

  // ---------------------------------------------------------------- the paths by name

  const TREES: seq<string> := ["dev", "proc", "sys", "run", "tmp", "workspace"]

  const NORMALIZED_TREES: seq<string> := [
    "root", "var/cache", "var/tmp", "var/log", "var/lib/dnf", "opt/rat-build-tools", "opt/rat-build-evidence",
    "home/agent/.codex"]

  const SKIPPED: seq<string> := [".dockerenv", "opt/rat-build-tools", "opt/rat-build-evidence"]

  const EMPTIED: seq<string> :=
    ["etc/hostname", "etc/hosts", "etc/machine-id", "etc/resolv.conf", "var/lib/dbus/machine-id"]

  /** The path is written like one of these texts. */
  predicate WrittenIn(q: Path, texts: seq<string>) {
    exists i :: 0 <= i < |texts| && Render(q) == Ascii(texts[i])
  }

  /** One by one the paths are proper and written like the texts. */
  ghost predicate SpelledBy(paths: seq<Path>, texts: seq<string>) {
    |paths| == |texts| && forall i :: 0 <= i < |paths| ==> ProperPath(paths[i]) && Render(paths[i]) == Ascii(texts[i])
  }

  lemma SpelledAre(paths: seq<Path>, texts: seq<string>, q: Path)
    requires SpelledBy(paths, texts) && ProperPath(q)
    ensures q in paths <==> WrittenIn(q, texts)
  {
    hide Render, ProperPath;
    if i :| 0 <= i < |texts| && Render(q) == Ascii(texts[i]) {
      RenderInjective(q, paths[i]);
    }
  }

  predicate Plain(text: string) {
    text != "" && forall i :: 0 <= i < |text| ==> text[i] as int < 128 && text[i] != '/'
  }

  lemma OneSpelled(a: string)
    requires Plain(a)
    ensures ProperPath([Ascii(a)]) && Render([Ascii(a)]) == Ascii(a)
  {
    ProperAscii(a);
  }

  lemma NextSpelled(path: Path, before: string, a: string)
    requires ProperPath(path) && Render(path) == Ascii(before) && Plain(a)
    ensures ProperPath(path + [Ascii(a)]) && Render(path + [Ascii(a)]) == Ascii(before + "/" + a)
  {
    ProperAscii(a);
    var longer := path + [Ascii(a)];
    assert longer[..|path|] == path;
    RenderShape(longer);
    assert Ascii(before + "/" + a) == Ascii(before) + [47] + Ascii(a);
  }

  lemma TwoSpelled(a: string, b: string)
    requires Plain(a) && Plain(b)
    ensures var q := [Ascii(a), Ascii(b)]; ProperPath(q) && Render(q) == Ascii(a + "/" + b)
  {
    hide Render, ProperPath, Ascii;
    OneSpelled(a);
    NextSpelled([Ascii(a)], a, b);
    assert [Ascii(a)] + [Ascii(b)] == [Ascii(a), Ascii(b)];
  }

  lemma ThreeSpelled(a: string, b: string, c: string)
    requires Plain(a) && Plain(b) && Plain(c)
    ensures var q := [Ascii(a), Ascii(b), Ascii(c)]; ProperPath(q) && Render(q) == Ascii(a + "/" + b + "/" + c)
  {
    hide Render, ProperPath, Ascii;
    TwoSpelled(a, b);
    NextSpelled([Ascii(a), Ascii(b)], a + "/" + b, c);
    assert [Ascii(a), Ascii(b)] + [Ascii(c)] == [Ascii(a), Ascii(b), Ascii(c)];
  }

  lemma FourSpelled(a: string, b: string, c: string, d: string)
    requires Plain(a) && Plain(b) && Plain(c) && Plain(d)
    ensures var q := [Ascii(a), Ascii(b), Ascii(c), Ascii(d)];
            ProperPath(q) && Render(q) == Ascii(a + "/" + b + "/" + c + "/" + d)
  {
    hide Render, ProperPath, Ascii;
    ThreeSpelled(a, b, c);
    NextSpelled([Ascii(a), Ascii(b), Ascii(c)], a + "/" + b + "/" + c, d);
    assert [Ascii(a), Ascii(b), Ascii(c)] + [Ascii(d)] == [Ascii(a), Ascii(b), Ascii(c), Ascii(d)];
  }

  lemma TreesSpelled()
    ensures SpelledBy(EXCLUDED_ALWAYS, TREES)
  {
    hide Render, ProperPath, Ascii;
    OneSpelled("dev");
    OneSpelled("proc");
    OneSpelled("sys");
    OneSpelled("run");
    OneSpelled("tmp");
    OneSpelled("workspace");
  }

  lemma ToolsSpelled()
    ensures ProperPath(BUILD_TOOLS) && Render(BUILD_TOOLS) == Ascii("opt/rat-build-tools")
  {
    hide Render, ProperPath, Ascii;
    TwoSpelled("opt", "rat-build-tools");
    assert "opt" + "/" + "rat-build-tools" == "opt/rat-build-tools";
  }

  lemma EvidenceSpelled()
    ensures ProperPath(BUILD_EVIDENCE) && Render(BUILD_EVIDENCE) == Ascii("opt/rat-build-evidence")
  {
    hide Render, ProperPath, Ascii;
    TwoSpelled("opt", "rat-build-evidence");
    assert "opt" + "/" + "rat-build-evidence" == "opt/rat-build-evidence";
  }

  lemma VarSpelled()
    ensures var var_ := Ascii("var");
            && ProperPath([var_, Ascii("cache")]) && Render([var_, Ascii("cache")]) == Ascii("var/cache")
            && ProperPath([var_, Ascii("tmp")]) && Render([var_, Ascii("tmp")]) == Ascii("var/tmp")
            && ProperPath([var_, Ascii("log")]) && Render([var_, Ascii("log")]) == Ascii("var/log")
            && ProperPath([var_, Ascii("lib"), Ascii("dnf")])
            && Render([var_, Ascii("lib"), Ascii("dnf")]) == Ascii("var/lib/dnf")
  {
    hide Render, ProperPath, Ascii;
    TwoSpelled("var", "cache");
    TwoSpelled("var", "tmp");
    TwoSpelled("var", "log");
    ThreeSpelled("var", "lib", "dnf");
    assert "var" + "/" + "cache" == "var/cache" && "var" + "/" + "tmp" == "var/tmp" && "var" + "/" + "log" == "var/log";
    assert "var" + "/" + "lib" + "/" + "dnf" == "var/lib/dnf";
  }

  lemma NormalizedTreesSpelled()
    ensures SpelledBy(EXCLUDED_WHEN_NORMALIZED, NORMALIZED_TREES)
  {
    hide Render, ProperPath, Ascii;
    OneSpelled("root");
    VarSpelled();
    ToolsSpelled();
    EvidenceSpelled();
    ThreeSpelled("home", "agent", ".codex");
    assert "home" + "/" + "agent" + "/" + ".codex" == "home/agent/.codex";
  }

  lemma SkippedSpelled()
    ensures SpelledBy([DOCKER_ENV, BUILD_TOOLS, BUILD_EVIDENCE], SKIPPED)
  {
    hide Render, ProperPath, Ascii;
    OneSpelled(".dockerenv");
    ToolsSpelled();
    EvidenceSpelled();
  }

  lemma HostsSpelled()
    ensures var etc := Ascii("etc");
            && ProperPath([etc, Ascii("hostname")]) && Render([etc, Ascii("hostname")]) == Ascii("etc/hostname")
            && ProperPath([etc, Ascii("hosts")]) && Render([etc, Ascii("hosts")]) == Ascii("etc/hosts")
  {
    hide Render, ProperPath, Ascii;
    TwoSpelled("etc", "hostname");
    TwoSpelled("etc", "hosts");
    assert "etc" + "/" + "hostname" == "etc/hostname" && "etc" + "/" + "hosts" == "etc/hosts";
  }

  lemma MachineSpelled()
    ensures var etc := Ascii("etc");
            && ProperPath([etc, Ascii("machine-id")]) && Render([etc, Ascii("machine-id")]) == Ascii("etc/machine-id")
            && ProperPath([etc, Ascii("resolv.conf")])
            && Render([etc, Ascii("resolv.conf")]) == Ascii("etc/resolv.conf")
  {
    hide Render, ProperPath, Ascii;
    TwoSpelled("etc", "machine-id");
    TwoSpelled("etc", "resolv.conf");
    assert "etc" + "/" + "machine-id" == "etc/machine-id" && "etc" + "/" + "resolv.conf" == "etc/resolv.conf";
  }

  lemma BusSpelled()
    ensures var bus := [Ascii("var"), Ascii("lib"), Ascii("dbus"), Ascii("machine-id")];
            ProperPath(bus) && Render(bus) == Ascii("var/lib/dbus/machine-id")
  {
    hide Render, ProperPath, Ascii;
    FourSpelled("var", "lib", "dbus", "machine-id");
    assert "var" + "/" + "lib" + "/" + "dbus" + "/" + "machine-id" == "var/lib/dbus/machine-id";
  }

  lemma EmptiesSpelled()
    ensures SpelledBy(EMPTY_FILES, EMPTIED)
  {
    hide Render, ProperPath, Ascii;
    HostsSpelled();
    MachineSpelled();
    BusSpelled();
  }

  /** Which paths are excluded, skipped and emptied, by the names that they are written with. */
  lemma PathsByName(q: Path, p: Params)
    requires ProperPath(q)
    ensures Excluded(q, p) <==> WrittenIn(q, TREES) || (p.normalize && WrittenIn(q, NORMALIZED_TREES))
    ensures Skipped(q, p) <==> p.normalize && WrittenIn(q, SKIPPED)
    ensures Emptied(q, p) <==> p.normalize && WrittenIn(q, EMPTIED)
  {
    hide WrittenIn, ProperPath, SpelledBy;
    TreesSpelled();
    NormalizedTreesSpelled();
    SkippedSpelled();
    EmptiesSpelled();
    SpelledAre(EXCLUDED_ALWAYS, TREES, q);
    SpelledAre(EXCLUDED_WHEN_NORMALIZED, NORMALIZED_TREES, q);
    SpelledAre([DOCKER_ENV, BUILD_TOOLS, BUILD_EVIDENCE], SKIPPED, q);
    SpelledAre(EMPTY_FILES, EMPTIED, q);
  }
}
