/** Exported paths: each occurs once, and a directory's entry precedes those of its contents. */
module RootPaths {
  import opened Prelude
  import opened Newc
  import opened Archive
  import opened RootWalk
  import opened Reproducible

  // ---------------------------------------------------------------- proper trees

  predicate ProperName(name: Name) {
    name != [] && forall i :: 0 <= i < |name| ==> name[i] != 47
  }

  predicate ProperPath(path: Path) {
    path != [] && forall i :: 0 <= i < |path| ==> ProperName(path[i])
  }

  /** What the system guarantees of a tree: distinct names in a directory, none with a slash. */
  ghost predicate ProperTree(listing: seq<Entry>) {
    && DistinctNames(listing)
    && forall i :: 0 <= i < |listing| ==>
         && ProperName(listing[i].name)
         && (listing[i].node.body.Directory? ==> ProperTree(listing[i].node.body.listing))
  }

  ghost predicate DistinctPaths(stops: seq<Stop>) {
    forall i, j :: 0 <= i < j < |stops| ==> stops[i].path != stops[j].path
  }

  predicate Extends(q: Path, path: Path) {
    |path| < |q| && q[..|path|] == path
  }

  predicate Named(s: Stop) {
    s.visit.Emits? ==> s.visit.item.name == Render(s.path)
  }

  /** A stop properly below `path`, in no excluded tree, not skipped, and named by its path. */
  ghost predicate Reached(path: Path, s: Stop, p: Params) {
    var q := s.path;
    && Named(s) && Extends(q, path) && !Skipped(q, p)
    && (forall m :: |path| <= m < |q| ==> ProperName(q[m]))
    && (forall m :: |path| < m < |q| ==> !Excluded(q[..m], p))
  }

  ghost predicate AllReached(path: Path, stops: seq<Stop>, p: Params) {
    forall i :: 0 <= i < |stops| ==> Reached(path, stops[i], p)
  }

  lemma ConcatDistinct(a: seq<Stop>, b: seq<Stop>)
    requires DistinctPaths(a) && DistinctPaths(b)
    requires forall i, j :: 0 <= i < |a| && 0 <= j < |b| ==> a[i].path != b[j].path
    ensures DistinctPaths(a + b)
  {
  }

  // ---------------------------------------------------------------- one directory's names

  predicate OwnPath(path: Path, names: set<Name>, q: Path) {
    Extends(q, path) && |q| == |path| + 1 && q[|path|] in names
  }

  lemma {:induction false} NamesStop(path: Path, names: seq<Entry>, p: Params)
    requires DistinctNames(names)
    ensures var stops := ListStops(path, names, p);
            && DistinctPaths(stops)
            && forall i :: 0 <= i < |stops| ==>
                 Named(stops[i]) && OwnPath(path, NamesOf(names), stops[i].path) && !Skipped(stops[i].path, p)
  {
    hide Skipped, Emptied, NamesOf, Render;
    if names != [] {
      NamesStop(path, names[1..], p);
      TailNames(names);
      FirstNamed(names);
      var first, rest := StopsAt(path + [names[0].name], names[0].node, p), ListStops(path, names[1..], p);
      forall i | 0 <= i < |rest| ensures rest[i].path != path + [names[0].name] {
        assert (path + [names[0].name])[|path|] == names[0].name;
      }
      ConcatDistinct(first, rest);
    }
  }

  lemma {:induction false} NameIsListed(path: Path, names: seq<Entry>, k: nat, p: Params) returns (i: nat)
    requires k < |names| && !Skipped(path + [names[k].name], p)
    ensures i < |ListStops(path, names, p)| && ListStops(path, names, p)[i].path == path + [names[k].name]
  {
    hide Skipped, ItemOf;
    var first, rest := StopsAt(path + [names[0].name], names[0].node, p), ListStops(path, names[1..], p);
    if k == 0 {
      i := 0;
    } else {
      i := NameIsListed(path, names[1..], k - 1, p);
      assert (first + rest)[|first| + i] == rest[i];
      i := |first| + i;
    }
  }

  lemma NamesReached(path: Path, names: seq<Entry>, p: Params)
    requires DistinctNames(names) && forall i :: 0 <= i < |names| ==> ProperName(names[i].name)
    ensures AllReached(path, ListStops(path, names, p), p)
  {
    hide Skipped, Excluded, ProperName, ListStops, Named;
    NamesStop(path, names, p);
  }

  /** The names of a directory in walking order are those of its listing. */
  lemma PartsDistinct(listing: seq<Entry>)
    requires ProperTree(listing)
    ensures var names := SortedPart(listing, true) + SortedPart(listing, false);
            DistinctNames(names) && forall i :: 0 <= i < |names| ==> ProperName(names[i].name) && names[i] in listing
  {
    hide ProperName, SortedPart, NameLe;
    PartIsOrdered(listing, true);
    PartIsOrdered(listing, false);
    var a, b := SortedPart(listing, true), SortedPart(listing, false);
    forall i, j | 0 <= i < |a| && 0 <= j < |b| ensures a[i].name != b[j].name {
      assert a[i] in a && b[j] in b;
      var k :| 0 <= k < |listing| && listing[k] == a[i];
      var l :| 0 <= l < |listing| && listing[l] == b[j];
    }
    forall i | 0 <= i < |a + b| ensures ProperName((a + b)[i].name) && (a + b)[i] in listing {
      assert (a + b)[i] in a || (a + b)[i] in b;
      var k :| 0 <= k < |listing| && listing[k] == (a + b)[i];
    }
  }

  // ---------------------------------------------------------------- the walk

  lemma {:induction false} WalkIsSound(path: Path, listing: seq<Entry>, p: Params)
    requires ProperTree(listing)
    ensures DistinctPaths(Walk(path, listing, p)) && AllReached(path, Walk(path, listing, p), p)
    decreases ListHeight(listing), 1, 0
  {
    hide Skipped, Excluded, ProperName, ListStops, SortedPart, Descend;
    var directories := SortedPart(listing, true);
    var names, h := directories + SortedPart(listing, false), ListHeight(listing);
    PartsDistinct(listing);
    NamesStop(path, names, p);
    NamesReached(path, names, p);
    forall i | 0 <= i < |directories| ensures ProperEntry(directories[i]) {
      assert directories[i] == names[i];
      EntryIsProper(listing, directories[i]);
    }
    PrefixDistinct(directories, SortedPart(listing, false));
    DescentIsSound(path, directories, p, h);
    ConcatDistinct(ListStops(path, names, p), Descend(path, directories, p, h));
  }

  ghost predicate ProperEntry(e: Entry) {
    ProperName(e.name) && (e.node.body.Directory? ==> ProperTree(e.node.body.listing))
  }

  lemma EntryIsProper(listing: seq<Entry>, e: Entry)
    requires ProperTree(listing) && e in listing
    ensures ProperEntry(e)
  {
    var k :| 0 <= k < |listing| && listing[k] == e;
  }

  lemma PrefixDistinct(a: seq<Entry>, b: seq<Entry>)
    requires DistinctNames(a + b)
    ensures DistinctNames(a)
  {
    assert forall i :: 0 <= i < |a| ==> (a + b)[i] == a[i];
  }

  predicate DeepPath(path: Path, names: set<Name>, q: Path) {
    Extends(q, path) && |q| >= |path| + 2 && q[|path|] in names
  }

  lemma {:induction false} DescentIsSound(path: Path, directories: seq<Entry>, p: Params, height: nat)
    requires DistinctNames(directories)
    requires forall e :: e in directories ==> Height(e.node) <= height
    requires forall i :: 0 <= i < |directories| ==> ProperEntry(directories[i])
    ensures var stops := Descend(path, directories, p, height);
            && DistinctPaths(stops) && AllReached(path, stops, p)
            && forall i :: 0 <= i < |stops| ==> DeepPath(path, NamesOf(directories), stops[i].path)
    decreases height, 0, |directories|
  {
    hide Skipped, Excluded, ProperName, Walk, NamesOf, ProperTree, Reached;
    if directories != [] {
      assert directories[0] in directories;
      DescentIsSound(path, directories[1..], p, height);
      TailNames(directories);
      FirstNamed(directories);
      var first, rest := Below(path, directories[0], p, height), Descend(path, directories[1..], p, height);
      BelowIsSound(path, directories[0], p, height);
      ConcatDistinct(first, rest);
    }
  }

  lemma {:induction false} BelowIsSound(path: Path, directory: Entry, p: Params, height: nat)
    requires Height(directory.node) <= height && ProperEntry(directory)
    ensures var stops := Below(path, directory, p, height);
            && DistinctPaths(stops) && AllReached(path, stops, p)
            && forall i :: 0 <= i < |stops| ==> DeepPath(path, {directory.name}, stops[i].path)
    decreases height, 0, 0
  {
    hide Skipped, Walk, ProperName, ProperTree, Named;
    var inner := path + [directory.name];
    if directory.node.body.Directory? && !Excluded(inner, p) {
      hide Excluded;
      var stops := Walk(inner, directory.node.body.listing, p);
      WalkIsSound(inner, directory.node.body.listing, p);
      forall i | 0 <= i < |stops|
        ensures Reached(path, stops[i], p) && DeepPath(path, {directory.name}, stops[i].path)
      {
        DeeperReached(path, directory.name, stops[i], p);
      }
    }
  }

  lemma DeeperReached(path: Path, name: Name, s: Stop, p: Params)
    requires Reached(path + [name], s, p) && !Excluded(path + [name], p) && ProperName(name)
    ensures Reached(path, s, p) && DeepPath(path, {name}, s.path)
  {
    hide Skipped, Excluded, ProperName, Named;
    var inner, q := path + [name], s.path;
    assert q[..|path|] == inner[..|path|] == path;
    assert q[|path|] == inner[|path|] == name;
    forall m | |path| < m < |q| ensures !Excluded(q[..m], p) {
      if m == |inner| {
        assert q[..m] == inner;
      }
    }
  }

  // ---------------------------------------------------------------- parents first

  function Parent(q: Path): Path
    requires q != []
  {
    q[..|q| - 1]
  }

  ghost predicate ParentsFirst(path: Path, stops: seq<Stop>) {
    forall i :: 0 <= i < |stops| ==> HasParent(path, stops, i)
  }

  ghost predicate HasParent(path: Path, stops: seq<Stop>, i: nat)
    requires i < |stops|
  {
    && stops[i].path != []
    && (Parent(stops[i].path) == path || exists j :: 0 <= j < i && stops[j].path == Parent(stops[i].path))
  }

  /** A subtree may follow once the entry of its directory has been emitted. */
  lemma SubtreeFollows(path: Path, prior: seq<Stop>, inner: Path, more: seq<Stop>, k: nat)
    requires ParentsFirst(path, prior) && ParentsFirst(inner, more)
    requires more != [] ==> k < |prior| && prior[k].path == inner
    ensures ParentsFirst(path, prior + more)
  {
    var all := prior + more;
    forall i | 0 <= i < |all| ensures HasParent(path, all, i) {
      if i < |prior| {
        assert HasParent(path, prior, i) && all[i] == prior[i];
        assert forall j :: 0 <= j < i ==> all[j] == prior[j];
      } else {
        assert all[i] == more[i - |prior|] && HasParent(inner, more, i - |prior|);
        if Parent(all[i].path) == inner {
          assert all[k] == prior[k];
        } else {
          var j :| 0 <= j < i - |prior| && more[j].path == Parent(all[i].path);
          assert all[|prior| + j] == more[j];
        }
      }
    }
  }

  /** The one tree the walk enters without having emitted its directory. */
  ghost predicate OrphansDockerEnv(root: seq<Entry>, p: Params) {
    p.normalize &&
    exists e :: e in root && [e.name] == DOCKER_ENV && e.node.body.Directory? && e.node.body.listing != []
  }

  lemma OnlyDockerEnvIsSkippedButEntered(q: Path, p: Params)
    requires Skipped(q, p) && !Excluded(q, p)
    ensures q == DOCKER_ENV
  {
  }

  lemma {:induction false} WalkParents(path: Path, listing: seq<Entry>, p: Params)
    requires ProperTree(listing) && (path == [] ==> !OrphansDockerEnv(listing, p))
    ensures ParentsFirst(path, Walk(path, listing, p))
    decreases ListHeight(listing), 1, 0
  {
    hide Skipped, Excluded, ProperName, SortedPart, Descend, ListStops, NamesOf;
    var directories := SortedPart(listing, true);
    var names := directories + SortedPart(listing, false);
    PartsDistinct(listing);
    NamesStop(path, names, p);
    var own := ListStops(path, names, p);
    forall k | 0 <= k < |directories|
      ensures ProperEntry(directories[k]) && Announced(path, directories[k], own, p)
    {
      assert directories[k] == names[k];
      EntryIsProper(listing, directories[k]);
      if Skipped(path + [names[k].name], p) {
        if !Excluded(path + [names[k].name], p) {
          OnlyDockerEnvIsSkippedButEntered(path + [names[k].name], p);
          assert path == [] && names[k] in listing;
          NormalizedWhenSkipped(path + [names[k].name], p);
        }
      } else {
        var i := NameIsListed(path, names, k, p);
      }
    }
    DescentParents(path, own, directories, p, ListHeight(listing));
  }

  lemma NormalizedWhenSkipped(q: Path, p: Params)
    requires Skipped(q, p)
    ensures p.normalize
  {
  }

  /** If the walk will enter the directory and find something, its entry is among the stops. */
  ghost predicate Announced(path: Path, e: Entry, stops: seq<Stop>, p: Params) {
    e.node.body.Directory? && e.node.body.listing != [] && !Excluded(path + [e.name], p) ==>
      exists i :: 0 <= i < |stops| && stops[i].path == path + [e.name]
  }

  lemma EmptyWalk(path: Path, p: Params)
    ensures Walk(path, [], p) == []
  {
    assert SortedPart([], true) == [] && SortedPart([], false) == [];
  }

  lemma {:induction false} DescentParents(
    path: Path, prior: seq<Stop>, directories: seq<Entry>, p: Params, height: nat)
    requires forall e :: e in directories ==> Height(e.node) <= height
    requires ParentsFirst(path, prior)
    requires forall k :: 0 <= k < |directories| ==>
               ProperEntry(directories[k]) && Announced(path, directories[k], prior, p)
    ensures ParentsFirst(path, prior + Descend(path, directories, p, height))
    decreases height, 0, |directories|
  {
    hide Skipped, Excluded, ProperName, ProperTree, Walk, ParentsFirst;
    if directories == [] {
      assert prior + [] == prior;
    } else {
      var first, inner := directories[0], path + [directories[0].name];
      assert first in directories;
      var more := Below(path, first, p, height);
      var k := 0;
      if first.node.body.Directory? && !Excluded(inner, p) {
        if first.node.body.listing == [] {
          EmptyWalk(inner, p);
        } else {
          k :| 0 <= k < |prior| && prior[k].path == inner;
        }
        WalkParents(inner, first.node.body.listing, p);
      } else {
        NoStops(inner);
      }
      SubtreeFollows(path, prior, inner, more, k);
      forall d | 0 <= d < |directories[1..]| ensures Announced(path, directories[1..][d], prior + more, p) {
        AnnouncedStays(path, directories[1..][d], prior, more, p);
      }
      DescentParents(path, prior + more, directories[1..], p, height);
      assert prior + more + Descend(path, directories[1..], p, height) == prior + Descend(path, directories, p, height);
    }
  }

  lemma NoStops(path: Path)
    ensures ParentsFirst(path, [])
  {
  }

  lemma AnnouncedStays(path: Path, e: Entry, prior: seq<Stop>, more: seq<Stop>, p: Params)
    requires Announced(path, e, prior, p)
    ensures Announced(path, e, prior + more, p)
  {
    if e.node.body.Directory? && e.node.body.listing != [] && !Excluded(path + [e.name], p) {
      var i :| 0 <= i < |prior| && prior[i].path == path + [e.name];
      assert (prior + more)[i] == prior[i];
    }
  }

  // ---------------------------------------------------------------- rendered paths

  function LastSlash(b: Bytes): (r: int)
    ensures -1 <= r < |b|
  {
    if b == [] then -1
    else if b[|b| - 1] == 47 then |b| - 1
    else LastSlash(b[..|b| - 1])
  }

  lemma {:induction false} LastSlashBefore(head: Bytes, tail: Bytes)
    requires forall i :: 0 <= i < |tail| ==> tail[i] != 47
    requires head == [] || head[|head| - 1] == 47
    ensures LastSlash(head + tail) == |head| - 1
  {
    if tail == [] {
      assert head + tail == head;
    } else {
      assert (head + tail)[..|head + tail| - 1] == head + tail[..|tail| - 1];
      LastSlashBefore(head, tail[..|tail| - 1]);
    }
  }

  lemma SplitAtSlash(head: Bytes, tail: Bytes, whole: Bytes)
    requires whole == head + [47] + tail && forall i :: 0 <= i < |tail| ==> tail[i] != 47
    ensures LastSlash(whole) == |head| && whole[..|head|] == head && whole[|head| + 1..] == tail
  {
    hide LastSlash;
    LastSlashBefore(head + [47], tail);
  }

  lemma RenderShape(a: Path)
    requires a != []
    ensures var last := |a| - 1;
            if last == 0 then Render(a) == a[0] else Render(a) == Render(a[..last]) + [47] + a[last]
  {
  }

  /** A rendered path splits at its last slash into its parent and its name. */
  lemma RenderSplits(a: Path)
    requires ProperPath(a)
    ensures Render(a) != []
    ensures var cut, last := LastSlash(Render(a)), |a| - 1;
            && (cut == -1 <==> last == 0)
            && a[last] == Render(a)[cut + 1..]
            && (last > 0 ==> Render(a[..last]) == Render(a)[..cut])
  {
    hide LastSlash, Render;
    var last := |a| - 1;
    assert ProperName(a[last]);
    RenderShape(a);
    if last == 0 {
      LastSlashBefore([], a[0]);
      assert [] + a[0] == a[0];
    } else {
      SplitAtSlash(Render(a[..last]), a[last], Render(a));
    }
  }

  /** Different proper paths are written differently. */
  lemma {:induction false} RenderInjective(a: Path, b: Path)
    requires ProperPath(a) && ProperPath(b) && Render(a) == Render(b)
    ensures a == b
  {
    hide Render, ProperName;
    RenderSplits(a);
    RenderSplits(b);
    var m, n := |a| - 1, |b| - 1;
    if m > 0 {
      RenderInjective(a[..m], b[..n]);
    }
    assert a == a[..m] + [a[m]] && b == b[..n] + [b[n]];
  }

  // ---------------------------------------------------------------- the inventory

  lemma EmitName(st: State, it: Item, p: Params)
    requires Emit(st, it, p).Some?
    ensures var inv := Emit(st, it, p).value.inventory;
            |inv| == |st.inventory| + 1 && inv[..|st.inventory|] == st.inventory && inv[|st.inventory|].path == it.name
  {
    hide EncodeAll, Encode, MemberOf, Numbered, Duplicate, Hashed;
  }

  lemma {:induction false} InventoryNames(stops: seq<Stop>, st: State, p: Params)
    requires EmitAll(st, Visits(stops), p).Some? && forall i :: 0 <= i < |stops| ==> Named(stops[i])
    ensures var inv, n := EmitAll(st, Visits(stops), p).value.inventory, |st.inventory|;
            && |inv| == n + |stops| && inv[..n] == st.inventory
            && forall i :: 0 <= i < |stops| ==> inv[n + i].path == Render(stops[i].path)
  {
    hide Emit, Render;
    if stops != [] {
      var last := |stops| - 1;
      assert Visits(stops)[..last] == Visits(stops[..last]);
      InventoryNames(stops[..last], st, p);
      assert Named(stops[last]);
      EmitName(EmitAll(st, Visits(stops[..last]), p).value, stops[last].visit.item, p);
    }
  }

  predicate DistinctRecords(inv: seq<Record>) {
    forall i, j :: 0 <= i < j < |inv| ==> inv[i].path != inv[j].path
  }

  /** Record `i` lies at the top or follows the record of its directory. */
  ghost predicate ParentRecorded(inv: seq<Record>, i: nat)
    requires i < |inv|
  {
    exists q :: ProperPath(q) && Render(q) == inv[i].path &&
      (|q| == 1 || exists j :: 0 <= j < i && inv[j].path == Render(Parent(q)))
  }

  lemma ReachedIsProper(s: Stop, p: Params)
    requires Reached([], s, p)
    ensures ProperPath(s.path) && Named(s)
  {
  }

  lemma WalkedRecords(root: seq<Entry>, p: Params)
    requires ProperTree(root) && EmitAll(INIT, Visits(Walk([], root, p)), p).Some?
    ensures var stops, inv := Walk([], root, p), EmitAll(INIT, Visits(Walk([], root, p)), p).value.inventory;
            && |inv| == |stops| && DistinctRecords(inv)
            && forall i :: 0 <= i < |inv| ==> ProperPath(stops[i].path) && inv[i].path == Render(stops[i].path)
  {
    hide EmitAll, Walk, Render, Reached, ProperTree, Visits, ProperPath, Named;
    WalkIsSound([], root, p);
    var stops := Walk([], root, p);
    forall i | 0 <= i < |stops| ensures ProperPath(stops[i].path) && Named(stops[i]) {
      ReachedIsProper(stops[i], p);
    }
    InventoryNames(stops, INIT, p);
    var inv := EmitAll(INIT, Visits(stops), p).value.inventory;
    forall i, j | 0 <= i < j < |inv| ensures inv[i].path != inv[j].path {
      if inv[i].path == inv[j].path {
        RenderInjective(stops[i].path, stops[j].path);
      }
    }
  }

  // ---------------------------------------------------------------- what normalizing adds

  lemma ProperAscii(text: string)
    requires text != "" && forall i :: 0 <= i < |text| ==> text[i] as int < 128 && text[i] != '/'
    ensures ProperName(Ascii(text))
  {
    forall i | 0 <= i < |text| ensures Ascii(text)[i] != 47 {
      assert Ascii(text)[i] == text[i] as int;
      assert '/' as int == 47;
    }
  }

  lemma EmptyFilesAreProper()
    ensures forall i :: 0 <= i < |EMPTY_FILES| ==> ProperPath(EMPTY_FILES[i]) && |EMPTY_FILES[i]| >= 2
    ensures forall i, j :: 0 <= i < j < |EMPTY_FILES| ==> EMPTY_FILES[i] != EMPTY_FILES[j]
    ensures forall i :: 0 <= i < |EMPTY_FILES| ==> EMPTY_FILES[i][0] != Ascii("dev")
  {
    ProperAscii("etc");
    ProperAscii("hostname");
    ProperAscii("hosts");
    ProperAscii("machine-id");
    ProperAscii("resolv.conf");
    ProperAscii("var");
    ProperAscii("lib");
    ProperAscii("dbus");
    assert Ascii("etc")[0] == 101 && Ascii("var")[0] == 118 && Ascii("dev")[0] == 100;
  }

  lemma DevicesAreProper()
    ensures ProperPath(DEV) && ProperPath(DEV + [Ascii("console")]) && ProperPath(DEV + [Ascii("null")])
    ensures Ascii("console") != Ascii("null")
  {
    ProperAscii("dev");
    ProperAscii("console");
    ProperAscii("null");
  }

  /** Added paths: proper, each once, new to the inventory, and with their directory at hand. */
  ghost predicate Addable(added: seq<Stop>, inv: seq<Record>) {
    && (forall i :: 0 <= i < |added| ==>
        ProperPath(added[i].path) && Named(added[i]) && !Present(inv, Render(added[i].path)))
    && DistinctPaths(added)
    && forall i :: 0 <= i < |added| && |added[i].path| > 1 ==>
         Present(inv, Render(Parent(added[i].path))) || exists j :: 0 <= j < i && added[j].path == Parent(added[i].path)
  }

  ghost predicate NewUnder(s: Stop, inv: seq<Record>) {
    ProperPath(s.path) && |s.path| >= 2 && Named(s) &&
    !Present(inv, Render(s.path)) && Present(inv, Render(Parent(s.path)))
  }

  lemma {:induction false} EmptiesAddable(files: seq<Path>, inv: seq<Record>, p: Params)
    requires forall i :: 0 <= i < |files| ==> ProperPath(files[i]) && |files[i]| >= 2
    requires forall i, j :: 0 <= i < j < |files| ==> files[i] != files[j]
    ensures var added := MissingEmpties(files, inv, p);
            DistinctPaths(added) && forall i :: 0 <= i < |added| ==> NewUnder(added[i], inv) && added[i].path in files
  {
    hide Render, Present, ProperPath;
    if files != [] {
      EmptiesAddable(files[1..], inv, p);
    }
  }

  /** No walked path lies below the excluded device directory. */
  lemma DevicesAbsent(root: seq<Entry>, inv: seq<Record>, name: Name, p: Params)
    requires ProperTree(root) && ProperPath(DEV + [name])
    requires var stops := Walk([], root, p);
             |inv| == |stops| &&
             forall i :: 0 <= i < |inv| ==> ProperPath(stops[i].path) && inv[i].path == Render(stops[i].path)
    ensures !Present(inv, Render(DEV + [name]))
  {
    hide Walk, Render, ProperTree, Skipped, ProperName, Named, ProperPath;
    WalkIsSound([], root, p);
    var stops := Walk([], root, p);
    forall i | 0 <= i < |inv| ensures inv[i].path != Render(DEV + [name]) {
      assert Reached([], stops[i], p);
      if inv[i].path == Render(DEV + [name]) {
        RenderInjective(stops[i].path, DEV + [name]);
      }
      assert Excluded(DEV, p);
      assert (DEV + [name])[..1] == DEV;
    }
  }

  lemma AdditionsAddable(root: seq<Entry>, inv: seq<Record>, p: Params)
    requires ProperTree(root)
    requires var stops := Walk([], root, p);
             |inv| == |stops| &&
             forall i :: 0 <= i < |inv| ==> ProperPath(stops[i].path) && inv[i].path == Render(stops[i].path)
    ensures Addable(Additions(inv, p), inv)
  {
    hide Walk, Render, ProperTree, Present, ProperName, MissingEmpties;
    EmptyFilesAreProper();
    DevicesAreProper();
    DevicesAbsent(root, inv, Ascii("console"), p);
    DevicesAbsent(root, inv, Ascii("null"), p);
    EmptiesAddable(EMPTY_FILES, inv, p);
    TailAddable(MissingEmpties(EMPTY_FILES, inv, p), inv, p);
  }

  lemma TailAddable(empties: seq<Stop>, inv: seq<Record>, p: Params)
    requires DistinctPaths(empties)
    requires forall i :: 0 <= i < |empties| ==> NewUnder(empties[i], inv) && empties[i].path[0] != Ascii("dev")
    requires ProperPath(DEV) && ProperPath(DEV + [Ascii("console")]) && ProperPath(DEV + [Ascii("null")])
    requires Ascii("console") != Ascii("null")
    requires !Present(inv, Render(DEV + [Ascii("console")])) && !Present(inv, Render(DEV + [Ascii("null")]))
    ensures var dev := Stop(DEV, Emits(Item(Render(DEV), GeneratedStat(DIRECTORY + 0x1ED, p, 0, 0), None, NO_FILE)));
            Addable(empties + (if Present(inv, Render(DEV)) then [] else [dev]) +
                    [Device("console", 0x180, 5, 1, p), Device("null", 0x1B6, 1, 3, p)], inv)
  {
    hide Render, Present, ProperPath, Ascii;
    var dev := Stop(DEV, Emits(Item(Render(DEV), GeneratedStat(DIRECTORY + 0x1ED, p, 0, 0), None, NO_FILE)));
    var middle := if Present(inv, Render(DEV)) then [] else [dev];
    var devices := [Device("console", 0x180, 5, 1, p), Device("null", 0x1B6, 1, 3, p)];
    var all := empties + middle + devices;
    forall i | 0 <= i < |all| && |all[i].path| > 1
      ensures Present(inv, Render(Parent(all[i].path))) || exists j :: 0 <= j < i && all[j].path == Parent(all[i].path)
    {
      if i < |empties| {
        assert all[i] == empties[i];
      } else if middle == [dev] && i > |empties| {
        assert all[|empties|] == dev;
        assert Parent(all[i].path) == DEV;
      }
    }
  }

  // ---------------------------------------------------------------- main results

  /** Every exported path occurs once. */
  lemma PathsDistinct(root: seq<Entry>, p: Params)
    ensures ProperTree(root) && Collect(root, p).Some? ==> DistinctRecords(Collect(root, p).value.inventory)
  {
    hide EmitAll, Walk, Render, ProperTree, Visits, ProperPath, Additions, Named;
    if !ProperTree(root) || Collect(root, p).None? {
      return;
    }
    WalkedRecords(root, p);
    var walked := EmitAll(INIT, Visits(Walk([], root, p)), p).value;
    if p.normalize {
      var added := Additions(walked.inventory, p);
      AdditionsAddable(root, walked.inventory, p);
      InventoryNames(added, walked, p);
      var n, inv := |walked.inventory|, Collect(root, p).value.inventory;
      assert forall i :: 0 <= i < n ==> inv[i] == inv[..n][i];
      forall i, j | 0 <= i < j < |inv| ensures inv[i].path != inv[j].path {
        if i < n <= j {
          assert inv[j].path == Render(added[j - n].path);
        } else if n <= i && inv[i].path == inv[j].path {
          assert inv[n + (i - n)].path == inv[n + (j - n)].path;
          RenderInjective(added[i - n].path, added[j - n].path);
        }
      }
    }
  }

  lemma RecordedBy(inv: seq<Record>, i: nat, q: Path, j: nat)
    requires i < |inv| && ProperPath(q) && Render(q) == inv[i].path
    requires |q| == 1 || (j < i && inv[j].path == Render(Parent(q)))
    ensures ParentRecorded(inv, i)
  {
  }

  lemma WalkedParent(stops: seq<Stop>, inv: seq<Record>, i: nat)
    requires i < |stops| <= |inv| && HasParent([], stops, i)
    requires forall k :: 0 <= k < |stops| ==> ProperPath(stops[k].path) && inv[k].path == Render(stops[k].path)
    ensures ParentRecorded(inv, i)
  {
    hide Render, ProperPath, ParentRecorded;
    var q := stops[i].path;
    if Parent(q) == [] {
      RecordedBy(inv, i, q, 0);
    } else {
      var j :| 0 <= j < i && stops[j].path == Parent(q);
      RecordedBy(inv, i, q, j);
    }
  }

  lemma AddedParent(added: seq<Stop>, before: seq<Record>, inv: seq<Record>, i: nat)
    requires Addable(added, before) && i < |added| && |inv| == |before| + |added| && inv[..|before|] == before
    requires forall k :: 0 <= k < |added| ==> inv[|before| + k].path == Render(added[k].path)
    ensures ParentRecorded(inv, |before| + i)
  {
    hide Render, ProperPath, Named, ParentRecorded, DistinctPaths;
    var n, q := |before|, added[i].path;
    if |q| <= 1 {
      ProperIsNonempty(q);
      RecordedBy(inv, n + i, q, 0);
    } else if Present(before, Render(Parent(q))) {
      var j :| 0 <= j < n && before[j].path == Render(Parent(q));
      assert inv[j] == inv[..n][j];
      RecordedBy(inv, n + i, q, j);
    } else {
      var j :| 0 <= j < i && added[j].path == Parent(q);
      RecordedBy(inv, n + i, q, n + j);
    }
  }

  lemma ProperIsNonempty(q: Path)
    requires ProperPath(q)
    ensures |q| >= 1
  {
  }

  lemma AddedNamed(added: seq<Stop>, inv: seq<Record>)
    requires Addable(added, inv)
    ensures forall i :: 0 <= i < |added| ==> Named(added[i])
  {
  }

  /** The stops that a normalized export adds to what the walk recorded. */
  function Added(walked: seq<Record>, p: Params): seq<Stop> {
    if p.normalize then Additions(walked, p) else []
  }

  lemma WalkSucceeds(root: seq<Entry>, p: Params)
    ensures Collect(root, p).Some? ==> EmitAll(INIT, Visits(Walk([], root, p)), p).Some?
  {
    hide EmitAll, Walk, Visits, Additions;
  }

  /** The inventory is the walk's, and then what is added. */
  lemma CollectShape(root: seq<Entry>, p: Params)
    requires Collect(root, p).Some? && EmitAll(INIT, Visits(Walk([], root, p)), p).Some?
    requires var before := EmitAll(INIT, Visits(Walk([], root, p)), p).value.inventory;
             Addable(Added(before, p), before)
    ensures var before, inv := EmitAll(INIT, Visits(Walk([], root, p)), p).value.inventory,
            Collect(root, p).value.inventory;
            var added := Added(before, p);
            && |inv| == |before| + |added| && inv[..|before|] == before
            && forall k :: 0 <= k < |added| ==> inv[|before| + k].path == Render(added[k].path)
  {
    hide EmitAll, Walk, Render, Visits, Additions, Named, Addable;
    var walked := EmitAll(INIT, Visits(Walk([], root, p)), p).value;
    if p.normalize {
      AddedNamed(Additions(walked.inventory, p), walked.inventory);
      InventoryNames(Additions(walked.inventory, p), walked, p);
    }
  }

  /** Every directory's entry precedes those of its contents, unless a `.dockerenv` directory with
      contents is exported with normalization. */
  lemma ParentsPrecede(root: seq<Entry>, p: Params)
    ensures ProperTree(root) && Collect(root, p).Some? && !OrphansDockerEnv(root, p) ==>
              var inv := Collect(root, p).value.inventory; forall i :: 0 <= i < |inv| ==> ParentRecorded(inv, i)
  {
    hide EmitAll, Walk, Render, ProperTree, Visits, ProperPath, Additions, Named, ParentRecorded, OrphansDockerEnv,
         Addable, DistinctRecords, HasParent, Collect;
    if !ProperTree(root) || Collect(root, p).None? || OrphansDockerEnv(root, p) {
      return;
    }
    WalkSucceeds(root, p);
    WalkedRecords(root, p);
    WalkParents([], root, p);
    var stops, before := Walk([], root, p), EmitAll(INIT, Visits(Walk([], root, p)), p).value.inventory;
    if p.normalize {
      AdditionsAddable(root, before, p);
    } else {
      NothingAddable(before);
    }
    CollectShape(root, p);
    FirstRecords(Collect(root, p).value.inventory, |before|);
    RecordsHaveParents(stops, before, Added(before, p), Collect(root, p).value.inventory);
  }

  lemma NothingAddable(inv: seq<Record>)
    ensures Addable([], inv)
  {
  }

  lemma RecordsHaveParents(stops: seq<Stop>, before: seq<Record>, added: seq<Stop>, inv: seq<Record>)
    requires |stops| == |before| && |inv| == |before| + |added| && inv[..|before|] == before
    requires ParentsFirst([], stops) && Addable(added, before)
    requires forall k :: 0 <= k < |stops| ==> ProperPath(stops[k].path) && inv[k].path == Render(stops[k].path)
    requires forall k :: 0 <= k < |added| ==> inv[|before| + k].path == Render(added[k].path)
    ensures forall i :: 0 <= i < |inv| ==> ParentRecorded(inv, i)
  {
    hide Render, ProperPath, ParentRecorded, Addable, HasParent;
    forall i | 0 <= i < |inv| ensures ParentRecorded(inv, i) {
      if i < |before| {
        WalkedParent(stops, inv, i);
      } else {
        AddedParent(added, before, inv, i - |before|);
      }
    }
  }

  lemma FirstRecords(inv: seq<Record>, n: nat)
    requires n <= |inv|
    ensures forall i :: 0 <= i < n ==> inv[i] == inv[..n][i]
  {
  }

  // ---------------------------------------------------------------- the exception

  lemma {:induction false} DescendContains(path: Path, directories: seq<Entry>, k: nat, p: Params, height: nat)
      returns (at: nat)
    requires forall e :: e in directories ==> Height(e.node) <= height
    requires k < |directories|
    ensures directories[k] in directories
    ensures var below := Below(path, directories[k], p, height);
            at + |below| <= |Descend(path, directories, p, height)| &&
            Descend(path, directories, p, height)[at..at + |below|] == below
  {
    hide Walk, Below;
    assert directories[k] in directories && directories[0] in directories;
    if k == 0 {
      at := 0;
    } else {
      at := DescendContains(path, directories[1..], k - 1, p, height);
      at := at + |Below(path, directories[0], p, height)|;
    }
  }

  /** The walk below a directory with contents starts with the first of its names. */
  lemma FirstOfWalk(listing: seq<Entry>, p: Params)
    requires ProperTree(listing) && listing != []
    ensures var stops := Walk(DOCKER_ENV, listing, p);
            stops != [] && |stops[0].path| == 2 && Parent(stops[0].path) == DOCKER_ENV
  {
    hide SortedPart, Descend, ItemOf, ProperTree, NameLe;
    PartsDistinct(listing);
    var names := SortedPart(listing, true) + SortedPart(listing, false);
    assert listing[0] in SortedPart(listing, true) || listing[0] in SortedPart(listing, false);
    assert names != [];
    var q := DOCKER_ENV + [names[0].name];
    assert |q| == 2 && |q[0]| == 10 && |Ascii("opt")| == 3;
    assert !Skipped(q, p);
    assert ListStops(DOCKER_ENV, names, p)[0].path == q;
  }

  /** With such a `.dockerenv` directory, some record comes without its directory's. */
  lemma ParentMissing(root: seq<Entry>, p: Params)
    ensures ProperTree(root) && Collect(root, p).Some? && OrphansDockerEnv(root, p) ==>
              var inv := Collect(root, p).value.inventory; exists i :: 0 <= i < |inv| && !ParentRecorded(inv, i)
  {
    hide EmitAll, Render, ProperTree, Visits, Additions, Named, ProperPath, Addable, Walk, AllReached, DistinctPaths,
         ParentRecorded, DistinctRecords;
    if !ProperTree(root) || Collect(root, p).None? || !OrphansDockerEnv(root, p) {
      return;
    }
    var e :| e in root && [e.name] == DOCKER_ENV && e.node.body.Directory? && e.node.body.listing != [];
    WalkedRecords(root, p);
    WalkIsSound([], root, p);
    var stops := Walk([], root, p);
    var i := OrphanIndex(root, e, p);
    var walked, inv := EmitAll(INIT, Visits(stops), p).value, Collect(root, p).value.inventory;
    if p.normalize {
      AdditionsAddable(root, walked.inventory, p);
      AddedNamed(Additions(walked.inventory, p), walked.inventory);
      InventoryNames(Additions(walked.inventory, p), walked, p);
    }
    var n := |walked.inventory|;
    assert forall k :: 0 <= k < n ==> inv[k] == inv[..n][k];
    SkippedUnreached(stops, p);
    NotRecorded(stops, inv, i);
  }

  /** Every directory's entry precedes those of its contents, if and only if no `.dockerenv` directory
      with contents is exported with normalization. */
  lemma ParentsPrecedeExactly(root: seq<Entry>, p: Params)
    ensures ProperTree(root) && Collect(root, p).Some? ==>
              var inv := Collect(root, p).value.inventory;
              (forall i :: 0 <= i < |inv| ==> ParentRecorded(inv, i)) <==> !OrphansDockerEnv(root, p)
  {
    hide Collect, ProperTree, ParentRecorded, OrphansDockerEnv;
    ParentMissing(root, p);
    ParentsPrecede(root, p);
  }

  lemma SkippedUnreached(stops: seq<Stop>, p: Params)
    requires AllReached([], stops, p) && p.normalize
    ensures forall j :: 0 <= j < |stops| ==> stops[j].path != DOCKER_ENV
  {
    hide Excluded, ProperName, Named;
    assert Skipped(DOCKER_ENV, p);
  }

  lemma NotRecorded(stops: seq<Stop>, inv: seq<Record>, i: nat)
    requires i < |stops| <= |inv| && |stops[i].path| == 2 && Parent(stops[i].path) == DOCKER_ENV
    requires forall k :: 0 <= k < |stops| ==> ProperPath(stops[k].path) && inv[k].path == Render(stops[k].path)
    requires forall j :: 0 <= j < |stops| ==> stops[j].path != DOCKER_ENV
    ensures !ParentRecorded(inv, i)
  {
    hide Render, ProperName;
    DockerEnvIsProper();
    if ParentRecorded(inv, i) {
      var q :| ProperPath(q) && Render(q) == inv[i].path &&
        (|q| == 1 || exists j :: 0 <= j < i && inv[j].path == Render(Parent(q)));
      RenderInjective(q, stops[i].path);
      var j :| 0 <= j < i && inv[j].path == Render(DOCKER_ENV);
      RenderInjective(stops[j].path, DOCKER_ENV);
    }
  }

  lemma DockerEnvIsProper()
    ensures ProperPath(DOCKER_ENV)
  {
    ProperAscii(".dockerenv");
  }

  lemma OrphanIndex(root: seq<Entry>, e: Entry, p: Params) returns (i: nat)
    requires ProperTree(root) && p.normalize
    requires e in root && [e.name] == DOCKER_ENV && e.node.body.Directory? && e.node.body.listing != []
    ensures var stops := Walk([], root, p);
            i < |stops| && |stops[i].path| == 2 && Parent(stops[i].path) == DOCKER_ENV
  {
    hide ListStops, SortedPart, Descend, ProperTree, Walk;
    var directories, h := SortedPart(root, true), ListHeight(root);
    assert e in directories;
    var k :| 0 <= k < |directories| && directories[k] == e;
    var at := DescendContains([], directories, k, p, h);
    DockerEnvEntered(p);
    assert [] + [e.name] == DOCKER_ENV;
    EntryIsProper(root, e);
    FirstOfWalk(e.node.body.listing, p);
    var own, below := ListStops([], directories + SortedPart(root, false), p), Below([], e, p, h);
    WalkShape([], root, p);
    i := |own| + at;
    assert Walk([], root, p)[i] == Descend([], directories, p, h)[at] == below[0];
  }

  lemma WalkShape(path: Path, listing: seq<Entry>, p: Params)
    ensures var directories := SortedPart(listing, true);
            Walk(path, listing, p) == ListStops(path, directories + SortedPart(listing, false), p) +
                                      Descend(path, directories, p, ListHeight(listing))
  {
  }

  lemma DockerEnvEntered(p: Params)
    ensures !Excluded(DOCKER_ENV, p)
  {
    assert |Ascii(".dockerenv")| == 10;
  }
}
