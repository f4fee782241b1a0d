/** What a reader of an exported root gets, said of the root itself: when the archive ends early, and
    what stands behind each record. */
module RootReads {
  import opened Prelude
  import opened Newc
  import opened NewcReader
  import opened Archive
  import opened RootWalk
  import opened Reproducible
  import opened RootPaths
  import opened HardLinks

  // ---------------------------------------------------------------- names of members

  predicate NamesAgree(st: State) {
    |st.members| == |st.inventory| && forall i :: 0 <= i < |st.members| ==> st.members[i].name == st.inventory[i].path
  }

  lemma {:induction false} MembersNamed(visits: seq<Visit>, st: State, p: Params)
    requires NamesAgree(st) && EmitAll(st, visits, p).Some?
    ensures NamesAgree(EmitAll(st, visits, p).value)
  {
    hide EncodeAll, Encode, Numbered, Duplicate, Hashed;
    if visits != [] {
      MembersNamed(visits[..|visits| - 1], st, p);
    }
  }

  /** The members are named as the walk and the additions are. */
  lemma CollectNames(root: seq<Entry>, p: Params)
    requires ProperTree(root) && Collect(root, p).Some?
    ensures var st, before := Collect(root, p).value, EmitAll(INIT, Visits(Walk([], root, p)), p);
            && before.Some? && NamesAgree(st)
            && var stops := Walk([], root, p) + Added(before.value.inventory, p);
               |st.members| == |stops| &&
               forall i :: 0 <= i < |stops| ==> ProperPath(stops[i].path) && st.members[i].name == Render(stops[i].path)
  {
    hide EmitAll, Walk, Render, ProperTree, Visits, ProperPath, Additions, Addable, DistinctRecords;
    WalkSucceeds(root, p);
    WalkedRecords(root, p);
    var walked := EmitAll(INIT, Visits(Walk([], root, p)), p).value;
    MembersNamed(Visits(Walk([], root, p)), INIT, p);
    var added := Added(walked.inventory, p);
    if p.normalize {
      AdditionsAddable(root, walked.inventory, p);
      MembersNamed(Visits(added), walked, p);
    } else {
      NothingAddable(walked.inventory);
    }
    CollectShape(root, p);
    AddableProper(added, walked.inventory);
    NamedInOrder(Walk([], root, p), added, walked.inventory, Collect(root, p).value);
  }

  lemma NamedInOrder(stops: seq<Stop>, added: seq<Stop>, before: seq<Record>, st: State)
    requires NamesAgree(st) && |before| == |stops| && |st.inventory| == |stops| + |added|
    requires st.inventory[..|before|] == before
    requires forall i :: 0 <= i < |stops| ==> ProperPath(stops[i].path) && before[i].path == Render(stops[i].path)
    requires forall i :: 0 <= i < |added| ==>
               ProperPath(added[i].path) && st.inventory[|before| + i].path == Render(added[i].path)
    ensures var all := stops + added;
            forall i :: 0 <= i < |all| ==> ProperPath(all[i].path) && st.members[i].name == Render(all[i].path)
  {
    hide Render, ProperPath;
    FirstRecords(st.inventory, |before|);
    forall i | 0 <= i < |stops + added|
      ensures ProperPath((stops + added)[i].path) && st.members[i].name == Render((stops + added)[i].path)
    {
      if i >= |stops| {
        assert st.inventory[|before| + (i - |stops|)].path == st.members[i].name;
      }
    }
  }

  lemma AddableProper(added: seq<Stop>, inv: seq<Record>)
    requires Addable(added, inv)
    ensures forall i :: 0 <= i < |added| ==> ProperPath(added[i].path)
  {
  }

  // ---------------------------------------------------------------- the trailer's name

  const TRAILER_PATH: Path := [TRAILER]

  predicate BearsTrailer(root: seq<Entry>) {
    exists e :: e in root && e.name == TRAILER
  }

  lemma TrailerIsPlain(p: Params)
    ensures ProperPath(TRAILER_PATH) && !Skipped(TRAILER_PATH, p) && TRAILER_PATH != DEV
  {
    ProperAscii("TRAILER!!!");
    assert TRAILER[0] == 84 && Ascii(".dockerenv")[0] == 46 && Ascii("opt")[0] == 111 && Ascii("dev")[0] == 100;
  }

  lemma WalkParts(root: seq<Entry>, p: Params)
    requires ProperTree(root)
    ensures var names := SortedPart(root, true) + SortedPart(root, false);
            var own := ListStops([], names, p);
            && |own| <= |Walk([], root, p)| && Walk([], root, p)[..|own|] == own
            && (forall i :: |own| <= i < |Walk([], root, p)| ==> |Walk([], root, p)[i].path| >= 2)
            && DistinctNames(names) && (forall i :: 0 <= i < |own| ==> OwnPath([], NamesOf(names), own[i].path))
  {
    hide Skipped, Excluded, ProperName, ListStops, SortedPart, Descend, NamesOf;
    var directories := SortedPart(root, true);
    var names, h := directories + SortedPart(root, false), ListHeight(root);
    PartsDistinct(root);
    NamesStop([], names, p);
    forall i | 0 <= i < |directories| ensures ProperEntry(directories[i]) {
      assert directories[i] == names[i];
      EntryIsProper(root, directories[i]);
    }
    PrefixDistinct(directories, SortedPart(root, false));
    DescentIsSound([], directories, p, h);
    WalkShape([], root, p);
  }

  /** The walk stops at the trailer's name exactly if the root lists it. */
  lemma TrailerWalked(root: seq<Entry>, p: Params)
    requires ProperTree(root)
    ensures (exists i :: 0 <= i < |Walk([], root, p)| && Walk([], root, p)[i].path == TRAILER_PATH) <==>
            BearsTrailer(root)
  {
    hide Walk, ListStops, SortedPart, Skipped, ProperTree, TRAILER;
    var names, stops := SortedPart(root, true) + SortedPart(root, false), Walk([], root, p);
    var own := ListStops([], names, p);
    WalkParts(root, p);
    TrailerIsPlain(p);
    if i :| 0 <= i < |stops| && stops[i].path == TRAILER_PATH {
      assert own[i] == stops[i] && TRAILER in NamesOf(names);
      var k :| 0 <= k < |names| && names[k].name == TRAILER;
      assert names[k] in SortedPart(root, true) || names[k] in SortedPart(root, false);
    }
    if e :| e in root && e.name == TRAILER {
      assert e in SortedPart(root, true) || e in SortedPart(root, false);
      assert e in names;
      var k :| 0 <= k < |names| && names[k] == e;
      assert [] + [e.name] == TRAILER_PATH;
      var i := NameIsListed([], names, k, p);
      assert stops[i] == own[i];
    }
  }

  lemma AddedElsewhere(inv: seq<Record>, p: Params)
    ensures forall i :: 0 <= i < |Added(inv, p)| ==> Added(inv, p)[i].path != TRAILER_PATH
  {
    hide Present, Render, ProperPath;
    TrailerIsPlain(p);
    EmptyFilesAreProper();
    EmptiesAddable(EMPTY_FILES, inv, p);
  }

  /** An exported path is the trailer's name exactly if the root directory lists that name. */
  lemma TrailerExported(root: seq<Entry>, p: Params)
    requires ProperTree(root) && Collect(root, p).Some?
    ensures Unmistakable(Collect(root, p).value.members) <==> !BearsTrailer(root)
  {
    hide Collect, EmitAll, Walk, Render, ProperTree, Visits, ProperPath, Added, BearsTrailer, NamesAgree, TRAILER;
    CollectNames(root, p);
    TrailerWalked(root, p);
    TrailerIsPlain(p);
    var members, walk := Collect(root, p).value.members, Walk([], root, p);
    var inv := EmitAll(INIT, Visits(walk), p).value.inventory;
    AddedElsewhere(inv, p);
    var stops := walk + Added(inv, p);
    TrailerRenders();
    forall i | 0 <= i < |members|
      ensures members[i].name == TRAILER <==> i < |walk| && walk[i].path == TRAILER_PATH
    {
      if members[i].name == TRAILER {
        RenderInjective(stops[i].path, TRAILER_PATH);
      }
      if i >= |walk| {
        assert stops[i] == Added(inv, p)[i - |walk|];
      }
    }
  }

  lemma TrailerRenders()
    ensures Render(TRAILER_PATH) == TRAILER
  {
  }

  /** A reader of the exported bytes gets back every header, name and content in order and stops behind
      the trailer, if and only if the root directory lists nothing by the trailer's name. */
  lemma ExportReadsBackExactly(root: seq<Entry>, p: Params)
    requires ProperTree(root)
    ensures Export(root, p).Some? ==>
              (ReadArchive(Export(root, p).value.bytes, 0) == Some((Collect(root, p).value.members, [])) <==>
               !BearsTrailer(root))
  {
    hide Collect, ReadArchive, ProperTree, BearsTrailer, Unmistakable, EncodeAll, Encode;
    if Export(root, p).Some? {
      ExportReadsBack(root, p);
      TrailerExported(root, p);
    }
  }

  const TRAILER_FILE := Entry(TRAILER, Node(Stat(1, 1, REGULAR, 0, 0, 1, 0, 0, 0, 0), File(DiskFile(true, [], true))))

  /** An empty file named like the trailer is exported, and then not read back. */
  lemma TrailerFileEndsArchive(p: Params)
    requires !p.normalize && p.maximumEntries >= 1 && p.maximumBytes >= 1000
    ensures var root := [TRAILER_FILE];
            && Export(root, p).Some? && |Collect(root, p).value.members| == 1
            && ReadArchive(Export(root, p).value.bytes, 0) != Some((Collect(root, p).value.members, []))
  {
    var root := [TRAILER_FILE];
    hide Export, ReadArchive, Walk, Ascii;
    TrailerFileWalked(p);
    TrailerFileExported(p);
    assert root[0] in root && BearsTrailer(root);
    TrailerIsPlain(p);
    assert ProperName(TRAILER_PATH[0]);
    ExportReadsBackExactly(root, p);
  }

  lemma TrailerFileSorted()
    ensures var root := [TRAILER_FILE]; SortedPart(root, true) == [] && SortedPart(root, false) == root
  {
    hide Ascii;
    var root, none: seq<Entry> := [TRAILER_FILE], [];
    assert root[1..] == none;
    assert Select(root, true) == none && Select(root, false) == root;
    assert Sorted(none) == none && Sorted(root) == Insert(TRAILER_FILE, none) == root;
  }

  lemma TrailerFileWalked(p: Params)
    requires !p.normalize
    ensures var root := [TRAILER_FILE];
            Walk([], root, p) ==
              [Stop(TRAILER_PATH, Emits(Item(TRAILER, TRAILER_FILE.node.info, None, DiskFile(true, [], true))))]
  {
    hide Ascii, SortedPart, Walk;
    var root, none: seq<Entry> := [TRAILER_FILE], [];
    TrailerFileSorted();
    WalkShape([], root, p);
    assert none + root == root && [] + [TRAILER] == TRAILER_PATH && root[1..] == none;
    assert ListStops([], root, p) == StopsAt(TRAILER_PATH, TRAILER_FILE.node, p) + [];
  }

  lemma TrailerFileExported(p: Params)
    requires !p.normalize && p.maximumEntries >= 1 && p.maximumBytes >= 1000
    requires Walk([], [TRAILER_FILE], p) ==
             [Stop(TRAILER_PATH, Emits(Item(TRAILER, TRAILER_FILE.node.info, None, DiskFile(true, [], true))))]
    ensures Export([TRAILER_FILE], p).Some? && |Collect([TRAILER_FILE], p).value.members| == 1
  {
    hide Walk, Encode, EncodeAll;
    var item := Item(TRAILER, TRAILER_FILE.node.info, None, DiskFile(true, [], true));
    assert |TRAILER| == 10;
    var member := MemberOf(item, 1, false, p);
    assert member.Some?;
    EncodeLength(member.value);
    EncodeLength(TRAILER_MEMBER);
    NoMembers();
    EncodeAllSnoc([], member.value);
    var visits := Visits(Walk([], [TRAILER_FILE], p));
    assert visits == [Emits(item)] && visits[..0] == [];
    assert Emit(INIT, item, p).Some? && Emit(INIT, item, p).value.members == [member.value];
    assert EmitAll(INIT, visits, p) == Emit(INIT, item, p);
  }

  // ---------------------------------------------------------------- what stands behind a record

  /** What the system says of one inode. */
  datatype Inode = Inode(regular: bool, size: int, disk: DiskFile)

  type Inodes = (int, int) -> Inode

  predicate NodeFits(node: Node, inodes: Inodes) {
    var inode := inodes(node.info.dev, node.info.ino);
    && node.info.dev != -1 && IsRegular(node.info.mode) == inode.regular
    && (inode.regular ==> node.info.size == inode.size && node.body == File(inode.disk))
  }

  /** Stat data is consistent: whatever names have one device and inode number are one file. */
  predicate TreeFits(listing: seq<Entry>, inodes: Inodes) {
    forall i :: 0 <= i < |listing| ==>
      && NodeFits(listing[i].node, inodes)
      && (listing[i].node.body.Directory? ==> TreeFits(listing[i].node.body.listing, inodes))
  }

  predicate EntryFits(e: Entry, inodes: Inodes) {
    NodeFits(e.node, inodes) && (e.node.body.Directory? ==> TreeFits(e.node.body.listing, inodes))
  }

  predicate ItemFits(it: Item, inodes: Inodes) {
    it.info.dev != -1 ==>
      var inode := inodes(it.info.dev, it.info.ino);
      && IsRegular(it.info.mode) == inode.regular
      && (inode.regular ==> it.data.None? && it.info.size == inode.size && it.disk == inode.disk)
  }

  predicate StopFits(s: Stop, inodes: Inodes) {
    s.visit.Emits? ==> ItemFits(s.visit.item, inodes)
  }

  predicate StopsFit(stops: seq<Stop>, inodes: Inodes) {
    forall i :: 0 <= i < |stops| ==> StopFits(stops[i], inodes)
  }

  lemma {:induction false} NamesFit(path: Path, names: seq<Entry>, p: Params, inodes: Inodes)
    requires forall i :: 0 <= i < |names| ==> NodeFits(names[i].node, inodes)
    ensures StopsFit(ListStops(path, names, p), inodes)
  {
    hide Skipped, Emptied, Render;
    if names != [] {
      NamesFit(path, names[1..], p, inodes);
    }
  }

  lemma {:induction false} WalkFits(path: Path, listing: seq<Entry>, p: Params, inodes: Inodes)
    requires TreeFits(listing, inodes)
    ensures StopsFit(Walk(path, listing, p), inodes)
    decreases ListHeight(listing), 1, 0
  {
    hide NodeFits, StopFits, SortedPart, ListStops, Descend;
    var directories := SortedPart(listing, true);
    var names := directories + SortedPart(listing, false);
    forall i | 0 <= i < |names| ensures EntryFits(names[i], inodes) {
      assert names[i] in directories || names[i] in SortedPart(listing, false);
      var k :| 0 <= k < |listing| && listing[k] == names[i];
    }
    assert forall i :: 0 <= i < |directories| ==> names[i] == directories[i];
    NamesFit(path, names, p, inodes);
    DescentFits(path, directories, p, ListHeight(listing), inodes);
  }

  lemma {:induction false} DescentFits(
    path: Path, directories: seq<Entry>, p: Params, height: nat, inodes: Inodes)
    requires forall e :: e in directories ==> Height(e.node) <= height
    requires forall i :: 0 <= i < |directories| ==> EntryFits(directories[i], inodes)
    ensures StopsFit(Descend(path, directories, p, height), inodes)
    decreases height, 0, |directories|
  {
    hide NodeFits, StopFits, Walk, Excluded;
    if directories != [] {
      var first := directories[0];
      assert first in directories;
      DescentFits(path, directories[1..], p, height, inodes);
      if first.node.body.Directory? {
        WalkFits(path + [first.name], first.node.body.listing, p, inodes);
      }
    }
  }

  lemma AddedFits(inv: seq<Record>, p: Params, inodes: Inodes)
    ensures StopsFit(Added(inv, p), inodes)
  {
    hide Present, Render;
    EmptiesFit(EMPTY_FILES, inv, p, inodes);
  }

  lemma {:induction false} EmptiesFit(files: seq<Path>, inv: seq<Record>, p: Params, inodes: Inodes)
    ensures StopsFit(MissingEmpties(files, inv, p), inodes)
  {
    hide Present, Render;
    if files != [] {
      EmptiesFit(files[1..], inv, p, inodes);
    }
  }

  /** Entries that fit, no two by one name. */
  ghost predicate AsListed(stops: seq<Stop>, inodes: Inodes) {
    && StopsFit(stops, inodes) && (forall i :: 0 <= i < |stops| ==> Named(stops[i]))
    && forall i, j :: 0 <= i < j < |stops| ==> Render(stops[i].path) != Render(stops[j].path)
  }

  lemma FittingAgree(stops: seq<Stop>, inodes: Inodes)
    requires AsListed(stops, inodes)
    ensures InodesAgree(Visits(stops))
  {
    hide Render;
    var visits := Visits(stops);
    forall i, j | 0 <= i < |visits| && 0 <= j < |visits| && visits[i].Emits? && visits[j].Emits?
                  && KeyOf(visits[i].item) == KeyOf(visits[j].item)
      ensures SameFile(visits[i].item, visits[j].item)
    {
      assert StopFits(stops[i], inodes) && StopFits(stops[j], inodes) && Named(stops[i]) && Named(stops[j]);
    }
  }

  /** The whole run, as one. */
  lemma CollectedRun(root: seq<Entry>, p: Params, inodes: Inodes)
    requires ProperTree(root) && TreeFits(root, inodes) && Collect(root, p).Some?
    ensures EmitAll(INIT, Visits(Walk([], root, p)), p).Some?
    ensures var stops := Walk([], root, p) + Added(EmitAll(INIT, Visits(Walk([], root, p)), p).value.inventory, p);
            AsListed(stops, inodes) && InodesAgree(Visits(stops)) && EmitAll(INIT, Visits(stops), p) == Collect(root, p)
  {
    hide Walk, ProperTree, TreeFits, Render, EmitAll, Additions, Addable, StopsFit, InodesAgree, DistinctRecords,
         ProperPath;
    CollectNames(root, p);
    PathsDistinct(root, p);
    WalkedNamed(root, p);
    WalkFits([], root, p, inodes);
    var walk := Walk([], root, p);
    var walked := EmitAll(INIT, Visits(walk), p).value;
    var added := Added(walked.inventory, p);
    AddedFits(walked.inventory, p, inodes);
    WalkedRecords(root, p);
    AddedAllNamed(root, walked.inventory, p);
    FitTogether(walk, added, inodes);
    NamesDiffer(walk + added, Collect(root, p).value);
    FittingAgree(walk + added, inodes);
    assert Visits(walk + added) == Visits(walk) + Visits(added);
    EmitAllConcat(INIT, Visits(walk), Visits(added), p);
    if !p.normalize {
      NothingEmitted(walked, p);
    }
  }

  lemma NothingEmitted(st: State, p: Params)
    ensures EmitAll(st, Visits([]), p) == Some(st)
  {
  }

  lemma WalkedNamed(root: seq<Entry>, p: Params)
    requires ProperTree(root)
    ensures forall i :: 0 <= i < |Walk([], root, p)| ==> Named(Walk([], root, p)[i])
  {
    hide Walk, ProperTree, Named, Excluded, Skipped;
    WalkIsSound([], root, p);
  }

  lemma AddedAllNamed(root: seq<Entry>, inv: seq<Record>, p: Params)
    requires ProperTree(root)
    requires var stops := Walk([], root, p);
             |inv| == |stops| &&
             forall i :: 0 <= i < |inv| ==> ProperPath(stops[i].path) && inv[i].path == Render(stops[i].path)
    ensures forall i :: 0 <= i < |Added(inv, p)| ==> Named(Added(inv, p)[i])
  {
    hide Walk, ProperTree, Addable, Additions, Render, ProperPath, Named;
    if p.normalize {
      AdditionsAddable(root, inv, p);
      AddedNamed(Additions(inv, p), inv);
    }
  }

  lemma FitTogether(a: seq<Stop>, b: seq<Stop>, inodes: Inodes)
    requires StopsFit(a, inodes) && StopsFit(b, inodes)
    ensures StopsFit(a + b, inodes)
  {
    hide StopFits;
  }

  lemma NamesDiffer(stops: seq<Stop>, st: State)
    requires NamesAgree(st) && |st.members| == |stops| && DistinctRecords(st.inventory)
    requires forall i :: 0 <= i < |stops| ==> st.members[i].name == Render(stops[i].path)
    ensures forall i, j :: 0 <= i < j < |stops| ==> Render(stops[i].path) != Render(stops[j].path)
  {
    hide Render;
  }

  /** What the reader finds for record `i` of an export: its name; the regular file's bytes by following
      the inode, of which the record holds the digest; and no bytes of its own for a further name. */
  predicate FoundAt(r: Result, read: seq<Member>, i: nat, p: Params)
    requires |read| == |r.entries| && i < |read|
  {
    && read[i].name == r.entries[i].path && read[i].header.inode == r.entries[i].inode
    && (IsRegular(r.entries[i].mode) ==>
          && r.entries[i].sha256 == Some(p.sha256(ReadContent(read, i)))
          && forall j :: 0 <= j < i && r.entries[j].inode == r.entries[i].inode ==> read[i].content == [])
  }

  lemma FoundInRun(visits: seq<Visit>, p: Params, bytes: Bytes, i: nat)
    requires InodesAgree(visits) && EmitAll(INIT, visits, p).Some? && i < |visits| && FurtherFromDisk(visits, i)
    ensures var st := EmitAll(INIT, visits, p).value;
            && |st.members| == |st.inventory| == |visits| && visits[i].Emits?
            && FoundAt(Result(bytes, |bytes|, st.inventory), st.members, i, p)
            && (IsRegular(visits[i].item.info.mode) ==> ReadContent(st.members, i) == FileBytes(visits[i].item))
  {
    hide EmitAll, Emit, InodesAgree, ReadContent, FileBytes;
    RunKeeps(visits, p);
    DigestsMatchReader(visits, p, i);
    var st := EmitAll(INIT, visits, p).value;
    forall j | 0 <= j < i && st.inventory[j].inode == st.inventory[i].inode && IsRegular(visits[i].item.info.mode)
      ensures st.members[i].content == []
    {
      LinksShareInodes(visits, p, j, i);
    }
  }

  /** An entry whose file was met before does not come with data of its own. */
  predicate FurtherFromDisk(visits: seq<Visit>, i: nat)
    requires i < |visits|
  {
    forall j ::
      0 <= j < i && visits[i].Emits? && visits[j].Emits? && IsRegular(visits[i].item.info.mode) &&
      KeyOf(visits[j].item) == KeyOf(visits[i].item) ==>
      visits[i].item.data.None?
  }

  lemma FittingFromDisk(stops: seq<Stop>, inodes: Inodes, i: nat)
    requires AsListed(stops, inodes) && i < |stops|
    ensures FurtherFromDisk(Visits(stops), i)
  {
    hide Render;
    var visits := Visits(stops);
    forall j | 0 <= j < i && visits[i].Emits? && visits[j].Emits? && IsRegular(visits[i].item.info.mode)
               && KeyOf(visits[j].item) == KeyOf(visits[i].item)
      ensures visits[i].item.data.None?
    {
      assert StopFits(stops[i], inodes) && Named(stops[i]) && Named(stops[j]);
    }
  }

  /** For a root whose stats are consistent per inode, and which lists nothing by the trailer's name: a
      reader of the exported bytes finds every record's entry, in order; each digest is that of the bytes
      it reads by following the inode, and those are the bytes of the file the walk met. */
  lemma RecordsDescribeWhatIsRead(root: seq<Entry>, p: Params, inodes: Inodes, i: nat)
    requires ProperTree(root) && TreeFits(root, inodes) && Export(root, p).Some? && !BearsTrailer(root)
    requires i < |Export(root, p).value.entries|
    ensures ReadArchive(Export(root, p).value.bytes, 0).Some?
    ensures var r, walk := Export(root, p).value, Walk([], root, p);
            var read := ReadArchive(r.bytes, 0).value.0;
            && |read| == |r.entries| && FoundAt(r, read, i, p)
            && (i < |walk| && walk[i].visit.Emits? && IsRegular(walk[i].visit.item.info.mode) ==>
                  ReadContent(read, i) == FileBytes(walk[i].visit.item))
  {
    hide Collect, Walk, ReadArchive, ProperTree, TreeFits, BearsTrailer, EmitAll, Added, EncodeAll, Encode,
         Unmistakable, AsListed, FoundAt, ReadContent, FileBytes, InodesAgree, FurtherFromDisk;
    ExportReadsBackExactly(root, p);
    CollectedRun(root, p, inodes);
    var walk := Walk([], root, p);
    var stops := walk + Added(EmitAll(INIT, Visits(walk), p).value.inventory, p);
    RunLength(Visits(stops), p);
    FittingFromDisk(stops, inodes, i);
    FoundInRun(Visits(stops), p, Export(root, p).value.bytes, i);
  }

  lemma RunLength(visits: seq<Visit>, p: Params)
    requires InodesAgree(visits) && EmitAll(INIT, visits, p).Some?
    ensures |EmitAll(INIT, visits, p).value.inventory| == |visits|
  {
    hide EmitAll, InodesAgree;
    RunKeeps(visits, p);
  }
}
