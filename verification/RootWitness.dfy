/** An exported root in which a `.dockerenv` directory leaves its contents without a parent entry. */
module RootWitness {
  import opened Prelude
  import opened Newc
  import opened Archive
  import opened RootWalk
  import opened Reproducible
  import opened RootPaths

  // ---------------------------------------------------------------- little entries are exported

  /** So many entries of little size have been emitted. */
  ghost predicate Small(st: State, n: nat) {
    && |st.inventory| == n && |EncodeAll(st.members)| <= 200 * n && |st.inodes| <= n
    && forall k :: k in st.inodes ==> 0 <= st.inodes[k] <= |st.inodes|
  }

  /** An entry without content, with a short name and small numbers. */
  predicate Slight(it: Item, p: Params) {
    && |it.name| < 40 && it.data.None? && InRange(RawFields(it, 0, true, p))
    && (IsRegular(it.info.mode) ==> it.info.size == 0 && it.disk.sameBefore && it.disk.sameAfter)
  }

  lemma SlightMember(it: Item, inode: int, duplicate: bool, p: Params)
    requires Slight(it, p) && 0 <= inode <= 0xFFFF_FFFF
    ensures var m := MemberOf(it, inode, duplicate, p); m.Some? && |Encode(m.value)| <= 200
  {
    var raw, was := RawFields(it, inode, duplicate, p), RawFields(it, 0, true, p);
    assert raw == was[0 := inode];
    var m := MemberOf(it, inode, duplicate, p);
    EncodeLength(m.value);
  }

  lemma SlightEmitted(st: State, it: Item, p: Params, n: nat)
    requires Small(st, n) && n < 1000 && n < p.maximumEntries && 200 * (n + 1) <= p.maximumBytes && Slight(it, p)
    ensures Emit(st, it, p).Some? && Small(Emit(st, it, p).value, n + 1)
  {
    hide EncodeAll, Encode, MemberOf, Slight, RecordOf, Hashed;
    var inodes, duplicate := Numbered(st.inodes, KeyOf(it)), Duplicate(st.written, it);
    SlightMember(it, inodes[KeyOf(it)], duplicate, p);
    EncodeAllSnoc(st.members, MemberOf(it, inodes[KeyOf(it)], duplicate, p).value);
  }

  predicate SlightStops(stops: seq<Stop>, p: Params) {
    forall i :: 0 <= i < |stops| ==> stops[i].visit.Emits? && Slight(stops[i].visit.item, p)
  }

  lemma {:induction false} SlightRun(st: State, stops: seq<Stop>, p: Params, n: nat)
    requires Small(st, n) && SlightStops(stops, p)
    requires var all := n + |stops|; all < 1000 && all <= p.maximumEntries && 200 * all <= p.maximumBytes
    ensures EmitAll(st, Visits(stops), p).Some? && Small(EmitAll(st, Visits(stops), p).value, n + |stops|)
  {
    hide Small, Slight, Emit;
    if stops != [] {
      var last := |stops| - 1;
      assert Visits(stops)[..last] == Visits(stops[..last]);
      SlightRun(st, stops[..last], p, n);
      SlightEmitted(EmitAll(st, Visits(stops[..last]), p).value, stops[last].visit.item, p, n + last);
    }
  }

  // ---------------------------------------------------------------- the root

  const ORPHAN := Entry(Ascii("xy"), Node(Stat(1, 2, REGULAR, 0, 0, 1, 0, 0, 0, 0), File(DiskFile(true, [], true))))

  const DIRECTORY_ENTRY :=
    Entry(Ascii(".dockerenv"), Node(Stat(1, 1, DIRECTORY, 0, 0, 2, 0, 0, 0, 0), Directory([ORPHAN])))

  const ORPHAN_PATH: Path := DOCKER_ENV + [Ascii("xy")]

  const ORPHAN_STOP :=
    Stop(ORPHAN_PATH, Emits(Item(Render(ORPHAN_PATH), ORPHAN.node.info, None, DiskFile(true, [], true))))

  lemma RootIsProper()
    ensures ProperTree([DIRECTORY_ENTRY]) && ORPHAN_PATH == [Ascii(".dockerenv"), Ascii("xy")]
    ensures |Render(ORPHAN_PATH)| == 13
  {
    ProperAscii(".dockerenv");
    ProperAscii("xy");
    assert ProperTree([ORPHAN]);
    RenderShape(ORPHAN_PATH);
    assert ORPHAN_PATH[..1] == [Ascii(".dockerenv")];
  }

  lemma OneSorted(e: Entry)
    ensures SortedPart([e], true) == if ListedAsDirectory(e) then [e] else []
    ensures SortedPart([e], false) == if ListedAsDirectory(e) then [] else [e]
  {
    var one, none: seq<Entry> := [e], [];
    assert one[1..] == none;
    assert Select(one, true) == if ListedAsDirectory(e) then one else none;
    assert Select(one, false) == if ListedAsDirectory(e) then none else one;
    assert Sorted(none) == none && Sorted(one) == Insert(e, none) == one;
  }

  /** The file in the directory is met. */
  lemma InnerWalk(p: Params)
    ensures Walk(DOCKER_ENV, [ORPHAN], p) == [ORPHAN_STOP]
  {
    hide SortedPart, Walk, Render, Ascii;
    var inner, none: seq<Entry> := [ORPHAN], [];
    OneSorted(ORPHAN);
    WalkShape(DOCKER_ENV, inner, p);
    RootIsProper();
    assert none + inner == inner && inner[1..] == none;
    assert !Skipped(ORPHAN_PATH, p) && !Emptied(ORPHAN_PATH, p) by {
      assert |ORPHAN_PATH[0]| == 10 && |Ascii("opt")| == |Ascii("etc")| == |Ascii("var")| == 3;
    }
    assert ListStops(DOCKER_ENV, inner, p) == StopsAt(ORPHAN_PATH, ORPHAN.node, p) + [];
  }

  /** The directory itself is not. */
  lemma RootWalked(p: Params)
    requires p.normalize
    ensures Walk([], [DIRECTORY_ENTRY], p) == [ORPHAN_STOP]
  {
    hide SortedPart, Walk, Render, Ascii, Excluded;
    var root, none: seq<Entry> := [DIRECTORY_ENTRY], [];
    OneSorted(DIRECTORY_ENTRY);
    WalkShape([], root, p);
    DockerEnvEntered(p);
    InnerWalk(p);
    assert root + none == root && root[1..] == none && [] + [DIRECTORY_ENTRY.name] == DOCKER_ENV;
    assert Skipped(DOCKER_ENV, p);
    assert ListStops([], root, p) == [] + ListStops([], none, p);
    assert root[0] in root;
    var h := ListHeight(root);
    assert Descend([], root, p, h) == Below([], DIRECTORY_ENTRY, p, h) + Descend([], none, p, h);
  }

  // ---------------------------------------------------------------- its export

  predicate NoParentIn(files: seq<Path>, length: nat) {
    forall i :: 0 <= i < |files| ==> files[i] != [] && |Render(files[i][..|files[i]| - 1])| != length
  }

  lemma {:induction false} NoEmpties(files: seq<Path>, inv: seq<Record>, p: Params)
    requires |inv| == 1 && NoParentIn(files, |inv[0].path|)
    ensures MissingEmpties(files, inv, p) == []
  {
    hide Render;
    if files != [] {
      NoEmpties(files[1..], inv, p);
    }
  }

  lemma EmptyFilesElsewhere()
    ensures NoParentIn(EMPTY_FILES, 13)
  {
    var etc, lib: Path := [Ascii("etc")], [Ascii("var"), Ascii("lib"), Ascii("dbus")];
    assert |Render(etc)| == 3;
    assert lib[..2] == [Ascii("var"), Ascii("lib")] && lib[..2][..1] == [Ascii("var")];
    RenderShape(lib[..2]);
    RenderShape(lib);
    assert |Render(lib[..2])| == 7 && |Render(lib)| == 12;
    forall i | 0 <= i < |EMPTY_FILES|
      ensures var parent := EMPTY_FILES[i][..|EMPTY_FILES[i]| - 1]; parent == etc || parent == lib
    {
    }
  }

  lemma AdditionsSlight(inv: seq<Record>, p: Params)
    requires p.normalize && EpochAccepted(p) && |inv| == 1 && |inv[0].path| == 13
    ensures |Additions(inv, p)| == 3 && SlightStops(Additions(inv, p), p)
  {
    EmptyFilesElsewhere();
    NoEmpties(EMPTY_FILES, inv, p);
    hide EMPTY_FILES, Ascii;
    assert |Ascii("dev")| == 3 && |Ascii("console")| == 7 && |Ascii("null")| == 4;
    var console, null_ := DEV + [Ascii("console")], DEV + [Ascii("null")];
    assert console[..1] == DEV && null_[..1] == DEV;
    assert |Render(DEV)| == 3 && |Render(console)| == 11 && |Render(null_)| == 8;
  }

  /** A directory of this name with a file in it is exported, and the file's record has no parent's. */
  lemma DockerEnvLeavesOrphan(p: Params)
    requires p.normalize && EpochAccepted(p) && p.maximumEntries >= 4 && p.maximumBytes >= 1000
    ensures var root := [DIRECTORY_ENTRY];
            && ProperTree(root) && Export(root, p).Some?
            && exists i :: 0 <= i < |Export(root, p).value.entries| && !ParentRecorded(Export(root, p).value.entries, i)
  {
    var root := [DIRECTORY_ENTRY];
    hide Walk, Ascii, Additions, EncodeAll, Encode, EmitAll, ProperTree, Slight, ParentRecorded;
    RootIsProper();
    RootWalked(p);
    NoMembers();
    OrphanSlight(p);
    assert Small(INIT, 0) && [ORPHAN_STOP][0] == ORPHAN_STOP;
    SlightRun(INIT, [ORPHAN_STOP], p, 0);
    var walked := EmitAll(INIT, Visits([ORPHAN_STOP]), p).value;
    InventoryNames([ORPHAN_STOP], INIT, p);
    AdditionsSlight(walked.inventory, p);
    SlightRun(walked, Additions(walked.inventory, p), p, 1);
    EncodeLength(TRAILER_MEMBER);
    assert root[0] in root && OrphansDockerEnv(root, p);
    ParentMissing(root, p);
  }

  lemma OrphanSlight(p: Params)
    requires p.normalize && EpochAccepted(p)
    ensures SlightStops([ORPHAN_STOP], p) && Named(ORPHAN_STOP)
  {
    RootIsProper();
  }
}
