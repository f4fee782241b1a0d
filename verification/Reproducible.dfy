/** Main results about the whole export: it reads back, and normalizing makes it independent of listing
    order, times and inode numbers. */
module Reproducible {
  import opened Prelude
  import opened Newc
  import opened NewcReader
  import opened Archive
  import opened RootWalk

  // ---------------------------------------------------------------- reading back

  lemma {:induction false} MembersConsistent(visits: seq<Visit>, st: State, p: Params)
    requires AllConsistent(st.members) && EmitAll(st, visits, p).Some?
    ensures AllConsistent(EmitAll(st, visits, p).value.members)
  {
    hide EncodeAll, Encode, MemberOf, RecordOf;
    if visits != [] {
      MembersConsistent(visits[..|visits| - 1], st, p);
    }
  }

  /** A reader of the exported bytes gets back every header, name and content in order and stops
      behind the trailer, exactly when no exported path is the trailer's name. */
  lemma ExportReadsBack(root: seq<Entry>, p: Params)
    ensures Export(root, p).Some? ==>
            var r, members := Export(root, p).value, Collect(root, p).value.members;
            && r.uncompressedBytes == |r.bytes| <= p.maximumBytes
            && (ReadArchive(r.bytes, 0) == Some((members, [])) <==> Unmistakable(members))
  {
    hide EmitAll, EncodeAll, Encode, Walk, Additions, Visits, ReadArchive;
    if Export(root, p).Some? {
      var walked := EmitAll(INIT, Visits(Walk([], root, p)), p).value;
      MembersConsistent(Visits(Walk([], root, p)), INIT, p);
      if p.normalize {
        MembersConsistent(Visits(Additions(walked.inventory, p)), walked, p);
      }
      RoundTrip(Collect(root, p).value.members, TRAILER_MEMBER, 0);
    }
  }

  // ---------------------------------------------------------------- trees that agree

  ghost predicate Renames(rho: Key -> Key) {
    && (forall k, l :: rho(k) == rho(l) ==> k == l)
    && (forall name :: rho(Generated(name)) == Generated(name))
  }

  ghost predicate SameStat(a: Stat, b: Stat, rho: Key -> Key) {
    && a.dev != -1 && b.dev != -1 && Real(b.dev, b.ino) == rho(Real(a.dev, a.ino))
    && a.mode == b.mode && a.uid == b.uid && a.gid == b.gid && a.links == b.links
    && a.rdevMajor == b.rdevMajor && a.rdevMinor == b.rdevMinor
  }

  predicate DistinctNames(listing: seq<Entry>) {
    forall i, j :: 0 <= i < j < |listing| ==> listing[i].name != listing[j].name
  }

  function FileOf(node: Node): DiskFile {
    if node.body.File? then node.body.disk else NO_FILE
  }

  function TargetOf(node: Node): Option<Bytes> {
    if node.body.Symlink? then Some(node.body.target) else None
  }

  predicate SameKind(a: Body, b: Body) {
    (a.Directory? <==> b.Directory?) && (a.Symlink? && a.toDirectory <==> b.Symlink? && b.toDirectory)
  }

  /** A size matters of regular files alone. */
  predicate SameContent(a: Node, b: Node) {
    && (IsRegular(a.info.mode) ==> a.info.size == b.info.size && FileOf(a) == FileOf(b))
    && (IsSymlink(a.info.mode) ==> TargetOf(a) == TargetOf(b))
  }

  /** The same entry up to its time and a renaming of inode keys; nothing of an emptied file matters but
      that it is no socket. */
  ghost predicate SameEntry(path: Path, a: Node, b: Node, p: Params, rho: Key -> Key) {
    && (IsSocket(a.info.mode) <==> IsSocket(b.info.mode))
    && (IsSocket(a.info.mode) || Emptied(path, p) || (SameStat(a.info, b.info, rho) && SameContent(a, b)))
  }

  /** Same tree up to listing order, times, a renaming of inode keys, skipped entries, and whatever is below
      an excluded directory. */
  ghost predicate SameNode(path: Path, a: Node, b: Node, p: Params, rho: Key -> Key)
    decreases a
  {
    && SameKind(a.body, b.body)
    && (Skipped(path, p) || SameEntry(path, a, b, p, rho))
    && (a.body.Directory? && !Excluded(path, p) ==> SameListing(path, a.body.listing, b.body.listing, p, rho))
  }

  ghost predicate SameListing(path: Path, a: seq<Entry>, b: seq<Entry>, p: Params, rho: Key -> Key)
    decreases a
  {
    && DistinctNames(a) && DistinctNames(b) && NamesOf(a) == NamesOf(b)
    && forall i, j :: 0 <= i < |a| && 0 <= j < |b| && a[i].name == b[j].name ==>
         SameNode(path + [a[i].name], a[i].node, b[j].node, p, rho)
  }

  function NamesOf(s: seq<Entry>): set<Name> {
    set i | 0 <= i < |s| :: s[i].name
  }

  /** Name by name the same nodes. */
  ghost predicate SamePairs(path: Path, a: seq<Entry>, b: seq<Entry>, p: Params, rho: Key -> Key) {
    |a| == |b| && forall i :: 0 <= i < |a| ==>
      a[i].name == b[i].name && SameNode(path + [a[i].name], a[i].node, b[i].node, p, rho)
  }

  // ---------------------------------------------------------------- sorting forgets listing order

  predicate Ordered(s: seq<Entry>) {
    forall i, j :: 0 <= i < j < |s| ==> NameLe(s[i].name, s[j].name)
  }

  lemma {:induction false} NameLeTotal(a: Name, b: Name)
    ensures NameLe(a, b) || NameLe(b, a)
    ensures NameLe(a, b) && NameLe(b, a) ==> a == b
  {
    if a != [] && b != [] && a[0] == b[0] {
      NameLeTotal(a[1..], b[1..]);
      assert a == [a[0]] + a[1..] && b == [b[0]] + b[1..];
    }
  }

  lemma {:induction false} NameLeTransitive(a: Name, b: Name, c: Name)
    requires NameLe(a, b) && NameLe(b, c)
    ensures NameLe(a, c)
  {
    if a != [] && a[0] == b[0] == c[0] {
      NameLeTransitive(a[1..], b[1..], c[1..]);
    }
  }

  lemma {:induction false} InsertKeeps(e: Entry, s: seq<Entry>)
    requires Ordered(s) && DistinctNames(s) && forall i :: 0 <= i < |s| ==> s[i].name != e.name
    ensures Ordered(Insert(e, s)) && DistinctNames(Insert(e, s))
    ensures forall x :: x in Insert(e, s) <==> x == e || x in s
  {
    hide NameLe;
    if s != [] {
      NameLeTotal(e.name, s[0].name);
      if NameLe(e.name, s[0].name) {
        NameLeTotal(s[0].name, s[0].name);
        forall i | 0 <= i < |s| ensures NameLe(e.name, s[i].name) {
          NameLeTransitive(e.name, s[0].name, s[i].name);
        }
      } else {
        InsertKeeps(e, s[1..]);
        var rest := Insert(e, s[1..]);
        forall i | 0 <= i < |rest| ensures NameLe(s[0].name, rest[i].name) && rest[i].name != s[0].name {
          assert rest[i] in rest;
        }
      }
    }
  }

  lemma {:induction false} SortedIsOrdered(s: seq<Entry>)
    requires DistinctNames(s)
    ensures Ordered(Sorted(s)) && DistinctNames(Sorted(s))
    ensures forall x :: x in Sorted(s) <==> x in s
  {
    if s != [] {
      SortedIsOrdered(s[1..]);
      forall i | 0 <= i < |Sorted(s[1..])| ensures Sorted(s[1..])[i].name != s[0].name {
        assert Sorted(s[1..])[i] in s[1..];
      }
      InsertKeeps(s[0], Sorted(s[1..]));
    }
  }

  lemma {:induction false} SelectKeeps(s: seq<Entry>, directories: bool)
    requires DistinctNames(s)
    ensures DistinctNames(Select(s, directories))
  {
    if s != [] {
      SelectKeeps(s[1..], directories);
      var rest := Select(s[1..], directories);
      forall i | 0 <= i < |rest| ensures rest[i].name != s[0].name {
        assert rest[i] in rest;
      }
    }
  }

  lemma PartIsOrdered(s: seq<Entry>, directories: bool)
    requires DistinctNames(s)
    ensures Ordered(SortedPart(s, directories)) && DistinctNames(SortedPart(s, directories))
  {
    SelectKeeps(s, directories);
    SortedIsOrdered(Select(s, directories));
  }

  /** The first name of an ordered list is its least. */
  lemma FirstIsLeast(s: seq<Entry>, name: Name)
    requires Ordered(s) && name in NamesOf(s)
    ensures s != [] && NameLe(s[0].name, name)
  {
    NameLeTotal(s[0].name, s[0].name);
  }

  lemma TailNames(s: seq<Entry>)
    requires s != [] && DistinctNames(s)
    ensures NamesOf(s[1..]) == NamesOf(s) - {s[0].name}
  {
    forall name | name in NamesOf(s) - {s[0].name} ensures name in NamesOf(s[1..]) {
      var i :| 0 <= i < |s| && s[i].name == name;
      assert s[1..][i - 1].name == name;
    }
  }

  /** Ordered lists over the same distinct names agree position by position. */
  lemma {:induction false} OrderedNamesAgree(a: seq<Entry>, b: seq<Entry>)
    requires Ordered(a) && Ordered(b) && DistinctNames(a) && DistinctNames(b) && NamesOf(a) == NamesOf(b)
    ensures |a| == |b| && forall i :: 0 <= i < |a| ==> a[i].name == b[i].name
  {
    hide NameLe, NamesOf;
    NamesEmpty(a);
    NamesEmpty(b);
    if a != [] {
      FirstNamed(a);
      FirstNamed(b);
      FirstIsLeast(b, a[0].name);
      FirstIsLeast(a, b[0].name);
      NameLeTotal(a[0].name, b[0].name);
      TailNames(a);
      TailNames(b);
      OrderedNamesAgree(a[1..], b[1..]);
      assert forall i :: 1 <= i < |a| ==> a[i] == a[1..][i - 1] && b[i] == b[1..][i - 1];
    }
  }

  lemma FirstNamed(s: seq<Entry>)
    requires s != []
    ensures s[0].name in NamesOf(s)
  {
  }

  lemma NamesEmpty(s: seq<Entry>)
    ensures NamesOf(s) == {} <==> s == []
  {
    if s != [] {
      FirstNamed(s);
    }
  }

  lemma NameAt(s: seq<Entry>, e: Entry)
    requires e in s
    ensures e.name in NamesOf(s)
  {
  }

  lemma PartNames(path: Path, a: seq<Entry>, b: seq<Entry>, directories: bool, p: Params, rho: Key -> Key)
    requires SameListing(path, a, b, p, rho)
    ensures NamesOf(SortedPart(a, directories)) <= NamesOf(SortedPart(b, directories))
  {
    hide NameLe, SameEntry, SortedPart, Skipped, Excluded;
    var s, t := SortedPart(a, directories), SortedPart(b, directories);
    forall name | name in NamesOf(s) ensures name in NamesOf(t) {
      var i :| 0 <= i < |s| && s[i].name == name;
      assert s[i] in s;
      NameAt(a, s[i]);
      var k :| 0 <= k < |a| && a[k] == s[i];
      var j :| 0 <= j < |b| && b[j].name == name;
      assert SameNode(path + [name], a[k].node, b[j].node, p, rho);
      assert b[j] in t;
    }
  }

  lemma PartNamesBack(path: Path, a: seq<Entry>, b: seq<Entry>, directories: bool, p: Params, rho: Key -> Key)
    requires SameListing(path, a, b, p, rho)
    ensures NamesOf(SortedPart(b, directories)) <= NamesOf(SortedPart(a, directories))
  {
    hide NameLe, SameEntry, SortedPart, Skipped, Excluded;
    var s, t := SortedPart(b, directories), SortedPart(a, directories);
    forall name | name in NamesOf(s) ensures name in NamesOf(t) {
      var i :| 0 <= i < |s| && s[i].name == name;
      assert s[i] in s;
      NameAt(b, s[i]);
      var k :| 0 <= k < |b| && b[k] == s[i];
      var j :| 0 <= j < |a| && a[j].name == name;
      assert SameNode(path + [name], a[j].node, b[k].node, p, rho);
      assert a[j] in t;
    }
  }

  lemma PartsAgree(path: Path, a: seq<Entry>, b: seq<Entry>, directories: bool, p: Params, rho: Key -> Key)
    requires SameListing(path, a, b, p, rho)
    ensures SamePairs(path, SortedPart(a, directories), SortedPart(b, directories), p, rho)
  {
    hide NameLe, SortedPart, SameNode, NamesOf;
    PartIsOrdered(a, directories);
    PartIsOrdered(b, directories);
    PartNames(path, a, b, directories, p, rho);
    PartNamesBack(path, a, b, directories, p, rho);
    var s, t := SortedPart(a, directories), SortedPart(b, directories);
    OrderedNamesAgree(s, t);
    forall i | 0 <= i < |s| ensures SameNode(path + [s[i].name], s[i].node, t[i].node, p, rho) {
      assert s[i] in a && t[i] in b;
      var k :| 0 <= k < |a| && a[k] == s[i];
      var j :| 0 <= j < |b| && b[j] == t[i];
    }
  }

  // ---------------------------------------------------------------- walks that agree

  /** Entries that differ at most in their times and, through the renaming, in their inode keys. */
  ghost predicate SameItem(a: Item, b: Item, rho: Key -> Key) {
    && a.name == b.name && a.data == b.data
    && (IsRegular(a.info.mode) ==> a.disk == b.disk && a.info.size == b.info.size)
    && a.info.mode == b.info.mode && a.info.uid == b.info.uid && a.info.gid == b.info.gid
    && a.info.links == b.info.links
    && a.info.rdevMajor == b.info.rdevMajor && a.info.rdevMinor == b.info.rdevMinor
    && KeyOf(b) == rho(KeyOf(a))
  }

  ghost predicate SameVisit(a: Visit, b: Visit, rho: Key -> Key) {
    match a
    case Emits(item) => b.Emits? && SameItem(item, b.item, rho)
    case LiveSocket => b.LiveSocket?
  }

  ghost predicate SameStops(a: seq<Stop>, b: seq<Stop>, rho: Key -> Key) {
    |a| == |b| && forall i :: 0 <= i < |a| ==> a[i].path == b[i].path && SameVisit(a[i].visit, b[i].visit, rho)
  }

  lemma SameStopsConcat(a: seq<Stop>, b: seq<Stop>, c: seq<Stop>, d: seq<Stop>, rho: Key -> Key)
    requires SameStops(a, b, rho) && SameStops(c, d, rho)
    ensures SameStops(a + c, b + d, rho)
  {
    hide SameVisit;
  }

  lemma {:induction false} NamesStopAlike(path: Path, a: seq<Entry>, b: seq<Entry>, p: Params, rho: Key -> Key)
    requires SamePairs(path, a, b, p, rho) && Renames(rho)
    ensures SameStops(ListStops(path, a, p), ListStops(path, b, p), rho)
  {
    if a != [] {
      assert SameNode(path + [a[0].name], a[0].node, b[0].node, p, rho);
      NamesStopAlike(path, a[1..], b[1..], p, rho);
      StopAlike(path + [a[0].name], a[0].node, b[0].node, p, rho);
      SameStopsConcat(StopsAt(path + [a[0].name], a[0].node, p), StopsAt(path + [b[0].name], b[0].node, p),
                      ListStops(path, a[1..], p), ListStops(path, b[1..], p), rho);
    }
  }

  lemma StopAlike(path: Path, a: Node, b: Node, p: Params, rho: Key -> Key)
    requires SameNode(path, a, b, p, rho) && Renames(rho)
    ensures SameStops(StopsAt(path, a, p), StopsAt(path, b, p), rho)
  {
    hide Skipped, Emptied, Render, SameListing;
  }

  lemma {:induction false} WalksAgree(path: Path, a: seq<Entry>, b: seq<Entry>, p: Params, rho: Key -> Key)
    requires SameListing(path, a, b, p, rho) && Renames(rho)
    ensures SameStops(Walk(path, a, p), Walk(path, b, p), rho)
    decreases ListHeight(a), 1, 0
  {
    hide SortedPart, ListStops, Descend, SameNode, SameStops, SameListing, DistinctNames, NamesOf;
    PartsAgree(path, a, b, true, p, rho);
    PartsAgree(path, a, b, false, p, rho);
    var s, t := SortedPart(a, true), SortedPart(b, true);
    NamesStopAlike(path, s + SortedPart(a, false), t + SortedPart(b, false), p, rho);
    DescentsAgree(path, s, t, p, ListHeight(a), ListHeight(b), rho);
    SameStopsConcat(ListStops(path, s + SortedPart(a, false), p), ListStops(path, t + SortedPart(b, false), p),
                    Descend(path, s, p, ListHeight(a)), Descend(path, t, p, ListHeight(b)), rho);
  }

  lemma SameNothing(rho: Key -> Key)
    ensures SameStops([], [], rho)
  {
  }

  lemma {:induction false} DescentsAgree(
    path: Path, a: seq<Entry>, b: seq<Entry>, p: Params, ha: nat, hb: nat, rho: Key -> Key)
    requires SamePairs(path, a, b, p, rho) && Renames(rho)
    requires forall e :: e in a ==> Height(e.node) <= ha
    requires forall e :: e in b ==> Height(e.node) <= hb
    ensures SameStops(Descend(path, a, p, ha), Descend(path, b, p, hb), rho)
    decreases ha, 0, |a|
  {
    hide Walk, Excluded, Skipped, SameListing, SameStops, Renames, SameEntry;
    SameNothing(rho);
    if a != [] {
      assert a[0] in a && b[0] in b && SameNode(path + [a[0].name], a[0].node, b[0].node, p, rho);
      var inner := path + [a[0].name];
      if a[0].node.body.Directory? && !Excluded(inner, p) {
        WalksAgree(inner, a[0].node.body.listing, b[0].node.body.listing, p, rho);
      }
      DescentsAgree(path, a[1..], b[1..], p, ha, hb, rho);
      SameStopsConcat(Below(path, a[0], p, ha), Below(path, b[0], p, hb),
                      Descend(path, a[1..], p, ha), Descend(path, b[1..], p, hb), rho);
    }
  }

  // ---------------------------------------------------------------- exports that agree

  ghost predicate SameTable<T>(a: map<Key, T>, b: map<Key, T>, rho: Key -> Key) {
    forall k {:trigger rho(k)} :: (k in a <==> rho(k) in b) && (k in a ==> a[k] == b[rho(k)])
  }

  /** What the exporter has written is the same; its tables are the same up to the renaming. */
  ghost predicate SameState(a: State, b: State, rho: Key -> Key) {
    && a.members == b.members && a.inventory == b.inventory && |a.inodes| == |b.inodes|
    && SameTable(a.inodes, b.inodes, rho) && SameTable(a.hashes, b.hashes, rho)
    && forall k {:trigger rho(k)} :: k in a.written <==> rho(k) in b.written
  }

  ghost predicate SameOutcome(a: Option<State>, b: Option<State>, rho: Key -> Key) {
    (a.Some? <==> b.Some?) && (a.Some? ==> SameState(a.value, b.value, rho))
  }

  lemma MembersAgree(x: Item, y: Item, inode: int, duplicate: bool, p: Params, rho: Key -> Key)
    requires SameItem(x, y, rho) && p.normalize && EpochAccepted(p)
    ensures MemberOf(x, inode, duplicate, p) == MemberOf(y, inode, duplicate, p)
  {
    assert RawFields(x, inode, duplicate, p) == RawFields(y, inode, duplicate, p);
  }

  lemma UpdatesAgree<T>(a: map<Key, T>, b: map<Key, T>, key: Key, value: T, rho: Key -> Key)
    requires SameTable(a, b, rho) && Renames(rho)
    ensures SameTable(a[key := value], b[rho(key) := value], rho)
  {
    forall k ensures rho(k) == rho(key) ==> k == key {
    }
    hide Renames;
  }

  lemma TablesAgree(a: State, b: State, x: Item, y: Item, rho: Key -> Key)
    requires SameState(a, b, rho) && SameItem(x, y, rho) && Renames(rho)
    ensures Duplicate(a.written, x) == Duplicate(b.written, y)
    ensures var i, j := Numbered(a.inodes, KeyOf(x)), Numbered(b.inodes, KeyOf(y));
            i[KeyOf(x)] == j[KeyOf(y)] && |i| == |j| && SameTable(i, j, rho)
  {
    hide KeyOf, Renames;
    UpdatesAgree(a.inodes, b.inodes, KeyOf(x), |a.inodes| + 1, rho);
  }

  lemma WrittenAgree(a: set<Key>, b: set<Key>, key: Key, rho: Key -> Key)
    requires Renames(rho) && forall k {:trigger rho(k)} :: k in a <==> rho(k) in b
    ensures forall k {:trigger rho(k)} :: k in a + {key} <==> rho(k) in b + {rho(key)}
  {
    forall k ensures rho(k) == rho(key) ==> k == key {
    }
    hide Renames;
  }

  lemma EmitsAgree(a: State, b: State, x: Item, y: Item, p: Params, rho: Key -> Key)
    requires SameState(a, b, rho) && SameItem(x, y, rho) && Renames(rho) && p.normalize && EpochAccepted(p)
    ensures SameOutcome(Emit(a, x, p), Emit(b, y, p), rho)
  {
    hide EncodeAll, Encode, MemberOf, RecordOf, Numbered, Duplicate, KeyOf, Renames;
    TablesAgree(a, b, x, y, rho);
    var duplicate, inode := Duplicate(a.written, x), Numbered(a.inodes, KeyOf(x))[KeyOf(x)];
    MembersAgree(x, y, inode, duplicate, p, rho);
    var m := MemberOf(x, inode, duplicate, p);
    if m.Some? {
      var digest := p.sha256(m.value.content);
      UpdatesAgree(a.hashes, b.hashes, KeyOf(x), digest, rho);
      WrittenAgree(a.written, b.written, KeyOf(x), rho);
      RecordsAgree(x, y, inode, duplicate, if duplicate then a.hashes else a.hashes[KeyOf(x) := digest],
                   if duplicate then b.hashes else b.hashes[KeyOf(y) := digest], p, rho);
    }
  }

  lemma RecordsAgree(
    x: Item, y: Item, inode: int, duplicate: bool, g: map<Key, Bytes>, h: map<Key, Bytes>, p: Params, rho: Key -> Key)
    requires SameItem(x, y, rho) && SameTable(g, h, rho) && p.normalize && EpochAccepted(p)
    ensures RecordOf(x, inode, duplicate, g, p) == RecordOf(y, inode, duplicate, h, p)
  {
    hide KeyOf;
  }

  lemma {:induction false} RunsAgree(a: State, b: State, s: seq<Stop>, t: seq<Stop>, p: Params, rho: Key -> Key)
    requires SameState(a, b, rho) && SameStops(s, t, rho) && Renames(rho) && p.normalize && EpochAccepted(p)
    ensures SameOutcome(EmitAll(a, Visits(s), p), EmitAll(b, Visits(t), p), rho)
  {
    hide Emit, SameState, SameItem;
    if s != [] {
      var last := |s| - 1;
      assert Visits(s)[..last] == Visits(s[..last]) && Visits(t)[..last] == Visits(t[..last]);
      RunsAgree(a, b, s[..last], t[..last], p, rho);
      var m, n := EmitAll(a, Visits(s[..last]), p), EmitAll(b, Visits(t[..last]), p);
      if m.Some? && s[last].visit.Emits? {
        EmitsAgree(m.value, n.value, s[last].visit.item, t[last].visit.item, p, rho);
      }
    }
  }

  lemma AdditionsAgree(inventory: seq<Record>, p: Params, rho: Key -> Key)
    requires Renames(rho)
    ensures SameStops(Additions(inventory, p), Additions(inventory, p), rho)
  {
    hide Render, Present;
    EmptiesAgree(EMPTY_FILES, inventory, p, rho);
  }

  lemma {:induction false} EmptiesAgree(files: seq<Path>, inventory: seq<Record>, p: Params, rho: Key -> Key)
    requires Renames(rho)
    ensures SameStops(MissingEmpties(files, inventory, p), MissingEmpties(files, inventory, p), rho)
  {
    hide Render, Present;
    if files != [] {
      EmptiesAgree(files[1..], inventory, p, rho);
    }
  }

  lemma CollectsAgree(a: seq<Entry>, b: seq<Entry>, p: Params, rho: Key -> Key)
    requires SameListing([], a, b, p, rho) && Renames(rho) && p.normalize
    ensures SameOutcome(Collect(a, p), Collect(b, p), rho)
  {
    hide EmitAll, Walk, Additions, Visits, SameStops, SameListing, Renames;
    if EpochAccepted(p) {
      var s, t := Walk([], a, p), Walk([], b, p);
      WalksAgree([], a, b, p, rho);
      assert SameState(INIT, INIT, rho);
      RunsAgree(INIT, INIT, s, t, p, rho);
      var walked, other := EmitAll(INIT, Visits(s), p), EmitAll(INIT, Visits(t), p);
      if walked.Some? {
        var added := Additions(walked.value.inventory, p);
        AdditionsAgree(walked.value.inventory, p, rho);
        RunsAgree(walked.value, other.value, added, added, p, rho);
      }
    }
  }

  /** Normalized exports of agreeing trees are byte-identical with equal inventories, or both raise. */
  lemma NormalizedExportsAgree(a: seq<Entry>, b: seq<Entry>, p: Params, rho: Key -> Key)
    requires SameListing([], a, b, p, rho) && Renames(rho) && p.normalize
    ensures Export(a, p) == Export(b, p)
  {
    hide Collect, EncodeAll, Encode, SameListing, Renames;
    CollectsAgree(a, b, p, rho);
  }
}
