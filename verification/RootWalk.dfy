/** The sorted walk of runtime/native/archive-root.py over a root filesystem, the entries that
    normalizing replaces or adds, and the whole archive with its trailer. */
module RootWalk {
  import opened Prelude
  import opened Newc
  import opened Archive

  // ---------------------------------------------------------------- the filesystem

  type Name = Bytes

  type Path = seq<Name>

  datatype Node = Node(info: Stat, body: Body)

  /** A directory holds its entries in the order the system lists them. `toDirectory` says whether
      following the link leads to a directory, which is how the walk sorts links among them. */
  datatype Body =
    | Directory(listing: seq<Entry>)
    | File(disk: DiskFile)
    | Symlink(target: Bytes, toDirectory: bool)
    | Special

  datatype Entry = Entry(name: Name, node: Node)

  const NO_FILE := DiskFile(false, [], false)

  predicate ListedAsDirectory(e: Entry) {
    e.node.body.Directory? || (e.node.body.Symlink? && e.node.body.toDirectory)
  }

  // ---------------------------------------------------------------- sorting

  predicate NameLe(a: Name, b: Name) {
    if a == [] then true
    else if b == [] then false
    else if a[0] != b[0] then a[0] < b[0]
    else NameLe(a[1..], b[1..])
  }

  function Insert(e: Entry, sorted: seq<Entry>): (r: seq<Entry>)
    ensures multiset(r) == multiset([e]) + multiset(sorted)
  {
    if sorted == [] || NameLe(e.name, sorted[0].name) then [e] + sorted
    else
      assert sorted == [sorted[0]] + sorted[1..];
      [sorted[0]] + Insert(e, sorted[1..])
  }

  function Sorted(listing: seq<Entry>): (r: seq<Entry>)
    ensures multiset(r) == multiset(listing)
  {
    if listing == [] then []
    else
      assert listing == [listing[0]] + listing[1..];
      Insert(listing[0], Sorted(listing[1..]))
  }

  function Select(listing: seq<Entry>, directories: bool): (r: seq<Entry>)
    ensures forall e :: e in r <==> e in listing && ListedAsDirectory(e) == directories
  {
    if listing == [] then []
    else (if ListedAsDirectory(listing[0]) == directories then [listing[0]] else []) +
         Select(listing[1..], directories)
  }

  function SortedPart(listing: seq<Entry>, directories: bool): (r: seq<Entry>)
    ensures forall e :: e in r <==> e in listing && ListedAsDirectory(e) == directories
  {
    var r := Sorted(Select(listing, directories));
    assert forall e :: e in r <==> e in multiset(r);
    assert forall e :: e in Select(listing, directories) <==> e in multiset(Select(listing, directories));
    r
  }

  // ---------------------------------------------------------------- paths

  /** The slash. */
  const SEPARATOR: Bytes := [47]

  function Render(path: Path): Bytes {
    if path == [] then []
    else if |path| == 1 then path[0]
    else Render(path[..|path| - 1]) + SEPARATOR + path[|path| - 1]
  }

  const DEV: Path := [Ascii("dev")]
  const DOCKER_ENV: Path := [Ascii(".dockerenv")]
  const BUILD_TOOLS: Path := [Ascii("opt"), Ascii("rat-build-tools")]
  const BUILD_EVIDENCE: Path := [Ascii("opt"), Ascii("rat-build-evidence")]

  /** In the order that sorting their names gives. */
  const EMPTY_FILES: seq<Path> := [
    [Ascii("etc"), Ascii("hostname")],
    [Ascii("etc"), Ascii("hosts")],
    [Ascii("etc"), Ascii("machine-id")],
    [Ascii("etc"), Ascii("resolv.conf")],
    [Ascii("var"), Ascii("lib"), Ascii("dbus"), Ascii("machine-id")]
  ]

  const EXCLUDED_ALWAYS: seq<Path> := [
    DEV, [Ascii("proc")], [Ascii("sys")], [Ascii("run")], [Ascii("tmp")], [Ascii("workspace")]
  ]

  const EXCLUDED_WHEN_NORMALIZED: seq<Path> := [
    [Ascii("root")], [Ascii("var"), Ascii("cache")], [Ascii("var"), Ascii("tmp")], [Ascii("var"), Ascii("log")],
    [Ascii("var"), Ascii("lib"), Ascii("dnf")], BUILD_TOOLS, BUILD_EVIDENCE,
    [Ascii("home"), Ascii("agent"), Ascii(".codex")]
  ]

  predicate Excluded(path: Path, p: Params) {
    path in EXCLUDED_ALWAYS || (p.normalize && path in EXCLUDED_WHEN_NORMALIZED)
  }

  predicate Skipped(path: Path, p: Params) {
    p.normalize && path in [DOCKER_ENV, BUILD_TOOLS, BUILD_EVIDENCE]
  }

  predicate Emptied(path: Path, p: Params) {
    p.normalize && path in EMPTY_FILES
  }

  // ---------------------------------------------------------------- entries

  const REGULAR := 0x8000
  const DIRECTORY := 0x4000
  const CHARACTER := 0x2000

  function GeneratedStat(mode: int, p: Params, major: int, minor: int): Stat {
    Stat(-1, 0, mode, 0, 0, 1, if p.sourceDateEpoch.Some? then p.sourceDateEpoch.value else 0, 0, major, minor)
  }

  function EmptyItem(name: Bytes, p: Params): Item {
    Item(name, GeneratedStat(REGULAR + 0x1A4, p, 0, 0), Some([]), NO_FILE)
  }

  function ItemOf(path: Path, node: Node, p: Params): Item {
    if Emptied(path, p) then EmptyItem(Render(path), p)
    else Item(Render(path), node.info,
              if node.body.Symlink? && IsSymlink(node.info.mode) then Some(node.body.target) else None,
              if node.body.File? then node.body.disk else NO_FILE)
  }

  datatype Stop = Stop(path: Path, visit: Visit)

  /** What the walk does with one name of a directory. */
  function StopsAt(path: Path, node: Node, p: Params): seq<Stop> {
    if Skipped(path, p) then []
    else if IsSocket(node.info.mode) then [Stop(path, LiveSocket)]
    else [Stop(path, Emits(ItemOf(path, node, p)))]
  }

  function ListStops(path: Path, names: seq<Entry>, p: Params): seq<Stop> {
    if names == [] then []
    else StopsAt(path + [names[0].name], names[0].node, p) + ListStops(path, names[1..], p)
  }

  function Height(node: Node): nat {
    if node.body.Directory? then 1 + ListHeight(node.body.listing) else 0
  }

  function ListHeight(listing: seq<Entry>): (h: nat)
    ensures forall e :: e in listing ==> Height(e.node) <= h
  {
    if listing == [] then 0
    else
      var first, rest := Height(listing[0].node), ListHeight(listing[1..]);
      if first < rest then rest else first
  }

  /** A directory: first all its names, directories before files, then each directory not excluded. */
  function Walk(path: Path, listing: seq<Entry>, p: Params): seq<Stop>
    decreases ListHeight(listing), 1, 0
  {
    var directories := SortedPart(listing, true);
    ListStops(path, directories + SortedPart(listing, false), p) +
    Descend(path, directories, p, ListHeight(listing))
  }

  function Descend(path: Path, directories: seq<Entry>, p: Params, height: nat): seq<Stop>
    requires forall e :: e in directories ==> Height(e.node) <= height
    decreases height, 0, |directories|
  {
    if directories == [] then []
    else Below(path, directories[0], p, height) + Descend(path, directories[1..], p, height)
  }

  /** The tree below one directory name; links are listed but not followed. */
  function Below(path: Path, directory: Entry, p: Params, height: nat): seq<Stop>
    requires Height(directory.node) <= height
    decreases height, 0, 0
  {
    var inner := path + [directory.name];
    if directory.node.body.Directory? && !Excluded(inner, p) then Walk(inner, directory.node.body.listing, p) else []
  }

  function Visits(stops: seq<Stop>): (r: seq<Visit>)
    ensures |r| == |stops|
  {
    seq(|stops|, i requires 0 <= i < |stops| => stops[i].visit)
  }

  // ---------------------------------------------------------------- the whole archive

  predicate Present(inventory: seq<Record>, name: Bytes) {
    exists i :: 0 <= i < |inventory| && inventory[i].path == name
  }

  /** Replaced files the root lacked, where their directory exists. */
  function MissingEmpties(files: seq<Path>, inventory: seq<Record>, p: Params): seq<Stop> {
    if files == [] then []
    else
      var file := files[0];
      (if file != [] && !Present(inventory, Render(file)) && Present(inventory, Render(file[..|file| - 1]))
       then [Stop(file, Emits(EmptyItem(Render(file), p)))] else []) +
      MissingEmpties(files[1..], inventory, p)
  }

  function Device(name: string, permissions: int, major: int, minor: int, p: Params): Stop {
    var path := DEV + [Ascii(name)];
    Stop(path, Emits(Item(Render(path), GeneratedStat(CHARACTER + permissions, p, major, minor), None, NO_FILE)))
  }

  /** What normalizing adds after the walk. */
  function Additions(inventory: seq<Record>, p: Params): seq<Stop> {
    MissingEmpties(EMPTY_FILES, inventory, p) +
    (if Present(inventory, Render(DEV)) then []
     else [Stop(DEV, Emits(Item(Render(DEV), GeneratedStat(DIRECTORY + 0x1ED, p, 0, 0), None, NO_FILE)))]) +
    [Device("console", 0x180, 5, 1, p), Device("null", 0x1B6, 1, 3, p)]
  }

  predicate EpochAccepted(p: Params) {
    p.normalize ==> p.sourceDateEpoch.Some? && 0 <= p.sourceDateEpoch.value <= 0xFFFF_FFFF
  }

  /** The state before the trailer, or None when the exporter raises. */
  function Collect(root: seq<Entry>, p: Params): Option<State> {
    if !EpochAccepted(p) then None else
    var walked := EmitAll(INIT, Visits(Walk([], root, p)), p);
    if walked.None? || !p.normalize then walked
    else EmitAll(walked.value, Visits(Additions(walked.value.inventory, p)), p)
  }

  datatype Result = Result(bytes: Bytes, uncompressedBytes: nat, entries: seq<Record>)

  function Export(root: seq<Entry>, p: Params): Option<Result> {
    var st := Collect(root, p);
    if st.None? then None else
    var bytes := EncodeAll(st.value.members) + Encode(TRAILER_MEMBER);
    if |bytes| > p.maximumBytes then None
    else Some(Result(bytes, |bytes|, st.value.inventory))
  }

  // ---------------------------------------------------------------- the exporter's loops

  /** The exporter took the stops, or the specification says it must raise. */
  ghost predicate Follows(ok: bool, before: State, stops: seq<Stop>, x: Exporter)
    reads x
  {
    var after := EmitAll(before, Visits(stops), x.p);
    && x.Bounded()
    && ok == after.Some?
    && (ok ==> x.Valid() && x.View() == after.value)
  }

  lemma FollowsConcat(before: State, a: seq<Stop>, b: seq<Stop>, p: Params)
    ensures EmitAll(before, Visits(a + b), p) ==
            var middle := EmitAll(before, Visits(a), p);
            if middle.None? then None else EmitAll(middle.value, Visits(b), p)
  {
    hide EmitAll;
    assert Visits(a + b) == Visits(a) + Visits(b);
    EmitAllConcat(before, Visits(a), Visits(b), p);
  }

  lemma OneVisit(before: State, stop: Stop, p: Params)
    ensures EmitAll(before, Visits([stop]), p) == Step(before, stop.visit, p)
  {
    hide Step;
    assert Visits([stop])[..0] == [];
    assert EmitAll(before, Visits([stop])[..0], p) == Some(before);
  }

  lemma NoVisits(before: State, p: Params)
    ensures EmitAll(before, Visits([]), p) == Some(before)
  {
  }

  method TakeStops(x: Exporter, stops: seq<Stop>) returns (ok: bool)
    requires x.Valid()
    modifies x
    ensures old(x.output) <= x.output && Follows(ok, old(x.View()), stops, x)
  {
    hide EmitAll, Emit, EncodeAll;
    var i := 0;
    assert stops[0..] == stops;
    while i < |stops|
      invariant 0 <= i <= |stops| && x.Valid() && old(x.output) <= x.output
      invariant EmitAll(old(x.View()), Visits(stops), x.p) == EmitAll(x.View(), Visits(stops[i..]), x.p)
    {
      assert stops[i..] == [stops[i]] + stops[i + 1..];
      FollowsConcat(x.View(), [stops[i]], stops[i + 1..], x.p);
      OneVisit(x.View(), stops[i], x.p);
      if stops[i].visit.LiveSocket? {
        return false;
      }
      ok := x.Entry(stops[i].visit.item);
      if !ok {
        return;
      }
      i := i + 1;
    }
    NoVisits(x.View(), x.p);
    ok := true;
  }

  method TakeNames(x: Exporter, path: Path, names: seq<Entry>) returns (ok: bool)
    requires x.Valid()
    modifies x
    ensures old(x.output) <= x.output && Follows(ok, old(x.View()), ListStops(path, names, x.p), x)
  {
    hide EmitAll, StopsAt, EncodeAll;
    var i := 0;
    assert names[0..] == names;
    while i < |names|
      invariant 0 <= i <= |names| && x.Valid() && old(x.output) <= x.output
      invariant EmitAll(old(x.View()), Visits(ListStops(path, names, x.p)), x.p) ==
                EmitAll(x.View(), Visits(ListStops(path, names[i..], x.p)), x.p)
    {
      var stops := StopsAt(path + [names[i].name], names[i].node, x.p);
      FollowsConcat(x.View(), stops, ListStops(path, names[i + 1..], x.p), x.p);
      ok := TakeStops(x, stops);
      if !ok {
        return;
      }
      i := i + 1;
    }
    NoVisits(x.View(), x.p);
    ok := true;
  }

  /** `os.walk` from one directory: its names in sorted order, then the directories not excluded. */
  method TakeTree(x: Exporter, path: Path, listing: seq<Entry>) returns (ok: bool)
    requires x.Valid()
    modifies x
    ensures old(x.output) <= x.output && Follows(ok, old(x.View()), Walk(path, listing, x.p), x)
    decreases ListHeight(listing)
  {
    hide EmitAll, ListStops, EncodeAll, Sorted;
    var directories := SortedPart(listing, true);
    ghost var h := ListHeight(listing);
    var names := directories + SortedPart(listing, false);
    FollowsConcat(x.View(), ListStops(path, names, x.p), Descend(path, directories, x.p, h), x.p);
    ok := TakeNames(x, path, names);
    if !ok {
      return;
    }
    var i := 0;
    assert directories[0..] == directories;
    while i < |directories|
      invariant 0 <= i <= |directories| && x.Valid() && old(x.output) <= x.output
      invariant EmitAll(old(x.View()), Visits(Walk(path, listing, x.p)), x.p) ==
                EmitAll(x.View(), Visits(Descend(path, directories[i..], x.p, h)), x.p)
    {
      var directory := directories[i];
      var inner := path + [directory.name];
      assert directory in directories;
      FollowsConcat(x.View(), Below(path, directory, x.p, h), Descend(path, directories[i + 1..], x.p, h), x.p);
      if directory.node.body.Directory? && !Excluded(inner, x.p) {
        ok := TakeTree(x, inner, directory.node.body.listing);
        if !ok {
          return;
        }
      } else {
        NoVisits(x.View(), x.p);
      }
      i := i + 1;
    }
    NoVisits(x.View(), x.p);
    ok := true;
  }

  method WriteTrailer(x: Exporter) returns (ok: bool)
    requires x.Valid()
    modifies x`output, x`byteCount
    ensures x.Bounded() && ok == (|old(x.output) + Encode(TRAILER_MEMBER)| <= x.p.maximumBytes)
    ensures ok ==> x.output == old(x.output) + Encode(TRAILER_MEMBER) && x.byteCount == |x.output|
  {
    hide EncodeAll, Encode, Fields, Words;
    TrailerShape(x.output);
    ok := x.Write(MAGIC + Fields(Words(TRAILER_HEADER)) + (TRAILER + [0]));
    if ok {
      ok := x.Write(Zeros(Pad(110 + |TRAILER| + 1)));
    }
  }

  /** `archive`: the bytes that reached the output, and the result unless it raises. */
  method ExportRoot(root: seq<Entry>, p: Params) returns (output: Bytes, result: Option<Result>)
    ensures result == Export(root, p)
    ensures result.Some? ==> output == result.value.bytes
    ensures output == [] || |output| <= p.maximumBytes
  {
    hide EmitAll, EncodeAll, Encode, Walk, Additions, Visits;
    output := [];
    if p.normalize && (p.sourceDateEpoch.None? || !(0 <= p.sourceDateEpoch.value <= 0xFFFF_FFFF)) {
      return output, None;
    }
    var x := new Exporter(p);
    var ok := TakeTree(x, [], root);
    if ok && p.normalize {
      ok := TakeStops(x, Additions(x.inventory, p));
    }
    output := x.output;
    if !ok {
      return output, None;
    }
    assert Collect(root, p) == Some(x.View());
    ok := WriteTrailer(x);
    output := x.output;
    result := if ok then Some(Result(output, x.byteCount, x.inventory)) else None;
  }

  lemma TrailerShape(before: Bytes)
    ensures before + Encode(TRAILER_MEMBER) ==
            before + (MAGIC + Fields(Words(TRAILER_HEADER)) + (TRAILER + [0])) + Zeros(Pad(110 + |TRAILER| + 1))
  {
    hide Fields, Words;
    HeadShape(TRAILER_HEADER, TRAILER, []);
    MemberShape(TRAILER_MEMBER, before);
  }
}
