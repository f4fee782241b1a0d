/** What an export holds of a root, said of the tree and of the inventory: a record for every node that is
    met, what normalizing adds, and when there is an export at all. */
module RootExports {
  import opened Prelude
  import opened Newc
  import opened Archive
  import opened HardLinks
  import opened RootWalk
  import opened Reproducible
  import opened RootPaths
  import opened RootMembers

  // ---------------------------------------------------------------- one record

  /** The time that is recorded: the source's date when normalizing. */
  predicate TimeIs(time: int, own: int, p: Params) {
    if p.normalize then p.sourceDateEpoch == Some(time) else time == own
  }

  /** What the record says of an entry: everything but its inode and its digest. The size of a further name
      of a file is zero. */
  predicate RecordShows(r: Record, it: Item, p: Params) {
    var kind := (it.info.mode / 0x1000) % 16;
    && r.path == it.name && r.mode == it.info.mode && r.uid == it.info.uid && r.gid == it.info.gid
    && r.links == it.info.links && TimeIs(r.mtime, it.info.mtime, p)
    && r.target == (if kind == 10 then it.data else None)
    && r.device == (if kind == 2 || kind == 6 then Some((it.info.rdevMajor, it.info.rdevMinor)) else None)
    && match it.data
       case Some(data) => r.bytes == |data|
       case None => if kind == 8 then r.bytes == it.info.size || r.bytes == 0 else r.bytes == 0
  }

  lemma EmitShows(st: State, it: Item, p: Params)
    requires Emit(st, it, p).Some? && EpochAccepted(p)
    ensures var inv := Emit(st, it, p).value.inventory;
            && |inv| == |st.inventory| + 1 && inv[..|st.inventory|] == st.inventory
            && RecordShows(inv[|st.inventory|], it, p)
  {
    hide EncodeAll, Encode, MemberOf, Numbered, Duplicate, Hashed;
  }

  lemma {:induction false} RunShows(visits: seq<Visit>, st: State, p: Params)
    requires EmitAll(st, visits, p).Some? && EpochAccepted(p)
    ensures var inv, n := EmitAll(st, visits, p).value.inventory, |st.inventory|;
            && |inv| == n + |visits| && inv[..n] == st.inventory
            && forall i :: 0 <= i < |visits| ==> visits[i].Emits? && RecordShows(inv[n + i], visits[i].item, p)
  {
    hide Emit, RecordShows;
    if visits != [] {
      var last := |visits| - 1;
      RunShows(visits[..last], st, p);
      EmitShows(EmitAll(st, visits[..last], p).value, visits[last].item, p);
    }
  }

  // ---------------------------------------------------------------- the nodes of the tree

  /** An empty file of the system's, as normalizing writes it. */
  predicate EmptyFile(r: Record, p: Params) {
    && r.mode == 0x81A4 && r.uid == 0 && r.gid == 0 && r.links == 1 && r.bytes == 0
    && TimeIs(r.mtime, 0, p) && r.target == None && r.device == None
  }

  /** What is recorded of a node at this path. */
  predicate Recorded(r: Record, q: Path, node: Node, p: Params) {
    var kind := (node.info.mode / 0x1000) % 16;
    && r.path == Render(q)
    && if p.normalize && q in EMPTY_FILES then EmptyFile(r, p)
       else
         && r.mode == node.info.mode && r.uid == node.info.uid && r.gid == node.info.gid
         && r.links == node.info.links && TimeIs(r.mtime, node.info.mtime, p)
         && r.target == (if kind == 10 && node.body.Symlink? then Some(node.body.target) else None)
         && r.device == (if kind == 2 || kind == 6 then Some((node.info.rdevMajor, node.info.rdevMinor)) else None)
         && (kind == 8 ==> r.bytes == node.info.size || r.bytes == 0)
         && (kind != 8 && kind != 10 ==> r.bytes == 0)
         && (kind == 10 && node.body.Symlink? ==> r.bytes == |node.body.target|)
  }

  /** The node stands in no excluded directory and is not skipped. */
  ghost predicate Met(root: seq<Entry>, q: Path, node: Node, p: Params) {
    Stands(root, q, node) && Entered([], q, p) && !Skipped(q, p)
  }

  lemma ItemRecorded(r: Record, q: Path, node: Node, p: Params)
    requires RecordShows(r, ItemOf(q, node, p), p)
    ensures Recorded(r, q, node, p)
  {
    hide Render;
  }

  lemma StopRecorded(s: Stop, node: Node, r: Record, p: Params)
    requires s == StopOf(s.path, node, p) && s.visit.Emits? && RecordShows(r, s.visit.item, p)
    ensures Recorded(r, s.path, node, p)
  {
    hide Recorded, RecordShows, ItemOf;
    ItemRecorded(r, s.path, node, p);
  }

  /** The record is of a node that is met. */
  ghost predicate FromTree(root: seq<Entry>, r: Record, p: Params) {
    exists q, node :: Met(root, q, node, p) && Recorded(r, q, node, p)
  }

  ghost predicate HasRecord(inv: seq<Record>, q: Path, node: Node, p: Params) {
    exists i :: 0 <= i < |inv| && Recorded(inv[i], q, node, p)
  }

  /** The walk's part of the inventory: a record for every node that is met, and none else. */
  lemma TreeWalked(root: seq<Entry>, p: Params)
    requires EmitAll(INIT, Visits(Walk([], root, p)), p).Some? && EpochAccepted(p)
    ensures var walk, inv := Walk([], root, p), EmitAll(INIT, Visits(Walk([], root, p)), p).value.inventory;
            && |inv| == |walk|
            && (forall i :: 0 <= i < |inv| ==> FromTree(root, inv[i], p))
            && forall q, node :: Met(root, q, node, p) ==> HasRecord(inv, q, node, p)
  {
    hide EmitAll, Walk, Visits, Recorded, RecordShows, Skipped, Entered, ItemOf, Stands;
    var walk := Walk([], root, p);
    RunShows(Visits(walk), INIT, p);
    VisitsAre(walk);
    var inv := EmitAll(INIT, Visits(walk), p).value.inventory;
    assert inv[..0] == [];
    forall i | 0 <= i < |inv| ensures FromTree(root, inv[i], p) {
      WalkExactly(root, walk[i], p);
      var node :| Stands(root, walk[i].path, node) && Entered([], walk[i].path, p) && !Skipped(walk[i].path, p) &&
        walk[i] == StopOf(walk[i].path, node, p);
      assert Visits(walk)[i].Emits? && RecordShows(inv[0 + i], Visits(walk)[i].item, p);
      StopRecorded(walk[i], node, inv[i], p);
      assert Met(root, walk[i].path, node, p);
    }
    forall q, node | Met(root, q, node, p) ensures HasRecord(inv, q, node, p) {
      var s := StopOf(q, node, p);
      WalkExactly(root, s, p);
      var i :| 0 <= i < |walk| && walk[i] == s;
      assert Visits(walk)[i].Emits? && RecordShows(inv[0 + i], Visits(walk)[i].item, p);
      StopRecorded(s, node, inv[i], p);
    }
  }

  lemma VisitsAre(stops: seq<Stop>)
    ensures |Visits(stops)| == |stops| && forall i :: 0 <= i < |stops| ==> Visits(stops)[i] == stops[i].visit
  {
  }

  // ---------------------------------------------------------------- what normalizing adds

  /** An entry of the exporter's own. */
  predicate OwnRecord(r: Record, name: string, mode: int, device: Option<(int, int)>, p: Params) {
    && r.path == Ascii(name) && r.mode == mode && r.uid == 0 && r.gid == 0 && r.links == 1 && r.bytes == 0
    && TimeIs(r.mtime, 0, p) && r.target == None && r.device == device
  }

  predicate DeviceDirectory(r: Record, p: Params) {
    OwnRecord(r, "dev", 0x41ED, None, p)
  }

  predicate Console(r: Record, p: Params) {
    OwnRecord(r, "dev/console", 0x2180, Some((5, 1)), p)
  }

  predicate NullDevice(r: Record, p: Params) {
    OwnRecord(r, "dev/null", 0x21B6, Some((1, 3)), p)
  }

  /** The file is one of the system's that are emptied, and its directory is there. */
  predicate MissingIn(f: Path, inv: seq<Record>) {
    f in EMPTY_FILES && !Present(inv, Render(f)) && Present(inv, Render(f[..|f| - 1]))
  }

  /** A record that normalizing adds to those of the walk. */
  ghost predicate AddedTo(walked: seq<Record>, r: Record, p: Params) {
    || (exists f :: MissingIn(f, walked) && r.path == Render(f) && EmptyFile(r, p))
    || (!Present(walked, Ascii("dev")) && DeviceDirectory(r, p))
    || Console(r, p) || NullDevice(r, p)
  }

  lemma {:induction false} MissingAre(files: seq<Path>, inv: seq<Record>, p: Params, s: Stop)
    requires forall f :: f in files ==> f != []
    ensures s in MissingEmpties(files, inv, p) <==>
            s.path in files && !Present(inv, Render(s.path)) && Present(inv, Render(s.path[..|s.path| - 1])) &&
            s.visit == Emits(EmptyItem(Render(s.path), p))
  {
    hide Render, Present, EmptyItem;
    if files != [] {
      assert files == [files[0]] + files[1..] && forall f :: f in files[1..] ==> f in files;
      MissingAre(files[1..], inv, p, s);
    }
  }

  lemma NoEmptyPath()
    ensures forall f :: f in EMPTY_FILES ==> f != []
  {
  }

  lemma AddedItems(r: Record, p: Params)
    requires EpochAccepted(p) && p.normalize
    ensures forall name :: RecordShows(r, EmptyItem(name, p), p) ==> r.path == name && EmptyFile(r, p)
    ensures RecordShows(r, DevItem(p), p) ==> DeviceDirectory(r, p)
    ensures Device("console", 0x180, 5, 1, p).visit.Emits? && Device("null", 0x1B6, 1, 3, p).visit.Emits?
    ensures RecordShows(r, Device("console", 0x180, 5, 1, p).visit.item, p) ==> Console(r, p)
    ensures RecordShows(r, Device("null", 0x1B6, 1, 3, p).visit.item, p) ==> NullDevice(r, p)
  {
    DeviceNames();
    hide Render, Ascii;
  }

  /** The emptied files and the device directory carry no device numbers. */
  lemma NoDeviceNumbers(name: Bytes, p: Params)
    ensures var file, dev := EmptyItem(name, p).info, DevItem(p).info;
            && file.rdevMajor == 0 && file.rdevMinor == 0 && dev.rdevMajor == 0 && dev.rdevMinor == 0
  {
    hide Render, Ascii;
  }

  lemma DeviceNames()
    ensures Render(DEV) == Ascii("dev")
    ensures Render(DEV + [Ascii("console")]) == Ascii("dev/console")
    ensures Render(DEV + [Ascii("null")]) == Ascii("dev/null")
  {
    hide Render, Ascii, ProperPath;
    OneSpelled("dev");
    assert DEV == [Ascii("dev")];
    NextSpelled(DEV, "dev", "console");
    NextSpelled(DEV, "dev", "null");
    assert "dev" + "/" + "console" == "dev/console" && "dev" + "/" + "null" == "dev/null";
  }

  function DevItem(p: Params): Item {
    Item(Render(DEV), GeneratedStat(DIRECTORY + 0x1ED, p, 0, 0), None, NO_FILE)
  }

  lemma AdditionsAre(inv: seq<Record>, p: Params)
    ensures var empties, devices := MissingEmpties(EMPTY_FILES, inv, p),
            [Device("console", 0x180, 5, 1, p), Device("null", 0x1B6, 1, 3, p)];
            Additions(inv, p) ==
            empties + (if Present(inv, Render(DEV)) then [] else [Stop(DEV, Emits(DevItem(p)))]) + devices
  {
    hide MissingEmpties, Present, Render, Ascii;
  }

  /** Among these records are those for the empty files that were missing, and for the devices. */
  ghost predicate HoldsAdded(walked: seq<Record>, added: seq<Record>, p: Params) {
    && (forall f :: MissingIn(f, walked) ==> HasEmpty(added, f, p))
    && (!Present(walked, Ascii("dev")) ==> exists i :: 0 <= i < |added| && DeviceDirectory(added[i], p))
    && (exists i :: 0 <= i < |added| && Console(added[i], p))
    && exists i :: 0 <= i < |added| && NullDevice(added[i], p)
  }

  predicate HasEmpty(inv: seq<Record>, f: Path, p: Params) {
    exists i :: 0 <= i < |inv| && inv[i].path == Render(f) && EmptyFile(inv[i], p)
  }

  /** One by one the records are of the stops. */
  ghost predicate OfStops(stops: seq<Stop>, records: seq<Record>, p: Params) {
    |records| == |stops| &&
    forall i :: 0 <= i < |stops| ==> stops[i].visit.Emits? && RecordShows(records[i], stops[i].visit.item, p)
  }

  lemma OneOf(stops: seq<Stop>, records: seq<Record>, p: Params, s: Stop) returns (i: nat)
    requires s in stops && OfStops(stops, records, p)
    ensures i < |records| && s.visit.Emits? && RecordShows(records[i], s.visit.item, p)
  {
    i :| 0 <= i < |stops| && stops[i] == s;
  }

  lemma AddedAre(walked: seq<Record>, added: seq<Record>, p: Params, i: nat)
    requires p.normalize && EpochAccepted(p) && OfStops(Additions(walked, p), added, p) && i < |added|
    ensures AddedTo(walked, added[i], p)
  {
    hide Additions, RecordShows, EmptyFile, OwnRecord, Present, Render, Ascii, MissingEmpties, EmptyItem, Device,
         DevItem;
    AdditionsAre(walked, p);
    DeviceNames();
    NoEmptyPath();
    var s := Additions(walked, p)[i];
    MissingAre(EMPTY_FILES, walked, p, s);
    AddedItems(added[i], p);
    var console, null_ := Device("console", 0x180, 5, 1, p), Device("null", 0x1B6, 1, 3, p);
    assert s in MissingEmpties(EMPTY_FILES, walked, p) || s in {Stop(DEV, Emits(DevItem(p))), console, null_};
    if s in MissingEmpties(EMPTY_FILES, walked, p) {
      assert MissingIn(s.path, walked);
    }
  }

  lemma AddedHold(walked: seq<Record>, added: seq<Record>, p: Params)
    requires p.normalize && EpochAccepted(p) && OfStops(Additions(walked, p), added, p)
    ensures HoldsAdded(walked, added, p)
  {
    hide Additions, RecordShows, EmptyFile, OwnRecord, Present, Render, Ascii, MissingEmpties, EmptyItem, Device,
         DevItem, OfStops;
    AdditionsAre(walked, p);
    DeviceNames();
    NoEmptyPath();
    forall f | MissingIn(f, walked) ensures HasEmpty(added, f, p) {
      var s := Stop(f, Emits(EmptyItem(Render(f), p)));
      MissingAre(EMPTY_FILES, walked, p, s);
      var i := OneOf(Additions(walked, p), added, p, s);
      AddedItems(added[i], p);
    }
    if !Present(walked, Ascii("dev")) {
      var i := OneOf(Additions(walked, p), added, p, Stop(DEV, Emits(DevItem(p))));
      AddedItems(added[i], p);
    }
    var i := OneOf(Additions(walked, p), added, p, Device("console", 0x180, 5, 1, p));
    AddedItems(added[i], p);
    var j := OneOf(Additions(walked, p), added, p, Device("null", 0x1B6, 1, 3, p));
    AddedItems(added[j], p);
  }

  // ---------------------------------------------------------------- in which order it is added

  predicate Before(a: Bytes, b: Bytes) {
    a != b && NameLe(a, b)
  }

  /** Of two texts the one with the lesser character at the first difference comes first. */
  lemma TextsBefore(a: string, b: string, k: nat)
    requires k < |a| && k < |b| && a[..k] == b[..k] && a[k] as int < b[k] as int < 128
    ensures Before(Ascii(a), Ascii(b))
  {
    assert forall i :: 0 <= i < k ==> a[i] == a[..k][i] == b[..k][i] == b[i];
    assert Ascii(a)[..k] == Ascii(b)[..k] && Ascii(a)[k] < Ascii(b)[k];
    NameLeIs(Ascii(a), Ascii(b));
    hide NameLe;
  }

  lemma EmptiesBefore()
    ensures forall i, j :: 0 <= i < j < |EMPTIED| ==> Before(Ascii(EMPTIED[i]), Ascii(EMPTIED[j]))
  {
    hide Before, Ascii;
    TextsBefore("etc/hostname", "etc/hosts", 8);
    TextsBefore("etc/hostname", "etc/machine-id", 4);
    TextsBefore("etc/hostname", "etc/resolv.conf", 4);
    TextsBefore("etc/hosts", "etc/machine-id", 4);
    TextsBefore("etc/hosts", "etc/resolv.conf", 4);
    TextsBefore("etc/machine-id", "etc/resolv.conf", 4);
    TextsBefore("etc/hostname", "var/lib/dbus/machine-id", 0);
    TextsBefore("etc/hosts", "var/lib/dbus/machine-id", 0);
    TextsBefore("etc/machine-id", "var/lib/dbus/machine-id", 0);
    TextsBefore("etc/resolv.conf", "var/lib/dbus/machine-id", 0);
  }

  /** The paths are written in the order of their names. */
  ghost predicate Increasing(paths: seq<Path>) {
    forall i, j :: 0 <= i < j < |paths| ==> Before(Render(paths[i]), Render(paths[j]))
  }

  function PathsOf(stops: seq<Stop>): seq<Path> {
    seq(|stops|, i requires 0 <= i < |stops| => stops[i].path)
  }

  lemma IncreasingCons(first: Path, more: seq<Path>)
    requires Increasing(more) && forall i :: 0 <= i < |more| ==> Before(Render(first), Render(more[i]))
    ensures Increasing([first] + more)
  {
    hide Before, Render;
  }

  lemma IncreasingRest(paths: seq<Path>)
    requires Increasing(paths) && paths != []
    ensures Increasing(paths[1..]) && forall q :: q in paths[1..] ==> Before(Render(paths[0]), Render(q))
  {
    hide Before, Render;
  }

  lemma MissingHead(files: seq<Path>, inv: seq<Record>, p: Params)
    requires files != []
    ensures var all, more := PathsOf(MissingEmpties(files, inv, p)), PathsOf(MissingEmpties(files[1..], inv, p));
            all == more || all == [files[0]] + more
  {
    hide Render, Present, EmptyItem;
    var all, more := MissingEmpties(files, inv, p), MissingEmpties(files[1..], inv, p);
    if all != more {
      assert all == [all[0]] + more;
    }
  }

  lemma {:induction false} MissingInOrder(files: seq<Path>, inv: seq<Record>, p: Params)
    requires Increasing(files)
    ensures Increasing(PathsOf(MissingEmpties(files, inv, p)))
    ensures forall q :: q in PathsOf(MissingEmpties(files, inv, p)) ==> q in files
  {
    hide Before, Render, MissingEmpties, Increasing;
    if files == [] {
      NoneMissing(inv, p);
    } else {
      var rest := files[1..];
      var more := PathsOf(MissingEmpties(rest, inv, p));
      assert files == [files[0]] + rest;
      IncreasingRest(files);
      MissingInOrder(rest, inv, p);
      MissingHead(files, inv, p);
      IncreasingCons(files[0], more);
    }
  }

  lemma NoneMissing(inv: seq<Record>, p: Params)
    ensures PathsOf(MissingEmpties([], inv, p)) == [] && Increasing([])
  {
  }

  /** First come the emptied files, in the order of their names, then the device directory if it was
      missing, then the console, then the null device. */
  ghost predicate InOrder(walked: seq<Record>, added: seq<Record>, p: Params) {
    exists n: nat :: n <= |added| && OrderedFrom(walked, added, n, p)
  }

  ghost predicate OrderedFrom(walked: seq<Record>, added: seq<Record>, n: nat, p: Params)
    requires n <= |added|
  {
    && (forall i :: 0 <= i < n ==> EmptyFile(added[i], p))
    && (forall i, j :: 0 <= i < j < n ==> Before(added[i].path, added[j].path))
    && var rest := added[n..];
       if Present(walked, Ascii("dev")) then |rest| == 2 && Console(rest[0], p) && NullDevice(rest[1], p)
       else |rest| == 3 && DeviceDirectory(rest[0], p) && Console(rest[1], p) && NullDevice(rest[2], p)
  }

  lemma EmptiesIncrease()
    ensures Increasing(EMPTY_FILES)
  {
    hide Before, Render, Ascii, ProperPath;
    EmptiesBefore();
    EmptiesSpelled();
  }

  lemma AddedInOrder(walked: seq<Record>, added: seq<Record>, p: Params)
    requires p.normalize && EpochAccepted(p) && OfStops(Additions(walked, p), added, p)
    ensures InOrder(walked, added, p)
  {
    hide Additions, RecordShows, EmptyFile, OwnRecord, Present, Render, Ascii, MissingEmpties, EmptyItem, Device,
         DevItem, Before;
    AdditionsAre(walked, p);
    DeviceNames();
    NoEmptyPath();
    EmptiesIncrease();
    MissingInOrder(EMPTY_FILES, walked, p);
    var empties, stops := MissingEmpties(EMPTY_FILES, walked, p), Additions(walked, p);
    var n := |empties|;
    forall i | 0 <= i < n ensures EmptyFile(added[i], p) && added[i].path == Render(PathsOf(empties)[i]) {
      assert stops[i] == empties[i];
      MissingAre(EMPTY_FILES, walked, p, empties[i]);
      AddedItems(added[i], p);
    }
    forall i | n <= i < |added| ensures stops[i] == stops[n..][i - n] && added[i] == added[n..][i - n] {
      AddedItems(added[i], p);
    }
    AddedItems(added[n], p);
    AddedItems(added[n + 1], p);
    if !Present(walked, Ascii("dev")) {
      AddedItems(added[n + 2], p);
    }
    assert OrderedFrom(walked, added, n, p);
  }

  lemma RunOfStops(stops: seq<Stop>, st: State, p: Params)
    requires EmitAll(st, Visits(stops), p).Some? && EpochAccepted(p)
    ensures var inv, n := EmitAll(st, Visits(stops), p).value.inventory, |st.inventory|;
            |inv| >= n && inv[..n] == st.inventory && OfStops(stops, inv[n..], p)
  {
    hide EmitAll, RecordShows, Visits;
    RunShows(Visits(stops), st, p);
    VisitsAre(stops);
    var inv, n := EmitAll(st, Visits(stops), p).value.inventory, |st.inventory|;
    forall i | 0 <= i < |stops| ensures stops[i].visit.Emits? && RecordShows(inv[n..][i], stops[i].visit.item, p) {
      assert Visits(stops)[i] == stops[i].visit;
    }
  }

  // ---------------------------------------------------------------- the whole inventory

  /** The first records are those of the tree: one for every node met, and none else. */
  ghost predicate HoldsTree(root: seq<Entry>, inv: seq<Record>, p: Params) {
    && (forall i :: 0 <= i < |inv| ==> FromTree(root, inv[i], p))
    && forall q, node :: Met(root, q, node, p) ==> HasRecord(inv, q, node, p)
  }

  /** The inventory of an export: a record for every node that is met, in no excluded directory and not
      skipped, and then what normalizing adds: the emptied files that were missing where their directory
      is there, the device directory if it is missing, the console and the null device; and nothing else. */
  lemma InventoryIs(root: seq<Entry>, p: Params)
    ensures Export(root, p).Some? ==>
              var inv, n := Export(root, p).value.entries, |Walk([], root, p)|;
              && EpochAccepted(p) && n <= |inv| && HoldsTree(root, inv[..n], p)
              && if p.normalize
                 then
                   && HoldsAdded(inv[..n], inv[n..], p) && InOrder(inv[..n], inv[n..], p)
                   && forall i :: n <= i < |inv| ==> AddedTo(inv[..n], inv[i], p)
                 else n == |inv|
  {
    hide EmitAll, Walk, Visits, Additions, FromTree, Met, HasRecord, HoldsAdded, InOrder, AddedTo, OfStops, EncodeAll,
         Encode;
    if Export(root, p).Some? {
      WalkSucceeds(root, p);
      TreeWalked(root, p);
      var walked := EmitAll(INIT, Visits(Walk([], root, p)), p).value;
      if p.normalize {
        RunOfStops(Additions(walked.inventory, p), walked, p);
        var inv, n := Export(root, p).value.entries, |walked.inventory|;
        AddedHold(walked.inventory, inv[n..], p);
        AddedInOrder(walked.inventory, inv[n..], p);
        forall i | n <= i < |inv| ensures AddedTo(inv[..n], inv[i], p) {
          AddedAre(walked.inventory, inv[n..], p, i - n);
        }
      } else {
        assert walked.inventory[..|walked.inventory|] == walked.inventory;
      }
    }
  }

  // ---------------------------------------------------------------- when there is an export

  /** The file of this entry was met before. */
  predicate Again(visits: seq<Visit>, i: nat)
    requires i < |visits|
  {
    visits[i].Emits? && exists j :: 0 <= j < i && visits[j].Emits? && OneFile(visits[j].item, visits[i].item)
  }

  /** The entry's content is the file's own, read from the disk. */
  predicate FromDisk(visits: seq<Visit>, i: nat)
    requires i < |visits| && visits[i].Emits?
  {
    visits[i].item.data.None? && (visits[i].item.info.mode / 0x1000) % 16 == 8 && !Again(visits, i)
  }

  function LengthAt(visits: seq<Visit>, i: nat): int
    requires i < |visits| && visits[i].Emits?
  {
    if visits[i].item.data.Some? then |visits[i].item.data.value|
    else if FromDisk(visits, i) then visits[i].item.info.size
    else 0
  }

  predicate Wide(value: int) {
    0 <= value <= 0xFFFF_FFFF
  }

  /** An entry that can be written: every number fits its field, and the file is found unchanged. */
  predicate Writable(visits: seq<Visit>, i: nat, p: Params)
    requires i < |visits|
  {
    && visits[i].Emits?
    && var it := visits[i].item;
       && Wide(it.info.mode) && Wide(it.info.uid) && Wide(it.info.gid) && Wide(it.info.links)
       && (!p.normalize ==> Wide(it.info.mtime)) && Wide(LengthAt(visits, i))
       && Wide(it.info.rdevMajor) && Wide(it.info.rdevMinor) && Wide(|it.name| + 1)
       && (FromDisk(visits, i) ==> it.disk.sameBefore && it.disk.sameAfter && it.info.size <= |it.disk.content|)
  }

  function Padded(length: int): int {
    length + (-length) % 4
  }

  /** The bytes of the first n entries. */
  function TotalLength(visits: seq<Visit>, n: nat): int
    requires n <= |visits| && forall i :: 0 <= i < n ==> visits[i].Emits?
  {
    if n == 0 then 0
    else TotalLength(visits, n - 1) + Padded(110 + |visits[n - 1].item.name| + 1) + Padded(LengthAt(visits, n - 1))
  }

  function Keys(visits: seq<Visit>): set<Key> {
    set i | 0 <= i < |visits| && visits[i].Emits? :: KeyOf(visits[i].item)
  }

  /** The entries can be written within the limits. */
  predicate AllWritable(visits: seq<Visit>, p: Params) {
    && (forall i :: 0 <= i < |visits| ==> visits[i].Emits? && Writable(visits, i, p))
    && |Keys(visits)| <= 0xFFFF_FFFF
    && (visits != [] ==> |visits| <= p.maximumEntries && TotalLength(visits, |visits|) <= p.maximumBytes)
  }

  /** What is written so far, told from the visits. */
  ghost predicate Told(visits: seq<Visit>, st: State) {
    && (forall i :: 0 <= i < |visits| ==> visits[i].Emits?)
    && |st.inventory| == |visits| && st.written == Keys(visits) && st.inodes.Keys == Keys(visits)
    && (forall k :: k in st.inodes ==> 1 <= st.inodes[k] <= |st.inodes|)
    && |EncodeAll(st.members)| == TotalLength(visits, |visits|)
  }

  lemma AgainStays(visits: seq<Visit>, v: Visit, i: nat)
    requires i < |visits|
    ensures Again(visits + [v], i) <==> Again(visits, i)
  {
    assert forall j :: 0 <= j <= i ==> (visits + [v])[j] == visits[j];
  }

  lemma EntryStays(visits: seq<Visit>, v: Visit, i: nat, p: Params)
    requires i < |visits| && visits[i].Emits?
    ensures (visits + [v])[i] == visits[i] && LengthAt(visits + [v], i) == LengthAt(visits, i)
    ensures Writable(visits + [v], i, p) <==> Writable(visits, i, p)
  {
    AgainStays(visits, v, i);
    hide Again;
  }

  lemma {:induction false} TotalStays(visits: seq<Visit>, v: Visit, n: nat, p: Params)
    requires n <= |visits| && forall i :: 0 <= i < n ==> visits[i].Emits?
    ensures forall i :: 0 <= i < n ==> (visits + [v])[i].Emits?
    ensures TotalLength(visits + [v], n) == TotalLength(visits, n)
    decreases n
  {
    assert forall i :: 0 <= i < n ==> (visits + [v])[i] == visits[i];
    if n > 0 {
      hide LengthAt, Writable, Padded;
      TotalStays(visits, v, n - 1, p);
      EntryStays(visits, v, n - 1, p);
    }
  }

  lemma KeysGrow(visits: seq<Visit>, it: Item)
    ensures Keys(visits + [Emits(it)]) == Keys(visits) + {KeyOf(it)}
    ensures Again(visits + [Emits(it)], |visits|) <==> KeyOf(it) in Keys(visits)
  {
    var more := visits + [Emits(it)];
    assert forall j :: 0 <= j < |visits| ==> more[j] == visits[j];
    assert more[|visits|] == Emits(it);
    hide KeyOf;
  }

  /** The content and the length of the entry that comes next. */
  lemma NextContent(visits: seq<Visit>, st: State, it: Item, p: Params)
    requires Told(visits, st)
    ensures var more, n := visits + [Emits(it)], |visits|;
            var duplicate := Duplicate(st.written, it);
            && SizeOf(it, duplicate) == LengthAt(more, n)
            && (FromDisk(more, n) <==> ReadsDisk(it, duplicate))
            && (ContentOf(it, duplicate).Some? ==> |ContentOf(it, duplicate).value| == LengthAt(more, n))
            && (Wide(LengthAt(more, n)) ==>
                  (ContentOf(it, duplicate).Some? <==>
                   (FromDisk(more, n) ==>
                      it.disk.sameBefore && it.disk.sameAfter && it.info.size <= |it.disk.content|)))
  {
    KeysGrow(visits, it);
    hide Again, Keys, KeyOf, TotalLength, EncodeAll;
  }

  lemma NextMember(visits: seq<Visit>, st: State, it: Item, p: Params)
    requires Told(visits, st) && EpochAccepted(p) && |Keys(visits)| <= 0xFFFF_FFFF
    ensures var more, n, inodes := visits + [Emits(it)], |visits|, Numbered(st.inodes, KeyOf(it));
            var member := MemberOf(it, inodes[KeyOf(it)], Duplicate(st.written, it), p);
            && (member.Some? <==> Writable(more, n, p) && |Keys(more)| <= 0xFFFF_FFFF)
            && (member.Some? ==> |Encode(member.value)| ==
                                   Padded(110 + |it.name| + 1) + Padded(LengthAt(more, n)))
  {
    hide Told, Keys, KeyOf, Numbered, Again, RawFields, InRange, MemberOf, ContentOf, Writable, Padded, FromDisk;
    var more, n, duplicate := visits + [Emits(it)], |visits|, Duplicate(st.written, it);
    var inode := Numbered(st.inodes, KeyOf(it))[KeyOf(it)];
    NextContent(visits, st, it, p);
    NextInode(visits, st, it);
    RangeIs(it, inode, duplicate, p);
    MemberIs(it, inode, duplicate, p);
    NextWritable(visits, it, p);
  }

  lemma MemberIs(it: Item, inode: int, duplicate: bool, p: Params)
    ensures var member, content := MemberOf(it, inode, duplicate, p), ContentOf(it, duplicate);
            && (member.Some? <==> InRange(RawFields(it, inode, duplicate, p)) && content.Some?)
            && (member.Some? ==>
                  |Encode(member.value)| == Padded(110 + |it.name| + 1) + Padded(|content.value|))
  {
    hide RawFields, ContentOf, Encode;
    var member := MemberOf(it, inode, duplicate, p);
    if member.Some? {
      EncodeLength(member.value);
    }
  }

  /** What of an entry must be so that it can be written, beside its content. */
  lemma NextWritable(visits: seq<Visit>, it: Item, p: Params)
    ensures var more, n := visits + [Emits(it)], |visits|;
            more[n] == Emits(it) &&
            (Writable(more, n, p) <==>
             && Wide(it.info.mode) && Wide(it.info.uid) && Wide(it.info.gid) && Wide(it.info.links)
             && (!p.normalize ==> Wide(it.info.mtime)) && Wide(LengthAt(more, n))
             && Wide(it.info.rdevMajor) && Wide(it.info.rdevMinor) && Wide(|it.name| + 1)
             && (FromDisk(more, n) ==> it.disk.sameBefore && it.disk.sameAfter && it.info.size <= |it.disk.content|))
  {
    hide FromDisk, LengthAt;
  }

  lemma NextInode(visits: seq<Visit>, st: State, it: Item)
    requires Told(visits, st) && |Keys(visits)| <= 0xFFFF_FFFF
    ensures Wide(Numbered(st.inodes, KeyOf(it))[KeyOf(it)]) <==> |Keys(visits + [Emits(it)])| <= 0xFFFF_FFFF
  {
    KeysGrow(visits, it);
    hide KeyOf, TotalLength, EncodeAll;
    assert |st.inodes| == |st.inodes.Keys|;
    if KeyOf(it) in Keys(visits) {
      assert Keys(visits) + {KeyOf(it)} == Keys(visits);
    }
  }

  lemma RangeIs(it: Item, inode: int, duplicate: bool, p: Params)
    requires EpochAccepted(p)
    ensures InRange(RawFields(it, inode, duplicate, p)) <==>
              && Wide(inode) && Wide(it.info.mode) && Wide(it.info.uid) && Wide(it.info.gid) && Wide(it.info.links)
              && (!p.normalize ==> Wide(it.info.mtime)) && Wide(SizeOf(it, duplicate))
              && Wide(it.info.rdevMajor) && Wide(it.info.rdevMinor) && Wide(|it.name| + 1)
  {
    var raw := RawFields(it, inode, duplicate, p);
    assert raw[0] == inode && raw[1] == it.info.mode && raw[2] == it.info.uid && raw[3] == it.info.gid;
    assert raw[4] == it.info.links && raw[5] == MtimeOf(it, p) && raw[6] == SizeOf(it, duplicate);
    assert raw[9] == it.info.rdevMajor && raw[10] == it.info.rdevMinor && raw[11] == |it.name| + 1;
  }

  /** When an entry is emitted, and what the tables are then. */
  lemma EmitIs(st: State, it: Item, p: Params)
    ensures var inodes := Numbered(st.inodes, KeyOf(it));
            var member := MemberOf(it, inodes[KeyOf(it)], Duplicate(st.written, it), p);
            && (Emit(st, it, p).Some? <==>
                && |st.inventory| + 1 <= p.maximumEntries && member.Some?
                && |EncodeAll(st.members)| + |Encode(member.value)| <= p.maximumBytes)
            && (Emit(st, it, p).Some? ==>
                  var next := Emit(st, it, p).value;
                  && |next.inventory| == |st.inventory| + 1 && next.written == st.written + {KeyOf(it)}
                  && next.inodes == inodes && next.members == st.members + [member.value])
  {
    hide KeyOf, MemberOf, EncodeAll, Encode, Numbered, Duplicate, RecordOf, Hashed;
  }

  /** The next entry is emitted exactly if it is writable and the limits are kept. */
  lemma NextEmits(visits: seq<Visit>, st: State, it: Item, p: Params)
    requires Told(visits, st) && EpochAccepted(p) && |Keys(visits)| <= 0xFFFF_FFFF
    ensures var more, n := visits + [Emits(it)], |visits|;
            && (forall i :: 0 <= i <= n ==> more[i].Emits?)
            && (Emit(st, it, p).Some? <==>
                && Writable(more, n, p) && |Keys(more)| <= 0xFFFF_FFFF
                && n + 1 <= p.maximumEntries && TotalLength(more, n + 1) <= p.maximumBytes)
            && (Emit(st, it, p).Some? ==> Told(more, Emit(st, it, p).value))
  {
    hide Emit, Keys, KeyOf, Again, MemberOf, Writable, Padded, FromDisk, EncodeAll, Encode, LengthAt, Numbered,
         Duplicate;
    var more, n := visits + [Emits(it)], |visits|;
    assert forall i :: 0 <= i < n ==> more[i] == visits[i];
    NextMember(visits, st, it, p);
    EmitIs(st, it, p);
    KeysGrow(visits, it);
    TotalStays(visits, Emits(it), n, p);
    NumberedIs(st, it);
    var member := MemberOf(it, Numbered(st.inodes, KeyOf(it))[KeyOf(it)], Duplicate(st.written, it), p);
    assert member.Some? ==> TotalLength(more, n + 1) == |EncodeAll(st.members)| + |Encode(member.value)|;
    if member.Some? {
      EncodeAllSnoc(st.members, member.value);
    }
  }

  lemma NumberedIs(st: State, it: Item)
    requires forall k :: k in st.inodes ==> 1 <= st.inodes[k] <= |st.inodes|
    ensures var inodes := Numbered(st.inodes, KeyOf(it));
            && inodes.Keys == st.inodes.Keys + {KeyOf(it)}
            && forall k :: k in inodes ==> 1 <= inodes[k] <= |inodes|
  {
    hide KeyOf;
    var inodes, key := Numbered(st.inodes, KeyOf(it)), KeyOf(it);
    if key !in st.inodes {
      assert inodes.Keys == st.inodes.Keys + {key};
      assert |inodes| == |inodes.Keys| == |st.inodes| + 1;
    }
  }

  /** A run succeeds exactly if all entries are writable within the limits. */
  lemma {:induction false} RunSucceeds(visits: seq<Visit>, p: Params)
    requires EpochAccepted(p)
    ensures EmitAll(INIT, visits, p).Some? <==> AllWritable(visits, p)
    ensures EmitAll(INIT, visits, p).Some? ==> Told(visits, EmitAll(INIT, visits, p).value)
  {
    hide Emit, Writable, Keys, Told, LengthAt, Padded;
    if visits == [] {
      NothingTold();
    } else {
      var last := |visits| - 1;
      var before := visits[..last];
      RunSucceeds(before, p);
      assert visits == before + [visits[last]];
      if visits[last].Emits? {
        WritableBefore(before, visits[last], p);
        if EmitAll(INIT, before, p).Some? {
          NextEmits(before, EmitAll(INIT, before, p).value, visits[last].item, p);
        }
      }
    }
  }

  lemma NothingTold()
    ensures Told([], INIT) && |Keys([])| == 0
  {
    NoMembers();
    assert Keys([]) == {};
  }

  /** All are writable exactly if those before are, and the last is within the limits. */
  lemma WritableBefore(before: seq<Visit>, v: Visit, p: Params)
    requires v.Emits?
    ensures var more, n := before + [v], |before|;
            AllWritable(more, p) <==>
            && AllWritable(before, p) && Writable(more, n, p) && |Keys(more)| <= 0xFFFF_FFFF
            && n + 1 <= p.maximumEntries && TotalLength(more, n + 1) <= p.maximumBytes
  {
    hide Writable, Keys, LengthAt, Padded, KeyOf;
    var more, n := before + [v], |before|;
    forall i | 0 <= i < n
      ensures more[i] == before[i] && (before[i].Emits? ==> (Writable(more, i, p) <==> Writable(before, i, p)))
    {
      if before[i].Emits? {
        EntryStays(before, v, i, p);
      }
    }
    KeysGrow(before, v.item);
    FewerKeys(Keys(before), KeyOf(v.item));
    if forall i :: 0 <= i < n ==> before[i].Emits? {
      TotalStays(before, v, n, p);
      if Writable(more, n, p) {
        LastLonger(more, p);
      }
    }
  }

  lemma FewerKeys(keys: set<Key>, key: Key)
    ensures |keys| <= |keys + {key}|
  {
    if key in keys {
      assert keys + {key} == keys;
    }
  }

  lemma LastLonger(visits: seq<Visit>, p: Params)
    requires visits != [] && (forall i :: 0 <= i < |visits| ==> visits[i].Emits?) && Writable(visits, |visits| - 1, p)
    ensures TotalLength(visits, |visits| - 1) <= TotalLength(visits, |visits|)
  {
    hide LengthAt, FromDisk;
  }

  /** The records of the walk, if it succeeds. */
  function Walked(root: seq<Entry>, p: Params): seq<Record> {
    var st := EmitAll(INIT, Visits(Walk([], root, p)), p);
    if st.None? then [] else st.value.inventory
  }

  function AllVisits(root: seq<Entry>, p: Params): seq<Visit> {
    Visits(Walk([], root, p) + if p.normalize then Additions(Walked(root, p), p) else [])
  }

  lemma CollectRuns(root: seq<Entry>, p: Params)
    requires EpochAccepted(p) && EmitAll(INIT, Visits(Walk([], root, p)), p).Some?
    ensures Collect(root, p) == EmitAll(INIT, AllVisits(root, p), p)
  {
    hide Walk, EmitAll, Additions, Visits;
    var walk := Walk([], root, p);
    if p.normalize {
      var added := Additions(Walked(root, p), p);
      VisitsConcat(walk, added);
      EmitAllConcat(INIT, Visits(walk), Visits(added), p);
    } else {
      assert walk + [] == walk;
    }
  }

  lemma VisitsConcat(a: seq<Stop>, b: seq<Stop>)
    ensures Visits(a + b) == Visits(a) + Visits(b)
  {
  }

  /** There is an export exactly if the date is given when it is needed, everything that the walk meets and
      normalizing adds can be written, no live socket being among it, and with the trailer it is within the
      limit of bytes; and that is how many bytes there are. */
  lemma ExportSucceeds(root: seq<Entry>, p: Params)
    ensures var visits := AllVisits(root, p);
            && (Export(root, p).Some? <==>
                && (p.normalize ==> p.sourceDateEpoch.Some? && Wide(p.sourceDateEpoch.value))
                && AllWritable(Visits(Walk([], root, p)), p) && AllWritable(visits, p)
                && TotalLength(visits, |visits|) + 124 <= p.maximumBytes)
            && (Export(root, p).Some? ==>
                  (forall i :: 0 <= i < |visits| ==> visits[i].Emits?) &&
                  |Export(root, p).value.bytes| == TotalLength(visits, |visits|) + 124)
  {
    hide Walk, EmitAll, AllVisits, AllWritable, Visits, Additions, EncodeAll, Encode, TotalLength;
    if EpochAccepted(p) {
      RunSucceeds(Visits(Walk([], root, p)), p);
      RunSucceeds(AllVisits(root, p), p);
      WalkSucceeds(root, p);
      TrailerLength();
      if EmitAll(INIT, Visits(Walk([], root, p)), p).Some? {
        CollectRuns(root, p);
      }
    }
    AllEmit(AllVisits(root, p), p);
  }

  lemma AllEmit(visits: seq<Visit>, p: Params)
    ensures AllWritable(visits, p) ==> forall i :: 0 <= i < |visits| ==> visits[i].Emits?
  {
    hide Writable, TotalLength, Keys;
  }

  lemma TrailerLength()
    ensures |Encode(TRAILER_MEMBER)| == 124
  {
    hide Encode;
    assert |TRAILER| == |"TRAILER!!!"| == 10;
    hide Ascii;
    EncodeLength(TRAILER_MEMBER);
  }
}
