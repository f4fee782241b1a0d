/** The bundle inspector of runtime/local/verify-runtime.swift: a recursive walk that tallies what it
    meets, against a predicate on the bundle as a whole. */
module Inspector {
  import opened Prelude

  type Name = string

  /** A path within the bundle, by its components. */
  type Path = seq<Name>

  /** Unicode, taken as given: UTF-8 length, canonical composition, and lower case of a joined path. */
  datatype Unicode = Unicode(utf8: Name -> nat, composed: Name -> bool, lower: Path -> string)

  datatype Kind = Directory | File(size: int, executable: bool, machO: bool, links: nat) | OtherKind

  /** `sound` stands for the checks on owner, mode, device and identity of one item. */
  datatype Item = Item(sound: bool, kind: Kind)

  datatype Entry = Entry(name: Name, item: Item, children: seq<Entry>)

  datatype Limits = Limits(entries: nat, fileBytes: nat, totalBytes: nat, manifestBytes: nat, depth: nat,
                           pathBytes: nat)

  const CEILING := Limits(4096, 768 * 1024 * 1024, 2 * 1024 * 1024 * 1024, 128 * 1024, 32, 1024)

  const CONTENTS := "Contents"
  const SIGNATURE := "_CodeSignature"
  const INFO: Path := [CONTENTS, "Info.plist"]
  const MANIFEST: Path := [CONTENTS, "Resources", "runtime-manifest.json"]
  const SIGNED: set<Path> := {
    [CONTENTS, SIGNATURE, "CodeDirectory"], [CONTENTS, SIGNATURE, "CodeRequirements"],
    [CONTENTS, SIGNATURE, "CodeResources"], [CONTENTS, SIGNATURE, "CodeSignature"]}

  // ---------------------------------------------------------------- limits

  predicate Digit(c: char) {
    '0' <= c <= '9'
  }

  function Decimal(text: string): nat {
    if text == [] then 0
    else Decimal(text[..|text| - 1]) * 10 + if Digit(text[|text| - 1]) then (text[|text| - 1] - '0') as nat else 0
  }

  /** A positive decimal number of at most 16 digits, cut at the ceiling. */
  function Limit(text: string, ceiling: nat): Option<nat> {
    if text == "" || |text| > 16 || (exists k :: 0 <= k < |text| && !Digit(text[k])) || Decimal(text) == 0 then None
    else Some(if Decimal(text) < ceiling then Decimal(text) else ceiling)
  }

  function LimitsOf(arguments: seq<string>): Option<Limits> {
    if |arguments| < 6 then None
    else
      var entries, file, total := Limit(arguments[0], CEILING.entries), Limit(arguments[1], CEILING.fileBytes),
                                  Limit(arguments[2], CEILING.totalBytes);
      var manifest, depth, path := Limit(arguments[3], CEILING.manifestBytes), Limit(arguments[4], CEILING.depth),
                                   Limit(arguments[5], CEILING.pathBytes);
      if entries.None? || file.None? || total.None? || manifest.None? || depth.None? || path.None? then None
      else if manifest.value > file.value || file.value > total.value then None
      else Some(Limits(entries.value, file.value, total.value, manifest.value, depth.value, path.value))
  }

  predicate Ordered(l: Limits) {
    l.manifestBytes <= l.fileBytes <= l.totalBytes && l.entries > 0
  }

  /** Accepted limits are positive, below the ceilings, and ordered as the byte count needs. */
  lemma LimitsAreOrdered(arguments: seq<string>)
    ensures LimitsOf(arguments).Some? ==>
              var l := LimitsOf(arguments).value;
              && Ordered(l) && 0 < l.manifestBytes && 0 < l.depth <= CEILING.depth &&
                 0 < l.pathBytes <= CEILING.pathBytes
              && l.entries <= CEILING.entries && l.fileBytes <= CEILING.fileBytes && l.totalBytes <= CEILING.totalBytes
  {
    hide Decimal;
  }

  /** A number as it is written in decimal. */
  function Written(n: nat): (text: string)
    ensures text != "" && forall k :: 0 <= k < |text| ==> Digit(text[k])
  {
    var digit := '0' + (n % 10) as char;
    if n < 10 then [digit] else Written(n / 10) + [digit]
  }

  function Lesser(a: nat, b: nat): nat {
    if a < b then a else b
  }

  predicate Zeros(text: string) {
    forall i :: 0 <= i < |text| ==> text[i] == '0'
  }

  /** The text is the number, behind any zeros. */
  predicate Spells(text: string, n: nat) {
    var own := Written(n);
    |own| <= |text| && text[|text| - |own|..] == own && Zeros(text[..|text| - |own|])
  }

  lemma {:induction false} SpelledIsRead(text: string, n: nat)
    requires Spells(text, n)
    ensures Decimal(text) == n && text != "" && forall k :: 0 <= k < |text| ==> Digit(text[k])
    decreases |text|
  {
    var last, before := |text| - 1, text[..|text| - 1];
    assert text[last] == Written(n)[|Written(n)| - 1] && (text[last] - '0') as nat == n % 10;
    if n < 10 {
      ZerosRead(before);
    } else {
      var own := Written(n / 10);
      assert before[|before| - |own|..] == text[|text| - |Written(n)|..][..|own|] == own;
      assert before[..|before| - |own|] == text[..|text| - |Written(n)|];
      SpelledIsRead(before, n / 10);
    }
  }

  lemma {:induction false} ZerosRead(text: string)
    requires Zeros(text)
    ensures Decimal(text) == 0
  {
    if text != "" {
      ZerosRead(text[..|text| - 1]);
    }
  }

  lemma {:induction false} ReadIsSpelled(text: string)
    requires text != "" && forall k :: 0 <= k < |text| ==> Digit(text[k])
    ensures Spells(text, Decimal(text))
    decreases |text|
  {
    var before, last := text[..|text| - 1], text[|text| - 1];
    var m, n := Decimal(before), Decimal(text);
    assert [last] == [text[|text| - 1]] && last == '0' + (n % 10) as char;
    if before != "" {
      ReadIsSpelled(before);
      assert text == before + [last];
      if m == 0 {
        assert Written(0) == "0" && before == before[..|before| - 1] + "0";
      }
    }
  }

  /** The argument is this positive number, in at most sixteen digits. */
  predicate Given(argument: string, n: nat) {
    n > 0 && |argument| <= 16 && Spells(argument, n)
  }

  /** The first six arguments are these numbers. */
  predicate AllGiven(arguments: seq<string>, numbers: seq<nat>) {
    |arguments| >= 6 && |numbers| == 6 && forall k :: 0 <= k < 6 ==> Given(arguments[k], numbers[k])
  }

  /** The numbers, each cut at its ceiling. */
  function Cut(numbers: seq<nat>): Limits
    requires |numbers| == 6
  {
    Limits(Lesser(numbers[0], 4096), Lesser(numbers[1], 805306368), Lesser(numbers[2], 2147483648),
           Lesser(numbers[3], 131072), Lesser(numbers[4], 32), Lesser(numbers[5], 1024))
  }

  lemma GivenIsLimit(text: string, ceiling: nat, n: nat)
    requires Given(text, n)
    ensures Limit(text, ceiling) == Some(Lesser(n, ceiling))
  {
    SpelledIsRead(text, n);
    hide Spells, Decimal;
  }

  lemma LimitGiven(text: string, ceiling: nat) returns (n: nat)
    requires Limit(text, ceiling).Some?
    ensures Given(text, n) && Limit(text, ceiling) == Some(Lesser(n, ceiling))
  {
    n := Decimal(text);
    ReadIsSpelled(text);
    hide Spells, Decimal;
  }

  /** The arguments give limits exactly if the first six are positive numbers of at most sixteen digits and,
      each cut at its ceiling, a manifest is no longer than a file and a file no longer than all. */
  lemma LimitsExactly(arguments: seq<string>, limits: Limits)
    ensures LimitsOf(arguments) == Some(limits) <==>
            && limits.manifestBytes <= limits.fileBytes <= limits.totalBytes
            && exists numbers :: AllGiven(arguments, numbers) && limits == Cut(numbers)
  {
    hide Spells, Limit, Given;
    if LimitsOf(arguments) == Some(limits) {
      var n0 := LimitGiven(arguments[0], CEILING.entries);
      var n1 := LimitGiven(arguments[1], CEILING.fileBytes);
      var n2 := LimitGiven(arguments[2], CEILING.totalBytes);
      var n3 := LimitGiven(arguments[3], CEILING.manifestBytes);
      var n4 := LimitGiven(arguments[4], CEILING.depth);
      var n5 := LimitGiven(arguments[5], CEILING.pathBytes);
      var numbers := [n0, n1, n2, n3, n4, n5];
      assert AllGiven(arguments, numbers) && limits == Cut(numbers);
    }
    if numbers :| AllGiven(arguments, numbers) && limits == Cut(numbers) {
      GivenIsLimit(arguments[0], CEILING.entries, numbers[0]);
      GivenIsLimit(arguments[1], CEILING.fileBytes, numbers[1]);
      GivenIsLimit(arguments[2], CEILING.totalBytes, numbers[2]);
      GivenIsLimit(arguments[3], CEILING.manifestBytes, numbers[3]);
      GivenIsLimit(arguments[4], CEILING.depth, numbers[4]);
      GivenIsLimit(arguments[5], CEILING.pathBytes, numbers[5]);
    }
  }

  // ---------------------------------------------------------------- one item

  predicate SafeName(u: Unicode, name: Name) {
    && name != "" && name != "." && name != ".." && u.utf8(name) <= 255 && u.composed(name)
    && forall k :: 0 <= k < |name| ==> name[k] as int >= 32 && name[k] as int != 127 && name[k] !in "/\\:"
  }

  /** The UTF-8 length of the path as it is written, with a separator between components. */
  function PathBytes(u: Unicode, path: Path): nat {
    if path == [] then 0 else if |path| == 1 then u.utf8(path[0])
    else PathBytes(u, path[..|path| - 1]) + 1 + u.utf8(path[|path| - 1])
  }

  predicate Below(path: Path, ancestors: Path) {
    |ancestors| < |path| && path[..|ancestors|] == ancestors
  }

  /** An item met by the walk. */
  datatype Row = Row(path: Path, item: Item)

  /** What a single item must satisfy, whatever else the bundle holds. */
  predicate Proper(r: Row, u: Unicode, limits: Limits, executables: set<Path>) {
    r.path != [] && ItemProper(r, u, limits) && (r.item.kind.File? ==> FileProper(r, limits, executables))
  }

  /** What any item must satisfy: its name, its place, its attributes. */
  predicate ItemProper(r: Row, u: Unicode, limits: Limits)
    requires r.path != []
  {
    && SafeName(u, r.path[|r.path| - 1])
    && PathBytes(u, r.path) <= limits.pathBytes && |r.path| <= limits.depth
    && r.item.sound && !r.item.kind.OtherKind?
    && (Below(r.path, [CONTENTS, SIGNATURE]) ==> r.path in SIGNED)
    && (r.item.kind.Directory? && |r.path| == 1 ==> r.path[0] == CONTENTS)
  }

  /** What a file must satisfy. */
  predicate FileProper(r: Row, limits: Limits, executables: set<Path>)
    requires r.item.kind.File?
  {
    var f := r.item.kind;
    && Below(r.path, [CONTENTS]) && f.links == 1 && 0 <= f.size <= limits.fileBytes
    && (r.path in SIGNED ==> f.size <= 4 * 1024 * 1024)
    && (r.path == INFO ==> f.size <= 64 * 1024)
    && (r.path == MANIFEST ==> f.size <= limits.manifestBytes)
    && (f.executable || MachO(r) || r.path in executables ==> r.path in executables && f.executable && MachO(r))
  }

  /** The manifest is never read as an executable. */
  predicate MachO(r: Row) {
    r.item.kind.File? && r.path != MANIFEST && r.item.kind.machO
  }

  function SizeOf(r: Row): nat {
    if r.item.kind.File? && r.item.kind.size >= 0 then r.item.kind.size else 0
  }

  function Rows(entries: seq<Entry>, prefix: Path): seq<Row> {
    if entries == [] then []
    else
      var e := entries[0];
      var path := prefix + [e.name];
      [Row(path, e.item)] + (if e.item.kind.Directory? then Rows(e.children, path) else []) + Rows(entries[1..], prefix)
  }

  // ---------------------------------------------------------------- the bundle

  function TotalBytes(rows: seq<Row>): nat {
    if rows == [] then 0 else TotalBytes(rows[..|rows| - 1]) + SizeOf(rows[|rows| - 1])
  }

  predicate NoTwins(rows: seq<Row>, u: Unicode) {
    forall i, j :: 0 <= i < j < |rows| ==> u.lower(rows[i].path) != u.lower(rows[j].path)
  }

  predicate AllProper(rows: seq<Row>, u: Unicode, limits: Limits, executables: set<Path>) {
    forall i :: 0 <= i < |rows| ==> Proper(rows[i], u, limits, executables)
  }

  function Files(rows: seq<Row>): set<Path> {
    set i | 0 <= i < |rows| && rows[i].item.kind.File? :: rows[i].path
  }

  /** Counting the bundle itself the entries are within bounds, so are the bytes, every item is proper,
      and no two paths differ only in case. */
  predicate Bounded(rows: seq<Row>, u: Unicode, limits: Limits, executables: set<Path>) {
    && |rows| + 1 <= limits.entries && TotalBytes(rows) <= limits.totalBytes
    && AllProper(rows, u, limits, executables) && NoTwins(rows, u)
  }

  /** And every executable, signature file, the property list and the manifest are there. */
  predicate Accepted(rows: seq<Row>, u: Unicode, limits: Limits, executables: set<Path>) {
    Bounded(rows, u, limits, executables) && executables + SIGNED + {INFO, MANIFEST} <= Files(rows)
  }

  // ---------------------------------------------------------------- what is demanded, by name

  /** A component that can be joined with slashes and split again, and stays where it is. */
  predicate Component(u: Unicode, c: Name) {
    && c != "" && c != "." && c != ".." && u.utf8(c) <= 255 && u.composed(c)
    && '/' !in c && '\\' !in c && ':' !in c && forall k :: 0 <= k < |c| ==> c[k] as int >= 32 && c[k] as int != 127
  }

  function SumBytes(u: Unicode, path: Path): nat {
    if path == [] then 0 else u.utf8(path[0]) + SumBytes(u, path[1..])
  }

  /** What is demanded of one item, in the source's own names: the path as written, with a slash between
      components, the signature files, the property list, the manifest, and the executables. */
  predicate Demanded(r: Row, u: Unicode, limits: Limits, executables: set<Path>) {
    var path, kind := r.path, r.item.kind;
    && path != [] && Component(u, path[|path| - 1])
    && SumBytes(u, path) + |path| - 1 <= limits.pathBytes && |path| <= limits.depth && r.item.sound
    && (path[..1] == ["Contents"] && |path| > 2 && path[1] == "_CodeSignature" ==>
          |path| == 3 && path[2] in {"CodeDirectory", "CodeRequirements", "CodeResources", "CodeSignature"})
    && match kind
       case Directory => |path| == 1 ==> path == ["Contents"]
       case OtherKind => false
       case File(size, executable, machO, links) =>
         && |path| > 1 && path[0] == "Contents" && links == 1 && 0 <= size <= limits.fileBytes
         && (|path| == 3 && path[1] == "_CodeSignature" ==> size <= 4194304)
         && (path == ["Contents", "Info.plist"] ==> size <= 65536)
         && (path == ["Contents", "Resources", "runtime-manifest.json"] ==> size <= limits.manifestBytes)
         && if path in executables
            then executable && machO && path != ["Contents", "Resources", "runtime-manifest.json"]
            else !executable && (machO ==> path == ["Contents", "Resources", "runtime-manifest.json"])
  }

  lemma {:induction false} PathBytesAre(u: Unicode, path: Path)
    ensures PathBytes(u, path) == if path == [] then 0 else SumBytes(u, path) + |path| - 1
  {
    if |path| > 1 {
      PathBytesAre(u, path[..|path| - 1]);
      SumSnoc(u, path[..|path| - 1], path[|path| - 1]);
      assert path == path[..|path| - 1] + [path[|path| - 1]];
    } else if |path| == 1 {
      assert path[1..] == [];
    }
  }

  lemma {:induction false} SumSnoc(u: Unicode, path: Path, name: Name)
    ensures SumBytes(u, path + [name]) == SumBytes(u, path) + u.utf8(name)
  {
    if path == [] {
      assert (path + [name])[1..] == [];
    } else {
      SumSnoc(u, path[1..], name);
      assert (path + [name])[1..] == path[1..] + [name];
    }
  }

  lemma SafeIsComponent(u: Unicode, name: Name)
    ensures SafeName(u, name) <==> Component(u, name)
  {
    assert forall c: char :: c in "/\\:" <==> c == '/' || c == '\\' || c == ':';
  }

  lemma SignedAre(path: Path)
    ensures path in SIGNED <==>
              |path| == 3 && path[0] == "Contents" && path[1] == "_CodeSignature" &&
              path[2] in {"CodeDirectory", "CodeRequirements", "CodeResources", "CodeSignature"}
  {
    if |path| == 3 {
      assert path == [path[0], path[1], path[2]];
    }
  }

  lemma PlacesAre(path: Path)
    ensures Below(path, [CONTENTS]) <==> |path| > 1 && path[0] == "Contents"
    ensures Below(path, [CONTENTS, SIGNATURE]) <==> |path| > 2 && path[0] == "Contents" && path[1] == "_CodeSignature"
  {
    if |path| > 1 {
      assert path[..1] == [path[0]];
    }
    if |path| > 2 {
      assert path[..2] == [path[0], path[1]];
    }
  }

  lemma ProperIsDemanded(r: Row, u: Unicode, limits: Limits, executables: set<Path>)
    ensures Proper(r, u, limits, executables) <==> Demanded(r, u, limits, executables)
  {
    if r.path != [] {
      PathBytesAre(u, r.path);
      SafeIsComponent(u, r.path[|r.path| - 1]);
      SignedAre(r.path);
      PlacesAre(r.path);
      assert r.path[..1] == [r.path[0]];
      hide PathBytes, SumBytes, SafeName, Component, SIGNED, Below;
      assert ItemProper(r, u, limits) <==>
             && Component(u, r.path[|r.path| - 1])
             && SumBytes(u, r.path) + |r.path| - 1 <= limits.pathBytes && |r.path| <= limits.depth
             && r.item.sound && !r.item.kind.OtherKind?
             && (|r.path| > 2 && r.path[0] == "Contents" && r.path[1] == "_CodeSignature" ==> r.path in SIGNED)
             && (r.item.kind.Directory? && |r.path| == 1 ==> r.path[0] == "Contents");
    }
  }

  /** The sizes of the files, added from the first to the last. */
  function Sizes(rows: seq<Row>): nat {
    if rows == [] then 0
    else (match rows[0].item.kind
          case File(size, _, _, _) => if size < 0 then 0 else size
          case _ => 0) + Sizes(rows[1..])
  }

  lemma {:induction false} TotalIsSizes(rows: seq<Row>)
    ensures TotalBytes(rows) == Sizes(rows)
  {
    if rows != [] {
      TotalIsSizes(rows[1..]);
      assert rows == [rows[0]] + rows[1..] && [rows[0]][..0] == [];
      TotalConcat([rows[0]], rows[1..]);
    }
  }

  /** What a bounded bundle is: as many items and bytes as allowed, each item as demanded, and no two whose
      paths are one but for their case. */
  lemma BoundedMeans(rows: seq<Row>, u: Unicode, limits: Limits, executables: set<Path>)
    ensures Bounded(rows, u, limits, executables) <==>
              && |rows| < limits.entries && Sizes(rows) <= limits.totalBytes
              && (forall i :: 0 <= i < |rows| ==> Demanded(rows[i], u, limits, executables))
              && forall i, j :: 0 <= i < |rows| && 0 <= j < |rows| && i != j ==>
                   u.lower(rows[i].path) != u.lower(rows[j].path)
  {
    TotalIsSizes(rows);
    forall i | 0 <= i < |rows|
      ensures Proper(rows[i], u, limits, executables) <==> Demanded(rows[i], u, limits, executables)
    {
      ProperIsDemanded(rows[i], u, limits, executables);
    }
    hide Proper, Demanded, TotalBytes, Sizes;
  }

  // ---------------------------------------------------------------- what the walk meets

  /** The item stands at this path below the entries, within directories. */
  ghost predicate Stands(entries: seq<Entry>, q: Path, item: Item)
    decreases |q|
  {
    q != [] && exists e :: e in entries && StandsAt(e, q, item)
  }

  ghost predicate StandsAt(e: Entry, q: Path, item: Item)
    requires q != []
    decreases |q|, 0
  {
    && e.name == q[0]
    && if |q| == 1 then e.item == item else e.item.kind.Directory? && Stands(e.children, q[1..], item)
  }

  function Count(entries: seq<Entry>): nat {
    if entries == [] then 0
    else 1 + (if entries[0].item.kind.Directory? then Count(entries[0].children) else 0) + Count(entries[1..])
  }

  lemma {:induction false} RowsBelow(entries: seq<Entry>, prefix: Path)
    ensures |Rows(entries, prefix)| == Count(entries)
    ensures forall r :: r in Rows(entries, prefix) ==> |r.path| > |prefix| && r.path[..|prefix|] == prefix
  {
    if entries != [] {
      var e := entries[0];
      var path := prefix + [e.name];
      if e.item.kind.Directory? {
        RowsBelow(e.children, path);
        assert forall r :: r in Rows(e.children, path) ==> r.path[..|prefix|] == r.path[..|path|][..|prefix|] == prefix;
      }
      RowsBelow(entries[1..], prefix);
    }
  }

  /** The rows of a bundle are its items: those of the entries, and of what stands in directories. */
  lemma {:induction false} RowsAre(entries: seq<Entry>, prefix: Path, q: Path, item: Item)
    ensures Row(prefix + q, item) in Rows(entries, prefix) <==> Stands(entries, q, item)
  {
    hide Stands, StandsAt, RowsOf;
    if q == [] {
      RowsBelow(entries, prefix);
      assert prefix + q == prefix;
      NothingStands(entries, item);
    } else if entries == [] {
      NoEntries(q, item);
    } else {
      var e := entries[0];
      if e.item.kind.Directory? {
        RowsAre(e.children, prefix + [e.name], q[1..], item);
      }
      RowsAre(entries[1..], prefix, q, item);
      StandsSplit(entries, q, item);
      RowsHead(entries, prefix);
      HeadRowsAre(e, prefix, q, item);
    }
  }

  /** So are the rows of one entry, if those of what is in it are. */
  lemma HeadRowsAre(e: Entry, prefix: Path, q: Path, item: Item)
    requires q != []
    requires e.item.kind.Directory? ==>
               (Row(prefix + [e.name] + q[1..], item) in Rows(e.children, prefix + [e.name]) <==>
                Stands(e.children, q[1..], item))
    ensures Row(prefix + q, item) in RowsOf(e, prefix) <==> StandsAt(e, q, item)
  {
    hide Stands, Rows;
    var path := prefix + [e.name];
    if e.item.kind.Directory? {
      RowsBelow(e.children, path);
      NothingStands(e.children, item);
    }
    OneDeeper(prefix, e.name, q);
  }

  lemma OneDeeper(prefix: Path, name: Name, q: Path)
    requires q != []
    ensures q[0] == name ==> prefix + [name] + q[1..] == prefix + q
    ensures prefix + [name] == prefix + q <==> |q| == 1 && q[0] == name
    ensures |q| > 1 && (prefix + q)[..|prefix| + 1] == prefix + [name] ==> q[0] == name
  {
    var path, whole := prefix + [name], prefix + q;
    assert path[|prefix|] == name && whole[|prefix|] == q[0];
    if |q| == 1 && q[0] == name {
      assert q == [name];
    }
    if |q| > 1 && whole[..|prefix| + 1] == path {
      assert whole[..|prefix| + 1][|prefix|] == q[0];
    }
  }

  lemma NothingStands(entries: seq<Entry>, item: Item)
    ensures !Stands(entries, [], item)
  {
  }

  lemma NoEntries(q: Path, item: Item)
    ensures !Stands([], q, item)
  {
  }

  lemma StandsSplit(entries: seq<Entry>, q: Path, item: Item)
    requires entries != [] && q != []
    ensures Stands(entries, q, item) <==> StandsAt(entries[0], q, item) || Stands(entries[1..], q, item)
  {
    hide StandsAt;
    assert entries == [entries[0]] + entries[1..];
  }

  /** There is a file at this path. */
  ghost predicate FileAt(root: seq<Entry>, q: Path) {
    exists item: Item :: item.kind.File? && Stands(root, q, item)
  }

  /** A bundle is accepted exactly if it has no more items and bytes than allowed, the bundle itself being
      one; each item in it is as demanded; no two have paths that are one but for their case; and every
      executable is there, the four files of the signature, the property list and the manifest. */
  lemma AcceptedExactly(root: seq<Entry>, u: Unicode, limits: Limits, executables: set<Path>)
    ensures Accepted(Rows(root, []), u, limits, executables) <==>
              var rows := Rows(root, []);
              && Count(root) < limits.entries && Sizes(rows) <= limits.totalBytes
              && (forall q, item :: Stands(root, q, item) ==> Demanded(Row(q, item), u, limits, executables))
              && (forall i, j :: 0 <= i < |rows| && 0 <= j < |rows| && i != j ==>
                    u.lower(rows[i].path) != u.lower(rows[j].path))
              && (forall q :: q in executables ==> FileAt(root, q))
              && (forall name :: name in {"CodeDirectory", "CodeRequirements", "CodeResources", "CodeSignature"} ==>
                    FileAt(root, ["Contents", "_CodeSignature", name]))
              && FileAt(root, ["Contents", "Info.plist"])
              && FileAt(root, ["Contents", "Resources", "runtime-manifest.json"])
  {
    var rows := Rows(root, []);
    BoundedMeans(rows, u, limits, executables);
    RowsBelow(root, []);
    RequiredAre(Files(rows), executables);
    hide Bounded, Stands, Demanded, Rows, Files, Sizes;
    forall q, item ensures Row(q, item) in rows <==> Stands(root, q, item) {
      RowsAre(root, [], q, item);
      assert [] + q == q;
    }
    forall q ensures q in Files(rows) <==> FileAt(root, q) {
      FilesAre(rows, q);
    }
    assert forall i :: 0 <= i < |rows| ==> rows[i] == Row(rows[i].path, rows[i].item);
    hide FileAt;
    assert (forall q, item :: Row(q, item) in rows ==> Demanded(Row(q, item), u, limits, executables)) <==>
           (forall i :: 0 <= i < |rows| ==> Demanded(rows[i], u, limits, executables));
  }

  lemma FilesAre(rows: seq<Row>, q: Path)
    ensures q in Files(rows) <==> exists item: Item :: item.kind.File? && Row(q, item) in rows
  {
    if item: Item :| item.kind.File? && Row(q, item) in rows {
      var i :| 0 <= i < |rows| && rows[i] == Row(q, item);
    }
    if q in Files(rows) {
      var i :| 0 <= i < |rows| && rows[i].item.kind.File? && rows[i].path == q;
      assert Row(q, rows[i].item) == rows[i];
    }
  }

  lemma RequiredAre(files: set<Path>, executables: set<Path>)
    ensures executables + SIGNED + {INFO, MANIFEST} <= files <==>
              && (forall q :: q in executables ==> q in files)
              && (forall name :: name in {"CodeDirectory", "CodeRequirements", "CodeResources", "CodeSignature"} ==>
                    ["Contents", "_CodeSignature", name] in files)
              && ["Contents", "Info.plist"] in files && ["Contents", "Resources", "runtime-manifest.json"] in files
  {
    assert executables <= executables + SIGNED + {INFO, MANIFEST};
    assert SIGNED <= executables + SIGNED + {INFO, MANIFEST};
    assert INFO in executables + SIGNED + {INFO, MANIFEST} && MANIFEST in executables + SIGNED + {INFO, MANIFEST};
    forall name | name in {"CodeDirectory", "CodeRequirements", "CodeResources", "CodeSignature"}
      ensures ["Contents", "_CodeSignature", name] in SIGNED
    {
    }
    assert forall q :: q in SIGNED ==>
             q == ["Contents", "_CodeSignature", q[2]] &&
             q[2] in {"CodeDirectory", "CodeRequirements", "CodeResources", "CodeSignature"};
  }

  // ---------------------------------------------------------------- parts of a bundle

  function Lowers(rows: seq<Row>, u: Unicode): set<string> {
    set i | 0 <= i < |rows| :: u.lower(rows[i].path)
  }

  lemma {:induction false} TotalConcat(a: seq<Row>, b: seq<Row>)
    ensures TotalBytes(a + b) == TotalBytes(a) + TotalBytes(b)
  {
    if b == [] {
      assert a + b == a;
    } else {
      TotalConcat(a, b[..|b| - 1]);
      assert (a + b)[..|a + b| - 1] == a + b[..|b| - 1];
    }
  }

  lemma LowersConcat(a: seq<Row>, b: seq<Row>, u: Unicode)
    ensures Lowers(a + b, u) == Lowers(a, u) + Lowers(b, u)
  {
    var all := a + b;
    assert forall i :: 0 <= i < |a| ==> all[i] == a[i];
    assert forall i :: 0 <= i < |b| ==> all[|a| + i] == b[i];
  }

  lemma TwinsConcat(a: seq<Row>, b: seq<Row>, u: Unicode)
    ensures NoTwins(a + b, u) <==> NoTwins(a, u) && NoTwins(b, u) && Lowers(a, u) !! Lowers(b, u)
    ensures Lowers(a + b, u) == Lowers(a, u) + Lowers(b, u)
  {
    LowersConcat(a, b, u);
    var all := a + b;
    assert forall i :: 0 <= i < |a| ==> all[i] == a[i];
    assert forall i :: 0 <= i < |b| ==> all[|a| + i] == b[i];
    if NoTwins(all, u) {
      forall s | s in Lowers(a, u) ensures s !in Lowers(b, u) {
        var i :| 0 <= i < |a| && u.lower(a[i].path) == s;
        assert all[i] == a[i];
        assert forall j :: 0 <= j < |b| ==> u.lower(b[j].path) != s;
      }
    }
    if NoTwins(a, u) && NoTwins(b, u) && Lowers(a, u) !! Lowers(b, u) {
      TwinsApart(a, b, u);
    }
  }

  lemma TwinsApart(a: seq<Row>, b: seq<Row>, u: Unicode)
    requires NoTwins(a, u) && NoTwins(b, u) && Lowers(a, u) !! Lowers(b, u)
    ensures NoTwins(a + b, u)
  {
    var all := a + b;
    forall i, j | 0 <= i < j < |all| ensures u.lower(all[i].path) != u.lower(all[j].path) {
      if i < |a| <= j {
        assert u.lower(a[i].path) in Lowers(a, u) && u.lower(b[j - |a|].path) in Lowers(b, u);
      }
    }
  }

  lemma FilesConcat(a: seq<Row>, b: seq<Row>)
    ensures Files(a + b) == Files(a) + Files(b)
  {
    var all := a + b;
    assert forall i :: 0 <= i < |a| ==> all[i] == a[i];
    assert forall i :: 0 <= i < |b| ==> all[|a| + i] == b[i];
  }

  lemma ProperConcat(a: seq<Row>, b: seq<Row>, u: Unicode, limits: Limits, executables: set<Path>)
    ensures AllProper(a + b, u, limits, executables) <==>
            AllProper(a, u, limits, executables) && AllProper(b, u, limits, executables)
  {
    hide Proper;
    var all := a + b;
    assert forall i :: 0 <= i < |a| ==> all[i] == a[i];
    assert forall i :: 0 <= i < |b| ==> all[|a| + i] == b[i];
  }

  /** A bundle is bounded exactly when its parts are, together. */
  lemma BoundedConcat(a: seq<Row>, b: seq<Row>, u: Unicode, limits: Limits, executables: set<Path>)
    ensures Bounded(a + b, u, limits, executables) <==>
              && |a| + |b| + 1 <= limits.entries && TotalBytes(a) + TotalBytes(b) <= limits.totalBytes
              && AllProper(a, u, limits, executables) && AllProper(b, u, limits, executables)
              && NoTwins(a, u) && NoTwins(b, u) && Lowers(a, u) !! Lowers(b, u)
  {
    hide TotalBytes, NoTwins, AllProper, Lowers;
    TotalConcat(a, b);
    TwinsConcat(a, b, u);
    ProperConcat(a, b, u, limits, executables);
  }

  /** What is not bounded stays so whatever is added. */
  lemma BoundedPrefix(a: seq<Row>, b: seq<Row>, u: Unicode, limits: Limits, executables: set<Path>)
    ensures Bounded(a + b, u, limits, executables) ==> Bounded(a, u, limits, executables)
  {
    hide TotalBytes, NoTwins, AllProper, Lowers;
    BoundedConcat(a, b, u, limits, executables);
  }

  // ---------------------------------------------------------------- the walk

  /** What the walk keeps of the items met. */
  datatype Tally = Tally(entries: nat, bytes: nat, paths: set<string>, files: set<Path>, executables: set<Path>,
                         manifest: bool, infoPlist: bool)

  /** The tally with one more item, and with one more file. */
  function WithItem(t: Tally, r: Row, u: Unicode): Tally {
    t.(entries := t.entries + 1, paths := t.paths + {u.lower(r.path)})
  }

  function WithFile(t: Tally, r: Row, policy: set<Path>): Tally {
    t.(bytes := t.bytes + SizeOf(r), files := t.files + {r.path}, executables := t.executables + {r.path} * policy,
       manifest := t.manifest || r.path == MANIFEST, infoPlist := t.infoPlist || r.path == INFO)
  }

  ghost predicate Tallied(seen: seq<Row>, u: Unicode, policy: set<Path>, t: Tally) {
    && t.entries == |seen| + 1 && t.bytes == TotalBytes(seen) && t.paths == Lowers(seen, u)
    && t.files == Files(seen) && t.executables == Files(seen) * policy
    && (t.manifest <==> MANIFEST in Files(seen)) && (t.infoPlist <==> INFO in Files(seen))
  }

  class Inventory {
    const u: Unicode
    const limits: Limits
    const policy: set<Path>

    var entries: nat
    var bytes: nat
    var paths: set<string>
    var files: set<Path>
    var executables: set<Path>
    var manifest: bool
    var infoPlist: bool

    /** The items met so far. */
    ghost var seen: seq<Row>

    ghost function Now(): Tally
      reads this
    {
      Tally(entries, bytes, paths, files, executables, manifest, infoPlist)
    }

    ghost predicate Valid()
      reads this
    {
      Ordered(limits) && Bounded(seen, u, limits, policy) && Tallied(seen, u, policy, Now())
    }

    constructor (u: Unicode, limits: Limits, policy: set<Path>)
      requires Ordered(limits)
      ensures Valid() && seen == [] && this.u == u && this.limits == limits && this.policy == policy
    {
      this.u, this.limits, this.policy := u, limits, policy;
      entries, bytes, paths, files, executables := 1, 0, {}, {}, {};
      manifest, infoPlist, seen := false, false, [];
    }

    /** The checks on a file. The byte count is compared by a subtraction that cannot be negative. */
    method AdmitFile(path: Path, item: Item) returns (ok: bool)
      requires item.kind.File? && path != [] && Ordered(limits)
      modifies `bytes, `files, `executables, `manifest, `infoPlist
      ensures ok <==>
              FileProper(Row(path, item), limits, policy) && old(bytes) + SizeOf(Row(path, item)) <= limits.totalBytes
      ensures ok ==> Now() == WithFile(old(Now()), Row(path, item), policy)
    {
      var f := item.kind;
      if !Below(path, [CONTENTS]) || f.links != 1 {
        return false;
      }
      if f.size < 0 || f.size > limits.fileBytes {
        return false;
      }
      var room: nat := limits.totalBytes - f.size;
      if bytes > room {
        return false;
      }
      bytes := bytes + f.size;
      files := files + {path};
      if path in SIGNED && f.size > 4 * 1024 * 1024 {
        return false;
      }
      if path == INFO {
        if f.size > 64 * 1024 {
          return false;
        }
        infoPlist := true;
      }
      if path == MANIFEST {
        if f.size > limits.manifestBytes {
          return false;
        }
        manifest := true;
      }
      var machO := path != MANIFEST && f.machO;
      if f.executable || machO || path in policy {
        if path !in policy || !f.executable || !machO {
          return false;
        }
        executables := executables + {path};
      }
      return true;
    }

    /** The checks on an item's name, place and attributes. */
    method AdmitItem(path: Path, item: Item) returns (ok: bool)
      requires path != []
      modifies `entries, `paths
      ensures ok <==>
                && old(entries) + 1 <= limits.entries && u.lower(path) !in old(paths)
                && ItemProper(Row(path, item), u, limits)
      ensures ok ==> Now() == WithItem(old(Now()), Row(path, item), u)
    {
      hide SafeName, PathBytes, Below;
      if !SafeName(u, path[|path| - 1]) {
        return false;
      }
      entries := entries + 1;
      if entries > limits.entries || PathBytes(u, path) > limits.pathBytes || |path| > limits.depth {
        return false;
      }
      if u.lower(path) in paths {
        return false;
      }
      paths := paths + {u.lower(path)};
      if !item.sound || (Below(path, [CONTENTS, SIGNATURE]) && path !in SIGNED) || item.kind.OtherKind? {
        return false;
      }
      if item.kind.Directory? && |path| == 1 && path[0] != CONTENTS {
        return false;
      }
      return true;
    }

    /** The checks on one item, before anything below it is met. */
    method Admit(path: Path, item: Item) returns (ok: bool)
      requires Valid() && path != []
      modifies this
      ensures ok ==> Valid() && seen == old(seen) + [Row(path, item)]
      ensures ok <==> Bounded(old(seen) + [Row(path, item)], u, limits, policy)
    {
      ghost var row := Row(path, item);
      Admitted(seen, row, u, limits, policy, Now());
      hide FileProper, ItemProper, SizeOf, Bounded, Tallied, Ordered, WithItem, WithFile;
      ok := AdmitItem(path, item);
      if !ok {
        return;
      }
      if item.kind.File? {
        ok := AdmitFile(path, item);
        if !ok {
          return;
        }
      }
      seen := seen + [row];
    }

    /** The items in a directory and below it, in the order in which they are read. */
    method InspectDirectory(children: seq<Entry>, prefix: Path) returns (ok: bool)
      requires Valid()
      modifies this
      ensures ok ==> Valid() && seen == old(seen) + Rows(children, prefix)
      ensures ok <==> Bounded(old(seen) + Rows(children, prefix), u, limits, policy)
      decreases children
    {
      hide Bounded, Rows, Tallied, Ordered, Lowers, Files, TotalBytes;
      ghost var whole := seen + Rows(children, prefix);
      NoneSeen(seen, children, prefix);
      for k := 0 to |children|
        invariant Valid() && seen + Rows(children[k..], prefix) == whole
      {
        var e := children[k];
        var path := prefix + [e.name];
        RowsStep(children, k, prefix);
        ghost var below, rest := if e.item.kind.Directory? then Rows(e.children, path) else [],
          Rows(children[k + 1..], prefix);
        Apart(seen, Row(path, e.item), below, rest);
        BoundedPrefix(seen + [Row(path, e.item)], below + rest, u, limits, policy);
        BoundedPrefix(seen + [Row(path, e.item)] + below, rest, u, limits, policy);
        ok := Admit(path, e.item);
        if !ok {
          return;
        }
        if e.item.kind.Directory? {
          ok := InspectDirectory(e.children, path);
          if !ok {
            return;
          }
        }
      }
      NoneSeen(seen, children[|children|..], prefix);
      ok := true;
    }

    /** The final guard: everything required is there. */
    predicate Complete()
      reads this
    {
      executables == policy && SIGNED <= files && infoPlist && manifest
    }
  }

  lemma RowsStep(children: seq<Entry>, k: nat, prefix: Path)
    requires k < |children|
    ensures var e := children[k];
            Rows(children[k..], prefix) ==
            [Row(prefix + [e.name], e.item)] +
              (if e.item.kind.Directory? then Rows(e.children, prefix + [e.name]) else []) +
            Rows(children[k + 1..], prefix)
  {
    assert children[k..][0] == children[k] && children[k..][1..] == children[k + 1..];
  }

  lemma Apart(seen: seq<Row>, row: Row, below: seq<Row>, rest: seq<Row>)
    ensures seen + ([row] + below + rest) == seen + [row] + (below + rest) == seen + [row] + below + rest
  {
  }

  lemma NoneSeen(seen: seq<Row>, children: seq<Entry>, prefix: Path)
    ensures children[0..] == children && (children == [] ==> seen + Rows(children, prefix) == seen)
  {
  }

  lemma MoreFiles(files: set<Path>, path: Path, policy: set<Path>)
    ensures (files + {path}) * policy == files * policy + {path} * policy
  {
  }

  /** What one more item needs, told from the tally, and the tally then. */
  lemma Admitted(seen: seq<Row>, row: Row, u: Unicode, limits: Limits, policy: set<Path>, t: Tally)
    requires Bounded(seen, u, limits, policy) && Tallied(seen, u, policy, t) && row.path != []
    ensures Bounded(seen + [row], u, limits, policy) <==>
              && t.entries + 1 <= limits.entries && u.lower(row.path) !in t.paths && ItemProper(row, u, limits)
              && (row.item.kind.File? ==> FileProper(row, limits, policy) && t.bytes + SizeOf(row) <= limits.totalBytes)
    ensures var more := WithItem(t, row, u);
            Tallied(seen + [row], u, policy, if row.item.kind.File? then WithFile(more, row, policy) else more)
  {
    hide FileProper, ItemProper, TotalBytes, NoTwins, AllProper, Lowers, Files;
    OneMore(seen, row, u, limits, policy);
    MoreFiles(Files(seen), row.path, policy);
  }

  /** What one more item needs and adds. */
  lemma OneMore(seen: seq<Row>, row: Row, u: Unicode, limits: Limits, executables: set<Path>)
    requires Bounded(seen, u, limits, executables)
    ensures Bounded(seen + [row], u, limits, executables) <==>
              && |seen| + 2 <= limits.entries && TotalBytes(seen) + SizeOf(row) <= limits.totalBytes
              && Proper(row, u, limits, executables) && u.lower(row.path) !in Lowers(seen, u)
    ensures TotalBytes(seen + [row]) == TotalBytes(seen) + SizeOf(row)
    ensures Lowers(seen + [row], u) == Lowers(seen, u) + {u.lower(row.path)}
    ensures Files(seen + [row]) == if row.item.kind.File? then Files(seen) + {row.path} else Files(seen)
  {
    hide TotalBytes, NoTwins, AllProper, Lowers, Files, Proper, SizeOf;
    BoundedConcat(seen, [row], u, limits, executables);
    OneRow(row, u, limits, executables);
    FilesConcat(seen, [row]);
    TotalConcat(seen, [row]);
    TwinsConcat(seen, [row], u);
  }

  lemma OneRow(row: Row, u: Unicode, limits: Limits, executables: set<Path>)
    ensures NoTwins([row], u) && Lowers([row], u) == {u.lower(row.path)} && TotalBytes([row]) == SizeOf(row)
    ensures Files([row]) == if row.item.kind.File? then {row.path} else {}
    ensures AllProper([row], u, limits, executables) <==> Proper(row, u, limits, executables)
  {
    hide Proper;
    assert [row][0] == row && [row][..0] == [];
  }

  /** The walk over the whole bundle and the final guard accept exactly the bundles that meet the
      predicate. */
  method Verify(root: seq<Entry>, u: Unicode, limits: Limits, executables: set<Path>) returns (accepted: bool)
    requires Ordered(limits)
    ensures accepted <==> Accepted(Rows(root, []), u, limits, executables)
  {
    var inventory := new Inventory(u, limits, executables);
    accepted := inventory.InspectDirectory(root, []);
    assert [] + Rows(root, []) == Rows(root, []);
    if accepted {
      accepted := inventory.Complete();
      Required(Files(Rows(root, [])), executables);
    }
  }

  lemma Required(files: set<Path>, executables: set<Path>)
    ensures executables + SIGNED + {INFO, MANIFEST} <= files <==>
              files * executables == executables && SIGNED <= files && INFO in files && MANIFEST in files
  {
    assert executables <= executables + SIGNED + {INFO, MANIFEST};
    assert SIGNED <= executables + SIGNED + {INFO, MANIFEST};
    assert INFO in executables + SIGNED + {INFO, MANIFEST} && MANIFEST in executables + SIGNED + {INFO, MANIFEST};
    assert files * executables == executables <==> executables <= files by {
      assert files * executables <= files;
    }
  }

  // ---------------------------------------------------------------- the order of reading

  /** The same entries, listed in any order, at every depth. */
  ghost predicate Reread(a: seq<Entry>, b: seq<Entry>)
    decreases a
  {
    if a == [] then b == []
    else exists k: nat :: k < |b| && SameEntry(a[0], b[k]) && Reread(a[1..], b[..k] + b[k + 1..])
  }

  ghost predicate SameEntry(x: Entry, y: Entry)
    decreases x
  {
    x.name == y.name && x.item == y.item && (x.item.kind.Directory? ==> Reread(x.children, y.children))
  }

  lemma {:induction false} RowsConcat(a: seq<Entry>, b: seq<Entry>, prefix: Path)
    ensures Rows(a + b, prefix) == Rows(a, prefix) + Rows(b, prefix)
    decreases |a|
  {
    if a == [] {
      assert a + b == b && Rows(a, prefix) + Rows(b, prefix) == Rows(b, prefix);
    } else {
      RowsConcat(a[1..], b, prefix);
      RowsHead(a, prefix);
      RowsHead(a + b, prefix);
      assert (a + b)[1..] == a[1..] + b && (a + b)[0] == a[0];
      hide Rows;
      Regroup(RowsOf(a[0], prefix), Rows(a[1..], prefix), Rows(b, prefix));
    }
  }

  function RowsOf(e: Entry, prefix: Path): seq<Row> {
    [Row(prefix + [e.name], e.item)] + if e.item.kind.Directory? then Rows(e.children, prefix + [e.name]) else []
  }

  lemma RowsHead(a: seq<Entry>, prefix: Path)
    requires a != []
    ensures Rows(a, prefix) == RowsOf(a[0], prefix) + Rows(a[1..], prefix)
  {
  }

  lemma RowsOne(e: Entry, prefix: Path)
    ensures Rows([e], prefix) == RowsOf(e, prefix)
  {
    RowsHead([e], prefix);
    assert [e][1..] == [] && RowsOf(e, prefix) + [] == RowsOf(e, prefix);
  }

  lemma RowsAt(b: seq<Entry>, k: nat, prefix: Path)
    requires k < |b|
    ensures multiset(Rows(b, prefix)) == multiset(RowsOf(b[k], prefix)) + multiset(Rows(b[..k] + b[k + 1..], prefix))
  {
    hide Rows, RowsOf;
    assert b == b[..k] + [b[k]] + b[k + 1..];
    RowsConcat(b[..k] + [b[k]], b[k + 1..], prefix);
    RowsConcat(b[..k], [b[k]], prefix);
    RowsConcat(b[..k], b[k + 1..], prefix);
    RowsOne(b[k], prefix);
  }

  /** Reading in another order finds the same items, each as often. */
  lemma {:induction false} RereadRows(a: seq<Entry>, b: seq<Entry>, prefix: Path)
    requires Reread(a, b)
    ensures multiset(Rows(a, prefix)) == multiset(Rows(b, prefix))
    decreases a
  {
    if a != [] {
      var k: nat :| k < |b| && SameEntry(a[0], b[k]) && Reread(a[1..], b[..k] + b[k + 1..]);
      RowsHead(a, prefix);
      RowsAt(b, k, prefix);
      RereadRows(a[1..], b[..k] + b[k + 1..], prefix);
      if a[0].item.kind.Directory? {
        RereadRows(a[0].children, b[k].children, prefix + [a[0].name]);
      }
      hide Rows, Reread;
    }
  }

  lemma BlocksAccepted(p: seq<Row>, x: seq<Row>, y: seq<Row>, s: seq<Row>, u: Unicode, limits: Limits,
                       executables: set<Path>)
    ensures Accepted(p + x + y + s, u, limits, executables) ==> Accepted(p + y + x + s, u, limits, executables)
  {
    hide TotalBytes, NoTwins, AllProper, Lowers, Files;
    TotalConcat(p + x + y, s);
    TotalConcat(p + x, y);
    TotalConcat(p, x);
    TotalConcat(p + y + x, s);
    TotalConcat(p + y, x);
    TotalConcat(p, y);
    ProperConcat(p + x + y, s, u, limits, executables);
    ProperConcat(p + x, y, u, limits, executables);
    ProperConcat(p, x, u, limits, executables);
    ProperConcat(p + y + x, s, u, limits, executables);
    ProperConcat(p + y, x, u, limits, executables);
    ProperConcat(p, y, u, limits, executables);
    TwinsMove(p, x, y, s, u);
    FilesMove(p, x, y, s);
  }

  lemma TwinsMove(p: seq<Row>, x: seq<Row>, y: seq<Row>, s: seq<Row>, u: Unicode)
    ensures NoTwins(p + x + y + s, u) ==> NoTwins(p + y + x + s, u)
  {
    hide NoTwins, Lowers;
    TwinsConcat(p + x + y, s, u);
    TwinsConcat(p + x, y, u);
    TwinsConcat(p, x, u);
    TwinsConcat(p + y + x, s, u);
    TwinsConcat(p + y, x, u);
    TwinsConcat(p, y, u);
  }

  lemma FilesMove(p: seq<Row>, x: seq<Row>, y: seq<Row>, s: seq<Row>)
    ensures Files(p + x + y + s) == Files(p + y + x + s)
  {
    hide Files;
    FilesConcat(p + x + y, s);
    FilesConcat(p + x, y);
    FilesConcat(p, x);
    FilesConcat(p + y + x, s);
    FilesConcat(p + y, x);
    FilesConcat(p, y);
  }

  lemma {:induction false} PermutedAccepted(
    p: seq<Row>, x: seq<Row>, y: seq<Row>, u: Unicode, limits: Limits, executables: set<Path>)
    requires multiset(x) == multiset(y)
    ensures Accepted(p + x, u, limits, executables) <==> Accepted(p + y, u, limits, executables)
    decreases |x|
  {
    hide Accepted;
    if x == [] {
      assert |multiset(y)| == |multiset(x)|;
    } else {
      var k := PlaceOf(x, y);
      var head, before, after := [x[0]], y[..k], y[k + 1..];
      Apart(p, x[0], before, after);
      assert p + y == p + before + head + after;
      assert p + head + before + after == p + head + (before + after) && p + x == p + head + x[1..];
      BlocksAccepted(p, before, head, after, u, limits, executables);
      BlocksAccepted(p, head, before, after, u, limits, executables);
      PermutedAccepted(p + head, x[1..], before + after, u, limits, executables);
    }
  }

  lemma Cancel(h: multiset<Row>, m: multiset<Row>, a: multiset<Row>, b: multiset<Row>)
    requires h + m == a + h + b
    ensures m == a + b
  {
    assert m == (h + m) - h;
    assert a + b == (a + h + b) - h;
  }

  /** Where the first item stands in the other order; without it the rest are again alike. */
  lemma PlaceOf(x: seq<Row>, y: seq<Row>) returns (k: nat)
    requires x != [] && multiset(x) == multiset(y)
    ensures k < |y| && y == y[..k] + [x[0]] + y[k + 1..] && multiset(x[1..]) == multiset(y[..k] + y[k + 1..])
  {
    assert x[0] in multiset(x);
    assert x[0] in y;
    k :| k < |y| && y[k] == x[0];
    var head, before, after := [x[0]], y[..k], y[k + 1..];
    assert y == before + head + after && x == head + x[1..];
    Cancel(multiset(head), multiset(x[1..]), multiset(before), multiset(after));
  }

  /** A bundle is accepted in every order in which its directories may be read, or in none. */
  lemma OrderDoesNotMatter(a: seq<Entry>, b: seq<Entry>, u: Unicode, limits: Limits, executables: set<Path>)
    requires Reread(a, b)
    ensures Accepted(Rows(a, []), u, limits, executables) <==> Accepted(Rows(b, []), u, limits, executables)
  {
    hide Accepted, Rows, Reread;
    RereadRows(a, b, []);
    PermutedAccepted([], Rows(a, []), Rows(b, []), u, limits, executables);
    assert [] + Rows(a, []) == Rows(a, []) && [] + Rows(b, []) == Rows(b, []);
  }
}
