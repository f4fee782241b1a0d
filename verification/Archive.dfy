/** The reproducible root archive of runtime/native/archive-root.py: how one filesystem entry is
    numbered, hashed, recorded and written, and the object that streams it under a byte limit. */
module Archive {
  import opened Prelude
  import opened Newc

  // ---------------------------------------------------------------- inputs

  datatype Stat = Stat(
    dev: int, ino: int, mode: int, uid: int, gid: int, links: int, mtime: int, size: int,
    rdevMajor: int, rdevMinor: int)

  /** What opening and reading a regular file finds: the stat checks before and after, and the bytes. */
  datatype DiskFile = DiskFile(sameBefore: bool, content: Bytes, sameAfter: bool)

  /** One call of `entry`: `data` is given for symbolic links and for replaced files. */
  datatype Item = Item(name: Bytes, info: Stat, data: Option<Bytes>, disk: DiskFile)

  datatype Params = Params(
    sourceDateEpoch: Option<int>, normalize: bool, maximumBytes: int, maximumEntries: int,
    sha256: Bytes -> Bytes)

  function FileType(mode: int): int {
    (mode / 0x1000) % 16
  }

  predicate IsRegular(mode: int) { FileType(mode) == 8 }

  predicate IsSymlink(mode: int) { FileType(mode) == 10 }

  predicate IsSocket(mode: int) { FileType(mode) == 12 }

  predicate IsDevice(mode: int) { FileType(mode) == 2 || FileType(mode) == 6 }

  // ---------------------------------------------------------------- state

  /** Generated entries carry the device -1 and are told apart by name. */
  datatype Key = Real(dev: int, ino: int) | Generated(name: Bytes)

  datatype Record = Record(
    path: Bytes, mode: int, uid: int, gid: int, inode: int, links: int, mtime: int, bytes: int,
    sha256: Option<Bytes>, target: Option<Bytes>, device: Option<(int, int)>)

  datatype State = State(
    members: seq<Member>, inodes: map<Key, int>, written: set<Key>, hashes: map<Key, Bytes>,
    inventory: seq<Record>)

  const INIT := State([], map[], {}, map[], [])

  function KeyOf(it: Item): Key {
    if it.info.dev != -1 then Real(it.info.dev, it.info.ino) else Generated(it.name)
  }

  function Numbered(inodes: map<Key, int>, key: Key): (r: map<Key, int>)
    ensures key in r
  {
    if key in inodes then inodes else inodes[key := |inodes| + 1]
  }

  predicate Duplicate(written: set<Key>, it: Item) {
    IsRegular(it.info.mode) && KeyOf(it) in written
  }

  predicate ReadsDisk(it: Item, duplicate: bool) {
    it.data.None? && IsRegular(it.info.mode) && !duplicate
  }

  function SizeOf(it: Item, duplicate: bool): int {
    if it.data.Some? then |it.data.value|
    else if ReadsDisk(it, duplicate) then it.info.size
    else 0
  }

  function MtimeOf(it: Item, p: Params): int {
    if p.normalize && p.sourceDateEpoch.Some? then p.sourceDateEpoch.value else it.info.mtime
  }

  /** The thirteen header values in newc order, before the range check. */
  function RawFields(it: Item, inode: int, duplicate: bool, p: Params): seq<int> {
    [inode, it.info.mode, it.info.uid, it.info.gid, it.info.links, MtimeOf(it, p), SizeOf(it, duplicate),
     0, 0, it.info.rdevMajor, it.info.rdevMinor, |it.name| + 1, 0]
  }

  predicate InRange(values: seq<int>) {
    forall i :: 0 <= i < |values| ==> 0 <= values[i] <= 0xFFFF_FFFF
  }

  /** The bytes an entry contributes, unless the file changed while it was read. */
  function ContentOf(it: Item, duplicate: bool): Option<Bytes> {
    if it.data.Some? then it.data
    else if ReadsDisk(it, duplicate) then
      if it.disk.sameBefore && 0 <= it.info.size <= |it.disk.content| && it.disk.sameAfter
      then Some(it.disk.content[..it.info.size])
      else None
    else Some([])
  }

  function MemberOf(it: Item, inode: int, duplicate: bool, p: Params): (r: Option<Member>)
    ensures r.Some? ==> Consistent(r.value)
  {
    var raw := RawFields(it, inode, duplicate, p);
    var content := ContentOf(it, duplicate);
    if !InRange(raw) || content.None? then None
    else
      var words: seq<Word> := raw;
      Some(Member(FromWords(words), it.name, content.value))
  }

  function RecordOf(it: Item, inode: int, duplicate: bool, hashes: map<Key, Bytes>, p: Params): Record {
    var mode := it.info.mode;
    Record(it.name, mode, it.info.uid, it.info.gid, inode, it.info.links, MtimeOf(it, p), SizeOf(it, duplicate),
           if (IsRegular(mode) || IsSymlink(mode)) && KeyOf(it) in hashes then Some(hashes[KeyOf(it)]) else None,
           if IsSymlink(mode) then it.data else None,
           if IsDevice(mode) then Some((it.info.rdevMajor, it.info.rdevMinor)) else None)
  }

  function Hashed(hashes: map<Key, Bytes>, it: Item, duplicate: bool, content: Bytes, p: Params): map<Key, Bytes> {
    if duplicate then hashes else hashes[KeyOf(it) := p.sha256(content)]
  }

  /** One entry: the next state, or None when the exporter raises. */
  function Emit(st: State, it: Item, p: Params): Option<State> {
    if |st.inventory| >= p.maximumEntries then None else
    var inodes := Numbered(st.inodes, KeyOf(it));
    var duplicate := Duplicate(st.written, it);
    var member := MemberOf(it, inodes[KeyOf(it)], duplicate, p);
    if member.None? || |EncodeAll(st.members)| + |Encode(member.value)| > p.maximumBytes then None else
    var hashes := Hashed(st.hashes, it, duplicate, member.value.content, p);
    Some(State(
      st.members + [member.value], inodes, st.written + {KeyOf(it)}, hashes,
      st.inventory + [RecordOf(it, inodes[KeyOf(it)], duplicate, hashes, p)]))
  }

  /** A walk yields entries to emit, or meets a live socket, which cannot be exported. */
  datatype Visit = Emits(item: Item) | LiveSocket

  function Step(st: State, visit: Visit, p: Params): Option<State> {
    match visit
    case Emits(item) => Emit(st, item, p)
    case LiveSocket => None
  }

  function EmitAll(st: State, visits: seq<Visit>, p: Params): Option<State> {
    if visits == [] then Some(st)
    else
      var before := EmitAll(st, visits[..|visits| - 1], p);
      if before.None? then None else Step(before.value, visits[|visits| - 1], p)
  }

  lemma {:induction false} EmitAllConcat(st: State, a: seq<Visit>, b: seq<Visit>, p: Params)
    ensures EmitAll(st, a + b, p) ==
            if EmitAll(st, a, p).None? then None else EmitAll(EmitAll(st, a, p).value, b, p)
  {
    hide Step;
    if b == [] {
      assert a + b == a;
    } else {
      assert (a + b)[..|a + b| - 1] == a + b[..|b| - 1];
      EmitAllConcat(st, a, b[..|b| - 1], p);
    }
  }

  // ---------------------------------------------------------------- the streaming exporter

  class Exporter {
    const p: Params
    var output: Bytes
    var byteCount: nat
    var inodes: map<Key, int>
    var written: set<Key>
    var hashes: map<Key, Bytes>
    var inventory: seq<Record>
    ghost var members: seq<Member>

    ghost function View(): State
      reads this
    {
      State(members, inodes, written, hashes, inventory)
    }

    ghost predicate Bounded()
      reads this
    {
      output == [] || |output| <= p.maximumBytes
    }

    ghost predicate Valid()
      reads this
    {
      output == EncodeAll(members) && byteCount == |output| && Bounded()
    }

    constructor (p: Params)
      ensures this.p == p && Valid() && View() == INIT
    {
      this.p := p;
      output, byteCount, inodes, written, hashes, inventory, members := [], 0, map[], {}, map[], [], [];
      new;
      NoMembers();
    }

    /** Nothing reaches the output once the limit would be passed. */
    method Write(data: Bytes) returns (ok: bool)
      requires Bounded() && byteCount == |output|
      modifies `output, `byteCount
      ensures ok == (old(byteCount) + |data| <= p.maximumBytes)
      ensures byteCount == old(byteCount) + |data|
      ensures output == if ok then old(output) + data else old(output)
      ensures Bounded()
    {
      byteCount := byteCount + |data|;
      ok := byteCount <= p.maximumBytes;
      if ok {
        output := output + data;
      }
    }

    /** Copies a regular file in chunks of at most 1 MiB. */
    method CopyFile(disk: DiskFile, size: nat) returns (ok: bool, content: Bytes)
      requires Bounded() && byteCount == |output|
      modifies `output, `byteCount
      ensures Bounded() && old(output) <= output
      ensures ok == (disk.sameBefore && disk.sameAfter && size <= |disk.content| &&
                     (size == 0 || old(byteCount) + size <= p.maximumBytes))
      ensures ok ==> content == disk.content[..size] && output == old(output) + content && byteCount == |output|
    {
      content := [];
      if !disk.sameBefore {
        return false, content;
      }
      var remaining := size;
      while remaining > 0
        invariant 0 <= remaining <= size && size - remaining <= |disk.content|
        invariant content == disk.content[..size - remaining]
        invariant output == old(output) + content
        invariant byteCount == old(byteCount) + size - remaining && Bounded()
        invariant remaining < size ==> byteCount <= p.maximumBytes
      {
        var at := size - remaining;
        var wanted := if remaining < 1024 * 1024 then remaining else 1024 * 1024;
        var end := if at + wanted <= |disk.content| then at + wanted else |disk.content|;
        var chunk := disk.content[at..end];
        if chunk == [] {
          return false, content;
        }
        ok := Write(chunk);
        if !ok {
          return;
        }
        SliceGrows(disk.content, at, end);
        Associate(old(output), content, chunk);
        content := content + chunk;
        remaining := remaining - |chunk|;
      }
      ok := disk.sameAfter;
    }

    method WriteHead(header: Header, name: Bytes) returns (ok: bool)
      requires Bounded() && byteCount == |output|
      modifies `output, `byteCount
      ensures ok == (old(byteCount) + |EncodeHead(header, name)| <= p.maximumBytes)
      ensures Bounded() && old(output) <= output
      ensures ok ==> output == old(output) + EncodeHead(header, name) && byteCount == |output|
    {
      hide Fields, Words, Zeros;
      HeadShape(header, name, old(output));
      ok := Write(MAGIC + Fields(Words(header)));
      if ok {
        ok := Write(name + [0]);
      }
      if ok {
        ok := Write(Zeros(Pad(110 + |name| + 1)));
      }
    }

    /** Range check, header, name, content and padding of one entry. */
    method WriteMember(it: Item, inode: int, duplicate: bool) returns (ok: bool, content: Bytes)
      requires Bounded() && byteCount == |output|
      modifies `output, `byteCount
      ensures Bounded() && old(output) <= output
      ensures var m := MemberOf(it, inode, duplicate, p);
              ok == (m.Some? && old(byteCount) + |Encode(m.value)| <= p.maximumBytes) &&
              (ok ==> content == m.value.content && output == old(output) + Encode(m.value) && byteCount == |output|)
    {
      hide Encode, EncodeHead, Zeros;
      content := [];
      var raw := RawFields(it, inode, duplicate, p);
      if !InRange(raw) {
        return false, content;
      }
      var words: seq<Word> := raw;
      var header := FromWords(words);
      ghost var m := MemberOf(it, inode, duplicate, p);
      if m.Some? {
        MemberShape(m.value, old(output));
      }
      ok := WriteHead(header, it.name);
      if !ok {
        return;
      }
      if it.data.Some? {
        content := it.data.value;
        ok := Write(content);
      } else if IsRegular(it.info.mode) && !duplicate {
        assert raw[6] == it.info.size;
        ok, content := CopyFile(it.disk, it.info.size);
      }
      if !ok {
        return;
      }
      assert content == m.value.content;
      ok := Write(Zeros(Pad(|content|)));
    }

    /** `entry`: succeeds exactly when the specification does, and then reaches its state. */
    method Entry(it: Item) returns (ok: bool)
      requires Valid()
      modifies this
      ensures Bounded() && old(output) <= output
      ensures ok == Emit(old(View()), it, p).Some?
      ensures ok ==> Valid() && View() == Emit(old(View()), it, p).value
    {
      hide EncodeAll, Encode, EncodeHead, MemberOf, RecordOf;
      if |inventory| >= p.maximumEntries {
        return false;
      }
      var key := KeyOf(it);
      if key !in inodes {
        inodes := inodes[key := |inodes| + 1];
      }
      var inode := inodes[key];
      var duplicate := Duplicate(written, it);
      var content: Bytes;
      ok, content := WriteMember(it, inode, duplicate);
      if ok {
        ghost var m := MemberOf(it, inode, duplicate, p).value;
        EncodeAllSnoc(members, m);
        if !duplicate {
          hashes := hashes[key := p.sha256(content)];
        }
        inventory := inventory + [RecordOf(it, inode, duplicate, hashes, p)];
        written := written + {key};
        members := members + [m];
      }
    }
  }

  lemma SliceGrows(s: Bytes, at: nat, end: nat)
    requires at <= end <= |s|
    ensures s[..at] + s[at..end] == s[..end]
  {
  }

  lemma HeadShape(header: Header, name: Bytes, before: Bytes)
    ensures var fields, pad := MAGIC + Fields(Words(header)), Zeros(Pad(110 + |name| + 1));
            before + EncodeHead(header, name) == before + fields + (name + [0]) + pad
  {
    hide Fields, Words, Zeros;
  }

  lemma MemberShape(m: Member, before: Bytes)
    ensures |Encode(m)| == |EncodeHead(m.header, m.name)| + |m.content| + Pad(|m.content|)
    ensures before + Encode(m) == before + EncodeHead(m.header, m.name) + m.content + Zeros(Pad(|m.content|))
  {
    hide EncodeHead, Zeros;
  }
}
