/** What a reader of the archive learns about inodes: hard links share one number, only the first
    name carries the bytes, and every digest in the inventory is the digest of what is read back. */
module HardLinks {
  import opened Prelude
  import opened Newc
  import opened Archive

  /** Stat data is consistent per inode: entries with one key are one file. */
  ghost predicate InodesAgree(visits: seq<Visit>) {
    forall i, j ::
      0 <= i < |visits| && 0 <= j < |visits| && visits[i].Emits? && visits[j].Emits? &&
      KeyOf(visits[i].item) == KeyOf(visits[j].item) ==>
      SameFile(visits[i].item, visits[j].item)
  }

  predicate SameFile(a: Item, b: Item) {
    && (IsRegular(a.info.mode) <==> IsRegular(b.info.mode))
    && (IsRegular(a.info.mode) ==> a.data == b.data && a.disk == b.disk && a.info.size == b.info.size)
  }

  /** The bytes of the file behind an entry. */
  function FileBytes(it: Item): Bytes {
    if it.data.Some? then it.data.value
    else if 0 <= it.info.size <= |it.disk.content| then it.disk.content[..it.info.size]
    else []
  }

  /** The first member with the inode number of member `i`. */
  function FirstOfInode(members: seq<Member>, i: nat, from: nat): (r: nat)
    requires from <= i < |members|
    ensures from <= r <= i && members[r].header.inode == members[i].header.inode
    ensures forall k :: from <= k < r ==> members[k].header.inode != members[i].header.inode
    decreases i - from
  {
    if members[from].header.inode == members[i].header.inode then from else FirstOfInode(members, i, from + 1)
  }

  /** What a reader obtains for the path of member `i` by following the inode. */
  function ReadContent(members: seq<Member>, i: nat): Bytes
    requires i < |members|
  {
    members[FirstOfInode(members, i, 0)].content
  }

  ghost predicate SeenBefore(visits: seq<Visit>, i: nat)
    requires i < |visits| && forall k :: 0 <= k < |visits| ==> visits[k].Emits?
  {
    exists j :: 0 <= j < i && KeyOf(visits[j].item) == KeyOf(visits[i].item)
  }

  // ---------------------------------------------------------------- what every run keeps

  ghost predicate Aligned(visits: seq<Visit>, st: State) {
    && |st.members| == |st.inventory| == |visits|
    && forall i :: 0 <= i < |visits| ==> visits[i].Emits? && Described(visits[i].item, st.members[i], st.inventory[i])
  }

  predicate Described(it: Item, m: Member, r: Record) {
    && m.name == r.path == it.name
    && m.header.mode == r.mode == it.info.mode
    && m.header.uid == r.uid == it.info.uid
    && m.header.gid == r.gid == it.info.gid
    && m.header.links == r.links == it.info.links
    && m.header.mtime == r.mtime
    && m.header.inode == r.inode
    && m.header.size == r.bytes == |m.content|
    && m.header.rdevMajor == it.info.rdevMajor && m.header.rdevMinor == it.info.rdevMinor
    && m.header.devMajor == 0 && m.header.devMinor == 0 && m.header.check == 0
    && m.header.nameSize == |it.name| + 1
    && r.device == (if IsDevice(it.info.mode) then Some((it.info.rdevMajor, it.info.rdevMinor)) else None)
  }

  /** Inode numbers start at one and no two files share one. */
  ghost predicate OneToOne(inodes: map<Key, int>) {
    && (forall k :: k in inodes ==> 1 <= inodes[k] <= |inodes|)
    && (forall k, l :: k in inodes && l in inodes && inodes[k] == inodes[l] ==> k == l)
  }

  lemma NumberedStaysOneToOne(inodes: map<Key, int>, key: Key)
    requires OneToOne(inodes)
    ensures OneToOne(Numbered(inodes, key))
    ensures forall k :: k in inodes ==> k in Numbered(inodes, key) && Numbered(inodes, key)[k] == inodes[k]
  {
  }

  ghost predicate Numbering(visits: seq<Visit>, st: State)
    requires Aligned(visits, st)
  {
    && OneToOne(st.inodes)
    && (forall i :: 0 <= i < |visits| ==>
          KeyOf(visits[i].item) in st.inodes && st.members[i].header.inode == st.inodes[KeyOf(visits[i].item)])
    && (forall i :: 0 <= i < |visits| ==> KeyOf(visits[i].item) in st.written)
    && (forall k :: k in st.written ==> exists i :: 0 <= i < |visits| && KeyOf(visits[i].item) == k)
  }

  ghost predicate Contents(visits: seq<Visit>, st: State, p: Params)
    requires Aligned(visits, st)
  {
    forall i :: 0 <= i < |visits| ==>
      var it := visits[i].item;
      && (IsRegular(it.info.mode) ==>
            && KeyOf(it) in st.hashes && st.hashes[KeyOf(it)] == p.sha256(FileBytes(it))
            && st.inventory[i].sha256 == Some(p.sha256(FileBytes(it)))
            && (if SeenBefore(visits, i) && it.data.None? then st.members[i].content == []
                else st.members[i].content == FileBytes(it)))
      && (IsSymlink(it.info.mode) && it.data.Some? ==>
            && st.members[i].content == it.data.value
            && st.inventory[i].sha256 == Some(p.sha256(it.data.value))
            && st.inventory[i].target == it.data)
  }

  lemma EmitKeepsAlignment(visits: seq<Visit>, st: State, it: Item, p: Params)
    requires Aligned(visits, st) && Emit(st, it, p).Some?
    ensures Aligned(visits + [Emits(it)], Emit(st, it, p).value)
  {
    hide EncodeAll, Encode;
  }

  /** The tables of inodes and of written keys after an entry, and its member's inode. */
  lemma EmitNumbers(st: State, it: Item, p: Params)
    ensures Emit(st, it, p).Some? ==>
              var next := Emit(st, it, p).value;
              && next.inodes == Numbered(st.inodes, KeyOf(it)) && next.written == st.written + {KeyOf(it)}
              && |next.members| == |st.members| + 1 && next.members[..|st.members|] == st.members
              && next.members[|st.members|].header.inode == next.inodes[KeyOf(it)]
  {
    hide EncodeAll, Encode, RecordOf, Hashed;
  }

  lemma EmitKeepsNumbering(visits: seq<Visit>, st: State, it: Item, p: Params)
    requires Aligned(visits, st) && Numbering(visits, st) && Emit(st, it, p).Some?
    requires Aligned(visits + [Emits(it)], Emit(st, it, p).value)
    ensures Numbering(visits + [Emits(it)], Emit(st, it, p).value)
  {
    hide Emit, Described, OneToOne, Numbered;
    var next, more, n := Emit(st, it, p).value, visits + [Emits(it)], |visits|;
    EmitNumbers(st, it, p);
    NumberedStaysOneToOne(st.inodes, KeyOf(it));
    assert forall i :: 0 <= i < n ==> more[i] == visits[i] && next.members[i] == next.members[..n][i];
    assert more[n].item == it;
    forall k | k in next.written
      ensures exists i :: 0 <= i < |more| && KeyOf(more[i].item) == k
    {
      if k != KeyOf(it) {
        var i :| 0 <= i < |visits| && KeyOf(visits[i].item) == k;
        assert more[i] == visits[i];
      }
    }
  }

  lemma SeenStays(visits: seq<Visit>, more: seq<Visit>, i: nat)
    requires i < |visits| <= |more| && more[..|visits|] == visits
    requires forall k :: 0 <= k < |more| ==> more[k].Emits?
    requires forall k :: 0 <= k < |visits| ==> visits[k].Emits?
    ensures SeenBefore(more, i) == SeenBefore(visits, i)
  {
    assert forall j :: 0 <= j <= i ==> more[j] == visits[j];
  }

  /** The member and record of the entry just emitted. */
  lemma EmittedContent(visits: seq<Visit>, st: State, it: Item, p: Params)
    requires Aligned(visits, st) && Numbering(visits, st) && Contents(visits, st, p)
    requires InodesAgree(visits + [Emits(it)]) && Emit(st, it, p).Some?
    requires Aligned(visits + [Emits(it)], Emit(st, it, p).value)
    ensures var n, next := |visits|, Emit(st, it, p).value;
            && next.hashes.Keys >= st.hashes.Keys
            && (IsRegular(it.info.mode) ==>
                  && KeyOf(it) in next.hashes && next.hashes[KeyOf(it)] == p.sha256(FileBytes(it))
                  && next.inventory[n].sha256 == Some(p.sha256(FileBytes(it)))
                  && (if SeenBefore(visits + [Emits(it)], n) && it.data.None? then next.members[n].content == []
                      else next.members[n].content == FileBytes(it)))
            && (IsSymlink(it.info.mode) && it.data.Some? ==>
                  && next.members[n].content == it.data.value
                  && next.inventory[n].sha256 == Some(p.sha256(it.data.value))
                  && next.inventory[n].target == it.data)
  {
    hide EncodeAll, Encode, Described;
    var n, more := |visits|, visits + [Emits(it)];
    if SeenBefore(more, n) {
      var j :| 0 <= j < n && KeyOf(more[j].item) == KeyOf(more[n].item);
      assert more[j] == visits[j];
    }
    if Duplicate(st.written, it) {
      var j :| 0 <= j < n && KeyOf(visits[j].item) == KeyOf(it);
      assert more[j] == visits[j] && more[n].item == it;
      assert SameFile(more[j].item, more[n].item);
      assert SeenBefore(more, n);
    }
  }

  lemma EmitKeepsContents(visits: seq<Visit>, st: State, it: Item, p: Params)
    requires Aligned(visits, st) && Numbering(visits, st) && Contents(visits, st, p)
    requires InodesAgree(visits + [Emits(it)]) && Emit(st, it, p).Some?
    requires Aligned(visits + [Emits(it)], Emit(st, it, p).value)
    ensures Contents(visits + [Emits(it)], Emit(st, it, p).value, p)
  {
    hide EncodeAll, Encode, Described, MemberOf, RecordOf;
    var next, more := Emit(st, it, p).value, visits + [Emits(it)];
    EmittedContent(visits, st, it, p);
    forall i | 0 <= i < |visits| && IsRegular(visits[i].item.info.mode)
      ensures KeyOf(visits[i].item) in next.hashes
      ensures next.hashes[KeyOf(visits[i].item)] == p.sha256(FileBytes(visits[i].item))
      ensures SeenBefore(more, i) == SeenBefore(visits, i)
    {
      SeenStays(visits, more, i);
      assert more[i] == visits[i] && more[|visits|].item == it;
      if KeyOf(visits[i].item) == KeyOf(it) {
        assert SameFile(more[i].item, more[|visits|].item);
      }
    }
    assert forall i :: 0 <= i < |visits| ==> more[i] == visits[i];
  }

  /** Holds of every state the exporter reaches from the empty one. */
  lemma {:induction false} RunKeeps(visits: seq<Visit>, p: Params)
    requires InodesAgree(visits) && EmitAll(INIT, visits, p).Some?
    ensures var st := EmitAll(INIT, visits, p).value;
            Aligned(visits, st) && Numbering(visits, st) && Contents(visits, st, p)
  {
    hide Emit, InodesAgree;
    if visits != [] {
      var last := |visits| - 1;
      var before := EmitAll(INIT, visits[..last], p).value;
      assert InodesAgree(visits[..last]) by {
        PrefixAgrees(visits, last);
      }
      RunKeeps(visits[..last], p);
      var it := visits[last].item;
      assert visits == visits[..last] + [Emits(it)];
      EmitKeepsAlignment(visits[..last], before, it, p);
      EmitKeepsNumbering(visits[..last], before, it, p);
      EmitKeepsContents(visits[..last], before, it, p);
    }
  }

  lemma PrefixAgrees(visits: seq<Visit>, n: nat)
    requires n <= |visits| && InodesAgree(visits)
    ensures InodesAgree(visits[..n])
  {
    forall i, j | 0 <= i < n && 0 <= j < n && visits[i].Emits? && visits[j].Emits? &&
                  KeyOf(visits[i].item) == KeyOf(visits[j].item)
      ensures SameFile(visits[..n][i].item, visits[..n][j].item)
    {
      assert visits[..n][i] == visits[i] && visits[..n][j] == visits[j];
    }
  }

  // ---------------------------------------------------------------- main results

  /** Two entries are of one file: device and inode are the same, or both are generated under one name. */
  predicate OneFile(a: Item, b: Item) {
    a.info.dev == b.info.dev && if a.info.dev == -1 then a.name == b.name else a.info.ino == b.info.ino
  }

  lemma KeysAgree(a: Item, b: Item)
    ensures KeyOf(a) == KeyOf(b) <==> OneFile(a, b)
  {
  }

  /** Two entries carry one inode number exactly when they are one file, and every regular name
      after the first carries no bytes. */
  lemma LinksShareInodes(visits: seq<Visit>, p: Params, i: nat, j: nat)
    requires i < j < |visits|
    ensures InodesAgree(visits) && EmitAll(INIT, visits, p).Some? ==>
            var st := EmitAll(INIT, visits, p).value;
            && visits[i].Emits? && visits[j].Emits? && |st.members| == |visits|
            && (OneFile(visits[i].item, visits[j].item) <==>
                st.members[i].header.inode == st.members[j].header.inode)
            && (OneFile(visits[i].item, visits[j].item) && IsRegular(visits[j].item.info.mode) &&
                visits[j].item.data.None? ==>
                st.members[j].content == [] && st.members[j].header.size == 0)
  {
    hide EmitAll, Emit, InodesAgree;
    if InodesAgree(visits) && EmitAll(INIT, visits, p).Some? {
      RunKeeps(visits, p);
      KeysAgree(visits[i].item, visits[j].item);
    }
  }

  /** Every digest in the inventory is that of the content a reader gets for the path, and that
      content is the file's. */
  lemma DigestsMatchReader(visits: seq<Visit>, p: Params, i: nat)
    requires InodesAgree(visits) && EmitAll(INIT, visits, p).Some? && i < |visits|
    ensures var st := EmitAll(INIT, visits, p).value;
            && visits[i].Emits? && |st.members| == |st.inventory| == |visits|
            && (IsRegular(visits[i].item.info.mode) ==>
                  && ReadContent(st.members, i) == FileBytes(visits[i].item)
                  && st.inventory[i].sha256 == Some(p.sha256(ReadContent(st.members, i))))
  {
    hide EmitAll, Emit, Described;
    RunKeeps(visits, p);
    var st := EmitAll(INIT, visits, p).value;
    if IsRegular(visits[i].item.info.mode) {
      var first := FirstOfInode(st.members, i, 0);
      assert KeyOf(visits[first].item) == KeyOf(visits[i].item);
      assert SameFile(visits[first].item, visits[i].item);
      forall k | 0 <= k < first
        ensures KeyOf(visits[k].item) != KeyOf(visits[first].item)
      {
        assert st.members[k].header.inode != st.members[i].header.inode;
      }
    }
  }
}
