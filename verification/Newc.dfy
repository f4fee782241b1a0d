/** The newc (070701) cpio format: the bytes of one member, and an independent reader.

    The writer's arithmetic is the one of runtime/native/archive-root.py. The reader is written
    from the format: it aligns by the absolute offset in the archive, insists on zero padding and
    on the name's terminator. */
module Newc {
  import opened Prelude

  type Word = w: int | 0 <= w < 0x1_0000_0000

  datatype Header = Header(
    inode: Word, mode: Word, uid: Word, gid: Word, links: Word, mtime: Word, size: Word,
    devMajor: Word, devMinor: Word, rdevMajor: Word, rdevMinor: Word, nameSize: Word, check: Word)

  datatype Member = Member(header: Header, name: Bytes, content: Bytes)

  const MAGIC: Bytes := Ascii("070701")
  const TRAILER: Bytes := Ascii("TRAILER!!!")

  // ---------------------------------------------------------------- hexadecimal fields

  function Digit(d: int): Byte
    requires 0 <= d < 16
  {
    if d < 10 then 48 + d else 87 + d
  }

  function UnDigit(b: Byte): Option<int> {
    if 48 <= b <= 57 then Some(b - 48)
    else if 97 <= b <= 102 then Some(b - 87)
    else if 65 <= b <= 70 then Some(b - 55)
    else None
  }

  /** The value in lower-case hexadecimal, most significant digit first. */
  function Hex(value: nat, width: nat): (digits: Bytes)
    ensures |digits| == width
  {
    if width == 0 then [] else Hex(value / 16, width - 1) + [Digit(value % 16)]
  }

  /** The number a run of hexadecimal digits denotes. */
  function UnHex(digits: Bytes): Option<nat> {
    if digits == [] then Some(0)
    else
      var last := |digits| - 1;
      var high := UnHex(digits[..last]);
      var low := UnDigit(digits[last]);
      if high.Some? && low.Some? then Some(16 * high.value + low.value) else None
  }

  function Power16(width: nat): nat {
    if width == 0 then 1 else 16 * Power16(width - 1)
  }

  lemma {:induction false} HexRoundTrip(value: nat, width: nat)
    requires value < Power16(width)
    ensures UnHex(Hex(value, width)) == Some(value)
  {
    if width > 0 {
      HexRoundTrip(value / 16, width - 1);
      assert Hex(value, width)[..width - 1] == Hex(value / 16, width - 1);
    }
  }

  function Words(h: Header): seq<Word> {
    [h.inode, h.mode, h.uid, h.gid, h.links, h.mtime, h.size,
     h.devMajor, h.devMinor, h.rdevMajor, h.rdevMinor, h.nameSize, h.check]
  }

  function FromWords(w: seq<Word>): Header
    requires |w| == 13
  {
    Header(w[0], w[1], w[2], w[3], w[4], w[5], w[6], w[7], w[8], w[9], w[10], w[11], w[12])
  }

  function Fields(words: seq<Word>): (bytes: Bytes)
    ensures |bytes| == 8 * |words|
  {
    if words == [] then [] else Hex(words[0], 8) + Fields(words[1..])
  }

  /** Reads `count` eight-digit fields; the rest of the bytes comes back with them. */
  function TakeWords(bytes: Bytes, count: nat): Option<(seq<Word>, Bytes)> {
    if count == 0 then Some(([], bytes))
    else if |bytes| < 8 then None
    else
      var word := UnHex(bytes[..8]);
      var rest := TakeWords(bytes[8..], count - 1);
      if word.Some? && word.value < 0x1_0000_0000 && rest.Some? then
        Some(([word.value] + rest.value.0, rest.value.1))
      else None
  }

  lemma {:induction false} TakeWordsOfFields(words: seq<Word>, tail: Bytes)
    ensures TakeWords(Fields(words) + tail, |words|) == Some((words, tail))
  {
    if words == [] {
      assert Fields(words) + tail == tail;
    } else {
      var bytes := Fields(words) + tail;
      assert bytes[..8] == Hex(words[0], 8);
      assert bytes[8..] == Fields(words[1..]) + tail;
      assert Power16(8) == 0x1_0000_0000 by {
        assert Power16(4) == 0x1_0000;
      }
      HexRoundTrip(words[0], 8);
      TakeWordsOfFields(words[1..], tail);
      assert words == [words[0]] + words[1..];
    }
  }

  // ---------------------------------------------------------------- one member

  function Pad(length: int): (n: nat)
    ensures n < 4 && (length + n) % 4 == 0
  {
    (-length) % 4
  }

  function Zeros(count: nat): (bytes: Bytes)
    ensures |bytes| == count
  {
    seq(count, _ => 0)
  }

  function EncodeHead(h: Header, name: Bytes): Bytes {
    MAGIC + Fields(Words(h)) + name + [0] + Zeros(Pad(110 + |name| + 1))
  }

  function Encode(m: Member): Bytes {
    EncodeHead(m.header, m.name) + m.content + Zeros(Pad(|m.content|))
  }

  predicate Consistent(m: Member) {
    m.header.nameSize == |m.name| + 1 && m.header.size == |m.content|
  }

  lemma EncodeLength(m: Member)
    ensures |Encode(m)| == 110 + |m.name| + 1 + Pad(110 + |m.name| + 1) + |m.content| + Pad(|m.content|)
    ensures |Encode(m)| % 4 == 0
  {
  }

  /** Skips zero bytes up to the next multiple of four of the archive offset. */
  function SkipPadding(bytes: Bytes, at: nat): Option<Bytes> {
    var n := Pad(at);
    if |bytes| < n || bytes[..n] != Zeros(n) then None else Some(bytes[n..])
  }

  function Take(bytes: Bytes, count: nat): Option<(Bytes, Bytes)> {
    if |bytes| < count then None else Some((bytes[..count], bytes[count..]))
  }

  /** The thirteen fields behind the magic, and the bytes after them. */
  function ReadHeader(bytes: Bytes): Option<(Header, Bytes)> {
    if |bytes| < 110 || bytes[..6] != MAGIC then None else
    var words := TakeWords(bytes[6..110], 13);
    if words.None? || |words.value.0| != 13 then None
    else Some((FromWords(words.value.0), bytes[110..]))
  }

  /** The name and content that follow header `h`, where `at` is the offset just behind it. */
  function ReadBody(h: Header, bytes: Bytes, at: nat): (r: Option<(Member, Bytes)>)
    ensures r.Some? ==> |r.value.1| <= |bytes|
  {
    if h.nameSize == 0 then None else
    var named := Take(bytes, h.nameSize);
    if named.None? || named.value.0[h.nameSize - 1] != 0 then None else
    var body := SkipPadding(named.value.1, at + h.nameSize);
    if body.None? then None else
    var afterName := at + h.nameSize + Pad(at + h.nameSize);
    var content := Take(body.value, h.size);
    if content.None? then None else
    var rest := SkipPadding(content.value.1, afterName + h.size);
    if rest.None? then None
    else Some((Member(h, named.value.0[..h.nameSize - 1], content.value.0), rest.value))
  }

  /** Reads the member at archive offset `at`; `bytes` is the archive from there on. */
  function ReadMember(bytes: Bytes, at: nat): (r: Option<(Member, Bytes)>)
    ensures r.Some? ==> |r.value.1| < |bytes|
  {
    var head := ReadHeader(bytes);
    if head.None? then None else ReadBody(head.value.0, head.value.1, at + 110)
  }

  lemma TakeSplit(a: Bytes, b: Bytes)
    ensures Take(a + b, |a|) == Some((a, b))
  {
    assert (a + b)[..|a|] == a && (a + b)[|a|..] == b;
  }

  lemma SkipZeros(tail: Bytes, at: nat)
    ensures SkipPadding(Zeros(Pad(at)) + tail, at) == Some(tail)
  {
    TakeSplit(Zeros(Pad(at)), tail);
  }

  lemma ReadEncodedHeader(h: Header, tail: Bytes)
    ensures ReadHeader(MAGIC + Fields(Words(h)) + tail) == Some((h, tail))
  {
    var fields := Fields(Words(h));
    var bytes := MAGIC + fields + tail;
    assert bytes[..6] == MAGIC;
    assert bytes[6..110] == fields;
    assert fields + [] == fields;
    TakeWordsOfFields(Words(h), []);
    assert bytes[110..] == tail;
  }

  lemma ReadEncodedBody(h: Header, name: Bytes, content: Bytes, tail: Bytes, at: nat)
    requires h.nameSize == |name| + 1 && h.size == |content|
    ensures var named := at + h.nameSize;
            var ended := named + Pad(named) + h.size;
            ReadBody(h, (name + [0]) + (Zeros(Pad(named)) + (content + (Zeros(Pad(ended)) + tail))), at)
            == Some((Member(h, name, content), tail))
  {
    hide Take, SkipPadding, Zeros, Pad;
    var named := at + h.nameSize;
    var ended := named + Pad(named) + h.size;
    var afterContent := Zeros(Pad(ended)) + tail;
    TakeSplit(name + [0], Zeros(Pad(named)) + (content + afterContent));
    assert (name + [0])[..h.nameSize - 1] == name;
    SkipZeros(content + afterContent, named);
    TakeSplit(content, afterContent);
    SkipZeros(tail, ended);
  }

  lemma Associate(a: Bytes, b: Bytes, c: Bytes)
    ensures (a + b) + c == a + (b + c)
  {
  }

  lemma Regroup(a: Bytes, b: Bytes, c: Bytes, d: Bytes, e: Bytes, f: Bytes, g: Bytes, h: Bytes)
    ensures (((a + b + c + d + e) + f) + g) + h == a + b + ((c + d) + (e + (f + (g + h))))
  {
  }

  /** An encoded member, grouped the way the reader takes it apart at offset `at`. */
  lemma EncodeShape(m: Member, tail: Bytes, named: nat, ended: nat)
    requires Pad(named) == Pad(110 + |m.name| + 1) && Pad(ended) == Pad(|m.content|)
    ensures Encode(m) + tail ==
            MAGIC + Fields(Words(m.header)) +
            ((m.name + [0]) + (Zeros(Pad(named)) + (m.content + (Zeros(Pad(ended)) + tail))))
  {
    Regroup(MAGIC, Fields(Words(m.header)), m.name, [0], Zeros(Pad(named)), m.content, Zeros(Pad(ended)), tail);
  }

  lemma PadsAgree(m: Member, at: nat)
    requires Consistent(m) && at % 4 == 0
    ensures var named := at + 110 + m.header.nameSize;
            var ended := named + Pad(named) + m.header.size;
            Pad(named) == Pad(110 + |m.name| + 1) && Pad(ended) == Pad(|m.content|)
  {
    var named := at + 110 + m.header.nameSize;
    PadAligned(at, 110 + |m.name| + 1);
    PadAligned(named + Pad(named), |m.content|);
  }

  /** An aligned offset does not matter to the padding, and padding aligns. */
  lemma PadAligned(at: nat, n: nat)
    requires at % 4 == 0
    ensures Pad(at + n) == Pad(n) && (at + n + Pad(at + n)) % 4 == 0
  {
  }

  lemma ReadGrouped(h: Header, name: Bytes, content: Bytes, tail: Bytes, at: nat)
    requires h.nameSize == |name| + 1 && h.size == |content|
    ensures var named := at + 110 + h.nameSize;
            var ended := named + Pad(named) + h.size;
            ReadMember(MAGIC + Fields(Words(h)) +
                       ((name + [0]) + (Zeros(Pad(named)) + (content + (Zeros(Pad(ended)) + tail)))), at)
            == Some((Member(h, name, content), tail))
  {
    hide Fields, TakeWords, UnHex, Zeros, ReadHeader, ReadBody;
    var named := at + 110 + h.nameSize;
    var ended := named + Pad(named) + h.size;
    ReadEncodedHeader(h, (name + [0]) + (Zeros(Pad(named)) + (content + (Zeros(Pad(ended)) + tail))));
    ReadEncodedBody(h, name, content, tail, at + 110);
  }

  /** Reading at a four-aligned offset gives back the member that was written. */
  lemma ReadEncoded(m: Member, tail: Bytes, at: nat)
    requires Consistent(m) && at % 4 == 0
    ensures ReadMember(Encode(m) + tail, at) == Some((m, tail))
  {
    hide Fields, Zeros, ReadMember, EncodeHead, Encode;
    var named := at + 110 + m.header.nameSize;
    var ended := named + Pad(named) + m.header.size;
    PadsAgree(m, at);
    EncodeShape(m, tail, named, ended);
    ReadGrouped(m.header, m.name, m.content, tail, at);
  }

  // ---------------------------------------------------------------- the archive

  function Concat(parts: seq<Bytes>): Bytes {
    if parts == [] then [] else Concat(parts[..|parts| - 1]) + parts[|parts| - 1]
  }

  lemma {:induction false} ConcatHead(parts: seq<Bytes>)
    requires parts != []
    ensures Concat(parts) == parts[0] + Concat(parts[1..])
  {
    var last := |parts| - 1;
    if last > 0 {
      ConcatHead(parts[..last]);
      assert parts[..last][1..] == parts[1..][..last - 1];
    }
  }

  function Encodings(members: seq<Member>): seq<Bytes> {
    seq(|members|, i requires 0 <= i < |members| => Encode(members[i]))
  }

  function EncodeAll(members: seq<Member>): Bytes {
    Concat(Encodings(members))
  }

  lemma EncodeAllSnoc(members: seq<Member>, m: Member)
    ensures EncodeAll(members + [m]) == EncodeAll(members) + Encode(m)
  {
    assert Encodings(members + [m])[..|members|] == Encodings(members);
  }

  const TRAILER_HEADER := Header(0, 0, 0, 0, 1, 0, 0, 0, 0, 0, 0, 11, 0)
  const TRAILER_MEMBER := Member(TRAILER_HEADER, TRAILER, [])

  lemma EncodeAllHead(members: seq<Member>)
    requires members != []
    ensures EncodeAll(members) == Encode(members[0]) + EncodeAll(members[1..])
  {
    ConcatHead(Encodings(members));
    assert Encodings(members)[1..] == Encodings(members[1..]);
  }

  lemma NoMembers()
    ensures EncodeAll([]) == []
  {
  }

  /** Every member header starts at a multiple of four. */
  lemma {:induction false} HeadersAligned(members: seq<Member>)
    ensures |EncodeAll(members)| % 4 == 0
  {
    hide Encode, Concat;
    if members == [] {
      NoMembers();
    } else {
      var last := |members| - 1;
      HeadersAligned(members[..last]);
      EncodeAllSnoc(members[..last], members[last]);
      assert members[..last] + [members[last]] == members;
      EncodeLength(members[last]);
    }
  }
}
