/** Where the bytes of a member lie in the newc (070701) format, said by offsets alone. */
module NewcLayout {
  import opened Prelude
  import opened Newc

  /** A lower-case hexadecimal digit of this value. */
  predicate IsDigit(b: Byte, d: nat) {
    b == (if d < 10 then '0' as int + d else 'a' as int + d - 10) && d < 16
  }

  /** Eight digits with these values, the most significant first. */
  predicate Digits(digits: Bytes, d: seq<nat>) {
    |digits| == |d| == 8 && forall k :: 0 <= k < 8 ==> IsDigit(digits[k], d[k])
  }

  /** The digits denote the value. */
  ghost predicate Denotes(digits: Bytes, value: nat) {
    exists d :: Digits(digits, d) &&
      value == 0x1000_0000 * d[0] + 0x100_0000 * d[1] + 0x10_0000 * d[2] + 0x1_0000 * d[3] + 0x1000 * d[4] +
               0x100 * d[5] + 0x10 * d[6] + d[7]
  }

  lemma HexNext(value: nat, high: nat, d: nat, width: nat)
    requires value == 16 * high + d && d < 16
    ensures Hex(value, width + 1) == Hex(high, width) + [Digit(d)] && IsDigit(Digit(d), d)
  {
  }

  lemma HexFour(value: nat, high: nat, d: nat, e: nat, f: nat, g: nat, width: nat)
    requires value == 0x1_0000 * high + 0x1000 * d + 0x100 * e + 0x10 * f + g && d < 16 && e < 16 && f < 16 && g < 16
    ensures Hex(value, width + 4) == Hex(high, width) + [Digit(d), Digit(e), Digit(f), Digit(g)]
    ensures IsDigit(Digit(d), d) && IsDigit(Digit(e), e) && IsDigit(Digit(f), f) && IsDigit(Digit(g), g)
  {
    hide Hex, Digit, IsDigit;
    var v3 := 16 * high + d;
    var v2 := 16 * v3 + e;
    var v1 := 16 * v2 + f;
    HexNext(value, v1, g, width + 3);
    HexNext(v1, v2, f, width + 2);
    HexNext(v2, v3, e, width + 1);
    HexNext(v3, high, d, width);
  }

  lemma FourDigits(value: nat) returns (high: nat, d: nat, e: nat, f: nat, g: nat)
    ensures value == 0x1_0000 * high + 0x1000 * d + 0x100 * e + 0x10 * f + g && d < 16 && e < 16 && f < 16 && g < 16
  {
    var v1 := value / 16;
    var v2 := v1 / 16;
    var v3 := v2 / 16;
    high, d, e, f, g := v3 / 16, v3 % 16, v2 % 16, v1 % 16, value % 16;
  }

  lemma HexDenotes(value: Word)
    ensures Denotes(Hex(value, 8), value)
  {
    hide Hex, Digit, IsDigit;
    var high, e, f, g, h := FourDigits(value);
    var zero, a, b, c, d := FourDigits(high);
    HexFour(value, high, e, f, g, h, 4);
    HexFour(high, zero, a, b, c, d, 0);
    assert |Hex(zero, 0)| == 0 && zero == 0;
    assert Digits(Hex(value, 8), [a, b, c, d, e, f, g, h]);
  }

  /** The value stands here. */
  ghost predicate FieldAt(bytes: Bytes, at: nat, value: Word) {
    at + 8 <= |bytes| && Denotes(bytes[at..at + 8], value)
  }

  lemma {:induction false} FieldsAt(words: seq<Word>, k: nat)
    requires k < |words|
    ensures FieldAt(Fields(words), 8 * k, words[k])
    decreases k
  {
    hide Hex, Denotes;
    if k == 0 {
      HexDenotes(words[0]);
      assert Fields(words)[0..8] == Hex(words[0], 8);
    } else {
      FieldsAt(words[1..], k - 1);
      assert Fields(words)[8..] == Fields(words[1..]);
      assert Fields(words)[8 * k..8 * k + 8] == Fields(words)[8..][8 * (k - 1)..8 * (k - 1) + 8];
    }
  }

  /** The first multiple of four from here on. */
  function Up(length: nat): nat {
    (length + 3) / 4 * 4
  }

  /** A member begins with the magic and thirteen fields in the order of the format, then its name, ended by
      a zero octet, then its content, both filled up with zeros to a multiple of four. */
  lemma MemberLayout(m: Member)
    ensures var bytes, h := Encode(m), m.header;
            var start := Up(111 + |m.name|);
            && |bytes| == start + Up(|m.content|) && bytes[..6] == [48, 55, 48, 55, 48, 49]
            && FieldAt(bytes, 6, h.inode) && FieldAt(bytes, 14, h.mode) && FieldAt(bytes, 22, h.uid)
            && FieldAt(bytes, 30, h.gid) && FieldAt(bytes, 38, h.links) && FieldAt(bytes, 46, h.mtime)
            && FieldAt(bytes, 54, h.size) && FieldAt(bytes, 62, h.devMajor) && FieldAt(bytes, 70, h.devMinor)
            && FieldAt(bytes, 78, h.rdevMajor) && FieldAt(bytes, 86, h.rdevMinor) && FieldAt(bytes, 94, h.nameSize)
            && FieldAt(bytes, 102, h.check)
            && bytes[110..110 + |m.name|] == m.name && bytes[start..start + |m.content|] == m.content
            && forall i :: 110 + |m.name| <= i < |bytes| && !(start <= i < start + |m.content|) ==> bytes[i] == 0
  {
    hide Fields, FieldAt, Ascii, Encode, Up;
    var bytes, words := Encode(m), Words(m.header);
    var fields := Fields(words);
    FieldsStart(m);
    MagicIs();
    forall k: nat | k < 13 ensures FieldAt(bytes, 6 + 8 * k, words[k]) {
      FieldsAt(words, k);
      Shifted(bytes, fields, 8 * k, words[k]);
    }
    assert words[0] == m.header.inode && words[1] == m.header.mode && words[2] == m.header.uid;
    assert words[3] == m.header.gid && words[4] == m.header.links && words[5] == m.header.mtime;
    assert words[6] == m.header.size && words[7] == m.header.devMajor && words[8] == m.header.devMinor;
    assert words[9] == m.header.rdevMajor && words[10] == m.header.rdevMinor && words[11] == m.header.nameSize;
    assert words[12] == m.header.check;
    TailLayout(m);
  }

  /** The octet of an ASCII character is its code. */
  lemma AsciiIs(text: string, i: nat)
    requires i < |text| && text[i] as int < 128
    ensures Ascii(text)[i] == text[i] as int
  {
  }

  lemma MagicIs()
    ensures MAGIC == [48, 55, 48, 55, 48, 49]
  {
    assert |MAGIC| == |"070701"| == 6;
  }

  /** The trailer: no field but one link and the length of the name is set. */
  lemma TrailerLayout()
    ensures var bytes := Encode(TRAILER_MEMBER);
            && |bytes| == 124 && bytes[..6] == [48, 55, 48, 55, 48, 49]
            && FieldAt(bytes, 38, 1) && FieldAt(bytes, 94, 11)
            && (forall k :: 0 <= k < 13 && k != 4 && k != 11 ==> FieldAt(bytes, 6 + 8 * k, 0))
            && bytes[110..120] == Ascii("TRAILER!!!") && bytes[120..] == [0, 0, 0, 0]
  {
    hide FieldAt, Encode;
    MemberLayout(TRAILER_MEMBER);
    var bytes := Encode(TRAILER_MEMBER);
    assert |TRAILER| == |"TRAILER!!!"| == 10;
    assert Up(121) == 124 && Up(0) == 0;
    forall k | 0 <= k < 13 && k != 4 && k != 11 ensures FieldAt(bytes, 6 + 8 * k, 0) {
      assert k in {0, 1, 2, 3, 5, 6, 7, 8, 9, 10, 12};
    }
  }

  lemma FieldsStart(m: Member)
    ensures |MAGIC| == 6 && |Words(m.header)| == 13
    ensures |Encode(m)| >= 110 && Encode(m)[..6] == Ascii("070701") && Encode(m)[6..110] == Fields(Words(m.header))
  {
    hide Fields, Zeros, Ascii;
    var fields := Fields(Words(m.header));
    assert |MAGIC| == 6 && |fields| == 104;
    var whole := MAGIC + fields + m.name + [0] + Zeros(Pad(110 + |m.name| + 1)) + m.content + Zeros(Pad(|m.content|));
    assert whole[..6] == MAGIC && whole[6..110] == fields;
  }

  lemma SliceOfSlice(bytes: Bytes, a: nat, b: nat, c: nat, d: nat)
    requires a <= b <= |bytes| && c <= d <= b - a
    ensures bytes[a..b][c..d] == bytes[a + c..a + d]
  {
    var inner, outer := bytes[a..b][c..d], bytes[a + c..a + d];
    assert |inner| == |outer| && forall k :: 0 <= k < |inner| ==> inner[k] == outer[k];
  }

  lemma Shifted(bytes: Bytes, fields: Bytes, at: nat, value: Word)
    requires |bytes| >= 110 && bytes[6..110] == fields && FieldAt(fields, at, value)
    ensures FieldAt(bytes, 6 + at, value)
  {
    hide Denotes;
    SliceOfSlice(bytes, 6, 110, at, at + 8);
  }

  /** What follows the header. */
  lemma TailLayout(m: Member)
    ensures var bytes, start := Encode(m), Up(111 + |m.name|);
            && |bytes| == start + Up(|m.content|)
            && bytes[110..110 + |m.name|] == m.name && bytes[start..start + |m.content|] == m.content
            && forall i :: 110 + |m.name| <= i < |bytes| && !(start <= i < start + |m.content|) ==> bytes[i] == 0
  {
    hide Fields, Words, Encode, Zeros;
    var head := MAGIC + Fields(Words(m.header));
    assert |head| == 110 by {
      FieldsStart(m);
    }
    var a, b := Zeros(Pad(110 + |m.name| + 1)), Zeros(Pad(|m.content|));
    ZerosAre(Pad(110 + |m.name| + 1));
    ZerosAre(Pad(|m.content|));
    Pieces(head, m.name, a, m.content, b);
    assert Encode(m) == head + m.name + [0] + a + m.content + b by {
      EncodeIs(m);
    }
    assert 110 + |m.name| + 1 + |a| == Up(111 + |m.name|) && |m.content| + |b| == Up(|m.content|);
  }

  lemma ZerosAre(n: nat)
    ensures |Zeros(n)| == n && forall i :: 0 <= i < n ==> Zeros(n)[i] == 0
  {
  }

  lemma EncodeIs(m: Member)
    ensures Encode(m) == MAGIC + Fields(Words(m.header)) + m.name + [0] + Zeros(Pad(110 + |m.name| + 1)) +
                         m.content + Zeros(Pad(|m.content|))
  {
    hide Fields, Words, Zeros;
  }

  lemma Pieces(head: Bytes, name: Bytes, a: Bytes, content: Bytes, b: Bytes)
    requires forall i :: 0 <= i < |a| ==> a[i] == 0
    requires forall i :: 0 <= i < |b| ==> b[i] == 0
    ensures var whole, from := head + name + [0] + a + content + b, |head| + |name| + 1 + |a|;
            && whole[|head|..|head| + |name|] == name && whole[from..from + |content|] == content
            && forall i :: |head| + |name| <= i < |whole| && !(from <= i < from + |content|) ==> whole[i] == 0
  {
    var first, rest := head + name + [0] + a, content + b;
    assert head + name + [0] + a + content + b == first + rest;
    assert first[|head|..|head| + |name|] == name;
    assert forall i :: |head| + |name| <= i < |first| ==> first[i] == 0;
  }
}
