/** The walk over OpenPGP packets in `fingerprints` of runtime/native/package-inventory.py, against the
    header forms of sections 4.2.1 and 4.2.2 of RFC 4880. */
module OpenPgp {
  import opened Prelude

  datatype Packet = Packet(tag: nat, body: Bytes)

  /** The headers with a definite length: old ones of one, two or four length octets, new ones of one,
      two or five. */
  datatype Form = Old1 | Old2 | Old4 | New1 | New2 | New5

  function Be(value: nat, width: nat): (r: Bytes)
    ensures |r| == width
  {
    if width == 0 then [] else Be(value / 256, width - 1) + [value % 256]
  }

  function Number(bytes: Bytes): nat {
    if bytes == [] then 0 else Number(bytes[..|bytes| - 1]) * 256 + bytes[|bytes| - 1]
  }

  function Pow256(n: nat): nat {
    if n == 0 then 1 else 256 * Pow256(n - 1)
  }

  lemma {:induction false} NumberOfBe(value: nat, width: nat)
    requires value < Pow256(width)
    ensures Number(Be(value, width)) == value
  {
    if width > 0 {
      NumberOfBe(value / 256, width - 1);
      var r := Be(value, width);
      assert r[..|r| - 1] == Be(value / 256, width - 1);
    }
  }

  // ---------------------------------------------------------------- writing packets

  /** The form can hold a packet with this tag and size. */
  predicate Holds(form: Form, tag: nat, size: nat) {
    match form
    case Old1 => tag < 16 && size < 256
    case Old2 => tag < 16 && size < 0x1_0000
    case Old4 => tag < 16 && size < 0x1_0000_0000
    case New1 => tag < 64 && size < 192
    case New2 => tag < 64 && 192 <= size < 8384
    case New5 => tag < 64 && size < 0x1_0000_0000
  }

  function Header(form: Form, tag: nat, size: nat): Bytes
    requires Holds(form, tag, size)
  {
    match form
    case Old1 => [0x80 + 4 * tag] + Be(size, 1)
    case Old2 => [0x80 + 4 * tag + 1] + Be(size, 2)
    case Old4 => [0x80 + 4 * tag + 2] + Be(size, 4)
    case New1 => [0xC0 + tag, size]
    case New2 => [0xC0 + tag, (size - 192) / 256 + 192, (size - 192) % 256]
    case New5 => [0xC0 + tag, 255] + Be(size, 4)
  }

  predicate Fit(forms: seq<Form>, packets: seq<Packet>) {
    |forms| == |packets| && forall k :: 0 <= k < |packets| ==> Holds(forms[k], packets[k].tag, |packets[k].body|)
  }

  function Encode(forms: seq<Form>, packets: seq<Packet>): Bytes
    requires Fit(forms, packets)
  {
    if packets == [] then []
    else Header(forms[0], packets[0].tag, |packets[0].body|) + packets[0].body + Encode(forms[1..], packets[1..])
  }

  // ---------------------------------------------------------------- reading packets

  /** What a header says, and where the body starts; None where the source raises an error. */
  datatype Head = Head(tag: nat, size: nat, start: nat)

  function At(data: Bytes, position: nat): Option<Byte> {
    if position < |data| then Some(data[position]) else None
  }

  /** A slice as Python takes it: what there is of it. */
  function Slice(data: Bytes, from: nat, to: nat): Bytes
    requires from <= to
  {
    if from >= |data| then [] else if to >= |data| then data[from..] else data[from..to]
  }

  /** The number of length octets that an old header octet announces; none where the length is open. */
  function OldWidth(header: Byte): nat {
    if header % 4 == 0 then 1 else if header % 4 == 1 then 2 else if header % 4 == 2 then 4 else 0
  }

  function OldHead(data: Bytes, position: nat, header: Byte): Option<Head> {
    var width := OldWidth(header);
    if width == 0 then None
    else Some(Head((header / 4) % 16, Number(Slice(data, position + 1, position + 1 + width)), position + 1 + width))
  }

  function NewHead(data: Bytes, position: nat, header: nat): Option<Head> {
    var tag, first := header % 64, At(data, position + 1);
    if first.None? then None
    else if first.value < 192 then Some(Head(tag, first.value, position + 2))
    else if first.value < 224 then
      var second := At(data, position + 2);
      if second.None? then None else Some(Head(tag, (first.value - 192) * 256 + second.value + 192, position + 3))
    else if first.value < 255 then None
    else if position + 6 > |data| then None
    else Some(Head(tag, Number(data[position + 2..position + 6]), position + 6))
  }

  function ReadHead(data: Bytes, position: nat): (r: Option<Head>)
    requires position < |data|
    ensures r.Some? ==> r.value.start > position
  {
    if data[position] >= 0xC0 then NewHead(data, position, data[position])
    else if data[position] >= 0x80 then OldHead(data, position, data[position])
    else None
  }

  /** The packets from a position on; None where the source raises an error. */
  function Walk(data: Bytes, position: nat): Option<seq<Packet>>
    decreases |data| - position
  {
    if position >= |data| then Some([])
    else
      var head := ReadHead(data, position);
      if head.None? then None
      else
        var end := head.value.start + head.value.size;
        var body := Slice(data, head.value.start, end);
        if |body| != head.value.size then None
        else
          var rest := Walk(data, end);
          if rest.None? then None else Some([Packet(head.value.tag, body)] + rest.value)
  }

  // ---------------------------------------------------------------- reading back what was written

  lemma PowersOf256()
    ensures Pow256(1) == 256 && Pow256(2) == 0x1_0000 && Pow256(4) == 0x1_0000_0000
  {
    assert Pow256(2) == 256 * Pow256(1);
    assert Pow256(3) == 256 * Pow256(2);
    assert Pow256(4) == 256 * Pow256(3);
  }

  /** Bytes are read alike wherever they stand. */
  lemma SliceOf(before: Bytes, part: Bytes, after: Bytes)
    ensures Slice(before + part + after, |before|, |before| + |part|) == part
  {
    var data := before + part + after;
    assert data[|before|..|before| + |part|] == part;
    if |before| + |part| == |data| {
      assert data[|before|..] == data[|before|..|before| + |part|];
    }
  }

  lemma AtOf(before: Bytes, part: Bytes, after: Bytes)
    ensures forall k :: 0 <= k < |part| ==> (before + part + after)[|before| + k] == part[k]
  {
  }

  /** A packet tag and the kind of its length, packed into one old header octet. */
  lemma OldFirst(tag: nat, kind: nat)
    requires tag < 16 && kind < 4
    ensures var first := 0x80 + 4 * tag + kind; 0x80 <= first < 0xC0 && first % 4 == kind && (first / 4) % 16 == tag
  {
    assert (0x80 + 4 * tag + kind) / 4 == 32 + tag;
  }

  lemma OldHeadReads(before: Bytes, after: Bytes, tag: nat, size: nat, width: nat, kind: nat)
    requires tag < 16 && size < Pow256(width) && (kind, width) in {(0, 1), (1, 2), (2, 4)}
    ensures var first: Byte := 0x80 + 4 * tag + kind;
            var header := [first] + Be(size, width);
            ReadHead(before + header + after, |before|) == Some(Head(tag, size, |before| + |header|))
  {
    OldFirst(tag, kind);
    NumberOfBe(size, width);
    var first: Byte := 0x80 + 4 * tag + kind;
    var octets := Be(size, width);
    hide Be, Number, Slice;
    var data := before + ([first] + octets) + after;
    Regroup(before, [first], octets);
    SliceOf(before + [first], octets, after);
    assert data[|before|] == first;
    OldHeadIs(data, |before|, first, width, kind);
  }

  lemma OldHeadIs(data: Bytes, position: nat, first: Byte, width: nat, kind: nat)
    requires position < |data| && data[position] == first && 0x80 <= first < 0xC0
    requires first % 4 == kind && (kind, width) in {(0, 1), (1, 2), (2, 4)}
    ensures ReadHead(data, position) ==
            Some(Head((first / 4) % 16, Number(Slice(data, position + 1, position + 1 + width)), position + 1 + width))
  {
    hide Number, Slice;
  }

  lemma NewHeadReads(before: Bytes, after: Bytes, form: Form, tag: nat, size: nat)
    requires (form.New1? || form.New2? || form.New5?) && Holds(form, tag, size)
    ensures ReadHead(before + Header(form, tag, size) + after, |before|) ==
            Some(Head(tag, size, |before| + |Header(form, tag, size)|))
  {
    var header := Header(form, tag, size);
    var data := before + header + after;
    AtOf(before, header, after);
    assert data[|before|] == header[0] && data[|before| + 1] == header[1];
    if form.New5? {
      PowersOf256();
      NumberOfBe(size, 4);
      assert data[|before| + 2..|before| + 6] == Be(size, 4);
    } else if form.New2? {
      assert data[|before| + 2] == header[2];
    }
  }

  lemma HeadReads(before: Bytes, after: Bytes, form: Form, tag: nat, size: nat)
    requires Holds(form, tag, size)
    ensures ReadHead(before + Header(form, tag, size) + after, |before|) ==
            Some(Head(tag, size, |before| + |Header(form, tag, size)|))
  {
    hide ReadHead, Number, Be, Pow256;
    PowersOf256();
    match form
    case Old1 => OldHeadReads(before, after, tag, size, 1, 0);
    case Old2 => OldHeadReads(before, after, tag, size, 2, 1);
    case Old4 => OldHeadReads(before, after, tag, size, 4, 2);
    case _ => NewHeadReads(before, after, form, tag, size);
  }

  lemma WalkOne(data: Bytes, position: nat, head: Head, body: Bytes)
    requires position < |data| && ReadHead(data, position) == Some(head)
    requires Slice(data, head.start, head.start + head.size) == body && |body| == head.size
    ensures var rest := Walk(data, head.start + head.size);
            Walk(data, position) == if rest.None? then None else Some([Packet(head.tag, body)] + rest.value)
  {
    hide ReadHead, Slice;
  }

  lemma PacketStep(before: Bytes, form: Form, packet: Packet, rest: Bytes, more: seq<Packet>)
    requires Holds(form, packet.tag, |packet.body|)
    requires var header := Header(form, packet.tag, |packet.body|);
             Walk(before + header + packet.body + rest, |before + header + packet.body|) == Some(more)
    ensures var header := Header(form, packet.tag, |packet.body|);
            Walk(before + header + packet.body + rest, |before|) == Some([packet] + more)
  {
    hide Holds, ReadHead, Slice, Walk;
    var tag, body := packet.tag, packet.body;
    var header := Header(form, tag, |body|);
    assert header != [];
    hide Header;
    var data := before + header + body + rest;
    HeadReads(before, body + rest, form, tag, |body|);
    SliceOf(before + header, body, rest);
    Regroup(before + header, body, rest);
    WalkOne(data, |before|, Head(tag, |body|, |before + header|), body);
  }

  lemma EncodeCons(forms: seq<Form>, packets: seq<Packet>, before: Bytes)
    requires Fit(forms, packets) && packets != []
    ensures Fit(forms[1..], packets[1..]) && Holds(forms[0], packets[0].tag, |packets[0].body|)
    ensures before + Encode(forms, packets) ==
            before + Header(forms[0], packets[0].tag, |packets[0].body|) + packets[0].body +
              Encode(forms[1..], packets[1..])
  {
    hide Header;
    var header, body, rest := Header(forms[0], packets[0].tag, |packets[0].body|), packets[0].body,
      Encode(forms[1..], packets[1..]);
    Regroup(before, header + body, rest);
    Regroup(before, header, body);
  }

  /** The same bytes, grouped for the first packet and for the others. */
  lemma EncodeBetween(before: Bytes, forms: seq<Form>, packets: seq<Packet>, tail: Bytes, data: Bytes)
    requires Fit(forms, packets) && packets != [] && data == before + Encode(forms, packets) + tail
    ensures Fit(forms[1..], packets[1..]) && Holds(forms[0], packets[0].tag, |packets[0].body|)
    ensures var header, rest := Header(forms[0], packets[0].tag, |packets[0].body|), Encode(forms[1..], packets[1..]);
            && data == before + header + packets[0].body + rest + tail
            && data == before + header + packets[0].body + (rest + tail)
  {
    EncodeCons(forms, packets, before);
    hide Header, Encode, Fit, Holds;
    var header, rest := Header(forms[0], packets[0].tag, |packets[0].body|), Encode(forms[1..], packets[1..]);
    Regroup(before + header + packets[0].body, rest, tail);
  }

  /** Packets written in any forms able to hold them are read, all and in order, before what follows. */
  lemma {:induction false} PacketsReadOn(
    before: Bytes, forms: seq<Form>, packets: seq<Packet>, tail: Bytes, data: Bytes, more: seq<Packet>)
    requires Fit(forms, packets) && data == before + Encode(forms, packets) + tail
    requires Walk(data, |data| - |tail|) == Some(more)
    ensures Walk(data, |before|) == Some(packets + more)
    decreases packets
  {
    if packets == [] {
      hide Walk;
      assert packets + more == more && |data| - |tail| == |before|;
    } else {
      EncodeBetween(before, forms, packets, tail, data);
      hide Walk, Header, Encode, Fit, Holds;
      var first, others, rest := packets[0], packets[1..], Encode(forms[1..], packets[1..]);
      var header := Header(forms[0], first.tag, |first.body|);
      PacketsReadOn(before + header + first.body, forms[1..], others, tail, data, more);
      PacketStep(before, forms[0], first, rest + tail, others + more);
      FirstOf(packets, more);
    }
  }

  lemma FirstOf(packets: seq<Packet>, more: seq<Packet>)
    requires packets != []
    ensures [packets[0]] + (packets[1..] + more) == packets + more
  {
  }

  /** Packets written in any forms able to hold them are read back, all and in order. */
  lemma PacketsReadBack(before: Bytes, forms: seq<Form>, packets: seq<Packet>)
    requires Fit(forms, packets)
    ensures Walk(before + Encode(forms, packets), |before|) == Some(packets)
  {
    var data := before + Encode(forms, packets);
    assert Walk(data, |data|) == Some([]);
    hide Walk, Encode, Fit;
    assert data + [] == data && packets + [] == packets;
    PacketsReadOn(before, forms, packets, [], data, []);
  }

  // ---------------------------------------------------------------- exactly what is accepted

  lemma {:induction false} BeOfNumber(bytes: Bytes)
    ensures Number(bytes) < Pow256(|bytes|) && Be(Number(bytes), |bytes|) == bytes
  {
    if bytes != [] {
      var last := |bytes| - 1;
      BeOfNumber(bytes[..last]);
      assert bytes == bytes[..last] + [bytes[last]];
    }
  }

  predicate OldOctet(header: Byte) {
    0x80 <= header < 0xC0 && header % 4 != 3
  }

  /** An old header that ends inside its length octets, all that there are of them being zero. */
  predicate CutHeader(end: Bytes, packet: Packet) {
    && end != [] && OldOctet(end[0]) && |end| <= OldWidth(end[0])
    && (forall k :: 1 <= k < |end| ==> end[k] == 0)
    && packet == Packet((end[0] / 4) % 16, [])
  }

  predicate CutOff(data: Bytes, position: nat) {
    position < |data| && OldOctet(data[position]) && position + 1 + OldWidth(data[position]) > |data|
  }

  lemma {:induction false} NumberZero(bytes: Bytes)
    ensures Number(bytes) == 0 <==> forall k :: 0 <= k < |bytes| ==> bytes[k] == 0
  {
    if bytes != [] {
      var last := |bytes| - 1;
      NumberZero(bytes[..last]);
      assert forall k :: 0 <= k < last ==> bytes[..last][k] == bytes[k];
    }
  }

  lemma SliceLength(data: Bytes, from: nat, size: nat)
    ensures |Slice(data, from, from + size)| == size <==> size == 0 || from + size <= |data|
    ensures from + size <= |data| ==> Slice(data, from, from + size) == data[from..from + size]
  {
    if from + size == |data| && size > 0 {
      assert data[from..] == data[from..from + size];
    }
  }

  /** A header cut off inside its length octets is refused in the new forms. In the old ones it is
      accepted exactly when every length octet that there is is zero, and reads as an empty packet. */
  lemma TruncatedOldHeader(data: Bytes, position: nat)
    requires CutOff(data, position)
    ensures Walk(data, position).Some? <==> forall k :: position < k < |data| ==> data[k] == 0
    ensures Walk(data, position).Some? ==> Walk(data, position).value == [Packet((data[position] / 4) % 16, [])]
  {
    var header, width, octets := data[position], OldWidth(data[position]), data[position + 1..];
    var start := position + 1 + width;
    assert Slice(data, position + 1, start) == octets;
    assert ReadHead(data, position) == Some(Head((header / 4) % 16, Number(octets), start));
    NumberZero(octets);
    assert forall k :: position < k < |data| ==> data[k] == octets[k - position - 1];
    SliceLength(data, start, Number(octets));
    hide Number, ReadHead, Slice, OldOctet, OldWidth;
    if Number(octets) == 0 {
      assert Walk(data, start) == Some([]);
      WalkOne(data, position, Head((header / 4) % 16, 0, start), []);
    }
  }

  /** The form of the header whose first two octets these are. */
  function FormOf(data: Bytes, position: nat): Form
    requires position < |data|
  {
    if data[position] < 0xC0 then
      if OldWidth(data[position]) == 1 then Old1 else if OldWidth(data[position]) == 2 then Old2 else Old4
    else
      var first := At(data, position + 1);
      if first.None? || first.value < 192 then New1 else if first.value < 224 then New2 else New5
  }

  lemma OldOctetParts(header: Byte)
    requires OldOctet(header)
    ensures header == 0x80 + 4 * ((header / 4) % 16) + header % 4 && header % 4 < 3 && (header / 4) % 16 < 16
  {
  }

  /** An old header octet and its length octets are the header that they say. */
  lemma HeaderOfOld(header: Byte, tag: nat, kind: nat, octets: Bytes)
    requires header == 0x80 + 4 * tag + kind && tag < 16 && (kind, |octets|) in {(0, 1), (1, 2), (2, 4)}
    ensures var form := if kind == 0 then Old1 else if kind == 1 then Old2 else Old4;
            Holds(form, tag, Number(octets)) && Header(form, tag, Number(octets)) == [header] + octets
  {
    hide Number, Be, Pow256, Header, Holds;
    BeOfNumber(octets);
    PowersOf256();
    OldHeader(tag, kind, Number(octets), octets);
  }

  lemma OldHeader(tag: nat, kind: nat, size: nat, octets: Bytes)
    requires tag < 16 && (kind, |octets|) in {(0, 1), (1, 2), (2, 4)}
    requires Be(size, |octets|) == octets
    requires size < if kind == 0 then 256 else if kind == 1 then 0x1_0000 else 0x1_0000_0000
    ensures var form := if kind == 0 then Old1 else if kind == 1 then Old2 else Old4;
            Holds(form, tag, size) && Header(form, tag, size) == [0x80 + 4 * tag + kind] + octets
  {
    hide Be;
  }

  lemma OldHeadWritten(data: Bytes, position: nat)
    requires position < |data| && OldOctet(data[position]) && !CutOff(data, position)
    ensures ReadHead(data, position).Some?
    ensures var head, form := ReadHead(data, position).value, FormOf(data, position);
            && head.start <= |data| && Holds(form, head.tag, head.size)
            && data[position..head.start] == Header(form, head.tag, head.size)
  {
    var header, width := data[position], OldWidth(data[position]);
    var octets := data[position + 1..position + 1 + width];
    SliceLength(data, position + 1, width);
    OldHeadIs(data, position, header, width, header % 4);
    OldOctetParts(header);
    HeaderOfOld(header, (header / 4) % 16, header % 4, octets);
    hide Number, Slice, ReadHead, Header, Holds, OldOctet, CutOff;
    FirstAndRest(data, position, position + 1 + width);
  }

  lemma FirstAndRest(data: Bytes, from: nat, to: nat)
    requires from < to <= |data|
    ensures data[from..to] == [data[from]] + data[from + 1..to]
  {
  }

  lemma NewHeadWritten(data: Bytes, position: nat)
    requires position < |data| && data[position] >= 0xC0 && ReadHead(data, position).Some?
    ensures var head, form := ReadHead(data, position).value, FormOf(data, position);
            && head.start <= |data| && Holds(form, head.tag, head.size)
            && data[position..head.start] == Header(form, head.tag, head.size)
  {
    var head, form := ReadHead(data, position).value, FormOf(data, position);
    assert data[position] == 0xC0 + head.tag;
    if form.New5? {
      BeOfNumber(data[position + 2..position + 6]);
      PowersOf256();
      hide Number, Be, Pow256;
      assert data[position..position + 6] == [data[position], data[position + 1]] + data[position + 2..position + 6];
    }
  }

  /** A header that is read, and not cut off, is written in one of the six forms. */
  lemma HeadWritten(data: Bytes, position: nat)
    requires position < |data| && ReadHead(data, position).Some? && !CutOff(data, position)
    ensures var head, form := ReadHead(data, position).value, FormOf(data, position);
            && head.start <= |data| && Holds(form, head.tag, head.size)
            && data[position..head.start] == Header(form, head.tag, head.size)
  {
    hide Number, Slice, Header;
    if data[position] >= 0xC0 {
      NewHeadWritten(data, position);
    } else {
      OldHeadWritten(data, position);
    }
  }

  /** These bytes are these packets, each in a form that holds it. */
  ghost predicate Spells(bytes: Bytes, packets: seq<Packet>) {
    exists forms :: Fit(forms, packets) && bytes == Encode(forms, packets)
  }

  ghost predicate Splits(bytes: Bytes, whole: Bytes, end: Bytes, packets: seq<Packet>) {
    bytes == whole + end && packets != [] && Spells(whole, packets[..|packets| - 1]) &&
      CutHeader(end, packets[|packets| - 1])
  }

  /** And these are all but the last of them, and then an old header that is cut off. */
  ghost predicate SpellsCutOff(bytes: Bytes, packets: seq<Packet>) {
    exists whole, end :: Splits(bytes, whole, end, packets)
  }

  lemma SpellsCons(form: Form, packet: Packet, bytes: Bytes, packets: seq<Packet>)
    requires Holds(form, packet.tag, |packet.body|) && Spells(bytes, packets)
    ensures Spells(Header(form, packet.tag, |packet.body|) + packet.body + bytes, [packet] + packets)
  {
    hide Header, Holds;
    var forms :| Fit(forms, packets) && bytes == Encode(forms, packets);
    var all, more := [form] + forms, [packet] + packets;
    assert all[1..] == forms && more[1..] == packets;
    assert Fit(all, more) && Encode(all, more) == Header(form, packet.tag, |packet.body|) + packet.body + bytes;
  }

  lemma SpellsCutOffCons(form: Form, packet: Packet, bytes: Bytes, packets: seq<Packet>)
    requires Holds(form, packet.tag, |packet.body|) && SpellsCutOff(bytes, packets)
    ensures SpellsCutOff(Header(form, packet.tag, |packet.body|) + packet.body + bytes, [packet] + packets)
  {
    hide Header, Holds, CutHeader, Spells;
    var whole, end :| Splits(bytes, whole, end, packets);
    var first, all := Header(form, packet.tag, |packet.body|) + packet.body, [packet] + packets;
    SpellsCons(form, packet, whole, packets[..|packets| - 1]);
    assert all[..|all| - 1] == [packet] + packets[..|packets| - 1];
    Regroup(first, whole, end);
    assert Splits(first + bytes, first + whole, end, all);
  }

  lemma CutOffIsWritten(data: Bytes, position: nat)
    requires CutOff(data, position) && Walk(data, position).Some?
    ensures SpellsCutOff(data[position..], Walk(data, position).value)
  {
    TruncatedOldHeader(data, position);
    hide Walk;
    var end, packets := data[position..], Walk(data, position).value;
    assert Fit([], []) && Encode([], []) == [];
    assert Spells([], packets[..0]);
    assert forall k :: 1 <= k < |end| ==> end[k] == data[position + k];
    assert [] + end == end;
    assert Splits(end, [], end, packets);
  }

  lemma WalkFirst(data: Bytes, position: nat)
    requires position < |data| && Walk(data, position).Some?
    ensures ReadHead(data, position).Some?
    ensures var head := ReadHead(data, position).value;
            var end := head.start + head.size;
            var body := Slice(data, head.start, end);
            && |body| == head.size && Walk(data, end).Some?
            && Walk(data, position).value == [Packet(head.tag, body)] + Walk(data, end).value
  {
    hide ReadHead, Slice;
  }

  lemma InThree(data: Bytes, from: nat, middle: nat, to: nat)
    requires from <= middle <= to <= |data|
    ensures data[from..] == data[from..middle] + data[middle..to] + data[to..]
  {
  }

  lemma FirstIsWritten(data: Bytes, position: nat) returns (form: Form, packet: Packet, end: nat)
    requires position < |data| && Walk(data, position).Some? && !CutOff(data, position)
    ensures position < end <= |data| && Holds(form, packet.tag, |packet.body|)
    ensures data[position..] == Header(form, packet.tag, |packet.body|) + packet.body + data[end..]
    ensures Walk(data, end).Some? && Walk(data, position).value == [packet] + Walk(data, end).value
  {
    hide Header, Holds, FormOf, ReadHead, Slice, Walk, CutOff;
    WalkFirst(data, position);
    HeadWritten(data, position);
    var head := ReadHead(data, position).value;
    form, end := FormOf(data, position), head.start + head.size;
    SliceLength(data, head.start, head.size);
    var body := data[head.start..end];
    InThree(data, position, head.start, end);
    packet := Packet(head.tag, body);
  }

  /** Whatever is accepted was written as packets, up to a header that is cut off at the very end. */
  lemma {:induction false} AcceptedIsWritten(data: Bytes, position: nat)
    requires position <= |data| && Walk(data, position).Some?
    ensures var packets := Walk(data, position).value;
            Spells(data[position..], packets) || SpellsCutOff(data[position..], packets)
    decreases |data| - position
  {
    if position == |data| {
      assert Fit([], []) && data[position..] == Encode([], []);
    } else if CutOff(data, position) {
      CutOffIsWritten(data, position);
    } else {
      var form, packet, end := FirstIsWritten(data, position);
      AcceptedIsWritten(data, end);
      hide Walk, Header, Holds, Spells, SpellsCutOff;
      var rest := Walk(data, end).value;
      if Spells(data[end..], rest) {
        SpellsCons(form, packet, data[end..], rest);
      } else {
        SpellsCutOffCons(form, packet, data[end..], rest);
      }
    }
  }

  lemma CutHeaderReads(whole: Bytes, end: Bytes, packet: Packet)
    requires CutHeader(end, packet)
    ensures Walk(whole + end, |whole|) == Some([packet])
  {
    var data := whole + end;
    assert data[|whole|] == end[0];
    hide Walk;
    assert forall k :: |whole| < k < |data| ==> data[k] == end[k - |whole|];
    TruncatedOldHeader(data, |whole|);
  }

  lemma CutOffReads(whole: Bytes, end: Bytes, packets: seq<Packet>)
    requires Splits(whole + end, whole, end, packets)
    ensures Walk(whole + end, 0) == Some(packets)
  {
    hide Walk, Encode, Fit, CutHeader;
    var init, last := packets[..|packets| - 1], packets[|packets| - 1];
    var forms :| Fit(forms, init) && whole == Encode(forms, init);
    CutHeaderReads(whole, end, last);
    assert [] + whole == whole && packets == init + [last];
    PacketsReadOn([], forms, init, end, whole + end, [last]);
  }

  /** What the walk accepts, exactly: packets, each in one of the six forms; or such packets and then,
      for an empty one, an old header that the end cuts off within zero length octets. */
  lemma WalkExactly(data: Bytes, packets: seq<Packet>)
    ensures Walk(data, 0) == Some(packets) <==> Spells(data, packets) || SpellsCutOff(data, packets)
  {
    hide Walk, Encode, Fit, CutHeader;
    assert data[0..] == data;
    if Walk(data, 0) == Some(packets) {
      AcceptedIsWritten(data, 0);
    }
    if Spells(data, packets) {
      var forms :| Fit(forms, packets) && data == Encode(forms, packets);
      assert [] + data == data;
      PacketsReadBack([], forms, packets);
    }
    if SpellsCutOff(data, packets) {
      var whole, end :| Splits(data, whole, end, packets);
      CutOffReads(whole, end, packets);
    }
  }

  // ---------------------------------------------------------------- where the packets stand

  /** The packet's header is at `from`, says what the packet is, and its body follows, whole. */
  predicate StandsAt(data: Bytes, packet: Packet, from: nat, to: nat) {
    && from < |data| && |packet.body| <= to && from < to - |packet.body|
    && ReadHead(data, from) == Some(Head(packet.tag, |packet.body|, to - |packet.body|))
    && (packet.body != [] ==> to <= |data| && data[to - |packet.body|..to] == packet.body)
  }

  /** The packets stand one behind the other, from `position` to the end. */
  predicate Laid(data: Bytes, position: nat, packets: seq<Packet>, places: seq<nat>) {
    && |places| == |packets| + 1 && places[0] == position && places[|packets|] >= |data|
    && forall i :: 0 <= i < |packets| ==> StandsAt(data, packets[i], places[i], places[i + 1])
  }

  /** Where the packets that the walk visits begin, and where the last of them ends. */
  function Places(data: Bytes, position: nat): seq<nat>
    decreases |data| - position
  {
    if position >= |data| || ReadHead(data, position).None? then [position]
    else
      var head := ReadHead(data, position).value;
      [position] + Places(data, head.start + head.size)
  }

  /** On any bytes the walk ends; each packet reported stands right behind the one before it, has the tag
      and the length that its header says, and its body is all in range. */
  lemma {:induction false} PacketsInRange(data: Bytes, position: nat)
    ensures Walk(data, position).Some? ==> Laid(data, position, Walk(data, position).value, Places(data, position))
    decreases |data| - position
  {
    hide Walk, Places, ReadHead, Slice, StandsAt, Laid;
    if position >= |data| {
      NothingLaid(data, position);
    } else if Walk(data, position).Some? {
      WalkFirst(data, position);
      FirstStands(data, position);
      var head := ReadHead(data, position).value;
      var end := head.start + head.size;
      PacketsInRange(data, end);
      LaidCons(data, position, Packet(head.tag, Slice(data, head.start, end)), end, Walk(data, end).value,
               Places(data, end));
    }
  }

  lemma NothingLaid(data: Bytes, position: nat)
    requires position >= |data|
    ensures Walk(data, position) == Some([]) && Laid(data, position, [], Places(data, position))
  {
  }

  lemma FirstStands(data: Bytes, position: nat)
    requires position < |data| && ReadHead(data, position).Some?
    ensures var head := ReadHead(data, position).value;
            var end := head.start + head.size;
            var packet := Packet(head.tag, Slice(data, head.start, end));
            |packet.body| == head.size ==>
              StandsAt(data, packet, position, end) && Places(data, position) == [position] + Places(data, end)
  {
    hide ReadHead, Slice;
    var head := ReadHead(data, position).value;
    SliceLength(data, head.start, head.size);
  }

  lemma LaidCons(data: Bytes, position: nat, packet: Packet, end: nat, packets: seq<Packet>, places: seq<nat>)
    requires StandsAt(data, packet, position, end) && Laid(data, end, packets, places)
    ensures Laid(data, position, [packet] + packets, [position] + places)
  {
    hide StandsAt;
  }

  /** One octet of an old header alone is an empty packet; one of a new header is refused. */
  lemma TruncatedOldHeaderAccepted()
    ensures Walk([0x88], 0) == Some([Packet(2, [])])
    ensures Walk([0xC2], 0) == None
  {
    var data: Bytes := [0x88];
    TruncatedOldHeader(data, 0);
    var cut: Bytes := [0xC2];
    assert ReadHead(cut, 0) == None && Walk(cut, 0) == None;
  }

  // ---------------------------------------------------------------- fingerprints

  /** A hexadecimal SHA-1 digest as the number it writes; digests of one length sort as numbers do. */
  type Digest = Bytes -> nat

  predicate KeyPacket(packet: Packet) {
    packet.tag == 6
  }

  predicate Version4(packet: Packet) {
    packet.body != [] && packet.body[0] == 4 && |packet.body| <= 65535
  }

  /** What section 12.2 of RFC 4880 hashes for a version 4 key. */
  function FingerprintInput(body: Bytes): Bytes {
    [0x99] + Be(|body|, 2) + body
  }

  /** The fingerprints of the key packets; None where the source raises an error. */
  function Keys(packets: seq<Packet>, sha1: Digest): Option<seq<nat>> {
    if packets == [] then Some([])
    else
      var rest := Keys(packets[1..], sha1);
      if !KeyPacket(packets[0]) then rest
      else if !Version4(packets[0]) || rest.None? then None
      else Some([sha1(FingerprintInput(packets[0].body))] + rest.value)
  }

  function AllKeys(payloads: seq<Bytes>, sha1: Digest): Option<seq<nat>> {
    if payloads == [] then Some([])
    else
      var packets, rest := Walk(payloads[0], 0), AllKeys(payloads[1..], sha1);
      if packets.None? || rest.None? then None
      else
        var keys := Keys(packets.value, sha1);
        if keys.None? then None else Some(keys.value + rest.value)
  }

  predicate StrictlySorted(s: seq<nat>) {
    forall i, j :: 0 <= i < j < |s| ==> s[i] < s[j]
  }

  lemma SortedCons(x: nat, rest: seq<nat>)
    requires StrictlySorted(rest) && forall y :: y in rest ==> x < y
    ensures StrictlySorted([x] + rest)
  {
    var all := [x] + rest;
    assert forall k :: 0 < k < |all| ==> all[k] == rest[k - 1] && all[k] in rest;
  }

  /** Inserts a value into a strictly sorted sequence, once. */
  function Insert(s: seq<nat>, x: nat): (r: seq<nat>)
    requires StrictlySorted(s)
    ensures StrictlySorted(r) && forall y :: y in r <==> y in s || y == x
  {
    if s == [] then [x]
    else if x < s[0] then [x] + s
    else if x == s[0] then s
    else
      var rest := Insert(s[1..], x);
      assert s == [s[0]] + s[1..];
      SortedCons(s[0], rest);
      [s[0]] + rest
  }

  /** Python's sorted(set(s)). */
  function SortedSet(s: seq<nat>): (r: seq<nat>)
    ensures StrictlySorted(r) && forall y :: y in r <==> y in s
  {
    if s == [] then []
    else
      assert s == [s[0]] + s[1..];
      Insert(SortedSet(s[1..]), s[0])
  }

  /** A strictly sorted sequence is determined by its elements. */
  lemma {:induction false} SortedIsUnique(a: seq<nat>, b: seq<nat>)
    requires StrictlySorted(a) && StrictlySorted(b) && forall y :: y in a <==> y in b
    ensures a == b
  {
    EmptyAlike(a, b);
    if a != [] {
      assert a[0] in b && b[0] in a;
      assert a[0] == b[0];
      RestElements(a, b);
      SortedIsUnique(a[1..], b[1..]);
      assert a == [a[0]] + a[1..] && b == [b[0]] + b[1..];
    }
  }

  lemma EmptyAlike(a: seq<nat>, b: seq<nat>)
    requires forall y :: y in a <==> y in b
    ensures a == [] <==> b == []
  {
    if a != [] {
      assert a[0] in b;
    }
    if b != [] {
      assert b[0] in a;
    }
  }

  lemma RestElements(a: seq<nat>, b: seq<nat>)
    requires StrictlySorted(a) && StrictlySorted(b) && a != [] && b != [] && a[0] == b[0]
    requires forall y :: y in a <==> y in b
    ensures forall y :: y in a[1..] <==> y in b[1..]
  {
    assert a == [a[0]] + a[1..] && b == [b[0]] + b[1..];
    assert forall y :: y in a[1..] ==> y in b && y != b[0];
    assert forall y :: y in b[1..] ==> y in a && y != a[0];
  }

  /** What `fingerprints` returns; None where it raises an error, as it does when no key is found. */
  function Report(payloads: seq<Bytes>, sha1: Digest): Option<seq<nat>> {
    var keys := AllKeys(payloads, sha1);
    if keys.None? || keys.value == [] then None else Some(SortedSet(keys.value))
  }

  // ---------------------------------------------------------------- the loops

  method DecodeHeader(data: Bytes, position: nat) returns (head: Option<Head>)
    requires position < |data|
    ensures head == ReadHead(data, position)
  {
    var header, next := data[position], position + 1;
    if header >= 0xC0 {
      if next >= |data| {
        return None;
      }
      var size: nat := data[next];
      next := next + 1;
      if 192 <= size < 224 {
        if next >= |data| {
          return None;
        }
        size := (size - 192) * 256 + data[next] + 192;
        next := next + 1;
      } else if size == 255 {
        if next + 4 > |data| {
          return None;
        }
        size := Number(data[next..next + 4]);
        next := next + 4;
      } else if size >= 224 {
        return None;
      }
      return Some(Head(header % 64, size, next));
    } else if header >= 0x80 {
      var width := if header % 4 == 0 then 1 else if header % 4 == 1 then 2 else if header % 4 == 2 then 4 else 0;
      if width == 0 {
        return None;
      }
      return Some(Head((header / 4) % 16, Number(Slice(data, next, next + width)), next + width));
    }
    return None;
  }

  function KeysFrom(data: Bytes, position: nat, sha1: Digest): Option<seq<nat>> {
    var packets := Walk(data, position);
    if packets.None? then None else Keys(packets.value, sha1)
  }

  function Before(found: seq<nat>, rest: Option<seq<nat>>): Option<seq<nat>> {
    if rest.None? then None else Some(found + rest.value)
  }

  /** What one packet adds to what is found after it. */
  lemma KeysStep(data: Bytes, position: nat, sha1: Digest)
    requires position < |data|
    ensures var head := ReadHead(data, position);
            head.None? ==> KeysFrom(data, position, sha1).None?
    ensures var head := ReadHead(data, position);
            head.Some? ==>
              var end := head.value.start + head.value.size;
              var body := Slice(data, head.value.start, end);
              KeysFrom(data, position, sha1) ==
              if |body| != head.value.size then None
              else if head.value.tag != 6 then KeysFrom(data, end, sha1)
              else if !Version4(Packet(6, body)) then None
              else Before([sha1(FingerprintInput(body))], KeysFrom(data, end, sha1))
  {
    hide ReadHead, Slice, FingerprintInput;
    var head := ReadHead(data, position);
    if head.Some? {
      var end := head.value.start + head.value.size;
      var body := Slice(data, head.value.start, end);
      if |body| == head.value.size && Walk(data, end).Some? {
        var packet, rest := Packet(head.value.tag, body), Walk(data, end).value;
        WalkOne(data, position, head.value, body);
        assert ([packet] + rest)[1..] == rest;
      }
    }
  }

  method PayloadKeys(data: Bytes, sha1: Digest) returns (keys: Option<seq<nat>>)
    ensures keys == KeysFrom(data, 0, sha1)
  {
    hide KeysFrom, ReadHead, Slice;
    var found: seq<nat>, position: nat := [], 0;
    NothingBefore(KeysFrom(data, 0, sha1));
    while position < |data|
      invariant Before(found, KeysFrom(data, position, sha1)) == KeysFrom(data, 0, sha1)
      decreases |data| - position
    {
      KeysStep(data, position, sha1);
      var head := DecodeHeader(data, position);
      if head.None? {
        return None;
      }
      var end := head.value.start + head.value.size;
      var packet := Slice(data, head.value.start, end);
      if |packet| != head.value.size {
        return None;
      }
      if head.value.tag == 6 {
        if packet == [] || packet[0] != 4 || head.value.size > 65535 {
          return None;
        }
        var fingerprint := sha1([0x99] + Be(head.value.size, 2) + packet);
        BeforeTwice(found, fingerprint, KeysFrom(data, end, sha1));
        found := found + [fingerprint];
      }
      position := end;
    }
    NoneLeft(data, position, sha1);
    NothingAfter(found);
    return Some(found);
  }

  lemma NothingBefore(rest: Option<seq<nat>>)
    ensures Before([], rest) == rest
  {
    assert rest.Some? ==> [] + rest.value == rest.value;
  }

  lemma NothingAfter(found: seq<nat>)
    ensures Before(found, Some([])) == Some(found)
  {
    assert found + [] == found;
  }

  lemma BeforeTwice(found: seq<nat>, key: nat, rest: Option<seq<nat>>)
    ensures Before(found, Before([key], rest)) == Before(found + [key], rest)
  {
    if rest.Some? {
      Regroup(found, [key], rest.value);
    }
  }

  lemma NoneLeft(data: Bytes, position: nat, sha1: Digest)
    ensures position >= |data| ==> KeysFrom(data, position, sha1) == Some([])
  {
  }

  /** The fingerprints of the signing keys in the payloads, sorted and each once. */
  method Fingerprints(payloads: seq<Bytes>, sha1: Digest) returns (report: Option<seq<nat>>)
    ensures report == Report(payloads, sha1)
  {
    hide KeysFrom;
    var found := [];
    NothingBefore(AllKeys(payloads, sha1));
    for k := 0 to |payloads|
      invariant Before(found, AllKeys(payloads[k..], sha1)) == AllKeys(payloads, sha1)
    {
      assert payloads[k..][0] == payloads[k] && payloads[k..][1..] == payloads[k + 1..];
      PayloadStep(payloads[k..], sha1);
      var keys := PayloadKeys(payloads[k], sha1);
      if keys.None? {
        return None;
      }
      if AllKeys(payloads[k + 1..], sha1).Some? {
        Regroup(found, keys.value, AllKeys(payloads[k + 1..], sha1).value);
      }
      found := found + keys.value;
    }
    assert payloads[|payloads|..] == [];
    NothingAfter(found);
    if found == [] {
      return None;
    }
    return Some(SortedSet(found));
  }

  lemma PayloadStep(payloads: seq<Bytes>, sha1: Digest)
    requires payloads != []
    ensures var keys := KeysFrom(payloads[0], 0, sha1);
            AllKeys(payloads, sha1) == if keys.None? then None else Before(keys.value, AllKeys(payloads[1..], sha1))
  {
  }

  // ---------------------------------------------------------------- the whole promise

  /** The payload consists of these packets, the last of them possibly in a header that is cut off. */
  ghost predicate Written(payload: Bytes, packets: seq<Packet>) {
    Spells(payload, packets) || SpellsCutOff(payload, packets)
  }

  ghost predicate AllWritten(payloads: seq<Bytes>, packets: seq<seq<Packet>>) {
    |payloads| == |packets| && forall k :: 0 <= k < |packets| ==> Written(payloads[k], packets[k])
  }

  function Concat(packets: seq<seq<Packet>>): seq<Packet> {
    if packets == [] then [] else packets[0] + Concat(packets[1..])
  }

  lemma {:induction false} KeysConcat(a: seq<Packet>, b: seq<Packet>, sha1: Digest)
    ensures Keys(a + b, sha1) == if Keys(a, sha1).None? then None else Before(Keys(a, sha1).value, Keys(b, sha1))
  {
    if a == [] {
      assert a + b == b;
      NothingBefore(Keys(b, sha1));
    } else {
      hide FingerprintInput;
      KeysConcat(a[1..], b, sha1);
      assert (a + b)[0] == a[0] && (a + b)[1..] == a[1..] + b;
      if Keys(a[1..], sha1).Some? && Keys(b, sha1).Some? {
        Regroup([sha1(FingerprintInput(a[0].body))], Keys(a[1..], sha1).value, Keys(b, sha1).value);
      }
    }
  }

  lemma WrittenWalks(payload: Bytes, packets: seq<Packet>)
    ensures Written(payload, packets) <==> Walk(payload, 0) == Some(packets)
  {
    hide Walk, Spells, SpellsCutOff;
    WalkExactly(payload, packets);
  }

  lemma {:induction false} WrittenKeys(payloads: seq<Bytes>, packets: seq<seq<Packet>>, sha1: Digest)
    requires AllWritten(payloads, packets)
    ensures AllKeys(payloads, sha1) == Keys(Concat(packets), sha1)
    decreases packets
  {
    if packets != [] {
      hide Keys, Walk, Written, AllKeys;
      WrittenWalks(payloads[0], packets[0]);
      WrittenKeys(payloads[1..], packets[1..], sha1);
      KeysConcat(packets[0], Concat(packets[1..]), sha1);
      PayloadStep(payloads, sha1);
    }
  }

  /** The value is the SHA-1 of what section 12.2 of RFC 4880 hashes for a key packet among these: 0x99,
      the two octets of the length, high before low, and the body. */
  ghost predicate KeyAmong(packets: seq<Packet>, sha1: Digest, value: nat) {
    exists p :: p in packets && KeyOf(p, sha1, value)
  }

  predicate KeyOf(p: Packet, sha1: Digest, value: nat) {
    p.tag == 6 && value == sha1([0x99, (|p.body| / 256) % 256, |p.body| % 256] + p.body)
  }

  predicate AllVersion4(packets: seq<Packet>) {
    forall k :: 0 <= k < |packets| && packets[k].tag == 6 ==>
      packets[k].body != [] && packets[k].body[0] == 4 && |packets[k].body| <= 65535
  }

  lemma InputOctets(body: Bytes)
    ensures FingerprintInput(body) == [0x99, (|body| / 256) % 256, |body| % 256] + body
  {
    assert Be(|body|, 2) == Be(|body| / 256, 1) + [|body| % 256] && Be(|body| / 256 / 256, 0) == [];
    assert Be(|body| / 256, 1) == [(|body| / 256) % 256];
  }

  lemma {:induction false} KeysAre(packets: seq<Packet>, sha1: Digest)
    ensures Keys(packets, sha1).Some? <==> AllVersion4(packets)
    ensures Keys(packets, sha1).Some? ==> forall v :: v in Keys(packets, sha1).value <==> KeyAmong(packets, sha1, v)
  {
    if packets != [] {
      var first, rest := packets[0], packets[1..];
      InputOctets(first.body);
      KeysAre(rest, sha1);
      assert packets == [first] + rest;
      assert AllVersion4(packets) <==> (KeyPacket(first) ==> Version4(first)) && AllVersion4(rest) by {
        assert forall k :: 0 < k < |packets| ==> packets[k] == rest[k - 1];
      }
      assert forall v :: KeyOf(first, sha1, v) <==> KeyPacket(first) && v == sha1(FingerprintInput(first.body));
      hide FingerprintInput, Version4, KeyOf;
      assert forall v :: KeyAmong(packets, sha1, v) <==> KeyOf(first, sha1, v) || KeyAmong(rest, sha1, v);
    }
  }

  /** For payloads that consist of these packets: the report is the strictly sorted set of the
      fingerprints of the key packets, and there is one exactly when there is a key packet and every
      key packet is a version 4 key short enough to be hashed. */
  lemma ReportOfPackets(payloads: seq<Bytes>, packets: seq<seq<Packet>>, sha1: Digest)
    requires AllWritten(payloads, packets)
    ensures var report, all := Report(payloads, sha1), Concat(packets);
            && (report.Some? <==> AllVersion4(all) && exists v :: KeyAmong(all, sha1, v))
            && (report.Some? ==>
                  StrictlySorted(report.value) && forall v :: v in report.value <==> KeyAmong(all, sha1, v))
  {
    hide Keys, KeyAmong;
    WrittenKeys(payloads, packets, sha1);
    var all := Concat(packets);
    KeysAre(all, sha1);
    if Keys(all, sha1).Some? {
      var keys := Keys(all, sha1).value;
      if keys != [] {
        assert keys[0] in keys && KeyAmong(all, sha1, keys[0]);
      }
    }
  }

  /** A payload that consists of no packets at all ends the report. */
  lemma {:induction false} UnreadablePayload(payloads: seq<Bytes>, k: nat, sha1: Digest)
    requires k < |payloads| && forall packets :: !Written(payloads[k], packets)
    ensures AllKeys(payloads, sha1).None? && Report(payloads, sha1).None?
    decreases k
  {
    hide Walk, Written;
    if k == 0 {
      if Walk(payloads[0], 0).Some? {
        WrittenWalks(payloads[0], Walk(payloads[0], 0).value);
      }
    } else {
      UnreadablePayload(payloads[1..], k - 1, sha1);
    }
  }
}
