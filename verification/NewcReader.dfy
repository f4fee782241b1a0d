/** Reading a whole newc archive: members up to the trailer. The reader is the inverse of the writer
    in `Newc`. */
module NewcReader {
  import opened Prelude
  import opened Newc

  /** Members up to the trailer, and the bytes that follow it. */
  function ReadArchive(bytes: Bytes, at: nat): Option<(seq<Member>, Bytes)>
    decreases |bytes|
  {
    var first := ReadMember(bytes, at);
    if first.None? then None
    else if first.value.0.name == TRAILER then Some(([], first.value.1))
    else
      var rest := ReadArchive(first.value.1, at + |bytes| - |first.value.1|);
      if rest.None? then None
      else Some(([first.value.0] + rest.value.0, rest.value.1))
  }

  predicate AllConsistent(members: seq<Member>) {
    forall i :: 0 <= i < |members| ==> Consistent(members[i])
  }

  /** No member bears the trailer's name. */
  predicate Unmistakable(members: seq<Member>) {
    forall i :: 0 <= i < |members| ==> members[i].name != TRAILER
  }

  /** The reader undoes the writer and stops exactly behind the trailer, if and only if no member
      bears the trailer's name. */
  lemma {:induction false} RoundTrip(members: seq<Member>, trailer: Member, at: nat)
    requires AllConsistent(members) && at % 4 == 0 && Consistent(trailer) && trailer.name == TRAILER
    ensures ReadArchive(EncodeAll(members) + Encode(trailer), at) == Some((members, [])) <==> Unmistakable(members)
    ensures ReadArchive(EncodeAll(members) + Encode(trailer), at).Some?
  {
    hide ReadMember, Encode, EncodeAll, UnHex;
    var end := Encode(trailer);
    if members == [] {
      NoMembers();
      assert EncodeAll(members) + end == end + [];
      EncodeLength(trailer);
      ReadEncoded(trailer, [], at);
    } else {
      var first, others := Encode(members[0]), EncodeAll(members[1..]);
      EncodeAllHead(members);
      EncodeLength(members[0]);
      Associate(first, others, end);
      RoundTrip(members[1..], trailer, at + |first|);
      ReadEncoded(members[0], others + end, at);
      assert EncodeAll(members) + end == first + (others + end);
      assert members == [members[0]] + members[1..];
    }
  }
}
