/** Byte streams of runtime/native/main.swift: the framing of standard input, whole writes, and the
    bounded serial log. */
module NativeIo {
  import opened Prelude

  // ---------------------------------------------------------------- framing

  const NEWLINE: Byte := 10

  /** One read: interrupted, some bytes, or the end of the stream or an error. */
  datatype Read = Interrupted | Chunk(bytes: Bytes) | Closed

  /** Everything read before the stream ends. */
  function Stream(input: seq<Read>): Bytes {
    if input == [] || input[0].Closed? then []
    else (if input[0].Chunk? then input[0].bytes else []) + Stream(input[1..])
  }

  /** The position of the first newline, or the length. */
  function LineEnd(stream: Bytes): (n: nat)
    ensures n <= |stream| && (n < |stream| ==> stream[n] == NEWLINE)
    ensures forall k :: 0 <= k < n ==> stream[k] != NEWLINE
  {
    if stream == [] || stream[0] == NEWLINE then 0
    else
      var rest := LineEnd(stream[1..]);
      assert forall k :: 0 < k < rest + 1 ==> stream[k] == stream[1..][k - 1];
      1 + rest
  }

  /** The newline-terminated lines before the first line that reaches the limit. */
  function Framed(stream: Bytes, limit: nat): seq<Bytes>
    decreases |stream|
  {
    var end := LineEnd(stream);
    if end == |stream| || end >= limit then [] else [stream[..end]] + Framed(stream[end + 1..], limit)
  }

  /** The first line, complete or not, reaches the limit. */
  predicate Hopeless(stream: Bytes, limit: nat) {
    LineEnd(stream) >= limit
  }

  lemma LineEndIs(stream: Bytes, n: nat)
    requires n < |stream| && stream[n] == NEWLINE && forall k :: 0 <= k < n ==> stream[k] != NEWLINE
    ensures LineEnd(stream) == n
  {
  }

  /** A line that is complete stays as it is when more bytes come. */
  lemma LineEndStays(stream: Bytes, more: Bytes)
    ensures LineEnd(stream) < |stream| ==> LineEnd(stream + more) == LineEnd(stream)
    ensures LineEnd(stream) <= LineEnd(stream + more)
  {
    var all := stream + more;
    assert forall k :: 0 <= k < |stream| ==> all[k] == stream[k];
    if LineEnd(stream) < |stream| {
      LineEndIs(all, LineEnd(stream));
    } else {
      assert forall k :: 0 <= k < |stream| ==> all[k] != NEWLINE;
    }
  }

  /** What a complete line short enough adds to the lines after it. */
  lemma FrameOne(line: Bytes, rest: Bytes, limit: nat)
    requires NEWLINE !in line && |line| < limit
    ensures Framed(line + [NEWLINE] + rest, limit) == [line] + Framed(rest, limit)
  {
    var stream := line + [NEWLINE] + rest;
    assert forall k :: 0 <= k < |line| ==> stream[k] == line[k];
    LineEndIs(stream, |line|);
    assert stream[..|line|] == line && stream[|line| + 1..] == rest;
  }

  /** Once the unfinished line reaches the limit nothing that comes can add a line. */
  lemma HopelessStays(stream: Bytes, more: Bytes, limit: nat)
    requires Hopeless(stream, limit)
    ensures Framed(stream + more, limit) == []
  {
    LineEndStays(stream, more);
  }

  lemma SplitLine(stream: Bytes)
    ensures var end := LineEnd(stream);
            end < |stream| ==> stream == stream[..end] + [NEWLINE] + stream[end + 1..] && NEWLINE !in stream[..end]
  {
    hide LineEnd;
    if LineEnd(stream) < |stream| {
      CutAt(stream, LineEnd(stream));
    }
  }

  lemma CutAt(stream: Bytes, n: nat)
    requires n < |stream|
    ensures stream == stream[..n] + [stream[n]] + stream[n + 1..]
    ensures forall b :: b in stream[..n] ==> exists k :: 0 <= k < n && stream[k] == b
  {
  }

  lemma DropMore(stream: Bytes, head: Bytes, rest: Bytes, n: nat)
    requires stream == head + rest && n <= |rest|
    ensures stream[|head| + n..] == rest[n..]
  {
  }

  lemma PrefixMore(head: Bytes, part: Bytes, rest: Bytes)
    requires part <= rest
    ensures head + part <= head + rest
  {
  }

  /** The lines framed are exactly these: the stream starts with each followed by a newline, none holds
      a newline or reaches the limit, and what remains starts with no such line. */
  lemma {:induction false} FramedAre(stream: Bytes, limit: nat)
    ensures var lines := Framed(stream, limit);
            && (forall k :: 0 <= k < |lines| ==> 10 !in lines[k] && |lines[k]| < limit)
            && Joined(lines) <= stream
            && Framed(stream[|Joined(lines)|..], limit) == []
    decreases |stream|
  {
    hide Framed, Joined, LineEnd;
    var end := LineEnd(stream);
    if end < |stream| && end < limit {
      var line, rest := stream[..end], stream[end + 1..];
      FramedAre(rest, limit);
      SplitLine(stream);
      FrameOne(line, rest, limit);
      var lines := Framed(rest, limit);
      JoinedCons(line, lines);
      DropMore(stream, line + [NEWLINE], rest, |Joined(lines)|);
      PrefixMore(line + [NEWLINE], Joined(lines), rest);
    } else {
      NothingFramed(stream, limit);
    }
  }

  lemma NothingFramed(stream: Bytes, limit: nat)
    requires LineEnd(stream) >= |stream| || LineEnd(stream) >= limit
    ensures Framed(stream, limit) == [] && Joined([]) == [] && stream[0..] == stream
  {
  }

  function Joined(lines: seq<Bytes>): Bytes {
    if lines == [] then [] else lines[0] + [NEWLINE] + Joined(lines[1..])
  }

  lemma JoinedCons(line: Bytes, lines: seq<Bytes>)
    ensures Joined([line] + lines) == line + [NEWLINE] + Joined(lines)
  {
    assert ([line] + lines)[1..] == lines;
  }

  lemma JoinedSnoc(lines: seq<Bytes>, line: Bytes)
    ensures Joined(lines + [line]) == Joined(lines) + (line + [NEWLINE])
  {
    if lines == [] {
      assert lines + [line] == [line];
      JoinedCons(line, []);
      assert line + [NEWLINE] + [] == line + [NEWLINE];
    } else {
      JoinedSnoc(lines[1..], line);
      assert (lines + [line])[1..] == lines[1..] + [line];
      Regroup(lines[0] + [NEWLINE], Joined(lines[1..]), line + [NEWLINE]);
    }
  }

  /** What is received and what is still to come, together, are the whole. */
  predicate Accounted(received: seq<Bytes>, rest: Bytes, whole: Bytes, limit: nat) {
    Joined(received) + rest == whole && received + Framed(rest, limit) == Framed(whole, limit)
  }

  /** The first line pending is taken off. */
  lemma TakeLine(received: seq<Bytes>, pending: Bytes, future: Bytes, whole: Bytes, limit: nat)
    requires Accounted(received, pending + future, whole, limit) && LineEnd(pending) < |pending| &&
             LineEnd(pending) < limit
    ensures var end := LineEnd(pending);
            Accounted(received + [pending[..end]], pending[end + 1..] + future, whole, limit)
  {
    var end := LineEnd(pending);
    var line, left := pending[..end], pending[end + 1..];
    SplitLine(pending);
    hide Framed, Joined, LineEnd;
    Regroup(line + [NEWLINE], left, future);
    FrameOne(line, left + future, limit);
    JoinedSnoc(received, line);
    Regroup(Joined(received), line + [NEWLINE], left + future);
    Regroup(received, [line], Framed(left + future, limit));
  }

  /** When the pending line is hopeless everything that can be received has been. */
  lemma GiveUp(received: seq<Bytes>, pending: Bytes, future: Bytes, whole: Bytes, limit: nat)
    requires Accounted(received, pending + future, whole, limit) && Hopeless(pending, limit)
    ensures received == Framed(whole, limit) && Hopeless(whole[|Joined(received)|..], limit)
  {
    HopelessStays(pending, future, limit);
    LineEndStays(pending, future);
    hide Framed, Joined;
    assert received + [] == received;
    assert whole[|Joined(received)|..] == pending + future;
  }

  lemma Finish(received: seq<Bytes>, pending: Bytes, whole: Bytes, limit: nat)
    requires Accounted(received, pending, whole, limit) && LineEnd(pending) == |pending|
    ensures received == Framed(whole, limit) && whole[|Joined(received)|..] == pending
  {
    assert Framed(pending, limit) == [];
    hide Framed, Joined;
    assert received + [] == received;
  }

  lemma NextRead(input: seq<Read>, k: nat)
    requires k < |input|
    ensures Stream(input[k..]) ==
            if input[k].Closed? then [] else (if input[k].Chunk? then input[k].bytes else []) + Stream(input[k + 1..])
  {
    assert input[k..][0] == input[k] && input[k..][1..] == input[k + 1..];
  }

  /** Reads the stream and delivers its lines. However the stream is split into reads, the lines
      delivered are those before the first line that reaches the limit; and the process exits only at
      the end of the stream or for such a line. */
  method ControllerInput(input: seq<Read>, limit: nat) returns (received: seq<Bytes>, exited: bool)
    requires limit == 8 * 1024 * 1024
    ensures received == Framed(Stream(input), limit) && |Joined(received)| <= |Stream(input)|
    ensures exited ==> Closed in input || Hopeless(Stream(input)[|Joined(received)|..], limit)
    ensures !exited ==> Closed !in input && |Stream(input)| - |Joined(received)| <= limit
  {
    hide Framed, Joined, LineEnd, Stream, Accounted, Hopeless;
    received, exited := [], false;
    var pending: Bytes := [];
    ghost var whole := Stream(input);
    Begun(whole, limit);
    for k := 0 to |input|
      invariant Accounted(received, pending + Stream(input[k..]), whole, limit)
      invariant LineEnd(pending) == |pending| <= limit && Closed !in input[..k]
    {
      NextRead(input, k);
      assert input[..k + 1] == input[..k] + [input[k]];
      if input[k].Interrupted? {
        assert [] + Stream(input[k + 1..]) == Stream(input[k + 1..]);
        continue;
      }
      if input[k].Closed? {
        assert pending + [] == pending;
        Finish(received, pending, whole, limit);
        AccountedFits(received, pending, whole, limit);
        return received, true;
      }
      Regroup(pending, input[k].bytes, Stream(input[k + 1..]));
      pending := pending + input[k].bytes;
      ghost var future := Stream(input[k + 1..]);
      while LineEnd(pending) < |pending|
        invariant Accounted(received, pending + future, whole, limit)
        decreases |pending|
      {
        var newline := LineEnd(pending);
        if newline >= limit {
          assert Hopeless(pending, limit) by { IsHopeless(pending, limit); }
          GiveUp(received, pending, future, whole, limit);
          AccountedFits(received, pending + future, whole, limit);
          return received, true;
        }
        TakeLine(received, pending, future, whole, limit);
        received := received + [pending[..newline]];
        pending := pending[newline + 1..];
      }
      if |pending| > limit {
        assert Hopeless(pending, limit) by { IsHopeless(pending, limit); }
        GiveUp(received, pending, future, whole, limit);
        AccountedFits(received, pending + future, whole, limit);
        return received, true;
      }
    }
    assert input[|input|..] == [] && input[..|input|] == input;
    StreamEnds();
    assert pending + [] == pending;
    Finish(received, pending, whole, limit);
    AccountedFits(received, pending, whole, limit);
  }

  lemma Begun(whole: Bytes, limit: nat)
    ensures Accounted([], [] + whole, whole, limit) && LineEnd([]) == 0
  {
    assert [] + whole == whole && [] + Framed(whole, limit) == Framed(whole, limit);
  }

  lemma AccountedFits(received: seq<Bytes>, rest: Bytes, whole: Bytes, limit: nat)
    requires Accounted(received, rest, whole, limit)
    ensures |Joined(received)| + |rest| == |whole|
  {
  }

  lemma IsHopeless(pending: Bytes, limit: nat)
    requires LineEnd(pending) >= limit
    ensures Hopeless(pending, limit)
  {
  }

  lemma StreamEnds()
    ensures Stream([]) == []
  {
  }

  // ---------------------------------------------------------------- whole writes

  /** One write: interrupted, some bytes accepted, or an error. */
  datatype Write = Retry | Accepts(count: nat) | Refuses

  /** A file descriptor: what was written to it, and how it answers each write. */
  class Descriptor {
    var contents: Bytes
    var calls: nat
    const answer: nat -> Write

    constructor (answer: nat -> Write)
      ensures contents == [] && this.answer == answer
    {
      contents, calls := [], 0;
      this.answer := answer;
    }

    /** From this call on some write will not be interrupted. */
    ghost predicate Answers(from: nat) {
      exists n: nat :: from <= n && !answer(n).Retry?
    }

    /** No write is interrupted for ever. */
    ghost predicate Fair() {
      forall from: nat :: Answers(from)
    }

    /** The system call: it accepts a prefix of what it is given, at least one byte, or fails. */
    method WriteSome(data: Bytes) returns (result: Write)
      requires data != []
      modifies this
      ensures result.Accepts? ==> 0 < result.count <= |data| && contents == old(contents) + data[..result.count]
      ensures !result.Accepts? ==> contents == old(contents)
      ensures calls == old(calls) + 1 && (result.Retry? <==> answer(old(calls)).Retry?)
    {
      result := answer(calls);
      calls := calls + 1;
      if result.Accepts? {
        if result.count == 0 || result.count > |data| {
          return Refuses;
        }
        contents := contents + data[..result.count];
      }
    }
  }

  /** However the writes are cut and interrupted, a prefix of the data is written, and the result is true
      exactly when all of it is. */
  method WriteAll(fd: Descriptor, data: Bytes) returns (ok: bool)
    requires fd.Fair()
    modifies fd
    ensures exists n: nat :: n <= |data| && fd.contents == old(fd.contents) + data[..n] && (ok <==> n == |data|)
  {
    var offset := 0;
    assert fd.Answers(fd.calls);
    ghost var next: nat :| fd.calls <= next && !fd.answer(next).Retry?;
    assert fd.contents == old(fd.contents) + data[..0];
    while offset < |data|
      invariant offset <= |data| && fd.contents == old(fd.contents) + data[..offset]
      invariant fd.calls <= next && !fd.answer(next).Retry?
      decreases |data| - offset, next - fd.calls
    {
      var result := fd.WriteSome(data[offset..]);
      if result.Retry? {
        continue;
      }
      if result.Refuses? {
        return false;
      }
      Written(old(fd.contents), data, offset, result.count);
      offset := offset + result.count;
      assert fd.Answers(fd.calls);
      next :| fd.calls <= next && !fd.answer(next).Retry?;
    }
    return true;
  }

  lemma Written(before: Bytes, data: Bytes, offset: nat, count: nat)
    requires offset + count <= |data|
    ensures before + data[..offset] + data[offset..][..count] == before + data[..offset + count]
  {
    assert data[..offset] + data[offset..][..count] == data[..offset + count];
    Regroup(before, data[..offset], data[offset..][..count]);
  }

  // ---------------------------------------------------------------- the bounded log

  const LOG_LIMIT := 1024 * 1024

  function Bounded(input: Bytes): (r: Bytes)
    ensures r <= input && |r| == if |input| < 1024 * 1024 then |input| else 1024 * 1024
  {
    if |input| <= LOG_LIMIT then input else input[..LOG_LIMIT]
  }

  class BoundedSerialLog {
    const destination: Descriptor
    var written: nat
    var exited: bool
    ghost var input: Bytes

    /** While the process runs the file holds the first bytes of the input up to the limit; after a
        failed write it holds a prefix of them. */
    ghost predicate Valid()
      reads this, destination
    {
      && destination.Fair() && destination.contents <= Bounded(input)
      && (!exited ==> destination.contents == Bounded(input) && written == |destination.contents|)
    }

    constructor (destination: Descriptor)
      requires destination.contents == [] && destination.Fair()
      ensures Valid() && input == [] && !exited && this.destination == destination
    {
      this.destination := destination;
      written, exited, input := 0, false, [];
    }

    /** Handles one read of the pipe; a failed write ends the process. */
    method Handle(event: Read)
      requires Valid() && !exited
      modifies this, destination
      ensures Valid() && input == old(input) + if event.Chunk? then event.bytes else []
      ensures old(destination.contents) <= destination.contents
    {
      if !event.Chunk? {
        assert input + [] == input;
        return;
      }
      var bytes := event.bytes;
      ghost var before := input;
      input := input + bytes;
      var permitted := if |bytes| < LOG_LIMIT - written then |bytes| else LOG_LIMIT - written;
      BoundedGrows(before, bytes, permitted);
      if permitted > 0 {
        var ok := WriteAll(destination, bytes[..permitted]);
        if !ok {
          exited := true;
          PrefixWritten(Bounded(before), bytes[..permitted], destination.contents);
          return;
        }
        assert bytes[..permitted][..permitted] == bytes[..permitted];
        written := written + permitted;
      } else {
        assert Bounded(before) + bytes[..0] == Bounded(before);
      }
    }
  }

  lemma BoundedGrows(input: Bytes, more: Bytes, permitted: int)
    requires permitted == if |more| < LOG_LIMIT - |Bounded(input)| then |more| else LOG_LIMIT - |Bounded(input)|
    ensures 0 <= permitted <= |more| && Bounded(input + more) == Bounded(input) + more[..permitted]
  {
    if |input| <= LOG_LIMIT {
      assert (input + more)[..|input| + permitted] == input + more[..permitted];
      assert |input + more| <= LOG_LIMIT ==> (input + more)[..|input + more|] == input + more;
    } else {
      assert (input + more)[..LOG_LIMIT] == input[..LOG_LIMIT] && more[..0] == [];
      assert Bounded(input) + [] == Bounded(input);
    }
  }

  lemma PrefixWritten(before: Bytes, data: Bytes, contents: Bytes)
    requires exists n: nat :: n <= |data| && contents == before + data[..n]
    ensures before <= contents <= before + data
  {
    var n: nat :| n <= |data| && contents == before + data[..n];
    assert (before + data)[..|contents|] == contents;
  }
}
