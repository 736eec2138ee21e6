/**
 * Messages on a byte stream: two bytes of length, low byte first, then the payload.
 * The printer, the parser as a function of the bytes at hand, and what the two make of each other.
 */
module Framing {
  type Byte = n: int | 0 <= n < 256 witness 0
  type Bytes = seq<Byte>

  const HEADER_SIZE: nat := 2
  const MAX_MSG_SIZE: nat := 1024

  lemma Regroup<T>(a: seq<T>, b: seq<T>, c: seq<T>)
    ensures (a + b) + c == a + (b + c)
  {
  }

  // ----- Printing

  /** The frame of a message: the two low bytes of its length, and the message. */
  function Frame(msg: Bytes): (frame: Bytes)
    ensures |frame| == HEADER_SIZE + |msg|
  {
    [|msg| % 256, (|msg| / 256) % 256] + msg
  }

  /** Low byte first: of a message short enough the two bytes in front are the length. */
  lemma FrameIsLengthFirst(msg: Bytes)
    ensures Frame(msg)[HEADER_SIZE..] == msg
    ensures (Frame(msg)[0] as int) + 0x100 * (Frame(msg)[1] as int) == |msg| <==> |msg| < 0x1_0000
  {
  }

  function Wire(msgs: seq<Bytes>): Bytes {
    if msgs == [] then [] else Frame(msgs[0]) + Wire(msgs[1..])
  }

  lemma WirePush(msg: Bytes, msgs: seq<Bytes>)
    ensures Wire([msg] + msgs) == Frame(msg) + Wire(msgs)
  {
    assert ([msg] + msgs)[1..] == msgs;
  }

  lemma {:induction false} WireOfConcat(a: seq<Bytes>, b: seq<Bytes>)
    ensures Wire(a + b) == Wire(a) + Wire(b)
  {
    if a == [] {
      assert a + b == b;
    } else {
      assert (a + b)[1..] == a[1..] + b;
      WireOfConcat(a[1..], b);
    }
  }

  // ----- Parsing

  function SizeOf(buffer: Bytes): nat
    requires HEADER_SIZE <= |buffer|
  {
    (buffer[0] as int) + 256 * (buffer[1] as int)
  }

  /** Is there a message to take?  A header with nothing at all behind it is left alone. */
  predicate HasMessage(buffer: Bytes) {
    HEADER_SIZE < |buffer| && HEADER_SIZE + SizeOf(buffer) <= |buffer|
  }

  function First(buffer: Bytes): Bytes
    requires HasMessage(buffer)
  {
    buffer[HEADER_SIZE..HEADER_SIZE + SizeOf(buffer)]
  }

  function Rest(buffer: Bytes): Bytes
    requires HasMessage(buffer)
  {
    buffer[HEADER_SIZE + SizeOf(buffer)..]
  }

  /** Messages taken from the front of a buffer, and what is left of it. */
  datatype Parsed = Parsed(msgs: seq<Bytes>, rest: Bytes)

  /** Everything there is to take. */
  function Parse(buffer: Bytes): Parsed
    decreases |buffer|
  {
    if HasMessage(buffer) then
      var p := Parse(Rest(buffer));
      Parsed([First(buffer)] + p.msgs, p.rest)
    else Parsed([], buffer)
  }

  /** The same when the message queue accepts only room more messages. */
  function ParseUpTo(buffer: Bytes, room: nat): Parsed
    decreases |buffer|
  {
    if HasMessage(buffer) && room > 0 then
      var p := ParseUpTo(Rest(buffer), room - 1);
      Parsed([First(buffer)] + p.msgs, p.rest)
    else Parsed([], buffer)
  }

  /** A frame taken is byte for byte a frame printed. */
  lemma FirstIsFramed(buffer: Bytes)
    requires HasMessage(buffer)
    ensures Frame(First(buffer)) + Rest(buffer) == buffer
  {
    assert |First(buffer)| == SizeOf(buffer);
  }

  /** Whatever the bytes and however full the queue: nothing is lost, doubled or reordered. */
  lemma {:induction false} ParseUpToKeepsBytes(buffer: Bytes, room: nat)
    ensures var p := ParseUpTo(buffer, room); Wire(p.msgs) + p.rest == buffer
    decreases |buffer|
  {
    if HasMessage(buffer) && room > 0 {
      var p := ParseUpTo(Rest(buffer), room - 1);
      ParseUpToKeepsBytes(Rest(buffer), room - 1);
      FirstIsFramed(buffer);
      WirePush(First(buffer), p.msgs);
      hide Wire, Frame, First, Rest, HasMessage;
      Regroup(Frame(First(buffer)), Wire(p.msgs), p.rest);
    }
  }

  /** A full queue only postpones: parsing the leftover later takes the rest. */
  lemma {:induction false} ParseAfterFull(buffer: Bytes, room: nat)
    ensures
      var p := ParseUpTo(buffer, room);
      Parse(buffer) == Parsed(p.msgs + Parse(p.rest).msgs, Parse(p.rest).rest)
    decreases |buffer|
  {
    if HasMessage(buffer) && room > 0 {
      ParseAfterFull(Rest(buffer), room - 1);
      var p := ParseUpTo(Rest(buffer), room - 1);
      assert [First(buffer)] + (p.msgs + Parse(p.rest).msgs) == [First(buffer)] + p.msgs + Parse(p.rest).msgs;
    }
  }

  /** More bytes behind do not change the message in front. */
  lemma MoreBytes(a: Bytes, b: Bytes)
    requires HasMessage(a)
    ensures HasMessage(a + b) && First(a + b) == First(a) && Rest(a + b) == Rest(a) + b
  {
  }

  /** Where the stream is cut does not matter: parse a part, put more behind the leftover, go on. */
  lemma {:induction false} ParseInParts(a: Bytes, b: Bytes)
    ensures
      var p := Parse(a);
      Parse(a + b) == Parsed(p.msgs + Parse(p.rest + b).msgs, Parse(p.rest + b).rest)
    decreases |a|
  {
    if HasMessage(a) {
      MoreBytes(a, b);
      ParseInParts(Rest(a), b);
      var p := Parse(Rest(a));
      assert [First(a)] + (p.msgs + Parse(p.rest + b).msgs) == [First(a)] + p.msgs + Parse(p.rest + b).msgs;
    }
  }

  // ----- Round trip

  predicate Sendable(msg: Bytes) {
    |msg| <= MAX_MSG_SIZE
  }

  lemma FrameIsFirst(msg: Bytes, more: Bytes)
    requires Sendable(msg) && (msg != [] || more != [])
    ensures HasMessage(Frame(msg) + more) && First(Frame(msg) + more) == msg && Rest(Frame(msg) + more) == more
  {
    var buffer := Frame(msg) + more;
    assert SizeOf(buffer) == |msg|;
    assert buffer[HEADER_SIZE..] == msg + more;
  }

  predicate EndsEmpty(msgs: seq<Bytes>) {
    msgs != [] && msgs[|msgs| - 1] == []
  }

  lemma WireIsEmpty(msgs: seq<Bytes>)
    ensures Wire(msgs) == [] <==> msgs == []
  {
  }

  lemma HeaderAloneIsStuck()
    ensures Parse(Frame([])) == Parsed([], Frame([]))
  {
  }

  lemma ParseFrame(msg: Bytes, more: Bytes)
    requires Sendable(msg) && (msg != [] || more != [])
    ensures Parse(Frame(msg) + more) == Parsed([msg] + Parse(more).msgs, Parse(more).rest)
  {
    FrameIsFirst(msg, more);
    hide HasMessage, Frame, First, Rest;
  }

  /** What a parser makes of a printed sequence of messages: all of them, except an empty last one. */
  lemma {:induction false} RoundTrip(msgs: seq<Bytes>)
    requires forall i :: 0 <= i < |msgs| ==> Sendable(msgs[i])
    ensures
      Parse(Wire(msgs)) ==
      if EndsEmpty(msgs) then Parsed(msgs[..|msgs| - 1], Frame([])) else Parsed(msgs, [])
  {
    if msgs != [] {
      var head, tail := msgs[0], msgs[1..];
      assert msgs == [head] + tail;
      WireIsEmpty(tail);
      WirePush(head, tail);
      hide Parse, Frame, Wire;
      if head == [] && tail == [] {
        HeaderAloneIsStuck();
        assert Frame([]) + [] == Frame([]);
      } else {
        RoundTrip(tail);
        ParseFrame(head, Wire(tail));
        if EndsEmpty(msgs) {
          assert msgs[..|msgs| - 1] == [head] + tail[..|tail| - 1];
        }
      }
    }
  }

  /** The receiver gets exactly what was sent if and only if the last message has a payload. */
  lemma RoundTripIff(msgs: seq<Bytes>)
    requires forall i :: 0 <= i < |msgs| ==> Sendable(msgs[i])
    ensures Parse(Wire(msgs)) == Parsed(msgs, []) <==> !EndsEmpty(msgs)
  {
    RoundTrip(msgs);
  }

  /** For example, an empty message stays in the buffer until something follows it. */
  lemma EmptyMessageIsStuck()
    ensures Parse(Wire([[]])) == Parsed([], [0, 0])
    ensures Parse(Wire([[], [7]])) == Parsed([[], [7]], [])
  {
    RoundTrip([[]]);
    RoundTrip([[], [7]]);
  }

  /** Different message sequences never look the same on the wire. */
  lemma WireIsInjective(a: seq<Bytes>, b: seq<Bytes>)
    requires forall i :: 0 <= i < |a| ==> Sendable(a[i])
    requires forall i :: 0 <= i < |b| ==> Sendable(b[i])
    requires Wire(a) == Wire(b)
    ensures a == b
  {
    hide Wire, Parse, Sendable;
    RoundTrip(a);
    RoundTrip(b);
    if EndsEmpty(a) && EndsEmpty(b) {
      var init := a[..|a| - 1];
      assert a == init + [[]];
      assert init == b[..|b| - 1];
      assert b == init + [[]];
    }
  }

  // ----- A whole connection

  /** One receive and the parse behind it: the bytes, and the room in the message queue. */
  datatype Chunk = Chunk(bytes: Bytes, room: nat)

  /** What a connection has delivered, and what is still in its buffer. */
  function Receive(chunks: seq<Chunk>): Parsed {
    if chunks == [] then Parsed([], [])
    else
      var before, last := Receive(chunks[..|chunks| - 1]), chunks[|chunks| - 1];
      var p := ParseUpTo(before.rest + last.bytes, last.room);
      Parsed(before.msgs + p.msgs, p.rest)
  }

  function Stream(chunks: seq<Chunk>): Bytes {
    if chunks == [] then [] else Stream(chunks[..|chunks| - 1]) + chunks[|chunks| - 1].bytes
  }

  /** The frames of the delivered messages, then the buffer, are the bytes received. */
  lemma {:induction false} NothingIsLost(chunks: seq<Chunk>)
    ensures Wire(Receive(chunks).msgs) + Receive(chunks).rest == Stream(chunks)
  {
    if chunks == [] {
      assert Wire([]) == [];
    } else {
      hide Wire, ParseUpTo;
      var before, last := Receive(chunks[..|chunks| - 1]), chunks[|chunks| - 1];
      var p := ParseUpTo(before.rest + last.bytes, last.room);
      NothingIsLost(chunks[..|chunks| - 1]);
      ParseUpToKeepsBytes(before.rest + last.bytes, last.room);
      WireOfConcat(before.msgs, p.msgs);
      Regroup(Wire(before.msgs), Wire(p.msgs), p.rest);
      Regroup(Wire(before.msgs), before.rest, last.bytes);
    }
  }

  /** Chunks and full queues only decide when: delivered so far and still to parse make up the whole stream. */
  lemma {:induction false} ChunksOnlyDelay(chunks: seq<Chunk>)
    ensures
      var r := Receive(chunks);
      Parse(Stream(chunks)) == Parsed(r.msgs + Parse(r.rest).msgs, Parse(r.rest).rest)
  {
    if chunks == [] {
      assert Parse([]) == Parsed([], []);
    } else {
      hide Parse, ParseUpTo;
      var init, last := chunks[..|chunks| - 1], chunks[|chunks| - 1];
      ChunksOnlyDelay(init);
      var r := Receive(init);
      ParseInParts(Stream(init), last.bytes);
      var left := r.rest + last.bytes;
      ParseInParts(r.rest, last.bytes);
      ParseAfterFull(left, last.room);
      var p := ParseUpTo(left, last.room);
      var m := Parse(r.rest);
      Regroup(r.msgs, m.msgs, Parse(m.rest + last.bytes).msgs);
      Regroup(r.msgs, p.msgs, Parse(p.rest).msgs);
    }
  }

  /** The queue never refused a message. */
  predicate NeverFull(chunks: seq<Chunk>) {
    !HasMessage(Receive(chunks).rest) && (chunks != [] ==> NeverFull(chunks[..|chunks| - 1]))
  }

  /** Without refusals the chunking does not matter at all. */
  lemma ChunkingIsInvisible(chunks: seq<Chunk>)
    requires NeverFull(chunks)
    ensures Receive(chunks) == Parse(Stream(chunks))
  {
    ChunksOnlyDelay(chunks);
    assert Receive(chunks).msgs + [] == Receive(chunks).msgs;
  }

  /** From sender to receiver, through any chunking: every message, unchanged, in order. */
  lemma EndToEnd(msgs: seq<Bytes>, chunks: seq<Chunk>)
    requires forall i :: 0 <= i < |msgs| ==> Sendable(msgs[i])
    requires Stream(chunks) == Wire(msgs) && NeverFull(chunks)
    ensures Receive(chunks) == Parsed(msgs, []) <==> !EndsEmpty(msgs)
  {
    ChunkingIsInvisible(chunks);
    RoundTripIff(msgs);
  }

  /** And under refusals the delivered messages are still the first of those sent. */
  lemma DeliveredInOrder(msgs: seq<Bytes>, chunks: seq<Chunk>)
    requires forall i :: 0 <= i < |msgs| ==> Sendable(msgs[i])
    requires Stream(chunks) <= Wire(msgs)
    ensures Receive(chunks).msgs <= msgs
  {
    var got, all := Stream(chunks), Wire(msgs);
    hide Parse, Receive, Stream, Wire;
    ChunksOnlyDelay(chunks);
    assert got + all[|got|..] == all;
    ParseInParts(got, all[|got|..]);
    RoundTrip(msgs);
    assert Parse(all).msgs <= msgs;
  }
}
