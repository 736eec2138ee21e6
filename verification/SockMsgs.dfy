/**
 * The messages of all connections in the one queue they share, numbered as they are queued.  Handlers take turns:
 * each appends a chunk to its connection's buffer and moves whole messages from there to the queue.
 */
module SockMsgs {
  import opened Framing

  const TWO_TO_THE_31: int := 0x8000_0000
  const TWO_TO_THE_32: int := 0x1_0000_0000

  datatype SockMsg = SockMsg(data: Bytes, cxnFd: int, seqNum: int)

  // ----- Numbers

  /** An unsigned 32-bit counter after count increments, read as an int. */
  function SeqNum(count: nat): int {
    var word := count % TWO_TO_THE_32;
    if word < TWO_TO_THE_31 then word else word - TWO_TO_THE_32
  }

  /** Sequence numbers increase from one message to the next, except where an int ends. */
  lemma SeqNumIncreasesIff(count: nat)
    ensures SeqNum(count) < SeqNum(count + 1) <==> count % TWO_TO_THE_32 != TWO_TO_THE_31 - 1
  {
  }

  /** Messages of one connection with consecutive numbers. */
  function Numbered(msgs: seq<Bytes>, fd: int, count: nat): seq<SockMsg> {
    if msgs == [] then []
    else Numbered(msgs[..|msgs| - 1], fd, count) + [SockMsg(msgs[|msgs| - 1], fd, SeqNum(count + |msgs| - 1))]
  }

  lemma NumberedPush(msgs: seq<Bytes>, msg: Bytes, fd: int, count: nat)
    ensures Numbered(msgs + [msg], fd, count) == Numbered(msgs, fd, count) + [SockMsg(msg, fd, SeqNum(count + |msgs|))]
  {
    assert (msgs + [msg])[..|msgs|] == msgs;
  }

  lemma {:induction false} NumberedAt(msgs: seq<Bytes>, fd: int, count: nat, k: nat)
    ensures |Numbered(msgs, fd, count)| == |msgs|
    ensures k < |msgs| ==> Numbered(msgs, fd, count)[k] == SockMsg(msgs[k], fd, SeqNum(count + k))
  {
    if msgs != [] {
      NumberedAt(msgs[..|msgs| - 1], fd, count, k);
    }
  }

  /** As long as no number was past the last int: numbers strictly increase along the queue, and are below the count. */
  ghost predicate InOrder(queue: seq<SockMsg>, count: nat) {
    count <= TWO_TO_THE_31 ==>
      && (forall i :: 0 <= i < |queue| ==> 0 <= queue[i].seqNum < count)
      && (forall i, j :: 0 <= i < j < |queue| ==> queue[i].seqNum < queue[j].seqNum)
  }

  /** Newly numbered messages go behind the others; numbers may have been used up without one. */
  lemma InOrderMore(queue: seq<SockMsg>, count: nat, msgs: seq<Bytes>, fd: int, count': nat)
    requires InOrder(queue, count) && count + |msgs| <= count'
    ensures InOrder(queue + Numbered(msgs, fd, count), count')
  {
    var more := Numbered(msgs, fd, count);
    NumberedAt(msgs, fd, count, 0);
    hide Numbered;
    if count' <= TWO_TO_THE_31 {
      forall k | 0 <= k < |more|
        ensures more[k].seqNum == count + k
      {
        NumberedAt(msgs, fd, count, k);
      }
    }
  }

  lemma InOrderLess(queue: seq<SockMsg>, count: nat, k: nat)
    requires InOrder(queue, count) && k < |queue|
    ensures InOrder(queue[..k] + queue[k + 1..], count)
  {
    var rest := queue[..k] + queue[k + 1..];
    assert forall i :: 0 <= i < |rest| ==> rest[i] == queue[if i < k then i else i + 1];
  }

  // ----- Turns

  /** Buffers of the connections, attempts to queue a message, and all messages ever queued. */
  datatype Intake = Intake(buffers: map<int, Bytes>, count: nat, queued: seq<SockMsg>)

  datatype Turn = Arrived(fd: int, chunk: Chunk) | HungUp(fd: int)

  function BufferOf(i: Intake, fd: int): Bytes {
    if fd in i.buffers then i.buffers[fd] else []
  }

  /** A message that the queue refuses stays in the buffer, but uses up its number. */
  function Turned(i: Intake, t: Turn): Intake {
    match t
    case HungUp(fd) => i.(buffers := i.buffers - {fd})
    case Arrived(fd, chunk) =>
      var p := ParseUpTo(BufferOf(i, fd) + chunk.bytes, chunk.room);
      Intake(i.buffers[fd := p.rest],
             i.count + |p.msgs| + (if HasMessage(p.rest) then 1 else 0),
             i.queued + Numbered(p.msgs, fd, i.count))
  }

  function AfterTurns(turns: seq<Turn>): Intake {
    if turns == [] then Intake(map[], 0, []) else Turned(AfterTurns(turns[..|turns| - 1]), turns[|turns| - 1])
  }

  lemma TurnedInOrder(i: Intake, t: Turn)
    requires InOrder(i.queued, i.count)
    ensures InOrder(Turned(i, t).queued, Turned(i, t).count)
  {
    hide ParseUpTo, HasMessage, InOrder, Numbered;
    if t.Arrived? {
      var p := ParseUpTo(BufferOf(i, t.fd) + t.chunk.bytes, t.chunk.room);
      InOrderMore(i.queued, i.count, p.msgs, t.fd, Turned(i, t).count);
    }
  }

  /** However the connections' turns interleave, and whatever is refused, numbers increase along the queue. */
  lemma {:induction false} NumbersIncrease(turns: seq<Turn>)
    ensures InOrder(AfterTurns(turns).queued, AfterTurns(turns).count)
  {
    if turns != [] {
      NumbersIncrease(turns[..|turns| - 1]);
      hide InOrder;
      TurnedInOrder(AfterTurns(turns[..|turns| - 1]), turns[|turns| - 1]);
    }
  }

  // ----- One connection among the others

  /** The chunks of the connections that were on a descriptor, one after the other; the last one may still be there. */
  function ChunksOf(turns: seq<Turn>, fd: int): (cxns: seq<seq<Chunk>>)
    ensures cxns != []
  {
    if turns == [] then [[]] else OneMoreTurn(ChunksOf(turns[..|turns| - 1], fd), turns[|turns| - 1], fd)
  }

  function OneMoreTurn(cxns: seq<seq<Chunk>>, t: Turn, fd: int): (cxns': seq<seq<Chunk>>)
    requires cxns != []
    ensures cxns' != []
  {
    if t.fd != fd then cxns
    else if t.HungUp? then cxns + [[]]
    else cxns[|cxns| - 1 := cxns[|cxns| - 1] + [t.chunk]]
  }

  /** What they deliver, each on its own. */
  function DeliveredBy(cxns: seq<seq<Chunk>>): seq<Bytes> {
    if cxns == [] then [] else DeliveredBy(cxns[..|cxns| - 1]) + Receive(cxns[|cxns| - 1]).msgs
  }

  lemma DeliveredByOneMore(cxns: seq<seq<Chunk>>, chunks: seq<Chunk>)
    ensures DeliveredBy(cxns + [chunks]) == DeliveredBy(cxns) + Receive(chunks).msgs
  {
    assert (cxns + [chunks])[..|cxns|] == cxns;
  }

  /** What is queued of one connection, in the order of the queue. */
  function QueuedOf(queue: seq<SockMsg>, fd: int): seq<Bytes> {
    if queue == [] then []
    else
      var before, last := QueuedOf(queue[..|queue| - 1], fd), queue[|queue| - 1];
      if last.cxnFd == fd then before + [last.data] else before
  }

  lemma QueuedOfPush(queue: seq<SockMsg>, m: SockMsg, fd: int)
    ensures QueuedOf(queue + [m], fd) == if m.cxnFd == fd then QueuedOf(queue, fd) + [m.data] else QueuedOf(queue, fd)
  {
    assert (queue + [m])[..|queue|] == queue;
  }

  lemma {:induction false} QueuedOfMore(queue: seq<SockMsg>, msgs: seq<Bytes>, fd: int, count: nat, other: int)
    ensures QueuedOf(queue + Numbered(msgs, fd, count), other) == QueuedOf(queue, other) +
      (if fd == other then msgs else [])
  {
    if msgs == [] {
      assert queue + Numbered(msgs, fd, count) == queue;
    } else {
      hide Numbered, QueuedOf, SeqNum;
      var init, last := msgs[..|msgs| - 1], msgs[|msgs| - 1];
      var m := SockMsg(last, fd, SeqNum(count + |init|));
      assert msgs == init + [last];
      NumberedPush(init, last, fd, count);
      QueuedOfMore(queue, init, fd, count, other);
      Regroup(queue, Numbered(init, fd, count), [m]);
      QueuedOfPush(queue + Numbered(init, fd, count), m, other);
      Regroup(QueuedOf(queue, other), init, [last]);
    }
  }

  /** One more turn: what is queued of a descriptor, and what is in its buffer. */
  lemma TurnedOf(i: Intake, t: Turn, fd: int)
    ensures
      var i' := Turned(i, t);
      if t.fd != fd then QueuedOf(i'.queued, fd) == QueuedOf(i.queued, fd) && BufferOf(i', fd) == BufferOf(i, fd)
      else if t.HungUp? then i'.queued == i.queued && BufferOf(i', fd) == []
      else
        var p := ParseUpTo(BufferOf(i, fd) + t.chunk.bytes, t.chunk.room);
        QueuedOf(i'.queued, fd) == QueuedOf(i.queued, fd) + p.msgs && BufferOf(i', fd) == p.rest
  {
    hide QueuedOf, ParseUpTo, Numbered;
    if t.Arrived? {
      QueuedOfMore(i.queued, ParseUpTo(BufferOf(i, t.fd) + t.chunk.bytes, t.chunk.room).msgs, t.fd, i.count, fd);
      assert QueuedOf(i.queued, fd) + [] == QueuedOf(i.queued, fd);
    }
  }

  ghost predicate IsApart(i: Intake, cxns: seq<seq<Chunk>>, fd: int) {
    cxns != [] && QueuedOf(i.queued, fd) == DeliveredBy(cxns) && BufferOf(i, fd) == Receive(cxns[|cxns| - 1]).rest
  }

  lemma TurnedIsApart(i: Intake, cxns: seq<seq<Chunk>>, t: Turn, fd: int)
    requires IsApart(i, cxns, fd)
    ensures IsApart(Turned(i, t), OneMoreTurn(cxns, t, fd), fd)
  {
    hide QueuedOf, Turned, BufferOf, DeliveredBy, Receive, ParseUpTo;
    TurnedOf(i, t, fd);
    if t.Arrived? {
      OneMoreChunk(cxns, t.chunk);
    }
    OneMoreConnection(cxns);
  }

  lemma StartsApart(fd: int)
    ensures IsApart(AfterTurns([]), [[]], fd)
  {
    var none: seq<seq<Chunk>> := [];
    DeliveredByOneMore(none, []);
    assert none + [[]] == [[]];
  }

  /**
   * The messages of a descriptor, read off the common queue, are what its connections deliver, each from its own chunks
   * as if it were alone; the others, their refusals and their hang-ups leave them alone.
   */
  lemma {:induction false} ConnectionsAreApart(turns: seq<Turn>, fd: int)
    ensures IsApart(AfterTurns(turns), ChunksOf(turns, fd), fd)
  {
    if turns == [] {
      StartsApart(fd);
    } else {
      hide IsApart, Turned, OneMoreTurn;
      ConnectionsAreApart(turns[..|turns| - 1], fd);
      TurnedIsApart(AfterTurns(turns[..|turns| - 1]), ChunksOf(turns[..|turns| - 1], fd), turns[|turns| - 1], fd);
    }
  }

  lemma OneMoreChunk(cxns: seq<seq<Chunk>>, chunk: Chunk)
    requires cxns != []
    ensures
      var last := |cxns| - 1;
      var p, cxns' := ParseUpTo(Receive(cxns[last]).rest + chunk.bytes, chunk.room), cxns[last := cxns[last] + [chunk]];
      DeliveredBy(cxns') == DeliveredBy(cxns) + p.msgs && Receive(cxns'[last]).rest == p.rest
  {
    var earlier, chunks := cxns[..|cxns| - 1], cxns[|cxns| - 1];
    assert cxns == earlier + [chunks];
    assert cxns[|cxns| - 1 := chunks + [chunk]] == earlier + [chunks + [chunk]];
    DeliveredByOneMore(earlier, chunks);
    DeliveredByOneMore(earlier, chunks + [chunk]);
    ReceivePush(chunks, chunk);
    hide DeliveredBy, Receive, ParseUpTo;
    Regroup(DeliveredBy(earlier), Receive(chunks).msgs, ParseUpTo(Receive(chunks).rest + chunk.bytes, chunk.room).msgs);
  }

  lemma OneMoreConnection(cxns: seq<seq<Chunk>>)
    ensures DeliveredBy(cxns + [[]]) == DeliveredBy(cxns) && Receive((cxns + [[]])[|cxns|]).rest == []
  {
    DeliveredByOneMore(cxns, []);
    assert DeliveredBy(cxns) + [] == DeliveredBy(cxns);
  }

  lemma ReceivePush(chunks: seq<Chunk>, chunk: Chunk)
    ensures
      var p := ParseUpTo(Receive(chunks).rest + chunk.bytes, chunk.room);
      Receive(chunks + [chunk]) == Parsed(Receive(chunks).msgs + p.msgs, p.rest)
  {
    assert (chunks + [chunk])[..|chunks|] == chunks;
  }

  /**
   * So by increasing number, the messages of a descriptor are always the first ones that the peer of its first
   * connection sent, then the first ones that the peer of the second one sent, and so on.
   */
  lemma NumbersKeepEachOrder(turns: seq<Turn>, fd: int, sent: seq<seq<Bytes>>)
    requires AfterTurns(turns).count <= TWO_TO_THE_31 && |sent| == |ChunksOf(turns, fd)|
    requires forall c, k :: 0 <= c < |sent| && 0 <= k < |sent[c]| ==> Sendable(sent[c][k])
    requires forall c :: 0 <= c < |sent| ==> Stream(ChunksOf(turns, fd)[c]) <= Wire(sent[c])
    ensures QueuedOf(AfterTurns(turns).queued, fd) == DeliveredBy(ChunksOf(turns, fd))
    ensures forall c :: 0 <= c < |sent| ==> Receive(ChunksOf(turns, fd)[c]).msgs <= sent[c]
    ensures
      var queue := AfterTurns(turns).queued;
      forall i, j :: 0 <= i < j < |queue| ==> queue[i].seqNum < queue[j].seqNum
  {
    NumbersIncrease(turns);
    ConnectionsAreApart(turns, fd);
    hide DeliveredBy, ChunksOf, QueuedOf, AfterTurns;
    forall c | 0 <= c < |sent|
      ensures Receive(ChunksOf(turns, fd)[c]).msgs <= sent[c]
    {
      DeliveredInOrder(sent[c], ChunksOf(turns, fd)[c]);
    }
  }
}
