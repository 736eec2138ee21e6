/**
 * The sockets' loops over their buffers: sending through partial writes, and taking messages from
 * the front of a buffer that grows by arbitrary chunks.
 */
module TcpSockets {
  import opened Options
  import opened Framing
  import opened SockMsgs

  /**
   * One call of recv: bytes (with the room the queue then has), the peer's hang-up, or an error, which may be due
   * to the server's own socket having been closed.
   */
  datatype Recv = Received(chunk: Chunk) | Ended | Failed(closed: bool)

  /** How a handler of a readable connection ends. */
  datatype Ending = Rearmed | Disconnected | Thrown

  class Connection {
    const fd: int
    var superBuffer: Bytes
    ghost var chunks: seq<Chunk>

    constructor (fd: int)
      ensures this.fd == fd && superBuffer == [] && Valid() && chunks == []
    {
      this.fd := fd;
      superBuffer := [];
      chunks := [];
    }

    ghost predicate Valid()
      reads this
    {
      superBuffer == Receive(chunks).rest
    }
  }

  /** Taken is what ParseUpTo takes before it comes to this position. */
  ghost predicate Parsing(buffer: Bytes, room: nat, taken: seq<Bytes>, pos: nat) {
    && pos <= |buffer| && |taken| <= room
    && var q := ParseUpTo(buffer[pos..], room - |taken|);
       ParseUpTo(buffer, room) == Parsed(taken + q.msgs, q.rest)
  }

  lemma ParsingStarts(buffer: Bytes, room: nat)
    ensures Parsing(buffer, room, [], 0)
  {
    assert buffer[0..] == buffer && [] + ParseUpTo(buffer, room).msgs == ParseUpTo(buffer, room).msgs;
  }

  lemma ParsingGoesOn(buffer: Bytes, room: nat, taken: seq<Bytes>, pos: nat)
    requires Parsing(buffer, room, taken, pos) && HasMessage(buffer[pos..]) && |taken| < room
    ensures Parsing(buffer, room, taken + [First(buffer[pos..])], pos + HEADER_SIZE + SizeOf(buffer[pos..]))
  {
    var left := buffer[pos..];
    assert Rest(left) == buffer[pos + HEADER_SIZE + SizeOf(left)..];
    Regroup(taken, [First(left)], ParseUpTo(Rest(left), room - |taken| - 1).msgs);
  }

  lemma ParsingEnds(buffer: Bytes, room: nat, taken: seq<Bytes>, pos: nat)
    requires Parsing(buffer, room, taken, pos) && (HasMessage(buffer[pos..]) ==> |taken| == room)
    ensures ParseUpTo(buffer, room) == Parsed(taken, buffer[pos..])
  {
  }

  /** The messages taken are behind those that were queued before. */
  ghost predicate IsQueued(queue: seq<SockMsg>, was: seq<SockMsg>, taken: seq<Bytes>, fd: int, count: nat) {
    queue == was + Numbered(taken, fd, count)
  }

  lemma QueuedPush(queue: seq<SockMsg>, was: seq<SockMsg>, taken: seq<Bytes>, msg: Bytes, fd: int, count: nat)
    requires IsQueued(queue, was, taken, fd, count)
    ensures IsQueued(queue + [SockMsg(msg, fd, SeqNum(count + |taken|))], was, taken + [msg], fd, count)
  {
    hide SeqNum, Numbered;
    NumberedPush(taken, msg, fd, count);
  }

  lemma QueuedIs(queue: seq<SockMsg>, was: seq<SockMsg>, taken: seq<Bytes>, fd: int, count: nat)
    requires IsQueued(queue, was, taken, fd, count)
    ensures queue == was + Numbered(taken, fd, count)
  {
  }

  /** The messages one more chunk delivers. */
  function Delivered(chunks: seq<Chunk>, chunk: Chunk): seq<Bytes> {
    ParseUpTo(Receive(chunks).rest + chunk.bytes, chunk.room).msgs
  }

  class TcpSocket {
    /** Counts attempts to queue a message, also the refused ones. */
    var totalMsgCount: nat
    var msgQueue: seq<SockMsg>

    ghost predicate Valid()
      reads this
    {
      InOrder(msgQueue, totalMsgCount)
    }

    constructor ()
      ensures totalMsgCount == 0 && msgQueue == [] && Valid()
    {
      totalMsgCount, msgQueue := 0, [];
    }

    /** Some message leaves the queue: it is first in, first out only for messages that one thread put there. */
    method GetNextMessage(k: nat) returns (msg: Option<SockMsg>)
      requires Valid() && (msgQueue != [] ==> k < |msgQueue|)
      modifies this`msgQueue
      ensures Valid()
      ensures msg == if old(msgQueue) == [] then None else Some(old(msgQueue)[k])
      ensures msgQueue == if old(msgQueue) == [] then [] else old(msgQueue)[..k] + old(msgQueue)[k + 1..]
    {
      if msgQueue == [] {
        return None;
      }
      msg := Some(msgQueue[k]);
      InOrderLess(msgQueue, totalMsgCount, k);
      msgQueue := msgQueue[..k] + msgQueue[k + 1..];
    }

    /**
     * Take every whole message from the front of the buffer, while the queue has room.
     * A refused message stays in the buffer, but uses up its number.
     */
    method ParseSuperBuffer(cxn: Connection, room: nat)
      requires Valid()
      modifies this, cxn`superBuffer
      ensures Valid()
      ensures
        var p := ParseUpTo(old(cxn.superBuffer), room);
        && cxn.superBuffer == p.rest
        && msgQueue == old(msgQueue) + Numbered(p.msgs, cxn.fd, old(totalMsgCount))
        && totalMsgCount == old(totalMsgCount) + |p.msgs| + (if HasMessage(p.rest) then 1 else 0)
    {
      var buffer := cxn.superBuffer;
      var msgStartPos: nat, queued: nat := 0, 0;
      ghost var taken: seq<Bytes>, refused := [], false;
      ParsingStarts(buffer, room);
      assert IsQueued(msgQueue, msgQueue, [], cxn.fd, totalMsgCount);
      hide ParseUpTo, Parsing, IsQueued, Numbered, SeqNum, InOrder;
      while msgStartPos + HEADER_SIZE < |buffer|
        invariant msgStartPos <= |buffer| && |taken| == queued <= room
        invariant Parsing(buffer, room, taken, msgStartPos)
        invariant IsQueued(msgQueue, old(msgQueue), taken, cxn.fd, old(totalMsgCount))
        invariant totalMsgCount == old(totalMsgCount) + queued && !refused
      {
        var left := buffer[msgStartPos..];
        var msgSize := SizeOf(left);
        if msgStartPos + HEADER_SIZE + msgSize > |buffer| {
          break;
        }
        var seqNum := SeqNum(totalMsgCount);
        totalMsgCount := totalMsgCount + 1;
        if queued == room {
          refused := true;
          break;
        }
        ParsingGoesOn(buffer, room, taken, msgStartPos);
        QueuedPush(msgQueue, old(msgQueue), taken, First(left), cxn.fd, old(totalMsgCount));
        msgQueue := msgQueue + [SockMsg(left[HEADER_SIZE..HEADER_SIZE + msgSize], cxn.fd, seqNum)];
        queued := queued + 1;
        taken := taken + [First(left)];
        msgStartPos := msgStartPos + HEADER_SIZE + msgSize;
      }
      assert refused <==> HasMessage(buffer[msgStartPos..]);
      ParsingEnds(buffer, room, taken, msgStartPos);
      cxn.superBuffer := buffer[msgStartPos..];
      QueuedIs(msgQueue, old(msgQueue), taken, cxn.fd, old(totalMsgCount));
      InOrderMore(old(msgQueue), old(totalMsgCount), taken, cxn.fd, totalMsgCount);
    }

    /**
     * Drain a readable connection: at most ten receives, until the buffer is empty.
     * The peer's hang-up and an error end it early; then the descriptor is not armed again, unless the error
     * is due to the server's closing.
     */
    method HandleClientUpdate(cxn: Connection, recv: nat -> Recv)
      returns (end: Ending, ghost calls: nat, ghost delivered: seq<Bytes>)
      requires Valid() && cxn.Valid()
      modifies this, cxn`superBuffer, cxn`chunks
      ensures Valid() && cxn.Valid() && calls <= MAX_RECV_CALLS && AllReceived(recv, calls)
      ensures cxn.chunks == old(cxn.chunks) + Chunks(recv, calls)
      ensures forall k :: 0 < k < calls ==> Receive(old(cxn.chunks) + Chunks(recv, k)).rest != []
      ensures match end
        case Rearmed =>
          || calls == MAX_RECV_CALLS || (calls > 0 && cxn.superBuffer == [])
          || (calls < MAX_RECV_CALLS && recv(calls) == Failed(true))
        case Disconnected => calls < MAX_RECV_CALLS && recv(calls) == Ended
        case Thrown => calls < MAX_RECV_CALLS && recv(calls) == Failed(false)
      ensures Payloads(msgQueue) == Payloads(old(msgQueue)) + delivered
      ensures Receive(cxn.chunks).msgs == Receive(old(cxn.chunks)).msgs + delivered
    {
      hide Receive, Payloads, Delivered, InOrder, Turned;
      var n: nat, readable := 0, true;
      end, delivered := Rearmed, [];
      ghost var before := cxn.chunks;
      while n < MAX_RECV_CALLS && readable
        invariant n <= MAX_RECV_CALLS && Valid() && cxn.Valid() && AllReceived(recv, n)
        invariant cxn.chunks == before + Chunks(recv, n)
        invariant forall k :: 0 < k < n ==> Receive(before + Chunks(recv, k)).rest != []
        invariant if readable then end == Rearmed && (n > 0 ==> cxn.superBuffer != [])
          else match end
            case Rearmed => (n > 0 && cxn.superBuffer == []) || (n < MAX_RECV_CALLS && recv(n) == Failed(true))
            case Disconnected => n < MAX_RECV_CALLS && recv(n) == Ended
            case Thrown => n < MAX_RECV_CALLS && recv(n) == Failed(false)
        invariant Payloads(msgQueue) == Payloads(old(msgQueue)) + delivered
        invariant Receive(cxn.chunks).msgs == Receive(before).msgs + delivered
        decreases MAX_RECV_CALLS - n, readable
      {
        match recv(n)
        case Ended => end, readable := Disconnected, false;
        case Failed(closed) => end, readable := if closed then Rearmed else Thrown, false;
        case Received(chunk) =>
          ghost var more := Delivered(cxn.chunks, chunk);
          Regroup(Payloads(old(msgQueue)), delivered, more);
          Regroup(Receive(before).msgs, delivered, more);
          Regroup(before, Chunks(recv, n), [chunk]);
          TakeChunk(cxn, chunk);
          delivered := delivered + more;
          n := n + 1;
          readable := cxn.superBuffer != [];
      }
      calls := n;
    }

    /**
     * The locked part of the loop, one turn of the connection: the bytes go behind the buffer, then whole messages
     * leave its front.
     */
    method TakeChunk(cxn: Connection, chunk: Chunk)
      requires Valid() && cxn.Valid()
      modifies this, cxn`superBuffer, cxn`chunks
      ensures Intake(map[cxn.fd := cxn.superBuffer], totalMsgCount, msgQueue) ==
        Turned(Intake(map[cxn.fd := old(cxn.superBuffer)], old(totalMsgCount), old(msgQueue)), Arrived(cxn.fd, chunk))
      ensures Valid() && cxn.Valid() && cxn.chunks == old(cxn.chunks) + [chunk]
      ensures Payloads(msgQueue) == Payloads(old(msgQueue)) + Delivered(old(cxn.chunks), chunk)
      ensures Receive(cxn.chunks).msgs == Receive(old(cxn.chunks)).msgs + Delivered(old(cxn.chunks), chunk)
    {
      ghost var msgs := Delivered(cxn.chunks, chunk);
      ReceivePush(cxn.chunks, chunk);
      cxn.superBuffer := cxn.superBuffer + chunk.bytes;
      ghost var count := totalMsgCount;
      ParseSuperBuffer(cxn, chunk.room);
      PayloadsOf(old(msgQueue), msgs, cxn.fd, count);
      cxn.chunks := cxn.chunks + [chunk];
    }
  }

  const MAX_RECV_CALLS: nat := 10

  predicate AllReceived(recv: nat -> Recv, n: nat) {
    forall k :: 0 <= k < n ==> recv(k).Received?
  }

  /** The chunks of the first n receives. */
  function Chunks(recv: nat -> Recv, n: nat): seq<Chunk>
    requires AllReceived(recv, n)
  {
    if n == 0 then [] else Chunks(recv, n - 1) + [recv(n - 1).chunk]
  }

  function Payloads(queue: seq<SockMsg>): (payloads: seq<Bytes>)
    ensures |payloads| == |queue|
  {
    if queue == [] then [] else Payloads(queue[..|queue| - 1]) + [queue[|queue| - 1].data]
  }

  lemma PayloadsPush(queue: seq<SockMsg>, m: SockMsg)
    ensures Payloads(queue + [m]) == Payloads(queue) + [m.data]
  {
    assert (queue + [m])[..|queue|] == queue;
  }

  lemma {:induction false} PayloadsOf(queue: seq<SockMsg>, msgs: seq<Bytes>, fd: int, count: nat)
    ensures Payloads(queue + Numbered(msgs, fd, count)) == Payloads(queue) + msgs
  {
    if msgs == [] {
      assert queue + Numbered(msgs, fd, count) == queue;
    } else {
      hide Numbered, Payloads, SeqNum;
      var init, last := msgs[..|msgs| - 1], msgs[|msgs| - 1];
      var m := SockMsg(last, fd, SeqNum(count + |init|));
      assert msgs == init + [last];
      NumberedPush(init, last, fd, count);
      PayloadsOf(queue, init, fd, count);
      Regroup(queue, Numbered(init, fd, count), [m]);
      PayloadsPush(queue + Numbered(init, fd, count), m);
      Regroup(Payloads(queue), init, [last]);
    }
  }

  // ----- Sending

  /**
   * Send a message through writes that may each take only part of it: the k-th one takes up to send(k) bytes,
   * or fails.  Written is what the peer's stream gets.
   */
  method SendMessage(msg: Bytes, send: nat -> int) returns (ok: bool, written: Bytes)
    requires forall k :: send(k) == -1 || send(k) > 0
    ensures !Sendable(msg) ==> !ok && written == []
    ensures Sendable(msg) ==> written <= Frame(msg) && (ok <==> written == Frame(msg))
    ensures Sendable(msg) && !ok ==> exists k :: send(k) == -1
  {
    if |msg| > MAX_MSG_SIZE {
      return false, [];
    }
    var msgBuffer: Bytes := [|msg| % 256, (|msg| / 256) % 256] + msg;
    var bytesToSend := |msg| + HEADER_SIZE;
    var totalBytesSent: nat, k: nat := 0, 0;
    while totalBytesSent < bytesToSend
      invariant totalBytesSent <= bytesToSend
    {
      if send(k) == -1 {
        return false, msgBuffer[..totalBytesSent];
      }
      var bytesSent := if send(k) < bytesToSend - totalBytesSent then send(k) else bytesToSend - totalBytesSent;
      totalBytesSent := totalBytesSent + bytesSent;
      k := k + 1;
    }
    return true, msgBuffer;
  }
}
