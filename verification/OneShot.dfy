/**
 * One connection of the server between epoll and its handlers.  The descriptor is armed one-shot: it is
 * reported once, handled by some thread of a pool, and armed again by that handler at its end.
 */
module OneShot {
  import opened Framing
  import opened TcpSockets

  datatype Handler =
    | Ready(calls: nat)                 // about to receive
    | InHand(bytes: Bytes, calls: nat)  // received, not yet appended to the buffer
    | Rearming
    | Done

  /** Arrived is all the peer sent; chunks is what handlers appended and parsed, in the order they did. */
  datatype State = State(
    arrived: Bytes,
    kernel: Bytes,
    armed: bool,
    handlers: seq<Handler>,
    chunks: seq<Chunk>)

  datatype Action =
    | Arrive(bytes: Bytes)
    | Notice                       // epoll_wait reports the descriptor, for whatever reason; a handler is posted
    | Take(h: nat, size: nat)      // recv
    | Append(h: nat, room: nat)    // the locked append and parse
    | Rearm(h: nat)
    | Stop(h: nat)                 // hang-up or error: the descriptor stays disarmed
    | Break(h: nat)                // error after the server's own socket was closed

  predicate Enabled(s: State, a: Action) {
    match a
    case Arrive(_) => true
    case Notice => s.armed
    case Take(h, size) => h < |s.handlers| && s.handlers[h].Ready? && 0 < size <= |s.kernel|
    case Append(h, _) => h < |s.handlers| && s.handlers[h].InHand?
    case Rearm(h) => h < |s.handlers| && s.handlers[h].Rearming?
    case Stop(h) => h < |s.handlers| && s.handlers[h].Ready?
    case Break(h) => h < |s.handlers| && s.handlers[h].Ready?
  }

  function Goto(s: State, h: nat, handler: Handler): State
    requires h < |s.handlers|
  {
    s.(handlers := s.handlers[h := handler])
  }

  function Do(s: State, a: Action): State
    requires Enabled(s, a)
  {
    match a
    case Arrive(bytes) => s.(arrived := s.arrived + bytes, kernel := s.kernel + bytes)
    case Notice => s.(armed := false, handlers := s.handlers + [Ready(0)])
    case Take(h, size) =>
      Goto(s, h, InHand(s.kernel[..size], s.handlers[h].calls + 1)).(kernel := s.kernel[size..])
    case Append(h, room) =>
      var chunks := s.chunks + [Chunk(s.handlers[h].bytes, room)];
      var again := Receive(chunks).rest != [] && s.handlers[h].calls < MAX_RECV_CALLS;
      Goto(s, h, if again then Ready(s.handlers[h].calls) else Rearming).(chunks := chunks)
    case Rearm(h) => Goto(s, h, Done).(armed := true)
    case Stop(h) => Goto(s, h, Done)
    case Break(h) => Goto(s, h, Rearming)
  }

  function Run(actions: seq<Action>): State {
    if actions == [] then State([], [], true, [], [])
    else
      var s, a := Run(actions[..|actions| - 1]), actions[|actions| - 1];
      if Enabled(s, a) then Do(s, a) else s
  }

  /** Only the last handler posted can be at work, and only while the descriptor is disarmed. */
  predicate OneAtATime(s: State) {
    forall h :: 0 <= h < |s.handlers| && !s.handlers[h].Done? ==> h == |s.handlers| - 1 && !s.armed
  }

  /** The bytes a handler has received and not yet appended. */
  function Hand(s: State): Bytes {
    if s.handlers != [] && s.handlers[|s.handlers| - 1].InHand? then s.handlers[|s.handlers| - 1].bytes else []
  }

  predicate Inv(s: State) {
    && OneAtATime(s)
    && Stream(s.chunks) + Hand(s) + s.kernel == s.arrived
  }

  lemma StepKeeps(s: State, a: Action)
    requires Inv(s) && Enabled(s, a)
    ensures Inv(Do(s, a))
  {
    hide Receive, Stream;
    var s' := Do(s, a);
    match a
    case Arrive(bytes) => assert Stream(s.chunks) + Hand(s) + (s.kernel + bytes) == s.arrived + bytes;
    case Notice => assert forall h :: 0 <= h < |s.handlers| ==> s.handlers[h].Done?;
    case Take(h, size) =>
      assert s.kernel[..size] + s.kernel[size..] == s.kernel;
      assert Hand(s) == [];
      assert Stream(s.chunks) + s.kernel[..size] + s.kernel[size..] == s.arrived;
    case Append(h, room) =>
      StreamPush(s.chunks, Chunk(s.handlers[h].bytes, room));
      assert Hand(s') == [];
    case Rearm(h) =>
    case Stop(h) =>
    case Break(h) =>
  }

  lemma StreamPush(chunks: seq<Chunk>, chunk: Chunk)
    ensures Stream(chunks + [chunk]) == Stream(chunks) + chunk.bytes
  {
    assert (chunks + [chunk])[..|chunks|] == chunks;
  }

  lemma {:induction false} RunKeeps(actions: seq<Action>)
    ensures Inv(Run(actions))
  {
    if actions != [] {
      RunKeeps(actions[..|actions| - 1]);
      if Enabled(Run(actions[..|actions| - 1]), actions[|actions| - 1]) {
        StepKeeps(Run(actions[..|actions| - 1]), actions[|actions| - 1]);
      }
    }
  }

  /** Never two handlers of one descriptor at once, and never one while it is armed. */
  lemma AtMostOneHandler(actions: seq<Action>, g: nat, h: nat)
    requires g < |Run(actions).handlers| && !Run(actions).handlers[g].Done?
    requires h < |Run(actions).handlers| && !Run(actions).handlers[h].Done?
    ensures g == h && !Run(actions).armed
  {
    RunKeeps(actions);
  }

  /** So bytes are appended in the order received: messages, buffer, hand and kernel are what arrived. */
  lemma EveryByteInOrder(actions: seq<Action>)
    ensures
      var s := Run(actions);
      Wire(Receive(s.chunks).msgs) + Receive(s.chunks).rest + Hand(s) + s.kernel == s.arrived
  {
    RunKeeps(actions);
    NothingIsLost(Run(actions).chunks);
  }

  /** Whatever threads handle the connection, what they deliver is a prefix of what the peer sent. */
  lemma DeliveredIsPrefixOfSent(actions: seq<Action>, msgs: seq<Bytes>)
    requires forall i :: 0 <= i < |msgs| ==> Sendable(msgs[i])
    requires Run(actions).arrived <= Wire(msgs)
    ensures Receive(Run(actions).chunks).msgs <= msgs
  {
    RunKeeps(actions);
    var s := Run(actions);
    Regroup(Stream(s.chunks), Hand(s), s.kernel);
    assert Stream(s.chunks) <= s.arrived;
    DeliveredInOrder(msgs, s.chunks);
  }

  // ----- The descriptor is armed again

  predicate AtWork(s: State) {
    exists h :: 0 <= h < |s.handlers| && !s.handlers[h].Done?
  }

  /** Armed if and only if no handler is at work. */
  predicate ArmedFits(s: State) {
    s.armed <==> !AtWork(s)
  }

  predicate NeverStopped(actions: seq<Action>) {
    forall i :: 0 <= i < |actions| ==> !actions[i].Stop?
  }

  lemma StepArms(s: State, a: Action)
    requires OneAtATime(s) && Enabled(s, a) && !a.Stop? && ArmedFits(s)
    ensures ArmedFits(Do(s, a))
  {
    hide Receive;
    var s' := Do(s, a);
    if a.Notice? {
      assert !s'.handlers[|s.handlers|].Done?;
    } else if !a.Arrive? {
      assert |s'.handlers| == |s.handlers| && AtWork(s);
      assert AtWork(s') <==> !s'.handlers[a.h].Done?;
    }
  }

  /**
   * As long as no hang-up and no error has stopped it, the descriptor is armed if and only if no handler is at
   * work.
   */
  lemma {:induction false} ArmedIff(actions: seq<Action>)
    requires NeverStopped(actions)
    ensures ArmedFits(Run(actions))
  {
    if actions != [] {
      var rest, a := actions[..|actions| - 1], actions[|actions| - 1];
      ArmedIff(rest);
      RunKeeps(rest);
      if Enabled(Run(rest), a) {
        StepArms(Run(rest), a);
      }
    }
  }

  // ----- And everything is read in the end

  function Next(s: State, a: Action): State {
    if Enabled(s, a) then Do(s, a) else s
  }

  function Steps(s: State, actions: seq<Action>): State {
    if actions == [] then s else Next(Steps(s, actions[..|actions| - 1]), actions[|actions| - 1])
  }

  lemma {:induction false} StepsOn(s: State, actions: seq<Action>, more: seq<Action>)
    ensures Steps(s, actions + more) == Steps(Steps(s, actions), more)
  {
    if more == [] {
      assert actions + more == actions;
    } else {
      StepsOn(s, actions, more[..|more| - 1]);
      assert (actions + more)[..|actions + more| - 1] == actions + more[..|more| - 1];
    }
  }

  lemma OneStep(s: State, a: Action)
    ensures Steps(s, [a]) == Next(s, a)
  {
    assert [a][..0] == [];
  }

  lemma {:induction false} RunOn(actions: seq<Action>, more: seq<Action>)
    ensures Run(actions + more) == Steps(Run(actions), more)
  {
    if more == [] {
      assert actions + more == actions;
    } else {
      RunOn(actions, more[..|more| - 1]);
      assert (actions + more)[..|actions + more| - 1] == actions + more[..|more| - 1];
    }
  }

  /** With this much room no whole message stays in the buffer. */
  lemma {:induction false} RoomForAll(buffer: Bytes, room: nat)
    requires |buffer| <= room
    ensures !HasMessage(ParseUpTo(buffer, room).rest)
    decreases |buffer|
  {
    if HasMessage(buffer) {
      RoomForAll(Rest(buffer), room - 1);
    }
  }

  predicate HasHand(s: State) {
    s.handlers != [] && s.handlers[|s.handlers| - 1].InHand?
  }

  /** No whole message waits in the buffer. */
  predicate NoneWaits(s: State) {
    !HasMessage(Receive(s.chunks).rest)
  }

  /** Nothing that the handlers do by themselves: no more bytes, no hang-up and no error. */
  predicate Reading(actions: seq<Action>) {
    forall i :: 0 <= i < |actions| ==> !actions[i].Arrive? && !actions[i].Stop? && !actions[i].Break?
  }

  /** A handler that has bytes in its hand appends them. */
  lemma Appends(s: State, room: nat)
    requires Inv(s) && ArmedFits(s) && HasHand(s) && |s.arrived| <= room
    ensures
      var s' := Next(s, Append(|s.handlers| - 1, room));
      && Inv(s') && ArmedFits(s') && !HasHand(s') && NoneWaits(s')
      && s'.kernel == s.kernel && s'.arrived == s.arrived
  {
    var h := |s.handlers| - 1;
    var a := Append(h, room);
    StepKeeps(s, a);
    StepArms(s, a);
    var chunk := Chunk(s.handlers[h].bytes, room);
    assert (s.chunks + [chunk])[..|s.chunks|] == s.chunks;
    var buffer := Receive(s.chunks).rest + chunk.bytes;
    NothingIsLost(s.chunks);
    assert |buffer| <= |s.arrived|;
    RoomForAll(buffer, room);
  }

  /** From a state in which nothing is in hand, a handler comes to be about to receive. */
  lemma Wakes(s: State) returns (more: seq<Action>)
    requires Inv(s) && ArmedFits(s) && !HasHand(s)
    ensures Reading(more)
    ensures
      var s' := Steps(s, more);
      && Inv(s') && ArmedFits(s') && s'.handlers != [] && s'.handlers[|s'.handlers| - 1].Ready?
      && s'.kernel == s.kernel && s'.arrived == s.arrived && s'.chunks == s.chunks
  {
    var last := |s.handlers| - 1;
    if s.handlers != [] && s.handlers[last].Ready? {
      more := [];
    } else if s.handlers != [] && s.handlers[last].Rearming? {
      more := [Rearm(last)] + [Notice];
      assert AtWork(s);
      OneStep(s, Rearm(last));
      StepKeeps(s, Rearm(last));
      StepArms(s, Rearm(last));
      var s1 := Next(s, Rearm(last));
      OneStep(s1, Notice);
      StepsOn(s, [Rearm(last)], [Notice]);
      StepKeeps(s1, Notice);
      StepArms(s1, Notice);
    } else {
      more := [Notice];
      assert !AtWork(s);
      OneStep(s, Notice);
      StepKeeps(s, Notice);
      StepArms(s, Notice);
    }
  }

  /** What is in the kernel is read and appended. */
  lemma Reads(s: State) returns (more: seq<Action>)
    requires Inv(s) && ArmedFits(s) && s.kernel != []
    requires s.handlers != [] && s.handlers[|s.handlers| - 1].Ready?
    ensures Reading(more)
    ensures
      var s' := Steps(s, more);
      Inv(s') && ArmedFits(s') && !HasHand(s') && NoneWaits(s') && s'.kernel == [] && s'.arrived == s.arrived
  {
    hide Receive, Stream, HasMessage;
    var last := |s.handlers| - 1;
    var take, append := Take(last, |s.kernel|), Append(last, |s.arrived|);
    more := [take] + [append];
    OneStep(s, take);
    StepsOn(s, [take], [append]);
    StepKeeps(s, take);
    StepArms(s, take);
    var s1 := Next(s, take);
    OneStep(s1, append);
    Appends(s1, |s.arrived|);
  }

  lemma Drains(s: State) returns (more: seq<Action>)
    requires Inv(s) && ArmedFits(s)
    ensures Reading(more)
    ensures
      var s' := Steps(s, more);
      && Inv(s') && s'.kernel == [] && !HasHand(s') && s'.arrived == s.arrived && Stream(s'.chunks) == s'.arrived
      && (s.kernel != [] || HasHand(s) || NoneWaits(s) ==> NoneWaits(s'))
  {
    hide Receive, Stream, HasMessage, ArmedFits, Inv, Steps, NoneWaits;
    more := [];
    var s1 := s;
    NoSteps(s);
    if HasHand(s) {
      more := [Append(|s.handlers| - 1, |s.arrived|)];
      OneStep(s, more[0]);
      Appends(s, |s.arrived|);
      s1 := Steps(s, more);
    }
    if s1.kernel != [] {
      var wake := Wakes(s1);
      var read := Reads(Steps(s1, wake));
      StepsOn(s1, wake, read);
      StepsOn(s, more, wake + read);
      more := more + (wake + read);
    }
    NothingLeft(Steps(s, more));
  }

  lemma NoSteps(s: State)
    ensures Steps(s, []) == s
  {
  }

  lemma NothingLeft(s: State)
    requires Inv(s) && s.kernel == [] && !HasHand(s)
    ensures Stream(s.chunks) == s.arrived
  {
    assert Stream(s.chunks) + [] + [] == Stream(s.chunks);
  }

  /**
   * From any moment of a run that nothing has stopped, the handlers by themselves can read everything that has arrived;
   * and then, given room in the queue, every message is delivered that has arrived as a whole (up to an empty last
   * one), unless all was read before and the queue refused one.
   */
  lemma EverythingIsRead(actions: seq<Action>) returns (more: seq<Action>)
    requires NeverStopped(actions)
    ensures Reading(more)
    ensures
      var s, s' := Run(actions), Run(actions + more);
      && s'.kernel == [] && s'.arrived == s.arrived && Stream(s'.chunks) == s'.arrived
      && (s.kernel != [] || HasHand(s) || NoneWaits(s) ==> Receive(s'.chunks).msgs == Parse(s.arrived).msgs)
  {
    hide Run, Receive, Stream, HasMessage, ArmedFits, OneAtATime;
    ArmedIff(actions);
    RunKeeps(actions);
    var s := Run(actions);
    more := Drains(s);
    RunOn(actions, more);
    var s' := Run(actions + more);
    if NoneWaits(s') {
      DeliveredAll(s'.chunks);
    }
  }

  lemma DeliveredAll(chunks: seq<Chunk>)
    requires !HasMessage(Receive(chunks).rest)
    ensures Receive(chunks).msgs == Parse(Stream(chunks)).msgs
  {
    ChunksOnlyDelay(chunks);
    assert Receive(chunks).msgs + [] == Receive(chunks).msgs;
  }

  /** So if the peer sent whole messages and none was refused, all of them are delivered, but for an empty last one. */
  lemma EveryMessageIsDelivered(actions: seq<Action>, msgs: seq<Bytes>) returns (more: seq<Action>)
    requires NeverStopped(actions) && Run(actions).arrived == Wire(msgs)
    requires forall i :: 0 <= i < |msgs| ==> Sendable(msgs[i])
    requires Run(actions).kernel != [] || HasHand(Run(actions)) || NoneWaits(Run(actions))
    ensures Reading(more)
    ensures Receive(Run(actions + more).chunks).msgs == if EndsEmpty(msgs) then msgs[..|msgs| - 1] else msgs
  {
    more := EverythingIsRead(actions);
    RoundTrip(msgs);
  }

  /** But a message that the queue refused when all else was read is not tried again until more arrives. */
  lemma {:induction false} RefusedWaits(actions: seq<Action>, more: seq<Action>)
    requires Run(actions).kernel == [] && !HasHand(Run(actions))
    requires forall i :: 0 <= i < |more| ==> !more[i].Arrive?
    ensures
      var s, s' := Run(actions), Run(actions + more);
      s'.chunks == s.chunks && s'.kernel == [] && !HasHand(s')
  {
    if more == [] {
      assert actions + more == actions;
    } else {
      var before, a := actions + more[..|more| - 1], more[|more| - 1];
      RefusedWaits(actions, more[..|more| - 1]);
      RunKeeps(before);
      RunPush(before, a);
      assert actions + more == before + [a];
      hide Run, Next, Stream;
      StepWaits(Run(before), a);
    }
  }

  lemma RunPush(actions: seq<Action>, a: Action)
    ensures Run(actions + [a]) == Next(Run(actions), a)
  {
    assert (actions + [a])[..|actions|] == actions;
  }

  lemma StepWaits(s: State, a: Action)
    requires OneAtATime(s) && s.kernel == [] && !HasHand(s) && !a.Arrive?
    ensures var s' := Next(s, a); s'.chunks == s.chunks && s'.kernel == [] && !HasHand(s')
  {
    hide Receive;
  }

  /** And nothing at all is read any more of a connection that was stopped. */
  lemma {:induction false} StoppedForGood(actions: seq<Action>, more: seq<Action>)
    requires !Run(actions).armed && !AtWork(Run(actions))
    ensures
      var s, s' := Run(actions), Run(actions + more);
      s'.chunks == s.chunks && !s'.armed && !AtWork(s')
  {
    if more == [] {
      assert actions + more == actions;
    } else {
      StoppedForGood(actions, more[..|more| - 1]);
      assert (actions + more)[..|actions + more| - 1] == actions + more[..|more| - 1];
      hide Receive;
    }
  }

  // ----- How long a handler works

  predicate IsShort(handler: Handler) {
    match handler
    case Ready(calls) => calls < MAX_RECV_CALLS
    case InHand(_, calls) => 1 <= calls <= MAX_RECV_CALLS
    case _ => true
  }

  /** No handler receives more than ten times. */
  lemma {:induction false} HandlersAreShort(actions: seq<Action>)
    ensures forall h :: 0 <= h < |Run(actions).handlers| ==> IsShort(Run(actions).handlers[h])
  {
    if actions != [] {
      HandlersAreShort(actions[..|actions| - 1]);
      hide Receive;
    }
  }

  /**
   * And it stops receiving, errors and hang-ups apart, exactly when the buffer is empty or it has received ten
   * times.
   */
  lemma StopsReceivingIff(actions: seq<Action>, h: nat, room: nat)
    requires h < |Run(actions).handlers| && Run(actions).handlers[h].InHand?
    ensures
      var s, s' := Run(actions), Run(actions + [Append(h, room)]);
      && |s'.handlers| == |s.handlers|
      && (s'.handlers[h].Ready? || s'.handlers[h].Rearming?)
      && (s'.handlers[h].Rearming? <==> Receive(s'.chunks).rest == [] || s.handlers[h].calls == MAX_RECV_CALLS)
  {
    HandlersAreShort(actions);
    assert (actions + [Append(h, room)])[..|actions|] == actions;
    hide Receive;
  }
}
