/**
 * The ring buffer as a machine of two threads.  A producer and a consumer take turns in any order,
 * one load, comparison, copied word or store at a time.
 */
module RingBufferRuns {
  import opened Remainders

  type Word = nat

  /** An item is its words: copying one takes a step per word. */
  type Item = seq<Word>

  datatype Producer =
    | Idle
    | LoadHead(item: Item)
    | LoadTail(item: Item, head: nat)
    | Copy(item: Item, head: nat, done: nat)

  datatype Consumer =
    | Resting
    | LoadTailFirst
    | LoadHeadNext(tail: nat)
    | CopyOut(tail: nat, out: Item)

  /** Everything the program itself has; size is the number of words of an item. */
  datatype Machine = Machine(
    slots: seq<Item>,
    size: nat,
    head: nat,
    tail: nat,
    producer: Producer,
    consumer: Consumer)

  /** What was accepted by Enqueue and what was returned by Dequeue, in order.  No step reads them. */
  datatype State = State(m: Machine, enqueued: seq<Item>, dequeued: seq<Item>)

  datatype Action = CallEnqueue(item: Item) | CallDequeue | Produce | Consume

  predicate Shaped(m: Machine) {
    && 0 < |m.slots| && m.head < |m.slots| && m.tail < |m.slots|
    && (forall i :: 0 <= i < |m.slots| ==> |m.slots[i]| == m.size)
    && (m.producer.Copy? ==> m.producer.head < |m.slots| && m.producer.done <= |m.producer.item| == m.size)
    && (m.consumer.CopyOut? ==> m.consumer.tail < |m.slots| && |m.consumer.out| <= m.size)
  }

  predicate Enabled(s: State, a: Action) {
    Shaped(s.m) &&
    match a
    case CallEnqueue(item) => s.m.producer.Idle? && |item| == s.m.size
    case CallDequeue => s.m.consumer.Resting?
    case _ => true
  }

  /** The producer's next step. */
  function Produced(s: State): State
    requires Shaped(s.m)
  {
    var m, n := s.m, |s.m.slots|;
    match m.producer
    case Idle => s
    case LoadHead(item) => s.(m := m.(producer := LoadTail(item, m.head)))
    case LoadTail(item, head) =>
      s.(m := m.(producer := if Mod(head + 1, n) == m.tail then Idle else Copy(item, head, 0)))
    case Copy(item, head, done) =>
      if done < m.size then
        s.(m := m.(slots := m.slots[head := m.slots[head][done := item[done]]], producer := Copy(item, head, done + 1)))
      else s.(m := m.(head := Mod(head + 1, n), producer := Idle), enqueued := s.enqueued + [item])
  }

  /** The consumer's next step. */
  function Consumed(s: State): State
    requires Shaped(s.m)
  {
    var m, n := s.m, |s.m.slots|;
    match m.consumer
    case Resting => s
    case LoadTailFirst => s.(m := m.(consumer := LoadHeadNext(m.tail)))
    case LoadHeadNext(tail) =>
      s.(m := m.(consumer := if tail == m.head then Resting else CopyOut(tail, [])))
    case CopyOut(tail, out) =>
      if |out| < m.size then s.(m := m.(consumer := CopyOut(tail, out + [m.slots[tail][|out|]])))
      else s.(m := m.(tail := Mod(tail + 1, n), consumer := Resting), dequeued := s.dequeued + [out])
  }

  function Do(s: State, a: Action): State
    requires Enabled(s, a)
  {
    match a
    case CallEnqueue(item) => s.(m := s.m.(producer := LoadHead(item)))
    case CallDequeue => s.(m := s.m.(consumer := LoadTailFirst))
    case Produce => Produced(s)
    case Consume => Consumed(s)
  }

  /** A fresh buffer whose slots hold anything at all. */
  function Initial(garbage: seq<Item>, size: nat): State {
    State(Machine(garbage, size, 0, 0, Idle, Resting), [], [])
  }

  /** A run takes its actions in order; one that is not enabled does nothing. */
  function Run(garbage: seq<Item>, size: nat, actions: seq<Action>): State {
    if actions == [] then Initial(garbage, size)
    else
      var s, a := Run(garbage, size, actions[..|actions| - 1]), actions[|actions| - 1];
      if Enabled(s, a) then Do(s, a) else s
  }

  /** A buffer for capacity items: one more slot than that. */
  predicate Fresh(garbage: seq<Item>, size: nat, capacity: nat) {
    |garbage| == capacity + 1 && forall i :: 0 <= i < |garbage| ==> |garbage[i]| == size
  }

  // ----- The invariant

  /** The items in the buffer, oldest first. */
  function Queue(s: State): seq<Item>
    requires |s.dequeued| <= |s.enqueued|
  {
    s.enqueued[|s.dequeued|..]
  }

  predicate Counters(s: State) {
    && |s.dequeued| <= |s.enqueued| < |s.dequeued| + |s.m.slots|
    && s.m.head == Mod(|s.enqueued|, |s.m.slots|)
    && s.m.tail == Mod(|s.dequeued|, |s.m.slots|)
  }

  predicate Holds(slots: seq<Item>, enqueued: seq<Item>, k: nat)
    requires k < |enqueued| && 0 < |slots|
  {
    slots[Mod(k, |slots|)] == enqueued[k]
  }

  /** Every item not yet dequeued is in its slot. */
  predicate Stored(slots: seq<Item>, enqueued: seq<Item>, from: nat)
    requires 0 < |slots|
  {
    forall k :: from <= k < |enqueued| ==> Holds(slots, enqueued, k)
  }

  predicate ProducerFits(s: State)
    requires Shaped(s.m)
  {
    match s.m.producer
    case Idle => true
    case LoadHead(item) => |item| == s.m.size
    case LoadTail(item, head) => |item| == s.m.size && head == s.m.head
    case Copy(item, head, done) =>
      && head == s.m.head
      && |s.enqueued| + 1 < |s.dequeued| + |s.m.slots|
      && s.m.slots[head][..done] == item[..done]
  }

  predicate ConsumerFits(s: State)
    requires Shaped(s.m)
  {
    match s.m.consumer
    case Resting => true
    case LoadTailFirst => true
    case LoadHeadNext(tail) => tail == s.m.tail
    case CopyOut(tail, out) =>
      && tail == s.m.tail
      && |s.dequeued| < |s.enqueued|
      && out <= s.enqueued[|s.dequeued|]
  }

  predicate Inv(s: State) {
    && Shaped(s.m) && Counters(s) && Stored(s.m.slots, s.enqueued, |s.dequeued|) && ProducerFits(s) && ConsumerFits(s)
    && (forall k :: 0 <= k < |s.enqueued| ==> |s.enqueued[k]| == s.m.size)
    && s.dequeued == s.enqueued[..|s.dequeued|]
  }

  /** The slot being written is never one that holds an unread item, nor the one being read. */
  lemma WritesAwayFromReads(s: State, k: nat)
    requires Inv(s) && s.m.producer.Copy? && |s.dequeued| <= k < |s.enqueued|
    ensures Mod(k, |s.m.slots|) != s.m.producer.head
  {
    ModsDiffer(k, |s.enqueued|, |s.m.slots|);
  }

  // ----- The steps

  lemma CopyKeeps(s: State)
    requires Inv(s) && s.m.producer.Copy? && s.m.producer.done < s.m.size
    ensures Inv(Produced(s))
  {
    var s', head, done := Produced(s), s.m.producer.head, s.m.producer.done;
    forall k | |s.dequeued| <= k < |s.enqueued|
      ensures Holds(s'.m.slots, s'.enqueued, k)
    {
      assert Holds(s.m.slots, s.enqueued, k);
      WritesAwayFromReads(s, k);
    }
    assert s'.m.slots[head][..done + 1] == s.m.slots[head][..done] + [s.m.producer.item[done]];
    assert s.m.producer.item[..done + 1] == s.m.producer.item[..done] + [s.m.producer.item[done]];
  }

  /** The store to head publishes the item. */
  lemma StoreHeadKeeps(s: State)
    requires Inv(s) && s.m.producer.Copy? && s.m.producer.done == s.m.size
    ensures Inv(Produced(s)) && Queue(Produced(s)) == Queue(s) + [s.m.producer.item]
  {
    var s', head, n := Produced(s), s.m.producer.head, |s.m.slots|;
    ModSum(|s.enqueued|, 1, n);
    assert s.m.slots[head] == s.m.slots[head][..s.m.size];
    assert s.m.producer.item == s.m.producer.item[..s.m.size];
    forall k | |s'.dequeued| <= k < |s'.enqueued|
      ensures Holds(s'.m.slots, s'.enqueued, k)
    {
      assert k < |s.enqueued| ==> Holds(s.m.slots, s.enqueued, k);
    }
    assert s'.enqueued[..|s.dequeued|] == s.enqueued[..|s.dequeued|];
  }

  /** Enqueue fails exactly when the queue is full at its load of tail. */
  lemma LoadTailKeeps(s: State)
    requires Inv(s) && s.m.producer.LoadTail?
    ensures Inv(Produced(s))
    ensures Produced(s).m.producer.Idle? <==> |Queue(s)| == |s.m.slots| - 1
  {
    var n := |s.m.slots|;
    ModSum(|s.enqueued|, 1, n);
    if |s.enqueued| + 1 < |s.dequeued| + n {
      ModsDiffer(|s.dequeued|, |s.enqueued| + 1, n);
    } else {
      assert |s.enqueued| + 1 == |s.dequeued| + n;
      ModTurn(|s.dequeued|, n);
    }
    if Produced(s).m.producer.Copy? {
      assert s.m.slots[s.m.head][..0] == s.m.producer.item[..0];
    }
  }

  /** Dequeue fails exactly when the queue is empty at its load of head. */
  lemma LoadHeadNextKeeps(s: State)
    requires Inv(s) && s.m.consumer.LoadHeadNext?
    ensures Inv(Consumed(s))
    ensures Consumed(s).m.consumer.Resting? <==> Queue(s) == []
  {
    if |s.dequeued| < |s.enqueued| {
      ModsDiffer(|s.dequeued|, |s.enqueued|, |s.m.slots|);
    }
  }

  lemma CopyOutKeeps(s: State)
    requires Inv(s) && s.m.consumer.CopyOut? && |s.m.consumer.out| < s.m.size
    ensures Inv(Consumed(s))
  {
    var item, i := s.enqueued[|s.dequeued|], |s.m.consumer.out|;
    assert Holds(s.m.slots, s.enqueued, |s.dequeued|);
    assert item[..i + 1] == item[..i] + [item[i]];
  }

  /** The store to tail returns the oldest item, whole. */
  lemma StoreTailKeeps(s: State)
    requires Inv(s) && s.m.consumer.CopyOut? && |s.m.consumer.out| == s.m.size
    ensures Inv(Consumed(s))
    ensures [s.m.consumer.out] + Queue(Consumed(s)) == Queue(s)
  {
    var s', d, n := Consumed(s), |s.dequeued|, |s.m.slots|;
    ModSum(d, 1, n);
    assert s.m.consumer.out == s.enqueued[d];
    assert s.enqueued[..d + 1] == s.enqueued[..d] + [s.enqueued[d]];
    forall k | d + 1 <= k < |s.enqueued|
      ensures Holds(s'.m.slots, s'.enqueued, k)
    {
      assert Holds(s.m.slots, s.enqueued, k);
    }
  }

  /** What one step does to the queue of items: nothing, or one enqueue, or one dequeue. */
  lemma StepRefines(s: State, a: Action)
    requires Inv(s) && Enabled(s, a)
    ensures Inv(Do(s, a))
    ensures
      var s' := Do(s, a);
      || (Queue(s') == Queue(s) && s'.enqueued == s.enqueued && s'.dequeued == s.dequeued)
      || (a.Produce? && s.m.producer.Copy? && Queue(s') == Queue(s) + [s.m.producer.item] && s'.dequeued == s.dequeued)
      || (a.Consume? && Queue(s) != [] && Queue(s') == Queue(s)[1..] && s'.dequeued == s.dequeued + [Queue(s)[0]])
  {
    match a
    case CallEnqueue(_) =>
    case CallDequeue =>
    case Produce =>
      match s.m.producer {
        case Idle =>
        case LoadHead(_) =>
        case LoadTail(_, _) => LoadTailKeeps(s);
        case Copy(_, _, done) => if done < s.m.size { CopyKeeps(s); } else { StoreHeadKeeps(s); }
      }
    case Consume =>
      match s.m.consumer
      case Resting =>
      case LoadTailFirst =>
      case LoadHeadNext(_) => LoadHeadNextKeeps(s);
      case CopyOut(_, out) => if |out| < s.m.size { CopyOutKeeps(s); } else { StoreTailKeeps(s); }
  }

  lemma {:induction false} RunKeeps(garbage: seq<Item>, size: nat, capacity: nat, actions: seq<Action>)
    requires Fresh(garbage, size, capacity)
    ensures Inv(Run(garbage, size, actions)) && |Run(garbage, size, actions).m.slots| == capacity + 1
  {
    if actions != [] {
      var rest, a := actions[..|actions| - 1], actions[|actions| - 1];
      RunKeeps(garbage, size, capacity, rest);
      if Enabled(Run(garbage, size, rest), a) {
        StepRefines(Run(garbage, size, rest), a);
      }
    }
  }

  // ----- What the buffer promises

  /** In every interleaving: first in, first out, nothing lost, torn or invented, at most capacity inside. */
  lemma IsAQueue(garbage: seq<Item>, size: nat, capacity: nat, actions: seq<Action>)
    requires Fresh(garbage, size, capacity)
    ensures
      var s := Run(garbage, size, actions);
      && |s.dequeued| <= |s.enqueued| <= |s.dequeued| + capacity
      && s.dequeued + Queue(s) == s.enqueued
  {
    RunKeeps(garbage, size, capacity, actions);
  }

  /** At the load of tail Enqueue decides: it gives up if and only if capacity items are inside. */
  lemma EnqueueFailsIffFull(garbage: seq<Item>, size: nat, capacity: nat, actions: seq<Action>)
    requires Fresh(garbage, size, capacity) && Run(garbage, size, actions).m.producer.LoadTail?
    ensures
      var s := Run(garbage, size, actions);
      && Shaped(s.m) && |s.dequeued| <= |s.enqueued|
      && (Produced(s).m.producer.Idle? <==> |Queue(s)| == capacity)
  {
    RunKeeps(garbage, size, capacity, actions);
    LoadTailKeeps(Run(garbage, size, actions));
  }

  /** At the load of head Dequeue decides: it gives up if and only if nothing is inside. */
  lemma DequeueFailsIffEmpty(garbage: seq<Item>, size: nat, capacity: nat, actions: seq<Action>)
    requires Fresh(garbage, size, capacity) && Run(garbage, size, actions).m.consumer.LoadHeadNext?
    ensures
      var s := Run(garbage, size, actions);
      && Shaped(s.m) && |s.dequeued| <= |s.enqueued|
      && (Consumed(s).m.consumer.Resting? <==> Queue(s) == [])
  {
    RunKeeps(garbage, size, capacity, actions);
    LoadHeadNextKeeps(Run(garbage, size, actions));
  }

  /** While both copy, they copy different slots; and no unread item is in the slot written. */
  lemma NeverTheSameSlot(garbage: seq<Item>, size: nat, capacity: nat, actions: seq<Action>, k: nat)
    requires Fresh(garbage, size, capacity) && Run(garbage, size, actions).m.producer.Copy?
    requires |Run(garbage, size, actions).dequeued| <= k < |Run(garbage, size, actions).enqueued|
    ensures
      var s := Run(garbage, size, actions);
      && |s.m.slots| == capacity + 1
      && Mod(k, |s.m.slots|) != s.m.producer.head
      && s.m.slots[Mod(k, |s.m.slots|)] == s.enqueued[k]
      && (s.m.consumer.CopyOut? ==> s.m.consumer.tail != s.m.producer.head)
  {
    var s := Run(garbage, size, actions);
    RunKeeps(garbage, size, capacity, actions);
    WritesAwayFromReads(s, k);
    WritesAwayFromReads(s, |s.dequeued|);
    assert Holds(s.m.slots, s.enqueued, k);
  }

  // ----- Calls come to an end

  function ProducesLeft(m: Machine): int {
    match m.producer
    case Idle => 0
    case LoadHead(_) => m.size + 3
    case LoadTail(_, _) => m.size + 2
    case Copy(_, _, done) => m.size - done + 1
  }

  function ConsumesLeft(m: Machine): int {
    match m.consumer
    case Resting => 0
    case LoadTailFirst => m.size + 3
    case LoadHeadNext(_) => m.size + 2
    case CopyOut(_, out) => m.size - |out| + 1
  }

  /** Where a call of Enqueue is, when so much was enqueued before it. */
  predicate Enqueuing(s: State, before: seq<Item>, item: Item, full: bool) {
    if s.m.producer.Idle? then s.enqueued == if full then before else before + [item]
    else s.enqueued == before && s.m.producer.item == item && !full
  }

  /** Where a call of Dequeue is, when so many were dequeued before it. */
  predicate Dequeuing(s: State, before: nat, empty: bool) {
    if s.m.consumer.Resting? then |s.dequeued| == if empty then before else before + 1
    else |s.dequeued| == before && !empty
  }

  /** A load of tail that finds the buffer full. */
  predicate FindsFull(s: State, a: Action) {
    Enabled(s, a) && a.Produce? && s.m.producer.LoadTail? && |s.enqueued| - |s.dequeued| == |s.m.slots| - 1
  }

  /** A load of head that finds it empty. */
  predicate FindsEmpty(s: State, a: Action) {
    Enabled(s, a) && a.Consume? && s.m.consumer.LoadHeadNext? && |s.enqueued| == |s.dequeued|
  }

  lemma StepTowardsEnds(s: State, a: Action, before: seq<Item>, item: Item, full: bool)
    requires Inv(s) && Enabled(s, a) && !a.CallEnqueue? && Enqueuing(s, before, item, full)
    ensures
      var s' := Do(s, a);
      && Enqueuing(s', before, item, full || FindsFull(s, a))
      && (s'.m.producer.Idle? ||
          (!s.m.producer.Idle? && ProducesLeft(s'.m) + (if a.Produce? then 1 else 0) <= ProducesLeft(s.m)))
  {
    hide Stored, ConsumerFits;
    if a.Produce? && s.m.producer.LoadTail? {
      LoadTailKeeps(s);
    }
  }

  lemma StepTowardsReturn(s: State, a: Action, before: nat, empty: bool)
    requires Inv(s) && Enabled(s, a) && !a.CallDequeue? && Dequeuing(s, before, empty)
    ensures
      var s' := Do(s, a);
      && Dequeuing(s', before, empty || FindsEmpty(s, a))
      && (s'.m.consumer.Resting? ||
          (!s.m.consumer.Resting? && ConsumesLeft(s'.m) + (if a.Consume? then 1 else 0) <= ConsumesLeft(s.m)))
  {
    hide Stored, ProducerFits;
    if a.Consume? && s.m.consumer.LoadHeadNext? {
      LoadHeadNextKeeps(s);
    }
  }

  /** How often one side is given a turn. */
  function Turns(actions: seq<Action>, a: Action): nat {
    if actions == [] then 0
    else Turns(actions[..|actions| - 1], a) + if actions[|actions| - 1] == a then 1 else 0
  }

  /** Does the call find the buffer full in the last part of a run? */
  predicate MeetsFull(garbage: seq<Item>, size: nat, actions: seq<Action>, more: seq<Action>) {
    more != [] &&
    var before := more[..|more| - 1];
    MeetsFull(garbage, size, actions, before) || FindsFull(Run(garbage, size, actions + before), more[|more| - 1])
  }

  predicate MeetsEmpty(garbage: seq<Item>, size: nat, actions: seq<Action>, more: seq<Action>) {
    more != [] &&
    var before := more[..|more| - 1];
    MeetsEmpty(garbage, size, actions, before) || FindsEmpty(Run(garbage, size, actions + before), more[|more| - 1])
  }

  lemma OneMore(garbage: seq<Item>, size: nat, actions: seq<Action>, more: seq<Action>)
    requires more != []
    ensures
      var s, a := Run(garbage, size, actions + more[..|more| - 1]), more[|more| - 1];
      Run(garbage, size, actions + more) == if Enabled(s, a) then Do(s, a) else s
  {
    assert (actions + more)[..|actions + more| - 1] == actions + more[..|more| - 1];
  }

  lemma {:induction false} EnqueueProceeds(garbage: seq<Item>, size: nat, capacity: nat, actions: seq<Action>,
                                           more: seq<Action>, before: seq<Item>, item: Item)
    requires Fresh(garbage, size, capacity) && forall n :: 0 <= n < |more| ==> !more[n].CallEnqueue?
    requires var s := Run(garbage, size, actions); !s.m.producer.Idle? && Enqueuing(s, before, item, false)
    ensures
      var s, s' := Run(garbage, size, actions), Run(garbage, size, actions + more);
      && Enqueuing(s', before, item, MeetsFull(garbage, size, actions, more))
      && (s'.m.producer.Idle? || ProducesLeft(s'.m) + Turns(more, Produce) <= ProducesLeft(s.m))
  {
    if more == [] {
      assert actions + more == actions;
    } else {
      var earlier, a := more[..|more| - 1], more[|more| - 1];
      EnqueueProceeds(garbage, size, capacity, actions, earlier, before, item);
      OneMore(garbage, size, actions, more);
      RunKeeps(garbage, size, capacity, actions + earlier);
      var s := Run(garbage, size, actions + earlier);
      TurnsAreTaken(s, a);
      hide Run, Inv, Enqueuing, ProducesLeft, Do, Shaped;
      if Enabled(s, a) {
        StepTowardsEnds(s, a, before, item, MeetsFull(garbage, size, actions, earlier));
      }
    }
  }

  lemma TurnsAreTaken(s: State, a: Action)
    requires Inv(s)
    ensures a.Produce? || a.Consume? ==> Enabled(s, a)
  {
  }

  lemma {:induction false} DequeueProceeds(garbage: seq<Item>, size: nat, capacity: nat, actions: seq<Action>,
                                           more: seq<Action>, before: nat)
    requires Fresh(garbage, size, capacity) && forall n :: 0 <= n < |more| ==> !more[n].CallDequeue?
    requires var s := Run(garbage, size, actions); !s.m.consumer.Resting? && Dequeuing(s, before, false)
    ensures
      var s, s' := Run(garbage, size, actions), Run(garbage, size, actions + more);
      && Dequeuing(s', before, MeetsEmpty(garbage, size, actions, more))
      && (s'.m.consumer.Resting? || ConsumesLeft(s'.m) + Turns(more, Consume) <= ConsumesLeft(s.m))
  {
    if more == [] {
      assert actions + more == actions;
    } else {
      var earlier, a := more[..|more| - 1], more[|more| - 1];
      DequeueProceeds(garbage, size, capacity, actions, earlier, before);
      OneMore(garbage, size, actions, more);
      RunKeeps(garbage, size, capacity, actions + earlier);
      var s := Run(garbage, size, actions + earlier);
      TurnsAreTaken(s, a);
      hide Run, Inv, Dequeuing, ConsumesLeft, Do, Shaped;
      if Enabled(s, a) {
        StepTowardsReturn(s, a, before, MeetsEmpty(garbage, size, actions, earlier));
      }
    }
  }

  /**
   * Whatever the consumer does, Enqueue is over after three steps and one for each word; it has then put its item in,
   * and nothing else, if and only if it did not find the buffer full.
   */
  lemma EnqueueEnds(garbage: seq<Item>, size: nat, capacity: nat, actions: seq<Action>, item: Item, more: seq<Action>)
    requires Fresh(garbage, size, capacity) && |item| == size && Run(garbage, size, actions).m.producer.Idle?
    requires forall n :: 0 <= n < |more| ==> !more[n].CallEnqueue?
    ensures
      var called := actions + [CallEnqueue(item)];
      var s, s' := Run(garbage, size, actions), Run(garbage, size, called + more);
      && (Turns(more, Produce) >= size + 3 ==> s'.m.producer.Idle?)
      && (s'.m.producer.Idle? ==>
            s'.enqueued == if MeetsFull(garbage, size, called, more) then s.enqueued else s.enqueued + [item])
  {
    var s, called := Run(garbage, size, actions), actions + [CallEnqueue(item)];
    assert called[..|actions|] == actions;
    RunKeeps(garbage, size, capacity, actions);
    SizeStays(garbage, size, capacity, actions);
    assert Enabled(s, CallEnqueue(item));
    EnqueueProceeds(garbage, size, capacity, called, more, s.enqueued, item);
    RunKeeps(garbage, size, capacity, called + more);
  }

  /** Whatever the producer does, so is Dequeue; it has taken one item out if and only if it did not find it empty. */
  lemma DequeueEnds(garbage: seq<Item>, size: nat, capacity: nat, actions: seq<Action>, more: seq<Action>)
    requires Fresh(garbage, size, capacity) && Run(garbage, size, actions).m.consumer.Resting?
    requires forall n :: 0 <= n < |more| ==> !more[n].CallDequeue?
    ensures
      var called := actions + [CallDequeue];
      var s, s' := Run(garbage, size, actions), Run(garbage, size, called + more);
      && (Turns(more, Consume) >= size + 3 ==> s'.m.consumer.Resting?)
      && (s'.m.consumer.Resting? ==>
            |s'.dequeued| == |s.dequeued| + if MeetsEmpty(garbage, size, called, more) then 0 else 1)
  {
    var s, called := Run(garbage, size, actions), actions + [CallDequeue];
    assert called[..|actions|] == actions;
    RunKeeps(garbage, size, capacity, actions);
    SizeStays(garbage, size, capacity, actions);
    assert Enabled(s, CallDequeue);
    DequeueProceeds(garbage, size, capacity, called, more, |s.dequeued|);
    RunKeeps(garbage, size, capacity, called + more);
  }

  lemma {:induction false} SizeStays(garbage: seq<Item>, size: nat, capacity: nat, actions: seq<Action>)
    ensures Run(garbage, size, actions).m.size == size
  {
    if actions != [] {
      SizeStays(garbage, size, capacity, actions[..|actions| - 1]);
    }
  }
}
