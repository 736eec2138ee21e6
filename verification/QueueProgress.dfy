/**
 * Calls come to an end: whatever the others do, an enqueue ends after few accesses of its own and has then published
 * its element unless it was refused; and so does a dequeue, whose claimed element is then delivered.
 */
module QueueProgress {
  import opened Options
  import opened Remainders
  import opened BlockIndexes
  import opened ImplicitProducers
  import opened BlockRaces
  import opened QueueRaces
  import DequeueClaims

  // ----- An enqueue

  /** At most so many accesses are left of an enqueue. */
  function AccessesLeft<T>(w: Writer<T>): nat {
    match w
    case Idle => 0
    case Check(_) => 9
    case Grow(_) => 8
    case Key(_, _) => 7
    case Advance(_, _) => 6
    case Requisition(_, _) => 5
    case Reset(_, _, _) => 4
    case Enter(_, _, _) => 3
    case Write(_) => 2
    case Publish(_) => 1
    case Rewind(_) => 2
    case Null(_) => 1
  }

  /** A call of enqueue is turned away at once: it needs a new block, and the guard against wrapping refuses it. */
  predicate TurnedAway<T>(m: Memory<T>) {
    m.size > 0 && m.tail % m.size == 0 && !HasLeeway(m.head, m.tail, m.size)
  }

  /**
   * An access at which an enqueue is refused: the index is full, or no block is free, and there is no memory for
   * more.
   */
  predicate Refuses<T>(m: Memory<T>, c: Choice) {
    || (m.writer.Check? && !c.mayGrow && m.headers != [] && Current(m).slots != []
        && Current(m).slots[Behind(Current(m))] < |m.entries|
        && !IsFree(m.entries[Current(m).slots[Behind(Current(m))]]))
    || (m.writer.Requisition? && !c.mayAllocate && m.pool == {})
  }

  /** Where an enqueue of e is, when so much was published before it: it has its element until it is refused. */
  ghost predicate OnItsWay<T>(w: Writer<T>, history: seq<T>, before: seq<T>, e: T, refused: bool) {
    if w.Idle? then history == if refused then before else before + [e]
    else history == before && refused == (w.Rewind? || w.Null?) && (!refused ==> w.element == e)
  }

  /** An access leads nearer to the end, with the same element unless it refuses. */
  lemma ProduceAdvances<T>(m: Memory<T>, c: Choice)
    requires CanProduce(m, c)
    ensures
      var w, w' := m.writer, Produced(m, c).writer;
      && (w.Idle? || AccessesLeft(w') < AccessesLeft(w))
      && (w.Idle? || w.Publish? || w.Null? || (w.Check? && Refuses(m, c)) <==> w'.Idle?)
      && (w.Rewind? || (w.Requisition? && Refuses(m, c)) <==> w'.Rewind? || w'.Null?)
      && (Refuses(m, c) ==> w.Check? || w.Requisition?)
      && (!w'.Idle? && !w'.Rewind? && !w'.Null? ==> !w.Idle? && !w.Rewind? && !w.Null? && w'.element == w.element)
  {
    hide IsFree, Mod, Larger, Unused, WithElement, SlotIn, WithTail, HasLeeway;
  }

  lemma ProduceProceeds<T>(s: State<T>, c: Choice, before: seq<T>, e: T, refused: bool)
    requires CanProduce(s.m, c) && OnItsWay(s.m.writer, s.g.history, before, e, refused)
    ensures
      var w' := Produced(s.m, c).writer;
      && OnItsWay(w', RecordProduced(s, c).history, before, e, refused || Refuses(s.m, c))
      && (s.m.writer.Idle? || AccessesLeft(w') < AccessesLeft(s.m.writer))
  {
    hide Produced, RecordProduced, Refuses, CanProduce, AccessesLeft;
    ProduceEffects(s, c);
    ProduceAdvances(s.m, c);
  }

  lemma BeginProceeds<T>(m: Memory<T>, history: seq<T>, e: T)
    requires m.size > 0
    ensures
      var w' := Begun(m, e).writer;
      && (TurnedAway(m) ==> w'.Idle?) && (!TurnedAway(m) ==> OnItsWay(w', history, history, e, false) && !w'.Idle?)
  {
  }

  /** How many accesses the enqueuer takes in the last part of a run. */
  function Proceeds<T>(size: nat, threads: set<Thread>, junk: seq<Option<BlockId>>, steps: seq<Step<T>>,
                       more: seq<Step<T>>): nat {
    if more == [] then 0
    else
      var before, a := more[..|more| - 1], more[|more| - 1];
      Proceeds(size, threads, junk, steps, before) +
      if a.Proceed? && Possible(Run(size, threads, junk, steps + before), a) then 1 else 0
  }

  /** Is it refused in the last part of a run? */
  predicate IsRefused<T>(size: nat, threads: set<Thread>, junk: seq<Option<BlockId>>, steps: seq<Step<T>>,
                         more: seq<Step<T>>) {
    more != [] &&
    var before, a := more[..|more| - 1], more[|more| - 1];
    var s := Run(size, threads, junk, steps + before);
    || IsRefused(size, threads, junk, steps, before)
    || (a.Proceed? && Possible(s, a) && Refuses(s.q.m, a.choice))
  }

  /** Nothing but the enqueuer's own accesses moves it on or publishes anything. */
  lemma OthersLeaveWriter<T>(s: Queue<T>, a: Step<T>)
    requires Possible(s, a) && !a.Enqueue? && !a.Proceed?
    ensures Take(s, a).q.m.writer == s.q.m.writer && Take(s, a).q.g.history == s.q.g.history
  {
    hide DequeueClaims.Do, BlockNumber, SlotIn, PositionFrom;
  }

  lemma OneMoreStep<T>(size: nat, threads: set<Thread>, junk: seq<Option<BlockId>>, steps: seq<Step<T>>,
                       more: seq<Step<T>>)
    requires more != []
    ensures
      var before, a := more[..|more| - 1], more[|more| - 1];
      var s := Run(size, threads, junk, steps + before);
      Run(size, threads, junk, steps + more) == if Possible(s, a) then Take(s, a) else s
  {
    assert (steps + more)[..|steps + more| - 1] == steps + more[..|more| - 1];
  }

  lemma {:induction false} EnqueueProceeds<T>(size: nat, threads: set<Thread>, junk: seq<Option<BlockId>>,
                                              steps: seq<Step<T>>, more: seq<Step<T>>, before: seq<T>, e: T)
    requires forall n :: 0 <= n < |more| ==> !more[n].Enqueue?
    requires
      var q := Run(size, threads, junk, steps).q;
      !q.m.writer.Idle? && OnItsWay(q.m.writer, q.g.history, before, e, false)
    ensures
      var q, q' := Run(size, threads, junk, steps).q, Run(size, threads, junk, steps + more).q;
      && OnItsWay(q'.m.writer, q'.g.history, before, e, IsRefused(size, threads, junk, steps, more))
      && (q'.m.writer.Idle? ||
          AccessesLeft(q'.m.writer) + Proceeds(size, threads, junk, steps, more) <= AccessesLeft(q.m.writer))
  {
    if more == [] {
      assert steps + more == steps;
    } else {
      var earlier, a := more[..|more| - 1], more[|more| - 1];
      EnqueueProceeds(size, threads, junk, steps, earlier, before, e);
      OneMoreStep(size, threads, junk, steps, more);
      var s := Run(size, threads, junk, steps + earlier);
      hide Run, Possible, OnItsWay, Refuses, AccessesLeft, Produced, RecordProduced;
      if Possible(s, a) {
        StepProceeds(s, a, before, e, IsRefused(size, threads, junk, steps, earlier));
      }
    }
  }

  lemma StepProceeds<T>(s: Queue<T>, a: Step<T>, before: seq<T>, e: T, refused: bool)
    requires Possible(s, a) && !a.Enqueue? && OnItsWay(s.q.m.writer, s.q.g.history, before, e, refused)
    ensures
      var q' := Take(s, a).q;
      && OnItsWay(q'.m.writer, q'.g.history, before, e, refused || (a.Proceed? && Refuses(s.q.m, a.choice)))
      && (s.q.m.writer.Idle? ==> q'.m.writer.Idle?)
      && (!s.q.m.writer.Idle? ==>
            AccessesLeft(q'.m.writer) + (if a.Proceed? then 1 else 0) <= AccessesLeft(s.q.m.writer))
  {
    hide OnItsWay, AccessesLeft, Produced, RecordProduced, Refuses;
    if a.Proceed? {
      ProduceProceeds(s.q, a.choice, before, e, refused);
      if s.q.m.writer.Idle? {
        IdleStays(s.q.m, a.choice);
      }
    } else {
      OthersLeaveWriter(s, a);
    }
  }

  lemma IdleStays<T>(m: Memory<T>, c: Choice)
    requires CanProduce(m, c) && m.writer.Idle?
    ensures Produced(m, c).writer.Idle?
  {
  }

  lemma BeginStep<T>(s: Queue<T>, e: T)
    requires s.q.m.size > 0 && s.q.m.writer.Idle?
    ensures Possible(s, Enqueue(e)) && Take(s, Enqueue(e)).q == State(Begun(s.q.m, e), s.q.g)
  {
    hide Begun;
  }

  /**
   * Whatever else happens meanwhile, an enqueue is over after nine accesses of its own at most.  It has then published
   * its element, and nothing else, if and only if it was not refused: not turned away at first, nor at an access at
   * which the index was full or no block free and no memory to be had.
   */
  lemma EnqueueEnds<T>(size: nat, threads: set<Thread>, junk: seq<Option<BlockId>>, steps: seq<Step<T>>, e: T,
                       more: seq<Step<T>>)
    requires
      var s := Run(size, threads, junk, steps);
      s.q.m.size > 0 && s.q.m.writer.Idle?
    requires forall n :: 0 <= n < |more| ==> !more[n].Enqueue?
    ensures
      var s := Run(size, threads, junk, steps);
      var began := steps + [Enqueue(e)];
      var s' := Run(size, threads, junk, began + more);
      && (TurnedAway(s.q.m) || Proceeds(size, threads, junk, began, more) >= 9 ==> s'.q.m.writer.Idle?)
      && (s'.q.m.writer.Idle? ==>
            s'.q.g.history ==
              if TurnedAway(s.q.m) || IsRefused(size, threads, junk, began, more) then s.q.g.history
              else s.q.g.history + [e])
  {
    var s, began := Run(size, threads, junk, steps), steps + [Enqueue(e)];
    Begins(size, threads, junk, steps, e);
    hide Run, Begun, TurnedAway, HasLeeway, Possible, Refuses, IsRefused, Proceeds, OnItsWay, AccessesLeft;
    BeginProceeds(s.q.m, s.q.g.history, e);
    AtMostNine(Begun(s.q.m, e).writer);
    if TurnedAway(s.q.m) {
      IdleProceeds(size, threads, junk, began, more);
    } else {
      EnqueueProceeds(size, threads, junk, began, more, s.q.g.history, e);
      AtMostNine(Run(size, threads, junk, began + more).q.m.writer);
      var q := Run(size, threads, junk, began + more).q;
      IdleIsEnd(q.m.writer, q.g.history, s.q.g.history, e, IsRefused(size, threads, junk, began, more));
    }
  }

  lemma Begins<T>(size: nat, threads: set<Thread>, junk: seq<Option<BlockId>>, steps: seq<Step<T>>, e: T)
    requires var s := Run(size, threads, junk, steps); s.q.m.size > 0 && s.q.m.writer.Idle?
    ensures
      var q := Run(size, threads, junk, steps).q;
      Run(size, threads, junk, steps + [Enqueue(e)]).q == State(Begun(q.m, e), q.g)
  {
    assert (steps + [Enqueue(e)])[..|steps|] == steps;
    BeginStep(Run(size, threads, junk, steps), e);
    hide Begun, Possible, Take;
  }

  lemma IdleIsEnd<T>(w: Writer<T>, history: seq<T>, before: seq<T>, e: T, refused: bool)
    requires OnItsWay(w, history, before, e, refused)
    ensures w.Idle? ==> history == if refused then before else before + [e]
  {
  }

  lemma AtMostNine<T>(w: Writer<T>)
    ensures AccessesLeft(w) <= 9 && (!w.Idle? ==> 0 < AccessesLeft(w))
  {
  }

  lemma {:induction false} IdleProceeds<T>(size: nat, threads: set<Thread>, junk: seq<Option<BlockId>>,
                                           steps: seq<Step<T>>, more: seq<Step<T>>)
    requires forall n :: 0 <= n < |more| ==> !more[n].Enqueue?
    requires Run(size, threads, junk, steps).q.m.writer.Idle?
    ensures
      var q, q' := Run(size, threads, junk, steps).q, Run(size, threads, junk, steps + more).q;
      q'.m.writer.Idle? && q'.g.history == q.g.history
  {
    if more == [] {
      assert steps + more == steps;
    } else {
      var earlier, a := more[..|more| - 1], more[|more| - 1];
      IdleProceeds(size, threads, junk, steps, earlier);
      OneMoreStep(size, threads, junk, steps, more);
      var s := Run(size, threads, junk, steps + earlier);
      hide Run, Produced, RecordProduced;
      if Possible(s, a) {
        if a.Proceed? {
          IdleStays(s.q.m, a.choice);
          ProduceEffects(s.q, a.choice);
        } else {
          OthersLeaveWriter(s, a);
        }
      }
    }
  }

  // ----- A dequeue

  /** So many accesses are left of fetching a claimed element, or one fewer if others are still to be taken. */
  function FetchesLeft(r: Reader): nat {
    match r
    case LoadHeader(_) => 8
    case LoadTail(_, _) => 7
    case LoadKey(_, _, _) => 6
    case LoadBlock(_, _) => 5
    case MoveOut(_, _, _) => 4
    case Count(_, _, _) => 3
    case Clear(_, _, _) => 2
    case Free(_) => 1
  }

  /** At most so many are left until an index is claimed and its element fetched, or there is none to claim. */
  function ClaimsLeft(pc: DequeueClaims.Pc): nat {
    match pc
    case Idle => 0
    case LoadTail => 14
    case LoadOvercommit(_) => 13
    case LoadOptimistic(_, _) => 12
    case TakeTicket(_) => 11
    case ReloadTail(_, _) => 10
    case Claim(_) => 9
    case Overcommit(_) => 1
  }

  function MovesLeft<T>(s: Queue<T>, t: Thread): nat {
    if t in s.q.m.readers then FetchesLeft(s.q.m.readers[t])
    else if t in s.c.m.pcs then ClaimsLeft(s.c.m.pcs[t])
    else 0
  }

  lemma ConsumeProceeds<T>(m: Memory<T>, t: Thread)
    requires t in m.readers && CanConsume(m, m.readers[t])
    ensures
      var readers' := Consumed(m, t).readers;
      && (t in readers' ==> FetchesLeft(readers'[t]) < FetchesLeft(m.readers[t]))
      && forall u :: u != t ==> (u in readers' <==> u in m.readers) && (u in m.readers ==> readers'[u] == m.readers[u])
  {
    hide BlockNumber, SlotIn, PositionFrom;
  }

  lemma AccessProceeds<T>(s: DequeueClaims.State<T>, t: Thread)
    requires DequeueClaims.Enabled(s, DequeueClaims.Move(t))
    ensures
      var pcs' := DequeueClaims.Do(s, DequeueClaims.Move(t)).m.pcs;
      && t in pcs' && (ClaimsLeft(pcs'[t]) < ClaimsLeft(s.m.pcs[t]) || pcs'[t] == s.m.pcs[t] == DequeueClaims.Idle)
      && (s.m.pcs[t].Claim? ==> pcs'[t].Idle?)
  {
    hide DequeueClaims.Within;
  }

  /** A dequeuer's own accesses bring it nearer to its end, and nobody else's takes it anywhere. */
  lemma StepBrings<T>(s: Queue<T>, a: Step<T>, t: Thread)
    requires JointInv(s) && Possible(s, a) && a != Dequeue(t)
    ensures
      var s' := Take(s, a);
      MovesLeft(s', t) == 0 || MovesLeft(s', t) + (if a == Move(t) then 1 else 0) <= MovesLeft(s, t)
  {
    hide Inv, DequeueClaims.Inv, Produced, Consumed, RecordProduced, RecordConsumed, CanProduce, CanConsume, Offers,
      DequeueClaims.Do, Begun, FetchesLeft, ClaimsLeft;
    match a
    case Enqueue(e) => BeginEffects(s.q.m, e);
    case Proceed(choice) =>
      ProduceEffects(s.q, choice);
      if s.q.m.writer.Publish? {
        CounterEffects(s.c, OnCounters(s, a)[0]);
      }
    case Dequeue(_) => CounterEffects(s.c, OnCounters(s, a)[0]);
    case Move(u) => MoveBrings(s, u, t);
  }

  lemma MoveBrings<T>(s: Queue<T>, u: Thread, t: Thread)
    requires JointInv(s) && Possible(s, Move(u))
    ensures
      var s' := Take(s, Move(u));
      MovesLeft(s', t) == 0 || MovesLeft(s', t) + (if u == t then 1 else 0) <= MovesLeft(s, t)
  {
    hide Inv, DequeueClaims.Inv, Consumed, RecordConsumed, CanConsume, DequeueClaims.Do;
    if u in s.q.m.readers {
      ConsumeProceeds(s.q.m, u);
    } else {
      CounterEffects(s.c, DequeueClaims.Move(u));
      AccessProceeds(s.c, u);
    }
  }

  /** How many accesses a dequeuer takes in the last part of a run. */
  function Moves<T>(size: nat, threads: set<Thread>, junk: seq<Option<BlockId>>, steps: seq<Step<T>>,
                    more: seq<Step<T>>, t: Thread): nat {
    if more == [] then 0
    else
      var before, a := more[..|more| - 1], more[|more| - 1];
      Moves(size, threads, junk, steps, before, t) +
      if a == Move(t) && Possible(Run(size, threads, junk, steps + before), a) then 1 else 0
  }

  lemma {:induction false} DequeueProceeds<T>(size: nat, threads: set<Thread>, junk: seq<Option<BlockId>>,
                                              steps: seq<Step<T>>, more: seq<Step<T>>, t: Thread)
    requires size > 0 && junk != [] && NeverLaps(size, threads, junk, steps + more)
    requires forall n :: 0 <= n < |more| ==> more[n] != Dequeue(t)
    ensures
      var s, s' := Run(size, threads, junk, steps), Run(size, threads, junk, steps + more);
      MovesLeft(s', t) == 0 || MovesLeft(s', t) + Moves(size, threads, junk, steps, more, t) <= MovesLeft(s, t)
  {
    if more == [] {
      assert steps + more == steps;
    } else {
      var earlier, a := more[..|more| - 1], more[|more| - 1];
      assert (steps + more)[..|steps + more| - 1] == steps + earlier;
      CountersRun(size, threads, junk, steps + more);
      DequeueProceeds(size, threads, junk, steps, earlier, t);
      RunKeeps(size, threads, junk, steps + earlier);
      OneMoreStep(size, threads, junk, steps, more);
      var s := Run(size, threads, junk, steps + earlier);
      hide Run, Possible, JointInv, MovesLeft, NeverLaps;
      if Possible(s, a) {
        StepBrings(s, a, t);
      }
    }
  }

  /** A thread that is in no call has had every index it claimed delivered. */
  lemma ClaimsAreDelivered<T>(s: State<T>, t: Thread)
    requires Inv(s) && t !in s.m.readers
    ensures forall i :: 0 <= i < |s.g.takers| && s.g.takers[i] == t ==> HasGot(s.g.got, i)
  {
    hide ClearedFit, ProgressFits, Window, HeadersFit, TailFits, OpenEntries, OpenContents, Owned, WriterFits,
      ReadersFit, AllDone, HasGot;
  }

  /**
   * Whatever else happens meanwhile, a dequeue is over after fourteen accesses of its own at most; and then every index
   * that its thread has ever claimed has been delivered.
   */
  lemma DequeueEnds<T>(size: nat, threads: set<Thread>, junk: seq<Option<BlockId>>, steps: seq<Step<T>>,
                       more: seq<Step<T>>, t: Thread)
    requires size > 0 && junk != [] && NeverLaps(size, threads, junk, steps + more)
    requires forall n :: 0 <= n < |more| ==> more[n] != Dequeue(t)
    requires Moves(size, threads, junk, steps, more, t) >= 14
    ensures
      var s := Run(size, threads, junk, steps + more);
      && t !in s.q.m.readers && (t in s.c.m.pcs ==> s.c.m.pcs[t].Idle?)
      && forall i :: 0 <= i < |s.q.g.takers| && s.q.g.takers[i] == t ==> HasGot(s.q.g.got, i)
  {
    hide Run, JointInv, MovesLeft, NeverLaps, Moves, HasGot;
    DequeueProceeds(size, threads, junk, steps, more, t);
    RunKeeps(size, threads, junk, steps + more);
    AtMostFourteen(Run(size, threads, junk, steps), t);
    ItIsOver(Run(size, threads, junk, steps + more), t);
  }

  lemma ItIsOver<T>(s: Queue<T>, t: Thread)
    requires JointInv(s) && MovesLeft(s, t) == 0
    ensures t !in s.q.m.readers && (t in s.c.m.pcs ==> s.c.m.pcs[t].Idle?)
    ensures forall i :: 0 <= i < |s.q.g.takers| && s.q.g.takers[i] == t ==> HasGot(s.q.g.got, i)
  {
    hide Inv, DequeueClaims.Inv, HasGot;
    ClaimsAreDelivered(s.q, t);
  }

  lemma AtMostFourteen<T>(s: Queue<T>, t: Thread)
    ensures MovesLeft(s, t) <= 14
  {
  }
}
