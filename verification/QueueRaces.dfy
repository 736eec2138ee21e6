/**
 * One producer's queue as a whole: dequeuers share out the indices as in `DequeueClaims` and fetch their elements
 * as in `BlockRaces`, while the enqueuer works.  That an index claimed was published is what the first part
 * proves and the second relies on.
 */
module QueueRaces {
  import opened Options
  import opened Remainders
  import opened BlockIndexes
  import opened ImplicitProducers
  import opened BlockRaces
  import opened BlockReaders
  import opened BlockWriters
  import DequeueClaims

  // ----- Every step

  /** What the environment offers is possible: a free block if there is one, memory for as many entries as there are. */
  predicate Offers<T>(m: Memory<T>, c: Choice) {
    && (m.writer.Requisition? && m.pool != {} ==> c.pick in m.pool)
    && (m.writer.Grow? && m.headers != [] ==> |c.junk| == |Current(m).slots|)
  }

  lemma GrowIsSafe<T>(s: State<T>, c: Choice)
    requires Inv(s) && s.m.writer.Grow? && Offers(s.m, c)
    ensures CanProduce(s.m, c)
  {
    hide Inv;
    CurrentFits(s);
  }

  lemma RequisitionIsSafe<T>(s: State<T>, c: Choice)
    requires Inv(s) && s.m.writer.Requisition? && Offers(s.m, c)
    ensures CanProduce(s.m, c)
  {
    hide Inv;
  }

  lemma KeyIsSafe<T>(s: State<T>, c: Choice)
    requires Inv(s) && s.m.writer.Key?
    ensures CanProduce(s.m, c)
  {
    hide Counts, ClearedFit, Window, HeadersFit, TailFits, OpenEntries, OpenContents, Owned, Delivered, NoneForgotten,
      ReadersFit, ProgressFits;
  }

  lemma IdleKeeps<T>(s: State<T>, c: Choice)
    requires Inv(s) && s.m.writer.Idle?
    ensures Enabled(s, Produce(c)) && Do(s, Produce(c)) == s
  {
    BlocksHaveSize(s);
    hide Inv;
  }

  lemma ProduceKeeps<T>(s: State<T>, c: Choice)
    requires Inv(s) && Offers(s.m, c)
    ensures Enabled(s, Produce(c)) && Inv(Do(s, Produce(c)))
  {
    hide Inv, Do, Produced, CanProduce, Offers;
    BlocksHaveSize(s);
    match s.m.writer
    case Idle => IdleKeeps(s, c);
    case Check(_) => CheckKeeps(s, c);
    case Grow(_) =>
      GrowIsSafe(s, c);
      GrowKeeps(s, c);
    case Key(_, _) =>
      KeyIsSafe(s, c);
      KeyKeeps(s, c);
    case Advance(_, _) => TailMoveKeeps(s, c);
    case Requisition(_, _) =>
      RequisitionIsSafe(s, c);
      RequisitionKeeps(s, c);
    case Rewind(_) => TailMoveKeeps(s, c);
    case Null(_) => NullKeeps(s, c);
    case Reset(_, _, _) => ResetKeeps(s, c);
    case Enter(_, _, _) => EnterKeeps(s, c);
    case Write(_) => WriteKeeps(s, c);
    case Publish(_) => PublishKeeps(s, c);
  }

  /** All that an access may meet; a claim counts on the test before it. */
  predicate Allowed<T>(s: State<T>, a: Action<T>) {
    match a
    case Begin(_) => s.m.writer.Idle?
    case Produce(c) => Offers(s.m, c)
    case Claim(t) => t !in s.m.readers && s.m.head < s.m.tail
    case Consume(t) => t in s.m.readers
  }

  /** No access refers to what is not there, and every access keeps the invariant. */
  lemma StepKeeps<T>(s: State<T>, a: Action<T>)
    requires Inv(s) && Allowed(s, a)
    ensures Enabled(s, a) && Inv(Do(s, a))
  {
    hide Inv, Do, Enabled, Offers;
    match a
    case Begin(e) => BeginKeeps(s, e);
    case Produce(c) => ProduceKeeps(s, c);
    case Claim(t) => ClaimKeeps(s, t);
    case Consume(t) => ConsumeKeeps(s, t);
  }

  // ----- Counters and blocks together

  datatype Queue<T> = Queue(c: DequeueClaims.State<T>, q: State<T>)

  datatype Step<T> =
    | Enqueue(element: T)
    | Proceed(choice: Choice)    // the enqueuer's next access
    | Dequeue(t: Thread)
    | Move(t: Thread)            // the next access of a dequeuer

  predicate Possible<T>(s: Queue<T>, a: Step<T>) {
    match a
    case Enqueue(_) => s.q.m.size > 0 && s.q.m.writer.Idle?
    case Proceed(choice) => Offers(s.q.m, choice) && Enabled(s.q, Produce(choice))
    case Dequeue(t) => DequeueClaims.Enabled(s.c, DequeueClaims.Call(t)) && t !in s.q.m.readers
    case Move(t) =>
      if t in s.q.m.readers then Enabled(s.q, Consume(t))
      else s.q.m.size > 0 && DequeueClaims.Enabled(s.c, DequeueClaims.Move(t))
  }

  /** What a step is for the counters. */
  function OnCounters<T>(s: Queue<T>, a: Step<T>): seq<DequeueClaims.Action<T>> {
    match a
    case Enqueue(_) => []
    case Proceed(_) => if s.q.m.writer.Publish? then [DequeueClaims.Publish(s.q.m.writer.element)] else []
    case Dequeue(t) => [DequeueClaims.Call(t)]
    case Move(t) => if t in s.q.m.readers then [] else [DequeueClaims.Move(t)]
  }

  /** What it is for the blocks. */
  function OnBlocks<T>(s: Queue<T>, a: Step<T>): seq<Action<T>> {
    match a
    case Enqueue(e) => [Begin(e)]
    case Proceed(choice) => [Produce(choice)]
    case Dequeue(_) => []
    case Move(t) =>
      if t in s.q.m.readers then [Consume(t)]
      else if t in s.c.m.pcs && s.c.m.pcs[t].Claim? then [Claim(t)]
      else []
  }

  function Take<T>(s: Queue<T>, a: Step<T>): Queue<T>
    requires Possible(s, a)
  {
    Queue(if OnCounters(s, a) == [] then s.c else DequeueClaims.Next(s.c, OnCounters(s, a)[0]),
          if OnBlocks(s, a) == [] then s.q else Do(s.q, OnBlocks(s, a)[0]))
  }

  /** An empty queue whose first index has room for as many blocks as there is junk in its memory. */
  function Fresh<T>(size: nat, threads: set<Thread>, junk: seq<Option<BlockId>>): Queue<T> {
    var slots := seq(|junk|, j requires 0 <= j => j);
    Queue(DequeueClaims.Initial(threads),
          State(Memory(size, Unused(junk), [Header(slots, if junk == [] then 0 else |junk| - 1)], map[], {},
                       0, 0, 0, 0, Idle, map[]),
                Shadow([], [], [], {}, 0, [], [], [0], [], map[], [], map[], [])))
  }

  /** A run takes its steps in order; one that is not possible does nothing. */
  function Run<T>(size: nat, threads: set<Thread>, junk: seq<Option<BlockId>>, steps: seq<Step<T>>): Queue<T> {
    if steps == [] then Fresh(size, threads, junk)
    else
      var s, a := Run(size, threads, junk, steps[..|steps| - 1]), steps[|steps| - 1];
      if Possible(s, a) then Take(s, a) else s
  }

  /** The accesses of a run to the counters. */
  function Accesses<T>(size: nat, threads: set<Thread>, junk: seq<Option<BlockId>>, steps: seq<Step<T>>)
    : seq<DequeueClaims.Action<T>>
  {
    if steps == [] then []
    else
      var before, a := steps[..|steps| - 1], steps[|steps| - 1];
      var s := Run(size, threads, junk, before);
      Accesses(size, threads, junk, before) + (if Possible(s, a) then OnCounters(s, a) else [])
  }

  /** No dequeuer is lapped between reading a counter and comparing it. */
  predicate NeverLaps<T>(size: nat, threads: set<Thread>, junk: seq<Option<BlockId>>, steps: seq<Step<T>>) {
    DequeueClaims.NeverLaps(threads, Accesses(size, threads, junk, steps))
  }

  lemma {:induction false} CountersRun<T>(size: nat, threads: set<Thread>, junk: seq<Option<BlockId>>,
                                          steps: seq<Step<T>>)
    ensures Run(size, threads, junk, steps).c == DequeueClaims.Run(threads, Accesses(size, threads, junk, steps))
    ensures |Accesses(size, threads, junk, steps)| <= |steps|
    ensures steps != [] && NeverLaps(size, threads, junk, steps) ==>
      NeverLaps(size, threads, junk, steps[..|steps| - 1])
  {
    if steps != [] {
      var before, a := steps[..|steps| - 1], steps[|steps| - 1];
      CountersRun(size, threads, junk, before);
      var s, earlier := Run(size, threads, junk, before), Accesses(size, threads, junk, before);
      hide Possible, OnCounters, OnBlocks, DequeueClaims.NeverLaps;
      if Possible(s, a) && OnCounters(s, a) != [] {
        AtMostOne(s, a);
        OneMoreAccess(threads, earlier, OnCounters(s, a)[0]);
        assert OnCounters(s, a) == [OnCounters(s, a)[0]];
      } else {
        assert earlier + [] == earlier;
      }
    }
  }

  lemma AtMostOne<T>(s: Queue<T>, a: Step<T>)
    ensures |OnCounters(s, a)| <= 1
  {
  }

  lemma OneMoreAccess<T>(threads: set<Thread>, accesses: seq<DequeueClaims.Action<T>>, a: DequeueClaims.Action<T>)
    ensures DequeueClaims.Run(threads, accesses + [a]) == DequeueClaims.Next(DequeueClaims.Run(threads, accesses), a)
    ensures DequeueClaims.NeverLaps(threads, accesses + [a]) ==> DequeueClaims.NeverLaps(threads, accesses)
  {
    assert (accesses + [a])[..|accesses|] == accesses;
  }

  /** Runs of fewer than 2^63 steps lap nobody. */
  lemma ShortRunsNeverLap<T>(size: nat, threads: set<Thread>, junk: seq<Option<BlockId>>, steps: seq<Step<T>>)
    requires |steps| < DequeueClaims.HALF
    ensures NeverLaps(size, threads, junk, steps)
  {
    CountersRun(size, threads, junk, steps);
    DequeueClaims.ShortRunsNeverLap(threads, Accesses(size, threads, junk, steps));
  }

  ghost predicate JointInv<T>(s: Queue<T>) {
    && DequeueClaims.Inv(s.c) && Inv(s.q)
    && s.q.m.head == s.c.m.head && s.q.g.history == s.c.g.published
    && (forall t :: t in s.q.m.readers ==> t in s.c.m.pcs && s.c.m.pcs[t].Idle?)
  }

  lemma FreshSlots(n: nat)
    requires n > 0
    ensures
      var h := Header(seq(n, j requires 0 <= j => j), n - 1);
      Covers(h, 0, 0, [], 0, n) && EndsAt(h, 0, 0)
  {
    ModTurn(-1, n);
    ModSmall(n - 1, n);
  }

  lemma FreshFits<T>(size: nat, threads: set<Thread>, junk: seq<Option<BlockId>>)
    requires size > 0 && junk != []
    ensures JointInv(Fresh<T>(size, threads, junk)) && Fresh<T>(size, threads, junk).q.m.size == size
  {
    FreshSlots(|junk|);
    hide Covers, EndsAt;
    var s := Fresh<T>(size, threads, junk);
    assert Limit(s.q.g.limits, |s.q.g.place|, 0) == 0;
    assert HeadersFit(s.q.m.headers, s.q.g.origins, s.q.g.limits, s.q.g.place, s.q.g.low, |s.q.m.entries|);
  }

  lemma BlockStep<T>(s: Queue<T>, a: Step<T>)
    requires JointInv(s) && OnBlocks(s, a) != []
    requires match a
      case Enqueue(_) => s.q.m.writer.Idle?
      case Proceed(choice) => Offers(s.q.m, choice)
      case _ => true
    ensures Enabled(s.q, OnBlocks(s, a)[0]) && Inv(Do(s.q, OnBlocks(s, a)[0]))
  {
    hide Inv, Enabled, Do, Offers;
    if a.Move? && a.t !in s.q.m.readers {
      DequeueClaims.ClaimIsBelowTail(s.c, a.t);
      TailIsPublished(s.q);
    }
    StepKeeps(s.q, OnBlocks(s, a)[0]);
  }

  lemma TailIsPublished<T>(s: State<T>)
    requires Inv(s)
    ensures s.m.tail == |s.g.history|
  {
  }

  lemma ProduceEffects<T>(s: State<T>, c: Choice)
    requires CanProduce(s.m, c)
    ensures
      var m', g' := Produced(s.m, c), RecordProduced(s, c);
      && m'.head == s.m.head && m'.readers == s.m.readers && m'.size == s.m.size
      && g'.history == if s.m.writer.Publish? then s.g.history + [s.m.writer.element] else s.g.history
  {
  }

  lemma ConsumeEffects<T>(s: State<T>, t: Thread)
    requires s.m.size > 0 && t in s.m.readers && CanConsume(s.m, s.m.readers[t])
    ensures
      var m', g' := Consumed(s.m, t), RecordConsumed(s, t);
      m'.head == s.m.head && m'.readers.Keys <= s.m.readers.Keys && m'.size == s.m.size && g'.history == s.g.history
  {
    hide BlockNumber, SlotIn, PositionFrom;
  }

  lemma CounterEffects<T>(s: DequeueClaims.State<T>, a: DequeueClaims.Action<T>)
    requires DequeueClaims.Enabled(s, a)
    ensures
      var s' := DequeueClaims.Do(s, a);
      && s'.g.published == (if a.Publish? then s.g.published + [a.element] else s.g.published)
      && s'.m.head == s.m.head + (if a.Move? && s.m.pcs[a.t].Claim? then 1 else 0)
      && s'.m.pcs.Keys == s.m.pcs.Keys
      && (forall t :: t in s.m.pcs && (a.Publish? || t != a.t) ==> s'.m.pcs[t] == s.m.pcs[t])
      && (a.Move? && s.m.pcs[a.t].Claim? ==> s'.m.pcs[a.t].Idle?)
  {
    hide DequeueClaims.Within;
  }

  lemma JointStep<T>(s: Queue<T>, a: Step<T>)
    requires JointInv(s) && Possible(s, a) && DequeueClaims.Inv(Take(s, a).c)
    ensures JointInv(Take(s, a)) && Take(s, a).q.m.size == s.q.m.size
  {
    hide Inv, DequeueClaims.Inv, Produced, Consumed, RecordProduced, RecordConsumed, CanProduce, CanConsume, Offers,
      DequeueClaims.Do, Begun;
    if OnBlocks(s, a) != [] {
      BlockStep(s, a);
    }
    match a
    case Enqueue(e) =>
      assert Begun(s.q.m, e) == s.q.m.(writer := Begun(s.q.m, e).writer) by { BeginEffects(s.q.m, e); }
    case Proceed(choice) =>
      ProduceEffects(s.q, choice);
      if s.q.m.writer.Publish? {
        CounterEffects(s.c, OnCounters(s, a)[0]);
      }
    case Dequeue(t) => CounterEffects(s.c, OnCounters(s, a)[0]);
    case Move(t) =>
      if t in s.q.m.readers {
        ConsumeEffects(s.q, t);
      } else {
        CounterEffects(s.c, OnCounters(s, a)[0]);
      }
  }

  lemma BeginEffects<T>(m: Memory<T>, e: T)
    requires m.size > 0
    ensures Begun(m, e) == m.(writer := Begun(m, e).writer)
  {
  }

  /** Every run keeps counters and blocks in step, whatever the threads do. */
  lemma {:induction false} RunKeeps<T>(size: nat, threads: set<Thread>, junk: seq<Option<BlockId>>, steps: seq<Step<T>>)
    requires size > 0 && junk != [] && NeverLaps(size, threads, junk, steps)
    ensures JointInv(Run(size, threads, junk, steps)) && Run(size, threads, junk, steps).q.m.size == size
  {
    hide JointInv, Possible, Take, DequeueClaims.Inv, NeverLaps;
    CountersRun(size, threads, junk, steps);
    if steps == [] {
      FreshFits<T>(size, threads, junk);
    } else {
      var before, a := steps[..|steps| - 1], steps[|steps| - 1];
      RunKeeps(size, threads, junk, before);
      var s := Run(size, threads, junk, before);
      if Possible(s, a) {
        CountersFit(size, threads, junk, steps);
        JointStep(s, a);
      }
    }
  }

  lemma CountersFit<T>(size: nat, threads: set<Thread>, junk: seq<Option<BlockId>>, steps: seq<Step<T>>)
    requires NeverLaps(size, threads, junk, steps)
    ensures DequeueClaims.Inv(Run(size, threads, junk, steps).c)
  {
    hide DequeueClaims.Inv;
    CountersRun(size, threads, junk, steps);
    DequeueClaims.RunKeeps(threads, Accesses(size, threads, junk, steps));
  }

  // ----- What the queue promises

  /** Whatever is going on elsewhere, the next access of every thread refers to something that is there. */
  lemma AccessesAreSafe<T>(size: nat, threads: set<Thread>, junk: seq<Option<BlockId>>, steps: seq<Step<T>>, a: Step<T>)
    requires size > 0 && junk != [] && NeverLaps(size, threads, junk, steps)
    requires
      var s := Run(size, threads, junk, steps);
      match a
      case Enqueue(_) => s.q.m.writer.Idle?
      case Proceed(choice) => Offers(s.q.m, choice)
      case Dequeue(t) => t in s.c.m.pcs && s.c.m.pcs[t].Idle? && t !in s.q.m.readers
      case Move(t) => t in s.c.m.pcs
    ensures Possible(Run(size, threads, junk, steps), a)
  {
    RunKeeps(size, threads, junk, steps);
    var s := Run(size, threads, junk, steps);
    hide Run, Inv, Offers;
    BlocksHaveSize(s.q);
    if OnBlocks(s, a) != [] {
      BlockStep(s, a);
    }
    if a.Move? {
      TicketExists(s.c, a.t);
    }
  }

  lemma TicketExists<T>(s: DequeueClaims.State<T>, t: Thread)
    requires DequeueClaims.Inv(s) && t in s.m.pcs
    ensures DequeueClaims.Enabled(s, DequeueClaims.Move(t))
  {
    assert DequeueClaims.TicketFits(s.m.pcs[t], s.g.tickets);
  }

  /**
   * At every moment of every run: what dequeuers have moved out is what was enqueued at the indices they claimed, and
   * no index is delivered twice.
   */
  lemma EachElementOnce<T>(size: nat, threads: set<Thread>, junk: seq<Option<BlockId>>, steps: seq<Step<T>>)
    requires size > 0 && junk != [] && NeverLaps(size, threads, junk, steps)
    ensures
      var s := Run(size, threads, junk, steps);
      var got := s.q.g.got;
      && (forall d :: 0 <= d < |got| ==>
            got[d].index < s.c.m.head <= |s.c.g.published| && got[d].element == s.c.g.published[got[d].index])
      && (forall d, e :: 0 <= d < e < |got| ==> got[d].index != got[e].index)
  {
    RunKeeps(size, threads, junk, steps);
    hide Run;
    DeliveredFits(Run(size, threads, junk, steps).q);
  }

  lemma DeliveredFits<T>(s: State<T>)
    requires Inv(s)
    ensures
      var got := s.g.got;
      && (forall d :: 0 <= d < |got| ==>
            got[d].index < s.m.head <= |s.g.history| && got[d].element == s.g.history[got[d].index])
      && (forall d, e :: 0 <= d < e < |got| ==> got[d].index != got[e].index)
      && (s.m.readers == map[] ==> forall i: nat :: i < s.m.head ==> HasGot(got, i))
  {
    hide ClearedFit, ProgressFits, Window, HeadersFit, TailFits, OpenEntries, OpenContents, Owned, WriterFits,
      ReadersFit, AllDone;
  }

  /** When no dequeuer is on its way, every index claimed so far has been delivered. */
  lemma NoElementIsLost<T>(size: nat, threads: set<Thread>, junk: seq<Option<BlockId>>, steps: seq<Step<T>>, i: nat)
    requires size > 0 && junk != [] && NeverLaps(size, threads, junk, steps)
    requires Run(size, threads, junk, steps).q.m.readers == map[]
    ensures var s := Run(size, threads, junk, steps); i < s.c.m.head <==> HasGot(s.q.g.got, i)
  {
    RunKeeps(size, threads, junk, steps);
    hide Run;
    DeliveredFits(Run(size, threads, junk, steps).q);
  }

  /** A block number whose elements are not all taken yet. */
  ghost predicate InUse<T>(s: State<T>, k: nat) {
    k < |s.g.given| && !AllDone(s.g.counted, k, s.m.size)
  }

  /** The current index has an entry with the base of block k and its block. */
  ghost predicate IsIndexed<T>(s: State<T>, k: nat) {
    && k < |s.g.given| && s.m.headers != []
    && exists p :: 0 <= p < |Current(s.m).slots| && EntryIs(s.m, Current(s.m).slots[p], k, s.g.given[k])
  }

  predicate EntryIs<T>(m: Memory<T>, x: nat, k: nat, b: BlockId) {
    x < |m.entries| && m.entries[x] == Entry(Some(k * m.size), Some(b))
  }

  /**
   * And when the enqueuer is not at work either, every block ever made is in the pool, or holds elements that are
   * still to be taken or to come and is found in the index: no block leaks, and none is in two places.
   */
  lemma NoBlockIsLost<T>(size: nat, threads: set<Thread>, junk: seq<Option<BlockId>>, steps: seq<Step<T>>)
    requires size > 0 && junk != [] && NeverLaps(size, threads, junk, steps)
    requires var m := Run(size, threads, junk, steps).q.m; m.readers == map[] && m.writer.Idle?
    ensures
      var q := Run(size, threads, junk, steps).q;
      && (forall b :: b in q.m.blocks ==> (b in q.m.pool <==> !exists k: nat :: InUse(q, k) && q.g.given[k] == b))
      && (forall j: nat, k: nat :: InUse(q, j) && InUse(q, k) && j != k ==> q.g.given[j] != q.g.given[k])
      && (forall k: nat :: InUse(q, k) ==> IsIndexed(q, k))
  {
    RunKeeps(size, threads, junk, steps);
    hide Run;
    hide InUse, IsIndexed;
    QuietBlocks(Run(size, threads, junk, steps).q);
    InUseIsIndexed(Run(size, threads, junk, steps).q);
  }

  lemma InUseIsIndexed<T>(s: State<T>)
    requires Inv(s)
    ensures forall k: nat :: InUse(s, k) ==> IsIndexed(s, k)
  {
    CurrentFits(s);
    hide Counts, HeadersFit, TailFits, OpenContents, Owned, WriterFits, ReadersFit, NoneForgotten, Delivered,
      AllDone, EndsAt, Pos;
    forall k: nat | InUse(s, k)
      ensures IsIndexed(s, k)
    {
      assert IsOpen(k, s.g.given, s.g.cleared);
      var h := |s.m.headers| - 1;
      var p := Pos(k, s.g.origins[h], |Current(s.m).slots|);
      assert Current(s.m).slots[p] == s.g.place[k];
      assert EntryIs(s.m, Current(s.m).slots[p], k, s.g.given[k]);
    }
  }

  lemma QuietBlocks<T>(s: State<T>)
    requires Inv(s) && s.m.readers == map[] && s.m.writer.Idle?
    ensures forall b :: b in s.m.blocks ==> (b in s.m.pool <==> !exists k: nat :: InUse(s, k) && s.g.given[k] == b)
    ensures forall j: nat, k: nat :: InUse(s, j) && InUse(s, k) && j != k ==> s.g.given[j] != s.g.given[k]
  {
    var m, g := s.m, s.g;
    hide Counts, ProgressFits, Window, HeadersFit, TailFits, OpenEntries, OpenContents, WriterFits, ReadersFit,
      Delivered, AllDone;
    assert forall k: nat :: InUse(s, k) <==> IsOpen(k, g.given, g.cleared);
    hide ClearedFit, NoneForgotten;
    forall b | b in m.blocks
      ensures b in m.pool <==> !exists k: nat :: InUse(s, k) && g.given[k] == b
    {
      assert OwnerFits(b, g.owner[b], m.pool, g.given, g.cleared, m.writer, m.readers);
      if g.owner[b].OfBlock? {
        assert InUse(s, g.owner[b].k);
      }
    }
  }
}
