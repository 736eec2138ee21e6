/**
 * The look-up of a block as the program computes it, on 64-bit words.  `BlockRaces` computes it on the true counts;
 * here the two are shown to agree as long as the counts are closer than half the range of a word.
 */
module WordLookUps {
  import opened Options
  import opened Remainders
  import opened BlockIndexes
  import opened ImplicitProducers
  import opened BlockRaces
  import opened QueueRaces
  import C = DequeueClaims

  /** A word read as a signed number. */
  function Signed(word: nat): int {
    if word < C.HALF then word else word - C.WORD
  }

  /** PositionFrom on words: index and key are wrapped, the offset is cast to an unsigned word, and so is the sum. */
  function WordPosition(p: nat, key: nat, size: nat, capacity: nat, i: nat): nat
    requires size > 0 && capacity > 0
  {
    var base := i - i % size;
    var offset := C.Wrap(SignedQuotient(Signed(C.Wrap(base - key)), size));
    C.Wrap(p + offset) % capacity
  }

  lemma SignedOfWrap(d: int)
    ensures Signed(C.Wrap(d)) == d <==> -C.HALF <= d < C.HALF
  {
  }

  /** Wrapping does not change a remainder by a divisor of the range. */
  lemma WrapKeepsRemainder(a: int, n: nat)
    requires n > 0 && C.WORD % n == 0
    ensures C.Wrap(a) % n == a % n
  {
    var turns, per, q := a / C.WORD, C.WORD / n, C.Wrap(a) / n;
    assert C.WORD == per * n;
    assert a == (turns * per + q) * n + C.Wrap(a) % n by {
      assert (turns * per + q) * n == turns * (per * n) + q * n;
    }
    RemainderIsUnique(a, turns * per + q, C.Wrap(a) % n, n);
  }

  lemma WrapOfDifference(a: int, b: int, r: int)
    ensures C.Wrap(C.Wrap(a) - r - C.Wrap(b)) == C.Wrap(a - r - b)
  {
  }

  lemma WrapOfSum(a: int, b: int)
    ensures C.Wrap(a + C.Wrap(b)) == C.Wrap(a + b)
  {
  }

  /**
   * Block size and capacity of the index are powers of two, which divide the range.  Then the words lead to the same
   * slot, if the key found is less than half the range away from the base of the index.
   */
  lemma WordPositionAgrees(p: nat, key: nat, size: nat, capacity: nat, i: nat)
    requires size > 0 && capacity > 0 && C.WORD % size == 0 && C.WORD % capacity == 0
    requires -C.HALF <= i - i % size - key < C.HALF
    ensures WordPosition(p, C.Wrap(key), size, capacity, C.Wrap(i)) == PositionFrom(p, key, size, capacity, i)
  {
    var d := i - i % size - key;
    var offset := SignedQuotient(d, size);
    WrapKeepsRemainder(i, size);
    WrapOfDifference(i, key, i % size);
    SignedOfWrap(d);
    hide C.Wrap, Signed, SignedQuotient;
    WrapOfSum(p, offset);
    WrapKeepsRemainder(p + offset, capacity);
  }

  // ----- In a run

  /** No key that a dequeuer can find is beyond the tail. */
  lemma KeysAreOld<T>(s: State<T>, t: Thread)
    requires Inv(s) && t in s.m.readers && s.m.readers[t].LoadKey?
    ensures
      var r, m := s.m.readers[t], s.m;
      && m.size > 0 && r.h < |m.headers| && r.p < |m.headers[r.h].slots| && m.headers[r.h].slots[r.p] < |m.entries|
      && r.i < m.tail
      && var key := m.entries[m.headers[r.h].slots[r.p]].key;
         key.Some? && key.value <= m.tail
  {
    hide TailFits, OpenEntries, OpenContents, Owned, Delivered, NoneForgotten, WriterFits, BlockNumber, Pos, AllDone,
      EndsAt,
      SlotIn;
    var r, m := s.m.readers[t], s.m;
    assert ReaderFits(s, t, r);
    var k, h := BlockNumber(r.i, m.size), r.h;
    var slots, limit := m.headers[h].slots, Limit(s.g.limits, |s.g.place|, h);
    var n :| k <= n < limit && Pos(n, s.g.origins[h], |slots|) == r.p;
    assert Covers(m.headers[h], s.g.origins[h], limit, s.g.place, s.g.low, |m.entries|);
    assert slots[r.p] == s.g.place[n] && m.entries[slots[r.p]].key == Some(n * m.size);
    BasesAreOld(m.size, m.tail, m.writer, |s.g.given|, |s.g.place|, n);
  }

  lemma BasesAreOld<T>(size: nat, tail: nat, writer: Writer<T>, started: nat, places: nat, n: nat)
    requires ProgressFits(size, tail, writer, started, places) && n < places
    ensures n * size <= tail
  {
    hide SlotIn;
    if n < started {
      OlderEnds(n, started, size);
    }
  }

  /** In every run of fewer than 2^63 steps, whatever the word computation finds is what the counts lead to. */
  lemma WordsLeadHome<T>(size: nat, threads: set<Thread>, junk: seq<Option<BlockId>>, steps: seq<Step<T>>, t: Thread)
    requires size > 0 && junk != [] && |steps| < C.HALF && C.WORD % size == 0
    requires
      var m := Run(size, threads, junk, steps).q.m;
      && t in m.readers && m.readers[t].LoadKey?
      && (m.readers[t].h < |m.headers| && m.headers[m.readers[t].h].slots != [] ==>
            C.WORD % |m.headers[m.readers[t].h].slots| == 0)
    ensures
      var m := Run(size, threads, junk, steps).q.m;
      var r := m.readers[t];
      && CanConsume(m, r)
      && var slots := m.headers[r.h].slots;
         var key := m.entries[slots[r.p]].key.value;
         WordPosition(r.p, C.Wrap(key), m.size, |slots|, C.Wrap(r.i)) == PositionFrom(r.p, key, m.size, |slots|, r.i)
  {
    hide Run, Inv, CanConsume, WordPosition, PositionFrom;
    TailIsSmall(size, threads, junk, steps);
    WordsAgree(Run(size, threads, junk, steps).q, t);
  }

  lemma WordsAgree<T>(s: State<T>, t: Thread)
    requires Inv(s) && t in s.m.readers && s.m.readers[t].LoadKey? && s.m.tail < C.HALF
    requires s.m.size > 0 && C.WORD % s.m.size == 0
    requires
      var m := s.m;
      m.readers[t].h < |m.headers| && m.headers[m.readers[t].h].slots != [] ==>
        C.WORD % |m.headers[m.readers[t].h].slots| == 0
    ensures
      var m := s.m;
      var r := m.readers[t];
      && CanConsume(m, r)
      && var slots := m.headers[r.h].slots;
         var key := m.entries[slots[r.p]].key.value;
         WordPosition(r.p, C.Wrap(key), m.size, |slots|, C.Wrap(r.i)) == PositionFrom(r.p, key, m.size, |slots|, r.i)
  {
    hide Inv, WordPosition, PositionFrom, C.Wrap;
    KeysAreOld(s, t);
    var m, r := s.m, s.m.readers[t];
    WordPositionAgrees(r.p, m.entries[m.headers[r.h].slots[r.p]].key.value, m.size, |m.headers[r.h].slots|, r.i);
  }

  lemma TailIsSmall<T>(size: nat, threads: set<Thread>, junk: seq<Option<BlockId>>, steps: seq<Step<T>>)
    requires size > 0 && junk != [] && |steps| < C.HALF
    ensures
      var q := Run(size, threads, junk, steps).q;
      Inv(q) && q.m.size == size && q.m.tail < C.HALF
  {
    hide Run, Inv, Accesses, NeverLaps, C.Run;
    ShortRunsNeverLap(size, threads, junk, steps);
    RunKeeps(size, threads, junk, steps);
    CountersRun(size, threads, junk, steps);
    C.CountersAreSmall(threads, Accesses(size, threads, junk, steps));
    CountersTail(Run(size, threads, junk, steps));
  }

  lemma CountersTail<T>(s: Queue<T>)
    requires JointInv(s)
    ensures s.q.m.tail == s.c.m.tail
  {
    hide Inv;
    TailIsPublished(s.q);
  }
}
