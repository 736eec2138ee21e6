/** The steps of the enqueuer of `BlockRaces`, each of which keeps the invariant. */
module BlockWriters {
  import opened Options
  import opened Remainders
  import opened BlockIndexes
  import opened ImplicitProducers
  import opened BlockRaces
  import opened BlockReaders

  // ----- What stays true

  lemma WriterOwned<T>(m: Memory<T>, g: Shadow<T>, w: Writer<T>)
    requires Owned(m.blocks, m.nextBlock, m.size, g.owner, m.pool, g.given, g.cleared, m.writer, m.readers)
    requires (m.writer.Reset? || m.writer.Enter?) == (w.Reset? || w.Enter?)
    requires w.Reset? || w.Enter? ==> w.b == m.writer.b
    ensures Owned(m.blocks, m.nextBlock, m.size, g.owner, m.pool, g.given, g.cleared, w, m.readers)
  {
    hide IsOpen;
    forall b | b in g.owner
      ensures OwnerFits(b, g.owner[b], m.pool, g.given, g.cleared, w, m.readers)
    {
      assert OwnerFits(b, g.owner[b], m.pool, g.given, g.cleared, m.writer, m.readers);
    }
  }

  lemma AllReadersStay<T>(s: State<T>, s': State<T>)
    requires ReadersFit(s) && Later(s, s') && s'.m.readers == s.m.readers
    requires forall u :: u in s.m.readers ==> SameFor(s, s', s.m.readers[u])
    ensures ReadersFit(s')
  {
    hide ReaderFits, Later, SameFor;
    forall u | u in s'.m.readers
      ensures ReaderFits(s', u, s'.m.readers[u])
    {
      ReaderStays(s, s', u, s.m.readers[u]);
    }
  }

  /** Readers depend neither on the enqueuer's place, nor on what entries, blocks and the pool have. */
  lemma ReadersIgnoreWriter<T>(s: State<T>, s': State<T>)
    requires Inv(s) && s'.m.size == s.m.size && s'.m.headers == s.m.headers && s'.m.readers == s.m.readers
    requires s'.g == s.g.(owner := s'.g.owner)
    ensures ReadersFit(s')
  {
    hide Counts, ClearedFit, ProgressFits, Window, HeadersFit, TailFits, OpenEntries, OpenContents, Owned, Delivered,
      NoneForgotten, WriterFits, Later, SameFor, ReaderFits, ReadersFit;
    LaterIfCleared(s, s');
    forall u | u in s.m.readers
      ensures SameFor(s, s', s.m.readers[u])
    {
      Unchanged(s, s', u);
    }
    AllReadersStay(s, s');
  }

  lemma BeginFits<T>(m: Memory<T>, g: Shadow<T>, e: T)
    requires ProgressFits(m.size, m.tail, m.writer, |g.given|, |g.place|) && m.writer.Idle?
    requires WriterFits(m, g.place, g.given)
    ensures m.size > 0 && WriterFits(Begun(m, e), g.place, g.given)
    ensures ProgressFits(m.size, m.tail, Begun(m, e).writer, |g.given|, |g.place|)
  {
    hide SlotIn, HasLeeway, StartedFits;
    StartedAt(|g.given|, m.size, m.tail);
  }

  lemma BeginKeeps<T>(s: State<T>, e: T)
    requires Inv(s) && s.m.writer.Idle?
    ensures Enabled(s, Begin(e)) && Inv(Do(s, Begin(e)))
  {
    hide Counts, ClearedFit, ProgressFits, Window, HeadersFit, TailFits, OpenEntries, OpenContents, Owned, Delivered,
      NoneForgotten, ReadersFit, WriterFits, SlotIn, HasLeeway;
    BlocksHaveSize(s);
    BeginFits(s.m, s.g, e);
    var s' := Do(s, Begin(e));
    WriterOwned(s.m, s.g, s'.m.writer);
    ReadersIgnoreWriter(s, s');
  }

  /** The slot behind the tail is that of the next block. */
  lemma NextSlotIs(h: Header, origin: int, started: nat)
    requires EndsAt(h, origin, started)
    ensures Behind(h) == Pos(started, origin, |h.slots|)
  {
    NextTail(started, origin, |h.slots|);
  }

  lemma CurrentFits<T>(s: State<T>)
    requires Inv(s)
    ensures
      var h := |s.m.headers| - 1;
      && s.m.headers != [] && h < |s.g.origins| == |s.m.headers| == |s.g.limits| + 1
      && Current(s.m).slots != [] && Current(s.m).tail < |Current(s.m).slots|
      && Covers(s.m.headers[h], s.g.origins[h], |s.g.place|, s.g.place, s.g.low, |s.m.entries|)
      && EndsAt(s.m.headers[h], s.g.origins[h], |s.g.given| + (if HasAdvanced(s.m.writer) then 1 else 0))
  {
    hide Counts, ClearedFit, ProgressFits, Window, OpenEntries, OpenContents, Owned, Delivered, NoneForgotten,
      ReadersFit, WriterFits;
  }

  /** If an entry was prepared already, it is the one found now, and it is free. */
  lemma PreparedIsFound<T>(s: State<T>)
    requires Inv(s) && s.m.writer.Check?
    ensures forall c :: CanProduce(s.m, c)
    ensures s.m.headers != [] && Current(s.m).slots != []
    ensures
      var m, h, g := s.m, Current(s.m), s.g;
      |g.place| > |g.given| ==> h.slots[Behind(h)] == g.place[|g.given|] && IsFree(m.entries[h.slots[Behind(h)]])
  {
    CurrentFits(s);
    var h := |s.m.headers| - 1;
    NextSlotIs(s.m.headers[h], s.g.origins[h], |s.g.given|);
    hide Counts, Window, HeadersFit, TailFits, OpenEntries, OpenContents, Owned, Delivered, NoneForgotten,
      ReadersFit, Pos,
      SlotIn, StartedFits;
  }

  lemma CheckFits<T>(m: Memory<T>, g: Shadow<T>, c: Choice)
    requires m.writer.Check? && CanProduce(m, c)
    requires WriterFits(m, g.place, g.given) && ProgressFits(m.size, m.tail, m.writer, |g.given|, |g.place|)
    requires
      var h := Current(m);
      |g.place| > |g.given| ==> h.slots[Behind(h)] == g.place[|g.given|] && IsFree(m.entries[h.slots[Behind(h)]])
    ensures
      var m' := Produced(m, c);
      && WriterFits(m', g.place, g.given) && ProgressFits(m.size, m.tail, m'.writer, |g.given|, |g.place|)
      && m' == m.(writer := m'.writer) && !m'.writer.Reset? && !m'.writer.Enter? && !HasAdvanced(m'.writer)
  {
    hide SlotIn, StartedFits, Behind, IsFree;
  }

  lemma CheckKeeps<T>(s: State<T>, c: Choice)
    requires Inv(s) && s.m.writer.Check?
    ensures Enabled(s, Produce(c)) && Inv(Do(s, Produce(c)))
  {
    hide Counts, ClearedFit, Window, HeadersFit, TailFits, OpenEntries, OpenContents, Owned, Delivered, NoneForgotten,
      ReadersFit, WriterFits, ProgressFits, CanProduce, Produced, Behind, IsFree;
    BlocksHaveSize(s);
    PreparedIsFound(s);
    CheckFits(s.m, s.g, c);
    var s' := Do(s, Produce(c));
    WriterOwned(s.m, s.g, s'.m.writer);
    ReadersIgnoreWriter(s, s');
  }

  // ----- A larger index

  lemma LargerSlots(h: Header, entries: nat)
    requires h.tail < |h.slots| && (forall p :: 0 <= p < |h.slots| ==> h.slots[p] < entries)
    requires forall p, q :: 0 <= p < q < |h.slots| ==> h.slots[p] != h.slots[q]
    ensures
      var h' := Larger(h, entries);
      && (forall p :: 0 <= p < |h'.slots| ==> h'.slots[p] < entries + |h.slots|)
      && (forall p, q :: 0 <= p < q < |h'.slots| ==> h'.slots[p] != h'.slots[q])
      && h'.slots[Behind(h')] == entries
  {
    var n, slots' := |h.slots|, Larger(h, entries).slots;
    hide Rotated, Mod;
    ModSmall(n, 2 * n);
    forall p | 0 <= p < n
      ensures slots'[p] == h.slots[Mod(h.tail + 1 + p, n)]
    {
      RotatedAt(h.slots, h.tail, p);
    }
    forall p, q | 0 <= p < q < |slots'|
      ensures slots'[p] != slots'[q]
    {
      if q < n {
        ModsDiffer(h.tail + 1 + p, h.tail + 1 + q, n);
      }
    }
  }

  lemma LargerCovers(h: Header, origin: int, place: seq<nat>, low: nat, entries: nat)
    requires Covers(h, origin, |place|, place, low, entries) && EndsAt(h, origin, |place|)
    ensures
      var n, h' := |h.slots|, Larger(h, entries);
      && Covers(h', n - |place|, |place|, place, low, entries + n) && EndsAt(h', n - |place|, |place|)
      && h'.slots[Behind(h')] == entries
  {
    hide Rotated, Mod, Larger, Pos, Behind;
    var n, h', started := |h.slots|, Larger(h, entries), |place|;
    LargerSlots(h, entries);
    LargerTail(h, entries, started);
    forall b: nat | low <= b < started
      ensures h'.slots[Pos(b, n - started, 2 * n)] == place[b]
    {
      RotatedPos(h.slots, h.tail, started, origin, b);
      LargerIsRotated(h, entries, b + n - started);
    }
  }

  lemma LargerTail(h: Header, entries: nat, started: nat)
    requires h.tail < |h.slots|
    ensures EndsAt(Larger(h, entries), |h.slots| - started, started)
  {
    hide Rotated, Larger;
    var n := |h.slots|;
    ModSmall(n - 1, 2 * n);
    assert Pos(started - 1, n - started, 2 * n) == n - 1;
  }

  lemma LargerIsRotated(h: Header, entries: nat, p: nat)
    requires h.tail < |h.slots| && p < |h.slots|
    ensures Larger(h, entries).slots[p] == Rotated(h.slots, h.tail)[p]
  {
  }

  lemma MoreEntries(entries: seq<Entry>, more: seq<Entry>, place: seq<nat>, low: nat, size: nat, given: seq<BlockId>,
                    cleared: set<nat>)
    requires Window(entries, place, low, size) && OpenEntries(entries, place, given, cleared)
    ensures Window(entries + more, place, low, size) && OpenEntries(entries + more, place, given, cleared)
  {
    hide IsOpen;
  }

  lemma MoreHeaders(headers: seq<Header>, origins: seq<int>, limits: seq<nat>, place: seq<nat>, low: nat, entries: nat,
                    h': Header, origin': int, entries': nat)
    requires HeadersFit(headers, origins, limits, place, low, entries) && entries <= entries'
    requires EndsAt(headers[|headers| - 1], origins[|headers| - 1], |place|)
    requires Covers(h', origin', |place|, place, low, entries') && EndsAt(h', origin', |place|)
    ensures HeadersFit(headers + [h'], origins + [origin'], limits + [|place|], place, low, entries')
    ensures TailFits(headers + [h'], origins + [origin'], |place|)
  {
    hide EndsAt;
    var headers', origins', limits' := headers + [h'], origins + [origin'], limits + [|place|];
    forall h: nat | h < |headers'|
      ensures Covers(headers'[h], origins'[h], Limit(limits', |place|, h), place, low, entries')
    {
      if h < |headers| {
        assert Covers(headers[h], origins[h], Limit(limits, |place|, h), place, low, entries);
      }
    }
  }

  /** What the growing of the index comes to. */
  ghost predicate Grew<T>(s: State<T>, s': State<T>, e: T, h': Header, more: seq<Entry>) {
    && s.m.headers != [] && |more| == |Current(s.m).slots|
    && s'.m == s.m.(entries := s.m.entries + more, headers := s.m.headers + [h'], writer := Key(e, |s.m.entries|))
    && s'.g == s.g.(origins := s.g.origins + [|Current(s.m).slots| - Started(s)], limits := s.g.limits + [|s.g.place|])
  }

  lemma GrowStep<T>(s: State<T>, c: Choice)
    requires Inv(s) && s.m.writer.Grow? && CanProduce(s.m, c)
    ensures
      var h := Current(s.m);
      && |s.g.place| == |s.g.given| && s.m.size > 0
      && Grew(s, Do(s, Produce(c)), s.m.writer.element, Larger(h, |s.m.entries|), Unused(c.junk))
      && Covers(Larger(h, |s.m.entries|), |h.slots| - Started(s), |s.g.place|, s.g.place, s.g.low,
                |s.m.entries| + |h.slots|)
      && EndsAt(Larger(h, |s.m.entries|), |h.slots| - Started(s), |s.g.place|)
      && Larger(h, |s.m.entries|).slots[Behind(Larger(h, |s.m.entries|))] == |s.m.entries|
  {
    BlocksHaveSize(s);
    CurrentFits(s);
    assert |s.g.given| == |s.g.place|;
    hide Counts, ClearedFit, ProgressFits, Window, HeadersFit, TailFits, OpenEntries, OpenContents, Owned, Delivered,
      NoneForgotten, ReadersFit, WriterFits, Larger, Behind, IsFree, Covers, EndsAt;
    LargerCovers(Current(s.m), s.g.origins[|s.m.headers| - 1], s.g.place, s.g.low, |s.m.entries|);
  }

  lemma GrowthIsLater<T>(s: State<T>, s': State<T>)
    requires Inv(s) && s'.m.size == s.m.size && s.m.headers <= s'.m.headers && |s'.m.headers| == |s.m.headers| + 1
    requires |s.g.place| == |s.g.given|
    requires exists o, l :: s'.g == s.g.(origins := s.g.origins + [o], limits := s.g.limits + [l]) && l == |s.g.place|
    ensures Later(s, s')
  {
    hide ClearedFit, Window, TailFits, OpenEntries, OpenContents, Owned, Delivered, NoneForgotten, ReadersFit,
      WriterFits,
      Covers, EndsAt;
  }

  lemma GrowthFits<T>(m: Memory<T>, g: Shadow<T>, m': Memory<T>)
    requires WriterFits(m, g.place, g.given) && ProgressFits(m.size, m.tail, m.writer, |g.given|, |g.place|)
    requires m.writer.Grow? && |g.place| == |g.given| && m'.writer.Key?
    requires m' == m.(entries := m'.entries, headers := m'.headers, writer := m'.writer)
    requires m'.headers != [] && Current(m').slots != [] && m'.writer.x == Current(m').slots[Behind(Current(m'))]
    requires m'.writer.x < |m'.entries| && m'.entries[m'.writer.x].key.None?
    ensures WriterFits(m', g.place, g.given) && ProgressFits(m.size, m.tail, m'.writer, |g.given|, |g.place|)
  {
    hide SlotIn, StartedFits, Behind;
  }

  lemma GrowKeeps<T>(s: State<T>, c: Choice)
    requires Inv(s) && s.m.writer.Grow? && CanProduce(s.m, c)
    ensures Enabled(s, Produce(c)) && Inv(Do(s, Produce(c)))
  {
    hide Counts, ClearedFit, Window, HeadersFit, TailFits, OpenEntries, OpenContents, Owned, Delivered, NoneForgotten,
      ReadersFit, WriterFits, ProgressFits, CanProduce, Produced, Behind, IsFree, Covers, EndsAt, Later, SameFor,
      Larger, Unused;
    GrowStep(s, c);
    CurrentFits(s);
    GrowthKeepsRest(s, Do(s, Produce(c)), Larger(Current(s.m), |s.m.entries|), Unused(c.junk));
  }

  lemma GrowthKeepsRest<T>(s: State<T>, s': State<T>, h': Header, more: seq<Entry>)
    requires Inv(s) && s.m.writer.Grow? && |s.g.place| == |s.g.given| && s.m.size > 0
    requires Grew(s, s', s.m.writer.element, h', more) && forall j :: 0 <= j < |more| ==> more[j].key.None?
    requires Covers(h', |more| - Started(s), |s.g.place|, s.g.place, s.g.low, |s.m.entries| + |more|)
    requires EndsAt(h', |more| - Started(s), |s.g.place|) && h'.slots[Behind(h')] == |s.m.entries|
    ensures Inv(s')
  {
    hide Counts, ClearedFit, Window, HeadersFit, TailFits, OpenEntries, OpenContents, Owned, Delivered, NoneForgotten,
      ReadersFit, WriterFits, ProgressFits, Behind, Covers;
    CurrentFits(s);
    assert h'.slots != [];
    hide EndsAt;
    GrowthIndex(s, h', more);
    GrowthWriter(s, s', h', more);
    GrowthReaders(s, s');
  }

  lemma GrowthIndex<T>(s: State<T>, h': Header, more: seq<Entry>)
    requires Inv(s) && s.m.writer.Grow? && |s.g.place| == |s.g.given|
    requires Covers(h', |more| - Started(s), |s.g.place|, s.g.place, s.g.low, |s.m.entries| + |more|)
    requires EndsAt(h', |more| - Started(s), |s.g.place|)
    ensures
      var m, g, origins := s.m, s.g, s.g.origins + [|more| - Started(s)];
      && Window(m.entries + more, g.place, g.low, m.size)
      && OpenEntries(m.entries + more, g.place, g.given, g.cleared)
      && HeadersFit(m.headers + [h'], origins, g.limits + [|g.place|], g.place, g.low, |m.entries + more|)
      && TailFits(m.headers + [h'], origins, |g.place|)
  {
    hide Counts, ClearedFit, Window, HeadersFit, TailFits, OpenEntries, OpenContents, Owned, Delivered, NoneForgotten,
      ReadersFit, WriterFits, ProgressFits, Covers, EndsAt;
    var m, g := s.m, s.g;
    CurrentFits(s);
    MoreEntries(m.entries, more, g.place, g.low, m.size, g.given, g.cleared);
    MoreHeaders(m.headers, g.origins, g.limits, g.place, g.low, |m.entries|, h', |more| - Started(s),
                |m.entries + more|);
  }

  lemma GrowthWriter<T>(s: State<T>, s': State<T>, h': Header, more: seq<Entry>)
    requires Inv(s) && s.m.writer.Grow? && |s.g.place| == |s.g.given|
    requires Grew(s, s', s.m.writer.element, h', more) && more != [] && more[0].key.None?
    requires h'.slots != [] && h'.slots[Behind(h')] == |s.m.entries|
    ensures
      var m, m', g := s.m, s'.m, s.g;
      && Owned(m'.blocks, m'.nextBlock, m'.size, g.owner, m'.pool, g.given, g.cleared, m'.writer, m'.readers)
      && WriterFits(m', g.place, g.given) && ProgressFits(m'.size, m'.tail, m'.writer, |g.given|, |g.place|)
  {
    hide Counts, ClearedFit, Window, HeadersFit, TailFits, OpenEntries, OpenContents, Owned, Delivered, NoneForgotten,
      ReadersFit, WriterFits, ProgressFits, Behind;
    WriterOwned(s.m, s.g, s'.m.writer);
    GrowthFits(s.m, s.g, s'.m);
  }

  lemma GrowthReaders<T>(s: State<T>, s': State<T>)
    requires Inv(s) && s'.m.size == s.m.size && s.m.headers <= s'.m.headers && |s'.m.headers| == |s.m.headers| + 1
    requires |s.g.place| == |s.g.given| && s'.m.readers == s.m.readers
    requires exists o, l :: s'.g == s.g.(origins := s.g.origins + [o], limits := s.g.limits + [l]) && l == |s.g.place|
    ensures ReadersFit(s')
  {
    hide Counts, ClearedFit, ProgressFits, Window, HeadersFit, TailFits, OpenEntries, OpenContents, Owned, Delivered,
      NoneForgotten,
      ReadersFit, WriterFits, Later, SameFor;
    GrowthIsLater(s, s');
    forall u | u in s.m.readers
      ensures SameFor(s, s', s.m.readers[u])
    {
      Unchanged(s, s', u);
    }
    AllReadersStay(s, s');
  }

  // ----- Preparing the entry

  /** What the free entry behind the tail is not. */
  lemma FreeIsNew<T>(s: State<T>)
    requires Inv(s) && s.m.writer.Key? && |s.g.place| == |s.g.given|
    ensures
      var x, g, h := s.m.writer.x, s.g, |s.m.headers| - 1;
      && s.m.headers != [] && |g.origins| == |s.m.headers| && Current(s.m).slots != []
      && Current(s.m).slots[Pos(|g.given|, g.origins[h], |Current(s.m).slots|)] == x
      && (g.low < |g.given| ==> |g.given| < g.low + |Current(s.m).slots|)
      && (forall n :: g.low <= n < |g.place| ==> g.place[n] != x)
  {
    hide Counts, ClearedFit, ProgressFits, Window, HeadersFit, TailFits, OpenEntries, OpenContents, Owned, Delivered,
      NoneForgotten,
      ReadersFit, Covers, EndsAt, Pos, SlotIn, Behind, IsFree;
    var m, g, h := s.m, s.g, |s.m.headers| - 1;
    CurrentFits(s);
    NextSlotIs(Current(m), g.origins[h], |g.given|);
    LowestIsTaken(m.entries, g.place, g.low, m.size, g.given, g.cleared, g.counted);
    FreeSlotIsNew(Current(m), g.origins[h], g.place, g.low, m.entries, m.writer.x);
  }

  lemma LowestIsTaken(entries: seq<Entry>, place: seq<nat>, low: nat, size: nat, given: seq<BlockId>, cleared: set<nat>,
                      counted: seq<bool>)
    requires Window(entries, place, low, size) && OpenEntries(entries, place, given, cleared)
    requires ClearedFit(cleared, low, |given|, counted, size) && |place| == |given|
    ensures low <= |place| && (low < |place| ==> place[low] < |entries| && !IsFree(entries[place[low]]))
  {
    hide AllDone;
    assert low < |given| ==> IsOpen(low, given, cleared);
  }

  lemma FreeSlotIsNew(h: Header, origin: int, place: seq<nat>, low: nat, entries: seq<Entry>, x: nat)
    requires Covers(h, origin, |place|, place, low, |entries|)
    requires h.slots[Pos(|place|, origin, |h.slots|)] == x && x < |entries| && IsFree(entries[x])
    requires low < |place| ==> place[low] < |entries| && !IsFree(entries[place[low]])
    ensures low < |place| ==> |place| < low + |h.slots|
    ensures forall n :: low <= n < |place| ==> place[n] != x
  {
    hide Pos, IsFree;
    var started, slots := |place|, h.slots;
    if low < started {
      if started == low + |slots| {
        PosTurns(low, origin, |slots|);
      }
      forall n | low <= n < started
        ensures place[n] != x
      {
        PositionsDiffer(n, started, origin, |slots|);
      }
    }
  }

  lemma PosTurns(k: nat, origin: int, capacity: nat)
    requires capacity > 0
    ensures Pos(k + capacity, origin, capacity) == Pos(k, origin, capacity)
  {
    ModTurn(k + origin, capacity);
  }

  lemma WindowWidens(entries: seq<Entry>, place: seq<nat>, low: nat, size: nat, x: nat, given: seq<BlockId>,
                     cleared: set<nat>)
    requires Window(entries, place, low, size) && OpenEntries(entries, place, given, cleared) && x < |entries|
    requires forall n :: low <= n < |place| ==> place[n] != x
    ensures
      var entries' := entries[x := entries[x].(key := Some(|place| * size))];
      Window(entries', place + [x], low, size) && OpenEntries(entries', place + [x], given, cleared)
  {
    hide IsOpen;
  }

  lemma CoversMore(h: Header, origin: int, limit: nat, place: seq<nat>, low: nat, entries: nat, x: nat)
    requires Covers(h, origin, limit, place, low, entries)
    ensures Covers(h, origin, limit, place + [x], low, entries)
    ensures
      && limit == |place| && h.slots[Pos(limit, origin, |h.slots|)] == x
      && low <= limit && (low < limit ==> limit < low + |h.slots|)
      ==> Covers(h, origin, limit + 1, place + [x], low, entries)
  {
    hide Pos;
  }

  lemma HeadersWiden(headers: seq<Header>, origins: seq<int>, limits: seq<nat>, place: seq<nat>, low: nat,
                     entries: nat, x: nat)
    requires HeadersFit(headers, origins, limits, place, low, entries) && low <= |place|
    requires
      var h := headers[|headers| - 1];
      && h.slots != [] && h.slots[Pos(|place|, origins[|headers| - 1], |h.slots|)] == x
      && (low < |place| ==> |place| < low + |h.slots|)
    ensures HeadersFit(headers, origins, limits, place + [x], low, entries)
  {
    hide EndsAt, Pos, Covers;
    forall h: nat | h < |headers|
      ensures Covers(headers[h], origins[h], Limit(limits, |place + [x]|, h), place + [x], low, entries)
    {
      CoversMore(headers[h], origins[h], Limit(limits, |place|, h), place, low, entries, x);
    }
  }

  lemma KeyFits<T>(m: Memory<T>, place: seq<nat>, given: seq<BlockId>, place': seq<nat>)
    requires m.writer.Key? && WriterFits(m, place, given) && ProgressFits(m.size, m.tail, m.writer, |given|, |place|)
    requires place' == if |place| == |given| then place + [m.writer.x] else place
    ensures
      var c := Choice(false, false, 0, []);
      && CanProduce(m, c) && WriterFits(Produced(m, c), place', given)
      && ProgressFits(m.size, m.tail, Produced(m, c).writer, |given|, |place'|)
      && m.tail == |given| * m.size && |given| <= |place|
  {
    hide SlotIn, StartedFits, Behind, IsFree;
  }

  /** An entry prepared before already has the key. */
  lemma KeyAgain<T>(s: State<T>)
    requires Inv(s) && s.m.writer.Key? && |s.g.place| > |s.g.given|
    ensures
      var x := s.m.writer.x;
      x < |s.m.entries| && s.m.entries[x].(key := Some(s.m.tail)) == s.m.entries[x]
  {
    hide Counts, HeadersFit, TailFits, OpenEntries, OpenContents, Owned, Delivered, NoneForgotten, ReadersFit,
      AllDone, SlotIn,
      StartedFits, Behind;
    assert s.g.low <= |s.g.given|;
    assert s.g.place[|s.g.given|] == s.m.writer.x;
  }

  lemma KeyIsLater<T>(s: State<T>, s': State<T>, x: nat)
    requires Inv(s) && s'.m.size == s.m.size && s'.m.headers == s.m.headers && s'.g == s.g.(place := s.g.place + [x])
    ensures Later(s, s')
  {
    hide ClearedFit, Window, TailFits, OpenEntries, OpenContents, Owned, Delivered, NoneForgotten, ReadersFit,
      WriterFits,
      Covers, EndsAt;
  }

  lemma NewKeyKeeps<T>(s: State<T>, c: Choice)
    requires Inv(s) && s.m.writer.Key? && CanProduce(s.m, c) && |s.g.place| == |s.g.given|
    ensures s.m.size > 0 && Inv(Do(s, Produce(c)))
  {
    hide Counts, Window, HeadersFit, TailFits, OpenEntries, OpenContents, Owned, Delivered, NoneForgotten,
      ReadersFit, WriterFits, ProgressFits, Behind, IsFree, Later, SameFor, AllDone;
    BlocksHaveSize(s);
    FreeIsNew(s);
    var m, g, x, s' := s.m, s.g, s.m.writer.x, Do(s, Produce(c));
    KeyFits(m, g.place, g.given, s'.g.place);
    WindowWidens(m.entries, g.place, g.low, m.size, x, g.given, g.cleared);
    HeadersWiden(m.headers, g.origins, g.limits, g.place, g.low, |m.entries|, x);
    WriterOwned(m, g, s'.m.writer);
    KeyIsLater(s, s', x);
    forall u | u in m.readers
      ensures SameFor(s, s', m.readers[u])
    {
      Unchanged(s, s', u);
    }
    AllReadersStay(s, s');
  }

  lemma KeyKeeps<T>(s: State<T>, c: Choice)
    requires Inv(s) && s.m.writer.Key? && CanProduce(s.m, c)
    ensures Enabled(s, Produce(c)) && Inv(Do(s, Produce(c)))
  {
    hide Counts, ClearedFit, Window, HeadersFit, TailFits, OpenEntries, OpenContents, Owned, Delivered, NoneForgotten,
      ReadersFit, WriterFits, ProgressFits, Behind, IsFree, Later, SameFor;
    BlocksHaveSize(s);
    var m, g, s' := s.m, s.g, Do(s, Produce(c));
    KeyFits(m, g.place, g.given, s'.g.place);
    if |g.place| == |g.given| {
      NewKeyKeeps(s, c);
    } else {
      KeyAgain(s);
      WriterOwned(m, g, s'.m.writer);
      assert s'.m == m.(writer := s'.m.writer);
      ReadersIgnoreWriter(s, s');
    }
  }

  // ----- Moving the tail

  lemma WithTailFits<T>(m: Memory<T>, g: Shadow<T>, tail: nat)
    requires HeadersFit(m.headers, g.origins, g.limits, g.place, g.low, |m.entries|)
    requires m.headers != [] && tail < |Current(m).slots|
    ensures HeadersFit(WithTail(m, tail).headers, g.origins, g.limits, g.place, g.low, |m.entries|)
  {
    hide EndsAt, Pos;
    var headers' := WithTail(m, tail).headers;
    forall h: nat | h < |headers'|
      ensures Covers(headers'[h], g.origins[h], Limit(g.limits, |g.place|, h), g.place, g.low, |m.entries|)
    {
      assert Covers(m.headers[h], g.origins[h], Limit(g.limits, |g.place|, h), g.place, g.low, |m.entries|);
    }
  }

  lemma TailMoveIsLater<T>(s: State<T>, s': State<T>, tail: nat)
    requires Inv(s) && s'.g == s.g && s'.m.size == s.m.size && s.m.headers != []
    requires s'.m.headers == WithTail(s.m, tail).headers
    ensures Later(s, s')
  {
    hide ClearedFit, Window, TailFits, OpenEntries, OpenContents, Owned, Delivered, NoneForgotten, ReadersFit,
      WriterFits,
      Covers, EndsAt;
  }

  lemma TailMoveFits<T>(m: Memory<T>, place: seq<nat>, given: seq<BlockId>, c: Choice)
    requires (m.writer.Advance? || m.writer.Rewind?) && CanProduce(m, c)
    requires WriterFits(m, place, given) && ProgressFits(m.size, m.tail, m.writer, |given|, |place|)
    ensures
      var m' := Produced(m, c);
      && WriterFits(m', place, given) && ProgressFits(m.size, m.tail, m'.writer, |given|, |place|)
      && HasAdvanced(m'.writer) == m.writer.Advance? && HasAdvanced(m.writer) == m.writer.Rewind?
      && !m'.writer.Reset? && !m'.writer.Enter?
  {
    hide SlotIn, StartedFits, Behind;
  }

  /** The tail moves on to the next slot, or back from there. */
  lemma TailMoveEnds(h: Header, origin: int, started: nat)
    requires h.tail < |h.slots|
    ensures EndsAt(h, origin, started) ==> EndsAt(h.(tail := Behind(h)), origin, started + 1)
    ensures EndsAt(h, origin, started + 1) ==>
      EndsAt(h.(tail := Mod(h.tail + (|h.slots| - 1), |h.slots|)), origin, started)
  {
    NextTail(started, origin, |h.slots|);
  }

  lemma TailMoveKeeps<T>(s: State<T>, c: Choice)
    requires Inv(s) && (s.m.writer.Advance? || s.m.writer.Rewind?)
    ensures Enabled(s, Produce(c)) && Inv(Do(s, Produce(c)))
  {
    hide Counts, ClearedFit, Window, HeadersFit, TailFits, OpenEntries, OpenContents, Owned, Delivered, NoneForgotten,
      ReadersFit, WriterFits, ProgressFits, Behind, Later, SameFor, EndsAt, Mod, Covers;
    BlocksHaveSize(s);
    CurrentFits(s);
    var m, g, s' := s.m, s.g, Do(s, Produce(c));
    TailMoveFits(m, g.place, g.given, c);
    TailMoveEnds(Current(m), g.origins[|m.headers| - 1], |g.given|);
    WithTailFits(m, g, Current(s'.m).tail);
    EndsMeansTailFits(s'.m.headers, g.origins, |g.given| + (if HasAdvanced(s'.m.writer) then 1 else 0));
    WriterOwned(m, g, s'.m.writer);
    TailMoveIsLater(s, s', Current(s'.m).tail);
    forall u | u in m.readers
      ensures SameFor(s, s', m.readers[u])
    {
      Unchanged(s, s', u);
    }
    AllReadersStay(s, s');
  }

  lemma EndsMeansTailFits(headers: seq<Header>, origins: seq<int>, blocks: nat)
    requires headers != [] && |origins| == |headers| && EndsAt(headers[|headers| - 1], origins[|headers| - 1], blocks)
    ensures TailFits(headers, origins, blocks)
  {
  }

  // ----- A block

  lemma PickOwned<T>(m: Memory<T>, g: Shadow<T>, b: BlockId, w: Writer<T>)
    requires Owned(m.blocks, m.nextBlock, m.size, g.owner, m.pool, g.given, g.cleared, m.writer, m.readers)
    requires b in m.pool && !m.writer.Reset? && !m.writer.Enter? && w.Reset? && w.b == b
    ensures Owned(m.blocks, m.nextBlock, m.size, g.owner[b := WithWriter], m.pool - {b}, g.given, g.cleared, w,
      m.readers)
  {
    hide IsOpen;
    assert b in g.owner && g.owner[b] == Pooled;
    forall a | a in g.owner && a != b
      ensures OwnerFits(a, g.owner[a], m.pool - {b}, g.given, g.cleared, w, m.readers)
    {
      assert OwnerFits(a, g.owner[a], m.pool, g.given, g.cleared, m.writer, m.readers);
    }
  }

  lemma MakeOwned<T>(m: Memory<T>, g: Shadow<T>, block: Block<T>, w: Writer<T>)
    requires Owned(m.blocks, m.nextBlock, m.size, g.owner, m.pool, g.given, g.cleared, m.writer, m.readers)
    requires |block.elements| == m.size && !m.writer.Reset? && !m.writer.Enter? && w.Reset? && w.b == m.nextBlock
    ensures m.nextBlock !in m.blocks
    ensures Owned(m.blocks[m.nextBlock := block], m.nextBlock + 1, m.size, g.owner[m.nextBlock := WithWriter], m.pool,
      g.given,
                  g.cleared, w, m.readers)
  {
    hide IsOpen;
    forall a | a in g.owner && a != m.nextBlock
      ensures OwnerFits(a, g.owner[a], m.pool, g.given, g.cleared, w, m.readers)
    {
      assert OwnerFits(a, g.owner[a], m.pool, g.given, g.cleared, m.writer, m.readers);
    }
  }

  lemma LooseContents<T>(m: Memory<T>, g: Shadow<T>, b: BlockId, block: Block<T>)
    requires OpenContents(m.blocks, g.given, g.cleared, m.size, g.history, g.moved, g.counted)
    requires forall k: nat :: IsOpen(k, g.given, g.cleared) ==> g.given[k] != b
    ensures OpenContents(m.blocks[b := block], g.given, g.cleared, m.size, g.history, g.moved, g.counted)
  {
    hide Contents;
  }

  lemma LooseIsNotGiven<T>(m: Memory<T>, g: Shadow<T>, b: BlockId)
    requires Owned(m.blocks, m.nextBlock, m.size, g.owner, m.pool, g.given, g.cleared, m.writer, m.readers)
    ensures (b in g.owner ==> !g.owner[b].OfBlock?) ==>
      forall k: nat :: IsOpen(k, g.given, g.cleared) ==> g.given[k] != b
    ensures m.writer.Reset? || m.writer.Enter? ==>
      m.writer.b in m.blocks && |m.blocks[m.writer.b].elements| == m.size && g.owner[m.writer.b] == WithWriter
    ensures m.nextBlock !in g.owner && forall a :: a in m.pool ==> a in g.owner && g.owner[a] == Pooled
  {
    hide OwnerFits;
  }

  lemma RequisitionFits<T>(m: Memory<T>, place: seq<nat>, given: seq<BlockId>, c: Choice)
    requires m.writer.Requisition? && CanProduce(m, c)
    requires WriterFits(m, place, given) && ProgressFits(m.size, m.tail, m.writer, |given|, |place|)
    ensures
      var m' := Produced(m, c);
      && WriterFits(m', place, given) && ProgressFits(m.size, m.tail, m'.writer, |given|, |place|)
      && HasAdvanced(m'.writer)
  {
    hide SlotIn, StartedFits;
  }

  lemma RequisitionKeeps<T>(s: State<T>, c: Choice)
    requires Inv(s) && s.m.writer.Requisition? && CanProduce(s.m, c)
    ensures Enabled(s, Produce(c)) && Inv(Do(s, Produce(c)))
  {
    hide Counts, ClearedFit, Window, HeadersFit, TailFits, OpenEntries, OpenContents, Owned, Delivered, NoneForgotten,
      ReadersFit, WriterFits, ProgressFits, IsOpen;
    BlocksHaveSize(s);
    var m, g, s' := s.m, s.g, Do(s, Produce(c));
    RequisitionFits(m, g.place, g.given, c);
    ReadersIgnoreWriter(s, s');
    LooseIsNotGiven(m, g, m.nextBlock);
    if m.pool != {} {
      PickOwned(m, g, c.pick, s'.m.writer);
    } else if c.mayAllocate {
      var block := Block(seq(m.size, _ => None), 0);
      LooseContents(m, g, m.nextBlock, block);
      MakeOwned(m, g, block, s'.m.writer);
    } else {
      WriterOwned(m, g, s'.m.writer);
    }
  }

  lemma WriterResets<T>(m: Memory<T>, place: seq<nat>, given: seq<BlockId>, c: Choice)
    requires m.writer.Reset? && m.writer.b in m.blocks
    requires WriterFits(m, place, given) && ProgressFits(m.size, m.tail, m.writer, |given|, |place|)
    ensures CanProduce(m, c)
    ensures
      var m' := Produced(m, c);
      && WriterFits(m', place, given) && ProgressFits(m.size, m.tail, m'.writer, |given|, |place|)
      && HasAdvanced(m'.writer)
  {
    hide SlotIn, StartedFits;
  }

  lemma ResetKeeps<T>(s: State<T>, c: Choice)
    requires Inv(s) && s.m.writer.Reset?
    ensures Enabled(s, Produce(c)) && Inv(Do(s, Produce(c)))
  {
    hide Counts, ClearedFit, Window, HeadersFit, TailFits, OpenEntries, OpenContents, Owned, Delivered, NoneForgotten,
      ReadersFit, WriterFits, ProgressFits, IsOpen;
    BlocksHaveSize(s);
    var m, g, b := s.m, s.g, s.m.writer.b;
    LooseIsNotGiven(m, g, m.nextBlock);
    LooseIsNotGiven(m, g, b);
    WriterResets(m, g.place, g.given, c);
    var s', block := Do(s, Produce(c)), m.blocks[b].(completed := 0);
    ReadersIgnoreWriter(s, s');
    LooseContents(m, g, b, block);
    BlocksOwned(m, g, b, block);
    WriterOwned(m.(blocks := m.blocks[b := block]), g, s'.m.writer);
  }

  lemma NullFits<T>(m: Memory<T>, place: seq<nat>, given: seq<BlockId>, c: Choice)
    requires m.writer.Null? && m.writer.x < |m.entries|
    requires WriterFits(m, place, given) && ProgressFits(m.size, m.tail, m.writer, |given|, |place|)
    ensures CanProduce(m, c) && |place| == |given| + 1 && m.writer.x == place[|given|]
    ensures
      var m' := Produced(m, c);
      && WriterFits(m', place, given) && ProgressFits(m.size, m.tail, m'.writer, |given|, |place|)
      && !HasAdvanced(m'.writer)
  {
    hide SlotIn, StartedFits;
  }

  /** The prepared entry exists, and is no open block's. */
  lemma PreparedIsApart<T>(s: State<T>)
    requires Inv(s) && |s.g.place| > |s.g.given|
    ensures
      var x := s.g.place[|s.g.given|];
      && x < |s.m.entries|
      && (forall k: nat :: IsOpen(k, s.g.given, s.g.cleared) ==> k < |s.g.place| && s.g.place[k] != x)
      && s.m.entries[x].key == Some(|s.g.given| * s.m.size)
  {
    hide Counts, ProgressFits, HeadersFit, TailFits, OpenContents, Owned, Delivered, NoneForgotten, ReadersFit,
      WriterFits, AllDone;
  }

  lemma EntryChanges(entries: seq<Entry>, place: seq<nat>, low: nat, size: nat, given: seq<BlockId>,
                     cleared: set<nat>, x: nat,
                     block: Option<BlockId>)
    requires Window(entries, place, low, size) && OpenEntries(entries, place, given, cleared) && x < |entries|
    requires forall k: nat :: IsOpen(k, given, cleared) ==> k < |place| && place[k] != x
    ensures
      var entries' := entries[x := entries[x].(block := block)];
      Window(entries', place, low, size) && OpenEntries(entries', place, given, cleared)
  {
    hide IsOpen;
  }

  lemma NullKeeps<T>(s: State<T>, c: Choice)
    requires Inv(s) && s.m.writer.Null?
    ensures Enabled(s, Produce(c)) && Inv(Do(s, Produce(c)))
  {
    hide Counts, ClearedFit, Window, HeadersFit, TailFits, OpenEntries, OpenContents, Owned, Delivered, NoneForgotten,
      ReadersFit, IsOpen, StartedFits, SlotIn;
    BlocksHaveSize(s);
    var m, g := s.m, s.g;
    assert |g.place| > |g.given| && m.writer.x == g.place[|g.given|];
    hide WriterFits, ProgressFits;
    PreparedIsApart(s);
    NullFits(m, g.place, g.given, c);
    var s' := Do(s, Produce(c));
    EntryChanges(m.entries, g.place, g.low, m.size, g.given, g.cleared, m.writer.x, None);
    ReadersIgnoreWriter(s, s');
    WriterOwned(m, g, s'.m.writer);
  }

  /** Entering the block: it is empty, and its elements are all still to come. */
  lemma EnteredContents<T>(m: Memory<T>, g: Shadow<T>, b: BlockId)
    requires OpenContents(m.blocks, g.given, g.cleared, m.size, g.history, g.moved, g.counted)
    requires b in m.blocks && |m.blocks[b].elements| == m.size && m.blocks[b].completed == 0
    requires |g.history| == |g.moved| == |g.counted| == |g.given| * m.size
    ensures OpenContents(m.blocks, g.given + [b], g.cleared, m.size, g.history, g.moved, g.counted)
  {
    var given' := g.given + [b];
    forall k: nat | IsOpen(k, given', g.cleared)
      ensures given'[k] in m.blocks && Contents(m.blocks[given'[k]], k * m.size, m.size, g.history, g.moved, g.counted)
    {
      if k < |g.given| {
        assert IsOpen(k, g.given, g.cleared);
        assert given'[k] == g.given[k];
      }
    }
  }

  lemma EnteredEntries(entries: seq<Entry>, place: seq<nat>, given: seq<BlockId>, cleared: set<nat>, b: BlockId)
    requires OpenEntries(entries, place, given, cleared) && |place| == |given| + 1
    requires place[|given|] < |entries| && entries[place[|given|]].block == Some(b)
    ensures OpenEntries(entries, place, given + [b], cleared)
  {
    var given' := given + [b];
    forall k: nat | IsOpen(k, given', cleared)
      ensures k < |place| && place[k] < |entries| && entries[place[k]].block == Some(given'[k])
    {
      assert k < |given| ==> IsOpen(k, given, cleared);
    }
  }

  lemma EnterOwned<T>(m: Memory<T>, g: Shadow<T>, w: Writer<T>)
    requires Owned(m.blocks, m.nextBlock, m.size, g.owner, m.pool, g.given, g.cleared, m.writer, m.readers)
    requires m.writer.Enter? && w.Write? && |g.given| !in g.cleared
    ensures
      var b := m.writer.b;
      Owned(m.blocks, m.nextBlock, m.size, g.owner[b := OfBlock(|g.given|)], m.pool, g.given + [b], g.cleared, w,
        m.readers)
  {
    var b := m.writer.b;
    var owner', given' := g.owner[b := OfBlock(|g.given|)], g.given + [b];
    forall a | a in owner'
      ensures OwnerFits(a, owner'[a], m.pool, given', g.cleared, w, m.readers)
    {
      if a != b {
        assert OwnerFits(a, g.owner[a], m.pool, g.given, g.cleared, m.writer, m.readers);
      }
    }
    forall k: nat | IsOpen(k, given', g.cleared)
      ensures given'[k] in owner' && owner'[given'[k]] == OfBlock(k)
    {
      if k < |g.given| {
        assert IsOpen(k, g.given, g.cleared);
      }
    }
  }

  lemma EnterFits<T>(m: Memory<T>, g: Shadow<T>, c: Choice)
    requires m.writer.Enter? && m.writer.x < |m.entries|
    requires WriterFits(m, g.place, g.given) && ProgressFits(m.size, m.tail, m.writer, |g.given|, |g.place|)
    ensures CanProduce(m, c) && |g.place| == |g.given| + 1 && m.writer.x == g.place[|g.given|]
    ensures m.tail == |g.given| * m.size
    ensures m.writer.b in m.blocks && m.blocks[m.writer.b].completed == 0
    ensures
      var m', given' := Produced(m, c), g.given + [m.writer.b];
      && WriterFits(m', g.place, given') && ProgressFits(m.size, m.tail, m'.writer, |given'|, |g.place|)
      && !HasAdvanced(m'.writer)
  {
    StartedAt(|g.given|, m.size, m.tail);
    hide SlotIn, StartedFits;
  }

  lemma EnterStaysCleared(cleared: set<nat>, low: nat, started: nat, counted: seq<bool>, size: nat)
    requires ClearedFit(cleared, low, started, counted, size)
    ensures started !in cleared && ClearedFit(cleared, low, started + 1, counted, size)
  {
    hide AllDone;
  }

  lemma EnterNotForgotten(readers: map<Thread, Reader>, takers: seq<Thread>, counted: seq<bool>, given: seq<BlockId>,
                          cleared: set<nat>, last: map<nat, nat>, size: nat, b: BlockId)
    requires NoneForgotten(readers, takers, counted, given, cleared, last, size) && |counted| == |given| * size
    ensures NoneForgotten(readers, takers, counted, given + [b], cleared, last, size)
  {
    assert !AllDone(counted, |given|, size);
    assert forall k: nat :: IsOpen(k, given + [b], cleared) ==> IsOpen(k, given, cleared) || k == |given|;
    hide AllDone, BlockNumber, IsOpen;
  }

  lemma EnterIsLater<T>(s: State<T>, s': State<T>, b: BlockId)
    requires Inv(s) && |s.g.given| < |s.g.place| && s'.m.size == s.m.size && s'.m.headers == s.m.headers
    requires s'.g == s.g.(given := s.g.given + [b], owner := s'.g.owner)
    ensures Later(s, s')
  {
    hide ClearedFit, Window, TailFits, OpenEntries, OpenContents, Owned, Delivered, NoneForgotten, ReadersFit,
      WriterFits,
      Covers, EndsAt;
  }

  lemma CountsHaveTail<T>(history: seq<T>, moved: seq<bool>, counted: seq<bool>, tail: nat, head: nat,
                          takers: seq<Thread>)
    requires Counts(history, moved, counted, tail, head, takers)
    ensures |history| == |moved| == |counted| == tail && |takers| == head <= tail
  {
  }

  lemma EnterKeeps<T>(s: State<T>, c: Choice)
    requires Inv(s) && s.m.writer.Enter?
    ensures Enabled(s, Produce(c)) && Inv(Do(s, Produce(c)))
  {
    hide Counts, ClearedFit, Window, HeadersFit, TailFits, OpenEntries, OpenContents, Owned, Delivered, NoneForgotten,
      ReadersFit, IsOpen, StartedFits, SlotIn, Later, SameFor, AllDone;
    BlocksHaveSize(s);
    var m, g, b := s.m, s.g, s.m.writer.b;
    assert |g.place| > |g.given| && m.writer.x == g.place[|g.given|];
    hide WriterFits, ProgressFits;
    PreparedIsApart(s);
    EnterFits(m, g, c);
    CountsHaveTail(g.history, g.moved, g.counted, m.tail, m.head, g.takers);
    var s' := Do(s, Produce(c));
    LooseIsNotGiven(m, g, b);
    EnterStaysCleared(g.cleared, g.low, |g.given|, g.counted, m.size);
    EntryChanges(m.entries, g.place, g.low, m.size, g.given, g.cleared, m.writer.x, Some(b));
    EnteredEntries(s'.m.entries, g.place, g.given, g.cleared, b);
    EnteredContents(m, g, b);
    EnterOwned(m, g, s'.m.writer);
    EnterNotForgotten(m.readers, g.takers, g.counted, g.given, g.cleared, g.last, m.size, b);
    EnterIsLater(s, s', b);
    forall u | u in m.readers
      ensures SameFor(s, s', m.readers[u])
    {
      Unchanged(s, s', u);
    }
    AllReadersStay(s, s');
  }

  // ----- Writing the element

  lemma CanWrite<T>(s: State<T>)
    requires Inv(s) && IsWriting(s.m.writer)
    ensures
      var m, g := s.m, s.g;
      && m.size > 0 && g.given != [] && IsOpen(|g.given| - 1, g.given, g.cleared)
      && m.tailBlock == g.given[|g.given| - 1] && m.tailBlock in m.blocks && |m.blocks[m.tailBlock].elements| == m.size
      && SlotIn(m.tail, m.size) == m.tail - (|g.given| - 1) * m.size
      && |g.history| == |g.moved| == |g.counted| == m.tail
      && (|g.given| - 1) * m.size <= m.tail < (|g.given| - 1) * m.size + m.size
      && |g.place| == |g.given|
      && (forall j: nat :: IsOpen(j, g.given, g.cleared) && j != |g.given| - 1 ==> g.given[j] != m.tailBlock)
  {
    hide ClearedFit, Window, HeadersFit, TailFits, OpenEntries, OpenContents, Owned, Delivered, NoneForgotten,
      ReadersFit,
      IsOpen, SlotIn;
    TailBlockIsOpen(s);
    GivenDiffer(s.m, s.g, |s.g.given| - 1);
    NextSlot(|s.g.given|, s.m.size, s.m.tail);
    OpenHasBlock(s.m, s.g, |s.g.given| - 1);
    OpenExists(s.g);
  }

  lemma OpenHasBlock<T>(m: Memory<T>, g: Shadow<T>, k: nat)
    requires OpenContents(m.blocks, g.given, g.cleared, m.size, g.history, g.moved, g.counted)
    requires IsOpen(k, g.given, g.cleared)
    ensures g.given[k] in m.blocks && |m.blocks[g.given[k]].elements| == m.size
  {
  }

  lemma OpenExists<T>(g: Shadow<T>)
    ensures forall j: nat :: IsOpen(j, g.given, g.cleared) ==> j < |g.given|
  {
  }

  lemma WrittenContents<T>(b: Block<T>, base: nat, size: nat, history: seq<T>, moved: seq<bool>, counted: seq<bool>,
                           e: T)
    requires Contents(b, base, size, history, moved, counted) && |history| < base + size
    ensures Contents(WithElement(b, |history| - base, Some(e)), base, size, history, moved, counted)
  {
  }

  lemma WrittenOpenContents<T>(m: Memory<T>, g: Shadow<T>, k: nat, e: T)
    requires OpenContents(m.blocks, g.given, g.cleared, m.size, g.history, g.moved, g.counted)
    requires IsOpen(k, g.given, g.cleared) && k * m.size <= |g.history| < k * m.size + m.size
    requires g.given[k] in m.blocks && |m.blocks[g.given[k]].elements| == m.size
    requires forall j: nat :: IsOpen(j, g.given, g.cleared) && j != k ==> g.given[j] != g.given[k]
    ensures
      var b := g.given[k];
      OpenContents(m.blocks[b := WithElement(m.blocks[b], |g.history| - k * m.size, Some(e))], g.given, g.cleared,
        m.size,
                   g.history, g.moved, g.counted)
  {
    hide Contents;
    WrittenContents(m.blocks[g.given[k]], k * m.size, m.size, g.history, g.moved, g.counted, e);
  }

  lemma WriterWrites<T>(m: Memory<T>, g: Shadow<T>, c: Choice)
    requires m.writer.Write? && CanProduce(m, c)
    requires WriterFits(m, g.place, g.given) && ProgressFits(m.size, m.tail, m.writer, |g.given|, |g.place|)
    ensures
      var m' := Produced(m, c);
      WriterFits(m', g.place, g.given) && ProgressFits(m.size, m.tail, m'.writer, |g.given|, |g.place|)
  {
    hide SlotIn, StartedFits;
  }

  lemma WriteKeeps<T>(s: State<T>, c: Choice)
    requires Inv(s) && s.m.writer.Write?
    ensures Enabled(s, Produce(c)) && Inv(Do(s, Produce(c)))
  {
    hide Counts, ClearedFit, Window, HeadersFit, TailFits, OpenEntries, OpenContents, Owned, Delivered, NoneForgotten,
      ReadersFit, WriterFits, ProgressFits, IsOpen, SlotIn;
    CanWrite(s);
    var m, g, k := s.m, s.g, |s.g.given| - 1;
    var s' := Do(s, Produce(c));
    var block := WithElement(m.blocks[m.tailBlock], SlotIn(m.tail, m.size), Some(m.writer.element));
    WriterWrites(m, g, c);
    WrittenOpenContents(m, g, k, m.writer.element);
    BlocksOwned(m, g, m.tailBlock, block);
    WriterOwned(m.(blocks := s'.m.blocks), g, s'.m.writer);
    ReadersIgnoreWriter(s, s');
  }

  // ----- Publishing it

  lemma PublishedContents<T>(b: Block<T>, base: nat, size: nat, history: seq<T>, moved: seq<bool>,
                             counted: seq<bool>, e: T)
    requires Contents(b, base, size, history, moved, counted)
    requires |history| < base + size ==> b.elements[|history| - base] == Some(e)
    ensures Contents(b, base, size, history + [e], moved + [false], counted + [false])
  {
    CountPrefix(counted, [false], base, End(base, size, |counted|));
  }

  lemma PublishedOpenContents<T>(m: Memory<T>, g: Shadow<T>, e: T)
    requires OpenContents(m.blocks, g.given, g.cleared, m.size, g.history, g.moved, g.counted) && g.given != []
    requires var k := |g.given| - 1; k * m.size <= |g.history| < k * m.size + m.size
    requires
      var k := |g.given| - 1;
      && g.given[k] in m.blocks && |m.blocks[g.given[k]].elements| == m.size
      && m.blocks[g.given[k]].elements[|g.history| - k * m.size] == Some(e)
    ensures OpenContents(m.blocks, g.given, g.cleared, m.size, g.history + [e], g.moved + [false], g.counted + [false])
  {
    hide Contents;
    forall j: nat | IsOpen(j, g.given, g.cleared)
      ensures Contents(m.blocks[g.given[j]], j * m.size, m.size,
                       g.history + [e], g.moved + [false], g.counted + [false])
    {
      if j < |g.given| - 1 {
        OlderEnds(j, |g.given| - 1, m.size);
      }
      PublishedContents(m.blocks[g.given[j]], j * m.size, m.size, g.history, g.moved, g.counted, e);
    }
  }

  lemma PublishedStaysCleared(cleared: set<nat>, low: nat, started: nat, counted: seq<bool>, size: nat)
    requires ClearedFit(cleared, low, started, counted, size)
    ensures ClearedFit(cleared, low, started, counted + [false], size)
  {
    forall k | k in cleared
      ensures k < started && AllDone(counted + [false], k, size)
    {
      assert AllDone(counted, k, size);
    }
  }

  lemma AllDonePublished(counted: seq<bool>, k: nat, size: nat)
    requires size > 0
    ensures AllDone(counted + [false], k, size) <==> AllDone(counted, k, size)
  {
    var counted' := counted + [false];
    if AllDone(counted', k, size) {
      assert !counted'[|counted|];
      assert forall i :: k * size <= i < k * size + size ==> counted'[i] == counted[i];
    }
  }

  lemma PublishedNotForgotten(readers: map<Thread, Reader>, takers: seq<Thread>, counted: seq<bool>,
                              given: seq<BlockId>,
                              cleared: set<nat>, last: map<nat, nat>, size: nat)
    requires NoneForgotten(readers, takers, counted, given, cleared, last, size) && |takers| <= |counted|
    ensures NoneForgotten(readers, takers, counted + [false], given, cleared, last, size)
  {
    forall k: nat
      ensures AllDone(counted + [false], k, size) <==> AllDone(counted, k, size)
    {
      AllDonePublished(counted, k, size);
    }
    hide AllDone, BlockNumber, IsOpen;
  }

  lemma PublishedCounts<T>(history: seq<T>, moved: seq<bool>, counted: seq<bool>, tail: nat, head: nat,
                           takers: seq<Thread>, e: T)
    requires Counts(history, moved, counted, tail, head, takers)
    ensures Counts(history + [e], moved + [false], counted + [false], tail + 1, head, takers)
  {
  }

  lemma PublishedDelivered<T>(got: seq<Delivery<T>>, history: seq<T>, moved: seq<bool>, e: T)
    requires Delivered(got, history, moved)
    ensures Delivered(got, history + [e], moved + [false])
  {
    var moved' := moved + [false];
    forall i | 0 <= i < |moved'| && moved'[i]
      ensures HasGot(got, i)
    {
      assert moved[i];
    }
  }

  lemma SameAfterPublish<T>(s: State<T>, s': State<T>, e: T, u: Thread)
    requires ReadersFit(s) && u in s.m.readers && s.m.size > 0
    requires s'.g == s.g.(history := s.g.history + [e], moved := s.g.moved + [false], counted := s.g.counted + [false])
    ensures SameFor(s, s', s.m.readers[u])
  {
    var r := s.m.readers[u];
    assert ReaderFits(s, u, r);
    if r.Clear? {
      AllDonePublished(s.g.counted, BlockNumber(r.i, s.m.size), s.m.size);
    }
    hide AllDone, BlockNumber;
  }

  lemma PublishIsLater<T>(s: State<T>, s': State<T>, e: T)
    requires Inv(s) && s'.m.size == s.m.size && s'.m.headers == s.m.headers
    requires s'.g == s.g.(history := s.g.history + [e], moved := s.g.moved + [false], counted := s.g.counted + [false])
    ensures Later(s, s')
  {
    hide ClearedFit, Window, TailFits, OpenEntries, OpenContents, Owned, Delivered, NoneForgotten, ReadersFit,
      WriterFits,
      Covers, EndsAt;
  }

  lemma PublishFits<T>(m: Memory<T>, g: Shadow<T>, c: Choice)
    requires m.writer.Publish? && |g.place| == |g.given|
    requires WriterFits(m, g.place, g.given) && ProgressFits(m.size, m.tail, m.writer, |g.given|, |g.place|)
    ensures CanProduce(m, c)
    ensures
      var m' := Produced(m, c);
      WriterFits(m', g.place, g.given) && ProgressFits(m.size, m'.tail, m'.writer, |g.given|, |g.place|)
    ensures m.tailBlock in m.blocks && SlotIn(m.tail, m.size) < |m.blocks[m.tailBlock].elements|
    ensures m.blocks[m.tailBlock].elements[SlotIn(m.tail, m.size)] == Some(m.writer.element)
  {
    hide SlotIn, StartedFits;
  }

  lemma PublishKeeps<T>(s: State<T>, c: Choice)
    requires Inv(s) && s.m.writer.Publish?
    ensures Enabled(s, Produce(c)) && Inv(Do(s, Produce(c)))
  {
    hide Counts, ClearedFit, Window, HeadersFit, TailFits, OpenEntries, OpenContents, Owned, Delivered, NoneForgotten,
      ReadersFit, WriterFits, ProgressFits, IsOpen, SlotIn, Later, SameFor;
    CanWrite(s);
    var m, g, e := s.m, s.g, s.m.writer.element;
    PublishFits(m, g, c);
    var s' := Do(s, Produce(c));
    CountsHaveTail(g.history, g.moved, g.counted, m.tail, m.head, g.takers);
    PublishedCounts(g.history, g.moved, g.counted, m.tail, m.head, g.takers, e);
    PublishedStaysCleared(g.cleared, g.low, |g.given|, g.counted, m.size);
    PublishedOpenContents(m, g, e);
    PublishedNotForgotten(m.readers, g.takers, g.counted, g.given, g.cleared, g.last, m.size);
    PublishedDelivered(g.got, g.history, g.moved, e);
    WriterOwned(m, g, s'.m.writer);
    PublishIsLater(s, s', e);
    forall u | u in m.readers
      ensures SameFor(s, s', m.readers[u])
    {
      SameAfterPublish(s, s', e, u);
    }
    AllReadersStay(s, s');
  }
}
