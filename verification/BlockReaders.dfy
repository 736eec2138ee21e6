/** The steps of the dequeuers of `BlockRaces`: each meets nothing but its own element, and keeps the invariant. */
module BlockReaders {
  import opened Options
  import opened Remainders
  import opened BlockIndexes
  import opened ImplicitProducers
  import opened BlockRaces

  // ----- What stays true of a dequeuer

  /** Headers, entries of blocks and claims are only added. */
  ghost predicate Later<T>(s: State<T>, s': State<T>) {
    && s'.m.size == s.m.size && |s.m.headers| <= |s'.m.headers| == |s'.g.origins| && |s.g.origins| == |s.m.headers|
    && (forall h :: 0 <= h < |s.m.headers| ==>
          && s'.g.origins[h] == s.g.origins[h] && |s'.m.headers[h].slots| == |s.m.headers[h].slots|
          && Limit(s.g.limits, |s.g.place|, h) <= Limit(s'.g.limits, |s'.g.place|, h))
    && s.g.takers <= s'.g.takers && s.g.place <= s'.g.place && s.g.given <= s'.g.given
    && |s'.g.takers| <= |s'.g.moved| == |s'.g.counted| && |s'.g.given| <= |s'.g.place|
  }

  /** The elements and the block that a dequeuer is concerned with are as before. */
  ghost predicate SameFor<T>(s: State<T>, s': State<T>, r: Reader) {
    r.Free? ||
    (&& r.i < |s.g.moved| && r.i < |s'.g.moved| && s'.g.moved[r.i] == s.g.moved[r.i]
     && r.i < |s.g.counted| && r.i < |s'.g.counted| && s'.g.counted[r.i] == s.g.counted[r.i]
     && s.m.size > 0
     && var k := BlockNumber(r.i, s.m.size);
        && k !in s'.g.cleared
        && (r.Clear? && k in s.g.last ==>
              AllDone(s'.g.counted, k, s.m.size) && k in s'.g.last && s'.g.last[k] == s.g.last[k]))
  }

  lemma ReaderStays<T>(s: State<T>, s': State<T>, t: Thread, r: Reader)
    requires ReaderFits(s, t, r) && Later(s, s') && SameFor(s, s', r)
    ensures ReaderFits(s', t, r)
  {
    hide AllDone, BlockNumber, Pos;
    if r.LoadKey? {
      var k, h := BlockNumber(r.i, s.m.size), r.h;
      var n :| k <= n < Limit(s.g.limits, |s.g.place|, h) && Pos(n, s.g.origins[h], |s.m.headers[h].slots|) == r.p;
      assert n < Limit(s'.g.limits, |s'.g.place|, h);
    }
  }

  lemma ReadersStay<T>(s: State<T>, s': State<T>, t: Thread)
    requires ReadersFit(s) && Later(s, s')
    requires forall u :: u in s'.m.readers && u != t ==> u in s.m.readers && s'.m.readers[u] == s.m.readers[u]
    requires forall u :: u in s.m.readers && u != t ==> SameFor(s, s', s.m.readers[u])
    requires t in s'.m.readers ==> ReaderFits(s', t, s'.m.readers[t])
    ensures ReadersFit(s')
  {
    hide ReaderFits, Later, SameFor;
    forall u | u in s'.m.readers && u != t
      ensures ReaderFits(s', u, s'.m.readers[u])
    {
      ReaderStays(s, s', u, s.m.readers[u]);
    }
  }

  /** Two dequeuers serve different indices. */
  lemma IndicesDiffer<T>(s: State<T>, t: Thread, u: Thread)
    requires ReadersFit(s) && t in s.m.readers && u in s.m.readers && t != u
    ensures !s.m.readers[t].Free? && !s.m.readers[u].Free? ==> s.m.readers[t].i != s.m.readers[u].i
  {
    assert ReaderFits(s, t, s.m.readers[t]) && ReaderFits(s, u, s.m.readers[u]);
  }

  lemma Unchanged<T>(s: State<T>, s': State<T>, t: Thread)
    requires ReadersFit(s) && t in s.m.readers
    requires s'.g.moved == s.g.moved && s'.g.counted == s.g.counted && s'.g.cleared == s.g.cleared
    requires s'.g.last == s.g.last
    ensures SameFor(s, s', s.m.readers[t])
  {
    assert ReaderFits(s, t, s.m.readers[t]);
  }

  lemma MovesOwned<T>(m: Memory<T>, g: Shadow<T>, t: Thread, r: Reader)
    requires Owned(m.blocks, m.nextBlock, m.size, g.owner, m.pool, g.given, g.cleared, m.writer, m.readers)
    requires t in m.readers ==> !m.readers[t].Free?
    requires !r.Free?
    ensures Owned(m.blocks, m.nextBlock, m.size, g.owner, m.pool, g.given, g.cleared, m.writer, m.readers[t := r])
    ensures Owned(m.blocks, m.nextBlock, m.size, g.owner, m.pool, g.given, g.cleared, m.writer, m.readers - {t})
  {
    hide IsOpen;
  }

  lemma BlocksOwned<T>(m: Memory<T>, g: Shadow<T>, b: BlockId, block: Block<T>)
    requires Owned(m.blocks, m.nextBlock, m.size, g.owner, m.pool, g.given, g.cleared, m.writer, m.readers)
    requires b in m.blocks && |block.elements| == m.size
    ensures Owned(m.blocks[b := block], m.nextBlock, m.size, g.owner, m.pool, g.given, g.cleared, m.writer, m.readers)
  {
    hide IsOpen, OwnerFits;
  }

  // ----- Steps of a dequeuer that only read

  lemma ReadKeeps<T>(s: State<T>, t: Thread, r: Reader)
    requires Inv(s) && t in s.m.readers && !s.m.readers[t].Free? && !s.m.readers[t].Clear?
    requires IndexOf(r) == IndexOf(s.m.readers[t]) && !r.Clear? && ReaderFits(s, t, r)
    ensures Inv(s.(m := Goto(s.m, t, r)))
  {
    hide Counts, ClearedFit, ProgressFits, Window, HeadersFit, TailFits, OpenEntries, OpenContents, Owned, Delivered,
      NoneForgotten, ReadersFit, ReaderFits, SameFor;
    var s' := s.(m := Goto(s.m, t, r));
    MovesOwned(s.m, s.g, t, r);
    StillNotForgotten(s.m.readers, s.g.takers, s.g.counted, s.g.given, s.g.cleared, s.g.last, s.m.size, t, r);
    LaterIfSame(s, s');
    assert ReaderFits(s', t, r) by { SameView(s, s', t, r); }
    forall u | u in s.m.readers && u != t
      ensures SameFor(s, s', s.m.readers[u])
    {
      Unchanged(s, s', u);
    }
    ReadersStay(s, s', t);
  }

  lemma StillNotForgotten(readers: map<Thread, Reader>, takers: seq<Thread>, counted: seq<bool>, given: seq<BlockId>,
                          cleared: set<nat>, last: map<nat, nat>, size: nat, t: Thread, r: Reader)
    requires NoneForgotten(readers, takers, counted, given, cleared, last, size)
    requires t in readers && IndexOf(r) == IndexOf(readers[t]) && !readers[t].Clear?
    ensures NoneForgotten(readers[t := r], takers, counted, given, cleared, last, size)
  {
    hide AllDone, BlockNumber, IsOpen;
  }

  lemma LaterIfSame<T>(s: State<T>, s': State<T>)
    requires Inv(s) && s'.g == s.g && s'.m.size == s.m.size && s'.m.headers == s.m.headers
    ensures Later(s, s')
  {
    hide ClearedFit, Window, TailFits, OpenEntries, OpenContents, Owned, Delivered, NoneForgotten, ReadersFit,
      WriterFits,
      Covers, EndsAt;
  }

  lemma SameView<T>(s: State<T>, s': State<T>, t: Thread, r: Reader)
    requires s'.g == s.g && s'.m.size == s.m.size && s'.m.headers == s.m.headers && ReaderFits(s, t, r)
    ensures ReaderFits(s', t, r)
  {
  }

  lemma LoadHeaderKeeps<T>(s: State<T>, t: Thread)
    requires Inv(s) && t in s.m.readers && s.m.readers[t].LoadHeader?
    ensures Enabled(s, Consume(t)) && Inv(Do(s, Consume(t)))
  {
    hide Inv;
    LatestHeaderIsIn(s, t);
    ReadKeeps(s, t, LoadTail(s.m.readers[t].i, |s.m.headers| - 1));
  }

  lemma LatestHeaderIsIn<T>(s: State<T>, t: Thread)
    requires Inv(s) && t in s.m.readers && s.m.readers[t].LoadHeader?
    ensures s.m.size > 0 && s.m.headers != [] && ReaderFits(s, t, LoadTail(s.m.readers[t].i, |s.m.headers| - 1))
  {
    hide Counts, ClearedFit, Window, OpenEntries, OpenContents, Owned, Delivered, NoneForgotten, WriterFits,
      BlockNumber;
    assert ReaderFits(s, t, s.m.readers[t]);
  }

  lemma InItsBlock(i: nat, size: nat)
    requires size > 0
    ensures BlockNumber(i, size) * size <= i < BlockNumber(i, size) * size + size
    ensures SlotIn(i, size) == i - BlockNumber(i, size) * size
  {
    assert i == (i / size) * size + i % size;
  }

  /** The tail of whatever header is the slot of the dequeuer's block or a later one. */
  lemma TailIsLater<T>(s: State<T>, t: Thread)
    requires Inv(s) && t in s.m.readers && s.m.readers[t].LoadTail?
    ensures
      var r := s.m.readers[t];
      s.m.size > 0 && r.h < |s.m.headers| && ReaderFits(s, t, LoadKey(r.i, r.h, s.m.headers[r.h].tail))
  {
    hide Counts, ClearedFit, Window, OpenEntries, OpenContents, Owned, Delivered, NoneForgotten, WriterFits,
      BlockNumber, Pos,
      Covers;
    var r := s.m.readers[t];
    assert ReaderFits(s, t, r);
    var k, h := BlockNumber(r.i, s.m.size), r.h;
    var newest := |s.g.given| + (if HasAdvanced(s.m.writer) then 1 else 0);
    var n: nat := (if h < |s.g.limits| then s.g.limits[h] else newest) - 1;
    assert k <= n < Limit(s.g.limits, |s.g.place|, h);
    assert h < |s.g.limits| ==> EndsAt(s.m.headers[h], s.g.origins[h], s.g.limits[h]);
    assert Pos(n, s.g.origins[h], |s.m.headers[h].slots|) == s.m.headers[h].tail;
  }

  lemma LoadTailKeeps<T>(s: State<T>, t: Thread)
    requires Inv(s) && t in s.m.readers && s.m.readers[t].LoadTail?
    ensures Enabled(s, Consume(t)) && Inv(Do(s, Consume(t)))
  {
    hide Inv;
    TailIsLater(s, t);
    var r := s.m.readers[t];
    ReadKeeps(s, t, LoadKey(r.i, r.h, s.m.headers[r.h].tail));
  }

  /** The key found there may be of any later block; it leads to the entry of the dequeuer's block. */
  lemma KeyLeadsHome<T>(s: State<T>, t: Thread)
    requires Inv(s) && t in s.m.readers && s.m.readers[t].LoadKey?
    ensures
      var r, m := s.m.readers[t], s.m;
      && CanConsume(m, r)
      && var slots := m.headers[r.h].slots;
         ReaderFits(s, t, LoadBlock(r.i, slots[PositionFrom(r.p, m.entries[slots[r.p]].key.value, m.size, |slots|,
           r.i)]))
  {
    hide Counts, ProgressFits, TailFits, OpenEntries, OpenContents, Owned, Delivered, NoneForgotten, WriterFits,
      BlockNumber,
      Pos, PositionFrom, AllDone, EndsAt, SlotIn;
    var r, m := s.m.readers[t], s.m;
    assert ReaderFits(s, t, r);
    var k, h := BlockNumber(r.i, m.size), r.h;
    var slots, limit := m.headers[h].slots, Limit(s.g.limits, |s.g.place|, h);
    var n :| k <= n < limit && Pos(n, s.g.origins[h], |slots|) == r.p;
    assert s.g.low <= k;
    assert Covers(m.headers[h], s.g.origins[h], limit, s.g.place, s.g.low, |m.entries|);
    assert slots[r.p] == s.g.place[n] && m.entries[slots[r.p]].key == Some(n * m.size);
    InItsBlock(r.i, m.size);
    PositionFromLater(n, k, r.i, s.g.origins[h], |slots|, m.size);
  }

  lemma LoadKeyKeeps<T>(s: State<T>, t: Thread)
    requires Inv(s) && t in s.m.readers && s.m.readers[t].LoadKey?
    ensures Enabled(s, Consume(t)) && Inv(Do(s, Consume(t)))
  {
    hide Inv, PositionFrom, ReaderFits;
    KeyLeadsHome(s, t);
    var r, m := s.m.readers[t], s.m;
    var slots := m.headers[r.h].slots;
    ReadKeeps(s, t, LoadBlock(r.i, slots[PositionFrom(r.p, m.entries[slots[r.p]].key.value, m.size, |slots|, r.i)]));
  }

  lemma EntryHasBlock<T>(s: State<T>, t: Thread)
    requires Inv(s) && t in s.m.readers && s.m.readers[t].LoadBlock?
    ensures
      var r, m := s.m.readers[t], s.m;
      m.size > 0 && CanConsume(m, r) && ReaderFits(s, t, MoveOut(r.i, r.x, m.entries[r.x].block.value))
  {
    hide Counts, ClearedFit, ProgressFits, TailFits, Window, HeadersFit, OpenContents, Owned, Delivered, NoneForgotten,
      WriterFits, BlockNumber, AllDone;
    var r := s.m.readers[t];
    assert ReaderFits(s, t, r);
    assert IsOpen(BlockNumber(r.i, s.m.size), s.g.given, s.g.cleared);
  }

  lemma LoadBlockKeeps<T>(s: State<T>, t: Thread)
    requires Inv(s) && t in s.m.readers && s.m.readers[t].LoadBlock?
    ensures Enabled(s, Consume(t)) && Inv(Do(s, Consume(t)))
  {
    hide Inv, ReaderFits;
    EntryHasBlock(s, t);
    var r := s.m.readers[t];
    ReadKeeps(s, t, MoveOut(r.i, r.x, s.m.entries[r.x].block.value));
  }

  // ----- Moving the element out

  lemma GivenDiffer<T>(m: Memory<T>, g: Shadow<T>, k: nat)
    requires Owned(m.blocks, m.nextBlock, m.size, g.owner, m.pool, g.given, g.cleared, m.writer, m.readers)
    requires IsOpen(k, g.given, g.cleared)
    ensures forall j: nat :: IsOpen(j, g.given, g.cleared) && j != k ==> g.given[j] != g.given[k]
  {
    hide OwnerFits;
  }

  lemma MovedContents<T>(b: Block<T>, base: nat, size: nat, history: seq<T>, moved: seq<bool>, counted: seq<bool>,
                         i: nat)
    requires Contents(b, base, size, history, moved, counted) && i < |history| && !moved[i]
    ensures base <= i < base + size ==>
      && b.elements[i - base] == Some(history[i])
      && Contents(WithElement(b, i - base, None), base, size, history, moved[i := true], counted)
    ensures !(base <= i < base + size) ==> Contents(b, base, size, history, moved[i := true], counted)
  {
    if base <= i < base + size {
      assert b.elements[i - base] == if moved[base + (i - base)] then None else Some(history[base + (i - base)]);
    }
  }

  lemma MovedOpenContents<T>(m: Memory<T>, g: Shadow<T>, i: nat, k: nat)
    requires OpenContents(m.blocks, g.given, g.cleared, m.size, g.history, g.moved, g.counted)
    requires IsOpen(k, g.given, g.cleared) && m.size > 0 && k == BlockNumber(i, m.size)
    requires |g.moved| == |g.history| && i < |g.moved| && !g.moved[i]
    requires forall j: nat :: IsOpen(j, g.given, g.cleared) && j != k ==> g.given[j] != g.given[k]
    ensures
      var b, slot := g.given[k], SlotIn(i, m.size);
      && b in m.blocks && slot < |m.blocks[b].elements| == m.size && m.blocks[b].elements[slot] == Some(g.history[i])
      && OpenContents(m.blocks[b := WithElement(m.blocks[b], slot, None)], g.given, g.cleared, m.size, g.history,
                      g.moved[i := true], g.counted)
  {
    hide Contents, BlockNumber, SlotIn;
    InItsBlock(i, m.size);
    ContentsHaveSize(m.blocks[g.given[k]], k * m.size, m.size, g.history, g.moved, g.counted);
    forall j: nat | IsOpen(j, g.given, g.cleared)
      ensures g.given[j] in m.blocks
      ensures j == k ==> Contents(m.blocks[g.given[j]], j * m.size, m.size, g.history, g.moved, g.counted)
      ensures j != k ==> Contents(m.blocks[g.given[j]], j * m.size, m.size, g.history, g.moved[i := true], g.counted)
    {
      if j != k {
        BlocksDisjoint(j, k, m.size, i);
        MovedContents(m.blocks[g.given[j]], j * m.size, m.size, g.history, g.moved, g.counted, i);
      }
    }
    MovedContents(m.blocks[g.given[k]], k * m.size, m.size, g.history, g.moved, g.counted, i);
  }

  lemma ContentsHaveSize<T>(b: Block<T>, base: nat, size: nat, history: seq<T>, moved: seq<bool>, counted: seq<bool>)
    requires Contents(b, base, size, history, moved, counted)
    ensures |b.elements| == size
  {
  }

  /** The enqueuer is not disturbed by an element leaving the slot of an older index. */
  lemma WriterUndisturbed<T>(m: Memory<T>, g: Shadow<T>, i: nat, k: nat, block: Block<T>)
    requires WriterFits(m, g.place, g.given) && ProgressFits(m.size, m.tail, m.writer, |g.given|, |g.place|)
    requires Owned(m.blocks, m.nextBlock, m.size, g.owner, m.pool, g.given, g.cleared, m.writer, m.readers)
    requires IsOpen(k, g.given, g.cleared) && i < m.tail && k == BlockNumber(i, m.size) && g.given[k] in m.blocks
    requires |block.elements| == m.size
    requires forall j :: 0 <= j < m.size && j != SlotIn(i, m.size) ==>
      block.elements[j] == m.blocks[g.given[k]].elements[j]
    requires forall j: nat :: IsOpen(j, g.given, g.cleared) && j != k ==> g.given[j] != g.given[k]
    requires IsWriting(m.writer) ==> |g.given| - 1 !in g.cleared
    ensures WriterFits(m.(blocks := m.blocks[g.given[k] := block]), g.place, g.given)
  {
    hide OwnerFits, SlotIn, BlockNumber;
    if m.writer.Publish? && m.tailBlock == g.given[k] {
      var last := |g.given| - 1;
      assert IsOpen(last, g.given, g.cleared);
      assert k == last;
      InItsBlock(i, m.size);
      NextSlot(|g.given|, m.size, m.tail);
    }
  }

  lemma TailBlockIsOpen<T>(s: State<T>)
    requires Inv(s) && (SlotIn(s.m.tail, s.m.size) != 0 || IsWriting(s.m.writer))
    ensures s.g.given != [] && IsOpen(|s.g.given| - 1, s.g.given, s.g.cleared)
  {
    hide Window, HeadersFit, TailFits, OpenEntries, OpenContents, Owned, Delivered, NoneForgotten, ReadersFit, SlotIn;
    var k := |s.g.given| - 1;
    if !IsWriting(s.m.writer) {
      StartedAt(|s.g.given|, s.m.size, s.m.tail);
    }
    assert k * s.m.size + s.m.size == |s.g.given| * s.m.size;
  }

  lemma DeliveredMore<T>(got: seq<Delivery<T>>, history: seq<T>, moved: seq<bool>, i: nat)
    requires Delivered(got, history, moved) && i < |moved| && !moved[i]
    ensures Delivered(got + [Delivery(i, history[i])], history, moved[i := true])
  {
    var more, moved' := got + [Delivery(i, history[i])], moved[i := true];
    forall j | 0 <= j < |moved'| && moved'[j]
      ensures HasGot(more, j)
    {
      if j == i {
        assert more[|got|].index == j;
      } else {
        assert HasGot(got, j);
        var d :| 0 <= d < |got| && got[d].index == j;
        assert more[d].index == j;
      }
    }
  }

  lemma CanMoveOut<T>(s: State<T>, t: Thread)
    requires Inv(s) && t in s.m.readers && s.m.readers[t].MoveOut?
    ensures
      var r, m := s.m.readers[t], s.m;
      && m.size > 0 && r.i < |s.g.takers| && r.i < |s.g.moved| && !s.g.moved[r.i]
      && var k := BlockNumber(r.i, m.size);
         && IsOpen(k, s.g.given, s.g.cleared) && r.b == s.g.given[k]
         && (forall j: nat :: IsOpen(j, s.g.given, s.g.cleared) && j != k ==> s.g.given[j] != s.g.given[k])
  {
    hide ClearedFit, ProgressFits, Window, HeadersFit, TailFits, OpenEntries, OpenContents, Owned, Delivered,
      NoneForgotten, WriterFits;
    assert ReaderFits(s, t, s.m.readers[t]);
    GivenDiffer(s.m, s.g, BlockNumber(s.m.readers[t].i, s.m.size));
  }

  lemma CountsMoved<T>(history: seq<T>, moved: seq<bool>, counted: seq<bool>, tail: nat, head: nat,
                       takers: seq<Thread>, i: nat)
    requires Counts(history, moved, counted, tail, head, takers) && i < |takers|
    ensures i < tail && |moved| == |counted| == |history| == tail
    ensures Counts(history, moved[i := true], counted, tail, head, takers)
    ensures moved[i] ==> Counts(history, moved, counted[i := true], tail, head, takers)
  {
  }

  /** Elements are marked, and nothing else that dequeuers depend on changes. */
  ghost predicate Marks<T>(s: State<T>, s': State<T>, i: nat) {
    && s'.m.size == s.m.size && s'.m.headers == s.m.headers && i < |s.g.moved| == |s.g.counted|
    && (s'.g.moved == s.g.moved || s'.g.moved == s.g.moved[i := true])
    && (s'.g.counted == s.g.counted || s'.g.counted == s.g.counted[i := true])
    && s'.g.cleared == s.g.cleared && s'.g.takers == s.g.takers && s'.g.place == s.g.place && s'.g.given == s.g.given
    && s'.g.origins == s.g.origins && s'.g.limits == s.g.limits
  }

  lemma LaterIfMarked<T>(s: State<T>, s': State<T>, i: nat)
    requires Inv(s) && Marks(s, s', i)
    ensures Later(s, s')
  {
    hide ClearedFit, Window, TailFits, OpenEntries, OpenContents, Owned, Delivered, NoneForgotten, ReadersFit,
      WriterFits,
      Covers, EndsAt;
  }

  lemma OthersSame<T>(s: State<T>, s': State<T>, t: Thread, u: Thread)
    requires ReadersFit(s) && t in s.m.readers && u in s.m.readers && t != u && !s.m.readers[t].Free?
    requires Marks(s, s', s.m.readers[t].i) && s.m.size > 0
    requires s.m.readers[u].Clear? ==>
      var k := BlockNumber(s.m.readers[u].i, s.m.size); k in s.g.last ==> k in s'.g.last && s'.g.last[k] == s.g.last[k]
    ensures SameFor(s, s', s.m.readers[u])
  {
    hide BlockNumber, AllDone, Marks, ReaderFits, ReadersFit, Serves;
    IndicesDiffer(s, t, u);
    if !s.m.readers[u].Free? {
      ReaderKnows(s, u);
      MarksSpare(s, s', s.m.readers[t].i, s.m.readers[u].i, BlockNumber(s.m.readers[u].i, s.m.size));
    }
  }

  lemma ReaderKnows<T>(s: State<T>, u: Thread)
    requires ReadersFit(s) && u in s.m.readers && !s.m.readers[u].Free?
    ensures
      var r := s.m.readers[u];
      && s.m.size > 0 && r.i < |s.g.moved| == |s.g.counted| && BlockNumber(r.i, s.m.size) !in s.g.cleared
      && (r.Clear? ==> AllDone(s.g.counted, BlockNumber(r.i, s.m.size), s.m.size))
  {
    hide AllDone, BlockNumber;
    assert ReaderFits(s, u, s.m.readers[u]);
  }

  lemma MarksSpare<T>(s: State<T>, s': State<T>, i: nat, j: nat, k: nat)
    requires Marks(s, s', i) && j != i && j < |s.g.moved|
    ensures |s'.g.moved| == |s.g.moved| && s'.g.moved[j] == s.g.moved[j]
    ensures |s'.g.counted| == |s.g.counted| == |s.g.moved| && s'.g.counted[j] == s.g.counted[j]
    ensures s'.g.cleared == s.g.cleared && s'.m.size == s.m.size
    ensures AllDone(s.g.counted, k, s.m.size) ==> AllDone(s'.g.counted, k, s.m.size)
  {
  }

  lemma MovedReaderFits<T>(s: State<T>, s': State<T>, t: Thread)
    requires ReadersFit(s) && t in s.m.readers && s.m.readers[t].MoveOut?
    requires Marks(s, s', s.m.readers[t].i) && s'.g.moved == s.g.moved[s.m.readers[t].i := true]
    requires s'.g.counted == s.g.counted
    ensures var r := s.m.readers[t]; ReaderFits(s', t, Count(r.i, r.x, r.b))
  {
    hide BlockNumber;
    assert ReaderFits(s, t, s.m.readers[t]);
  }

  lemma MoveOutKeeps<T>(s: State<T>, t: Thread)
    requires Inv(s) && t in s.m.readers && s.m.readers[t].MoveOut?
    ensures Enabled(s, Consume(t)) && Inv(Do(s, Consume(t)))
  {
    hide Counts, ClearedFit, ProgressFits, Window, HeadersFit, TailFits, OpenEntries, OpenContents, Owned, Delivered,
      NoneForgotten, ReadersFit, ReaderFits, SameFor, WriterFits, Later, Serves, SlotIn, BlockNumber, IsOpen;
    CanMoveOut(s, t);
    var r, m, g := s.m.readers[t], s.m, s.g;
    var i, k := r.i, BlockNumber(r.i, m.size);
    CountsMoved(g.history, g.moved, g.counted, m.tail, m.head, g.takers, i);
    MovedOpenContents(m, g, i, k);
    var s', block := Do(s, Consume(t)), WithElement(m.blocks[r.b], SlotIn(i, m.size), None);
    DeliveredMore(g.got, g.history, g.moved, i);
    if IsWriting(m.writer) {
      TailBlockIsOpen(s);
      OpenIsNotCleared(|g.given| - 1, g.given, g.cleared);
    }
    WriterUndisturbed(m, g, i, k, block);
    WriterIgnoresReaders(m.(blocks := s'.m.blocks), s'.m, g.place, g.given);
    BlocksOwned(m, g, r.b, block);
    MovesOwned(m.(blocks := s'.m.blocks), g, t, Count(i, r.x, r.b));
    StillNotForgotten(m.readers, g.takers, g.counted, g.given, g.cleared, g.last, m.size, t, Count(i, r.x, r.b));
    LaterIfMarked(s, s', i);
    MovedReaderFits(s, s', t);
    forall u | u in m.readers && u != t
      ensures SameFor(s, s', m.readers[u])
    {
      OthersSame(s, s', t, u);
    }
    ReadersStay(s, s', t);
  }

  lemma OpenIsNotCleared(k: nat, given: seq<BlockId>, cleared: set<nat>)
    requires IsOpen(k, given, cleared)
    ensures k < |given| && k !in cleared
  {
  }

  lemma WriterIgnoresReaders<T>(m: Memory<T>, m': Memory<T>, place: seq<nat>, given: seq<BlockId>)
    requires WriterFits(m, place, given) && m' == m.(readers := m'.readers, head := m'.head)
    ensures WriterFits(m', place, given)
  {
  }

  // ----- Counting the element

  lemma AllDoneOfOther(counted: seq<bool>, i: nat, k: nat, j: nat, size: nat)
    requires i < |counted| && !counted[i] && k * size <= i < k * size + size
    ensures j != k ==> (AllDone(counted[i := true], j, size) <==> AllDone(counted, j, size))
    ensures !AllDone(counted, k, size)
  {
    if j != k {
      BlocksDisjoint(j, k, size, i);
      var counted' := counted[i := true];
      if AllDone(counted', j, size) {
        assert forall x :: j * size <= x < j * size + size ==> counted[x] == counted'[x];
      }
    }
  }

  lemma CountedContents<T>(b: Block<T>, k: nat, j: nat, size: nat, history: seq<T>, moved: seq<bool>,
                           counted: seq<bool>, i: nat)
    requires Contents(b, j * size, size, history, moved, counted) && i < |counted| && !counted[i]
    requires k * size <= i < k * size + size
    ensures j != k ==> Contents(b, j * size, size, history, moved, counted[i := true])
    ensures j == k ==> Contents(b.(completed := b.completed + 1), j * size, size, history, moved, counted[i := true])
    ensures j == k ==> (b.completed + 1 == size <==> AllDone(counted[i := true], k, size))
  {
    var base, counted' := j * size, counted[i := true];
    CountMarked(counted, base, End(base, size, |counted|), i);
    if j != k {
      BlocksDisjoint(j, k, size, i);
    } else {
      CountAllDone(counted', base, End(base, size, |counted|));
    }
  }

  lemma CountedOpenContents<T>(m: Memory<T>, g: Shadow<T>, i: nat, k: nat)
    requires OpenContents(m.blocks, g.given, g.cleared, m.size, g.history, g.moved, g.counted)
    requires IsOpen(k, g.given, g.cleared) && m.size > 0 && k == BlockNumber(i, m.size)
    requires i < |g.counted| && !g.counted[i]
    requires forall j: nat :: IsOpen(j, g.given, g.cleared) && j != k ==> g.given[j] != g.given[k]
    ensures
      var b := g.given[k];
      && b in m.blocks && |m.blocks[b].elements| == m.size
      && var block := m.blocks[b].(completed := m.blocks[b].completed + 1);
         && (block.completed == m.size <==> AllDone(g.counted[i := true], k, m.size))
         && OpenContents(m.blocks[b := block], g.given, g.cleared, m.size, g.history, g.moved, g.counted[i := true])
  {
    hide Contents, BlockNumber, AllDone;
    InItsBlock(i, m.size);
    ContentsHaveSize(m.blocks[g.given[k]], k * m.size, m.size, g.history, g.moved, g.counted);
    forall j: nat | IsOpen(j, g.given, g.cleared)
      ensures g.given[j] in m.blocks
      ensures j == k ==> Contents(m.blocks[g.given[j]], j * m.size, m.size, g.history, g.moved, g.counted)
      ensures j != k ==> Contents(m.blocks[g.given[j]], j * m.size, m.size, g.history, g.moved, g.counted[i := true])
    {
      CountedContents(m.blocks[g.given[j]], k, j, m.size, g.history, g.moved, g.counted, i);
    }
    CountedContents(m.blocks[g.given[k]], k, k, m.size, g.history, g.moved, g.counted, i);
  }

  lemma CountedStaysCleared(cleared: set<nat>, low: nat, started: nat, counted: seq<bool>, size: nat, i: nat)
    requires ClearedFit(cleared, low, started, counted, size) && i < |counted|
    ensures ClearedFit(cleared, low, started, counted[i := true], size)
  {
  }

  lemma WriterCounted<T>(m: Memory<T>, g: Shadow<T>, k: nat, block: Block<T>)
    requires WriterFits(m, g.place, g.given)
    requires Owned(m.blocks, m.nextBlock, m.size, g.owner, m.pool, g.given, g.cleared, m.writer, m.readers)
    requires IsOpen(k, g.given, g.cleared) && g.given[k] in m.blocks && block.elements == m.blocks[g.given[k]].elements
    ensures WriterFits(m.(blocks := m.blocks[g.given[k] := block]), g.place, g.given)
  {
    hide OwnerFits, SlotIn;
  }

  lemma CountedNotForgotten(readers: map<Thread, Reader>, takers: seq<Thread>, counted: seq<bool>, given: seq<BlockId>,
                            cleared: set<nat>, last: map<nat, nat>, size: nat, t: Thread, i: nat)
    requires NoneForgotten(readers, takers, counted, given, cleared, last, size)
    requires t in readers && readers[t].Count? && readers[t].i == i && i < |takers| && takers[i] == t
    requires i < |counted| && !counted[i]
    ensures
      var k, counted' := BlockNumber(i, size), counted[i := true];
      if AllDone(counted', k, size) then
        NoneForgotten(readers[t := Clear(i, readers[t].x, readers[t].b)], takers, counted', given, cleared,
          last[k := i], size)
      else NoneForgotten(readers - {t}, takers, counted', given, cleared, last, size)
  {
    var k, counted' := BlockNumber(i, size), counted[i := true];
    InItsBlock(i, size);
    hide AllDone, BlockNumber, IsOpen;
    forall j: nat | j != k
      ensures AllDone(counted', j, size) <==> AllDone(counted, j, size)
    {
      AllDoneOfOther(counted, i, k, j, size);
    }
  }

  lemma CanCount<T>(s: State<T>, t: Thread)
    requires Inv(s) && t in s.m.readers && s.m.readers[t].Count?
    ensures
      var r, m := s.m.readers[t], s.m;
      && m.size > 0 && r.i < |s.g.takers| && s.g.takers[r.i] == t
      && r.i < |s.g.moved| == |s.g.counted| && s.g.moved[r.i] && !s.g.counted[r.i]
      && var k := BlockNumber(r.i, m.size);
         && IsOpen(k, s.g.given, s.g.cleared) && r.b == s.g.given[k]
         && (forall j: nat :: IsOpen(j, s.g.given, s.g.cleared) && j != k ==> s.g.given[j] != s.g.given[k])
  {
    hide ClearedFit, ProgressFits, Window, HeadersFit, TailFits, OpenEntries, OpenContents, Owned, Delivered,
      NoneForgotten, WriterFits;
    assert ReaderFits(s, t, s.m.readers[t]);
    GivenDiffer(s.m, s.g, BlockNumber(s.m.readers[t].i, s.m.size));
  }

  lemma CountedReaderFits<T>(s: State<T>, s': State<T>, t: Thread)
    requires ReadersFit(s) && t in s.m.readers && s.m.readers[t].Count?
    requires Marks(s, s', s.m.readers[t].i) && s'.g.counted == s.g.counted[s.m.readers[t].i := true]
    requires s'.g.moved == s.g.moved
    requires s.m.size > 0
    requires
      var i := s.m.readers[t].i; var k := BlockNumber(i, s.m.size);
      AllDone(s'.g.counted, k, s.m.size) && k in s'.g.last && s'.g.last[k] == i
    ensures var r := s.m.readers[t]; ReaderFits(s', t, Clear(r.i, r.x, r.b))
  {
    hide BlockNumber, AllDone;
    assert ReaderFits(s, t, s.m.readers[t]);
  }

  /** Nobody else can be at the end of a block that still has an element to count. */
  lemma LastIsKept<T>(s: State<T>, s': State<T>, t: Thread, u: Thread)
    requires ReadersFit(s) && t in s.m.readers && u in s.m.readers && s.m.readers[t].Count? && s.m.readers[u].Clear?
    requires s.m.size > 0
    requires s'.g.last == s.g.last || s'.g.last == s.g.last[BlockNumber(s.m.readers[t].i, s.m.size) := s.m.readers[t].i]
    ensures
      var k := BlockNumber(s.m.readers[u].i, s.m.size); k in s.g.last ==> k in s'.g.last && s'.g.last[k] == s.g.last[k]
  {
    assert ReaderFits(s, t, s.m.readers[t]) && ReaderFits(s, u, s.m.readers[u]);
    InItsBlock(s.m.readers[t].i, s.m.size);
    hide BlockNumber;
  }

  lemma CountKeeps<T>(s: State<T>, t: Thread)
    requires Inv(s) && t in s.m.readers && s.m.readers[t].Count?
    ensures Enabled(s, Consume(t)) && Inv(Do(s, Consume(t)))
  {
    hide Counts, ClearedFit, ProgressFits, Window, HeadersFit, TailFits, OpenEntries, OpenContents, Owned, Delivered,
      NoneForgotten, ReadersFit, ReaderFits, SameFor, WriterFits, Later, SlotIn, BlockNumber, IsOpen, AllDone;
    CanCount(s, t);
    var r, m, g := s.m.readers[t], s.m, s.g;
    var i, k := r.i, BlockNumber(r.i, m.size);
    CountsMoved(g.history, g.moved, g.counted, m.tail, m.head, g.takers, i);
    CountedOpenContents(m, g, i, k);
    CountedStaysCleared(g.cleared, g.low, |g.given|, g.counted, m.size, i);
    var s', block := Do(s, Consume(t)), m.blocks[r.b].(completed := m.blocks[r.b].completed + 1);
    WriterCounted(m, g, k, block);
    WriterIgnoresReaders(m.(blocks := s'.m.blocks), s'.m, g.place, g.given);
    BlocksOwned(m, g, r.b, block);
    MovesOwned(m.(blocks := s'.m.blocks), g, t, Clear(i, r.x, r.b));
    CountedNotForgotten(m.readers, g.takers, g.counted, g.given, g.cleared, g.last, m.size, t, i);
    LaterIfMarked(s, s', i);
    if block.completed == m.size {
      CountedReaderFits(s, s', t);
    }
    forall u | u in m.readers && u != t
      ensures SameFor(s, s', m.readers[u])
    {
      if m.readers[u].Clear? {
        LastIsKept(s, s', t, u);
      }
      OthersSame(s, s', t, u);
    }
    ReadersStay(s, s', t);
  }

  // ----- Clearing the entry of a finished block

  lemma CanClear<T>(s: State<T>, t: Thread)
    requires Inv(s) && t in s.m.readers && s.m.readers[t].Clear?
    ensures
      var r, m, g := s.m.readers[t], s.m, s.g;
      && m.size > 0 && r.i < |g.takers| && g.takers[r.i] == t && r.i < |g.counted| && g.counted[r.i]
      && var k := BlockNumber(r.i, m.size);
         && IsOpen(k, g.given, g.cleared) && r.b == g.given[k]
         && k < |g.place| && r.x == g.place[k] && r.x < |m.entries|
         && AllDone(g.counted, k, m.size) && k in g.last && g.last[k] == r.i && g.low <= k && g.low <= |g.given|
  {
    hide ProgressFits, Window, HeadersFit, TailFits, OpenContents, Owned, Delivered, NoneForgotten, WriterFits, AllDone;
    assert ReaderFits(s, t, s.m.readers[t]);
  }

  lemma ClearedOneMore(cleared: set<nat>, low: nat, started: nat, counted: seq<bool>, size: nat, k: nat)
    requires ClearedFit(cleared, low, started, counted, size) && k < started && AllDone(counted, k, size)
    ensures ClearedFit(cleared + {k}, Lowest(cleared + {k}, low, started), started, counted, size)
  {
    hide AllDone;
  }

  lemma WindowNarrows(entries: seq<Entry>, place: seq<nat>, low: nat, size: nat, x: nat, low': nat)
    requires Window(entries, place, low, size) && low <= low' && x < |entries|
    ensures Window(entries[x := entries[x].(block := None)], place, low', size)
  {
  }

  lemma HeadersNarrow(headers: seq<Header>, origins: seq<int>, limits: seq<nat>, place: seq<nat>, low: nat,
                      entries: nat, low': nat)
    requires HeadersFit(headers, origins, limits, place, low, entries) && low <= low'
    ensures HeadersFit(headers, origins, limits, place, low', entries)
  {
    hide EndsAt, Pos, Limit;
  }

  lemma OthersKeepBlocks(entries: seq<Entry>, place: seq<nat>, given: seq<BlockId>, cleared: set<nat>, low: nat,
                         size: nat, k: nat)
    requires OpenEntries(entries, place, given, cleared) && Window(entries, place, low, size)
    requires forall j :: 0 <= j < low ==> j in cleared
    requires IsOpen(k, given, cleared)
    ensures place[k] < |entries|
    ensures OpenEntries(entries[place[k] := entries[place[k]].(block := None)], place, given, cleared + {k})
  {
    forall j: nat | IsOpen(j, given, cleared + {k})
      ensures IsOpen(j, given, cleared) && j < |place| && place[j] != place[k]
    {
      assert IsOpen(j, given, cleared);
    }
  }

  lemma FewerOpenContents<T>(m: Memory<T>, g: Shadow<T>, k: nat)
    requires OpenContents(m.blocks, g.given, g.cleared, m.size, g.history, g.moved, g.counted)
    ensures OpenContents(m.blocks, g.given, g.cleared + {k}, m.size, g.history, g.moved, g.counted)
  {
    hide Contents;
    assert forall j: nat :: IsOpen(j, g.given, g.cleared + {k}) ==> IsOpen(j, g.given, g.cleared);
  }

  lemma ClearOwned<T>(m: Memory<T>, g: Shadow<T>, t: Thread, k: nat)
    requires Owned(m.blocks, m.nextBlock, m.size, g.owner, m.pool, g.given, g.cleared, m.writer, m.readers)
    requires IsOpen(k, g.given, g.cleared) && t in m.readers && !m.readers[t].Free?
    ensures
      var b := g.given[k];
      Owned(m.blocks, m.nextBlock, m.size, g.owner[b := WithReader(t)], m.pool, g.given, g.cleared + {k}, m.writer,
            m.readers[t := Free(b)])
  {
    var b, cleared' := g.given[k], g.cleared + {k};
    GivenDiffer(m, g, k);
    assert forall j: nat :: IsOpen(j, g.given, cleared') <==> IsOpen(j, g.given, g.cleared) && j != k;
    hide IsOpen;
    forall a | a in g.owner && a != b
      ensures OwnerFits(a, g.owner[a], m.pool, g.given, cleared', m.writer, m.readers[t := Free(b)])
    {
      assert OwnerFits(a, g.owner[a], m.pool, g.given, g.cleared, m.writer, m.readers);
    }
  }

  lemma WriterSeesClear<T>(m: Memory<T>, g: Shadow<T>, x: nat)
    requires WriterFits(m, g.place, g.given) && x < |m.entries|
    ensures WriterFits(m.(entries := m.entries[x := m.entries[x].(block := None)]), g.place, g.given)
  {
    hide SlotIn;
  }

  lemma ClearNotForgotten(readers: map<Thread, Reader>, takers: seq<Thread>, counted: seq<bool>, given: seq<BlockId>,
                          cleared: set<nat>, last: map<nat, nat>, size: nat, t: Thread, b: BlockId)
    requires NoneForgotten(readers, takers, counted, given, cleared, last, size)
    requires t in readers && readers[t].Clear? && readers[t].i < |counted| && counted[readers[t].i]
    ensures NoneForgotten(readers[t := Free(b)], takers, counted, given, cleared + {BlockNumber(readers[t].i, size)},
      last, size)
  {
    var k := BlockNumber(readers[t].i, size);
    assert forall j: nat :: IsOpen(j, given, cleared + {k}) ==> IsOpen(j, given, cleared) && j != k;
    hide AllDone, BlockNumber, IsOpen;
  }

  /** Of a finished block only one dequeuer is left. */
  lemma OthersElsewhere<T>(s: State<T>, t: Thread, u: Thread)
    requires ReadersFit(s) && t in s.m.readers && u in s.m.readers && t != u && s.m.readers[t].Clear?
    requires s.m.size > 0 && !s.m.readers[u].Free?
    ensures BlockNumber(s.m.readers[u].i, s.m.size) != BlockNumber(s.m.readers[t].i, s.m.size)
  {
    assert ReaderFits(s, t, s.m.readers[t]) && ReaderFits(s, u, s.m.readers[u]);
    InItsBlock(s.m.readers[u].i, s.m.size);
    hide BlockNumber;
  }

  lemma SameIfElsewhere<T>(s: State<T>, s': State<T>, u: Thread, k: nat)
    requires ReadersFit(s) && u in s.m.readers && s.m.size > 0
    requires !s.m.readers[u].Free? ==> BlockNumber(s.m.readers[u].i, s.m.size) != k
    requires s'.g.moved == s.g.moved && s'.g.counted == s.g.counted && s'.g.cleared == s.g.cleared + {k}
    requires s'.g.last == s.g.last
    ensures SameFor(s, s', s.m.readers[u])
  {
    hide BlockNumber;
    assert ReaderFits(s, u, s.m.readers[u]);
  }

  lemma LaterIfCleared<T>(s: State<T>, s': State<T>)
    requires Inv(s) && s'.m.size == s.m.size && s'.m.headers == s.m.headers
    requires s'.g == s.g.(cleared := s'.g.cleared, low := s'.g.low, owner := s'.g.owner)
    ensures Later(s, s')
  {
    hide ClearedFit, Window, TailFits, OpenEntries, OpenContents, Owned, Delivered, NoneForgotten, ReadersFit,
      WriterFits,
      Covers, EndsAt;
  }

  lemma AllBelowAreCleared(cleared: set<nat>, low: nat, started: nat, counted: seq<bool>, size: nat)
    requires ClearedFit(cleared, low, started, counted, size)
    ensures forall k :: 0 <= k < low ==> k in cleared
  {
  }

  lemma ClearKeeps<T>(s: State<T>, t: Thread)
    requires Inv(s) && t in s.m.readers && s.m.readers[t].Clear?
    ensures Enabled(s, Consume(t)) && Inv(Do(s, Consume(t)))
  {
    hide Counts, ClearedFit, ProgressFits, Window, HeadersFit, TailFits, OpenEntries, OpenContents, Owned, Delivered,
      NoneForgotten, ReadersFit, ReaderFits, SameFor, WriterFits, Later, SlotIn, BlockNumber, AllDone, Lowest;
    CanClear(s, t);
    var r, m, g := s.m.readers[t], s.m, s.g;
    var k := BlockNumber(r.i, m.size);
    var s' := Do(s, Consume(t));
    ClearedOneMore(g.cleared, g.low, |g.given|, g.counted, m.size, k);
    AllBelowAreCleared(g.cleared, g.low, |g.given|, g.counted, m.size);
    WindowNarrows(m.entries, g.place, g.low, m.size, r.x, s'.g.low);
    HeadersNarrow(m.headers, g.origins, g.limits, g.place, g.low, |m.entries|, s'.g.low);
    OthersKeepBlocks(m.entries, g.place, g.given, g.cleared, g.low, m.size, k);
    FewerOpenContents(m, g, k);
    ClearOwned(m, g, t, k);
    WriterSeesClear(m, g, r.x);
    WriterIgnoresReaders(m.(entries := s'.m.entries), s'.m, g.place, g.given);
    ClearNotForgotten(m.readers, g.takers, g.counted, g.given, g.cleared, g.last, m.size, t, r.b);
    LaterIfCleared(s, s');
    FreeFits(s', t, r.b);
    forall u | u in m.readers && u != t
      ensures SameFor(s, s', m.readers[u])
    {
      if !m.readers[u].Free? {
        OthersElsewhere(s, t, u);
      }
      SameIfElsewhere(s, s', u, k);
    }
    ReadersStay(s, s', t);
  }

  lemma FreeFits<T>(s: State<T>, t: Thread, b: BlockId)
    ensures ReaderFits(s, t, Free(b))
  {
  }

  // ----- Giving the block back

  lemma FreeOwned<T>(m: Memory<T>, g: Shadow<T>, t: Thread)
    requires Owned(m.blocks, m.nextBlock, m.size, g.owner, m.pool, g.given, g.cleared, m.writer, m.readers)
    requires t in m.readers && m.readers[t].Free?
    ensures
      var b := m.readers[t].b;
      Owned(m.blocks, m.nextBlock, m.size, g.owner[b := Pooled], m.pool + {b}, g.given, g.cleared, m.writer,
        m.readers - {t})
  {
    hide IsOpen;
    var b, readers' := m.readers[t].b, m.readers - {t};
    forall a | a in g.owner && a != b
      ensures OwnerFits(a, g.owner[a], m.pool + {b}, g.given, g.cleared, m.writer, readers')
    {
      assert OwnerFits(a, g.owner[a], m.pool, g.given, g.cleared, m.writer, m.readers);
    }
  }

  lemma FreeNotForgotten(readers: map<Thread, Reader>, takers: seq<Thread>, counted: seq<bool>, given: seq<BlockId>,
                         cleared: set<nat>, last: map<nat, nat>, size: nat, t: Thread)
    requires NoneForgotten(readers, takers, counted, given, cleared, last, size)
    requires t in readers && readers[t].Free?
    ensures NoneForgotten(readers - {t}, takers, counted, given, cleared, last, size)
  {
    hide AllDone, BlockNumber, IsOpen;
  }

  lemma BlocksHaveSize<T>(s: State<T>)
    requires Inv(s)
    ensures s.m.size > 0
  {
  }

  lemma FreeKeeps<T>(s: State<T>, t: Thread)
    requires Inv(s) && t in s.m.readers && s.m.readers[t].Free?
    ensures Enabled(s, Consume(t)) && Inv(Do(s, Consume(t)))
  {
    hide Counts, ClearedFit, ProgressFits, Window, HeadersFit, TailFits, OpenEntries, OpenContents, Owned, Delivered,
      NoneForgotten, ReadersFit, ReaderFits, SameFor, WriterFits, Later;
    BlocksHaveSize(s);
    var m, g, s' := s.m, s.g, Do(s, Consume(t));
    FreeOwned(m, g, t);
    FreeNotForgotten(m.readers, g.takers, g.counted, g.given, g.cleared, g.last, m.size, t);
    WriterIgnoresPool(m, s'.m, g.place, g.given);
    LaterIfCleared(s, s');
    forall u | u in m.readers
      ensures SameFor(s, s', m.readers[u])
    {
      Unchanged(s, s', u);
    }
    ReadersStay(s, s', t);
  }

  lemma WriterIgnoresPool<T>(m: Memory<T>, m': Memory<T>, place: seq<nat>, given: seq<BlockId>)
    requires WriterFits(m, place, given) && m' == m.(readers := m'.readers, pool := m'.pool)
    ensures WriterFits(m', place, given)
  {
  }

  lemma ConsumeKeeps<T>(s: State<T>, t: Thread)
    requires Inv(s) && t in s.m.readers
    ensures Enabled(s, Consume(t)) && Inv(Do(s, Consume(t)))
  {
    hide Inv, Enabled, Do;
    match s.m.readers[t]
    case LoadHeader(_) => LoadHeaderKeeps(s, t);
    case LoadTail(_, _) => LoadTailKeeps(s, t);
    case LoadKey(_, _, _) => LoadKeyKeeps(s, t);
    case LoadBlock(_, _) => LoadBlockKeeps(s, t);
    case MoveOut(_, _, _) => MoveOutKeeps(s, t);
    case Count(_, _, _) => CountKeeps(s, t);
    case Clear(_, _, _) => ClearKeeps(s, t);
    case Free(_) => FreeKeeps(s, t);
  }

  // ----- A claim

  lemma ClaimNotForgotten(readers: map<Thread, Reader>, takers: seq<Thread>, counted: seq<bool>, given: seq<BlockId>,
                          cleared: set<nat>, last: map<nat, nat>, size: nat, t: Thread)
    requires NoneForgotten(readers, takers, counted, given, cleared, last, size) && t !in readers
    ensures NoneForgotten(readers[t := LoadHeader(|takers|)], takers + [t], counted, given, cleared, last, size)
  {
    hide AllDone, BlockNumber, IsOpen;
  }

  /** The next index is in an open block: none of its elements was moved yet. */
  lemma ClaimFits<T>(s: State<T>, t: Thread)
    requires Inv(s) && t !in s.m.readers && s.m.head < s.m.tail
    ensures Enabled(s, Claim(t)) && ReaderFits(Do(s, Claim(t)), t, LoadHeader(s.m.head))
  {
    hide Window, HeadersFit, TailFits, OpenEntries, OpenContents, Owned, Delivered, NoneForgotten, WriterFits,
      ReadersFit,
      BlockNumber;
    var i, k := s.m.head, BlockNumber(s.m.head, s.m.size);
    BlockOf(i, |s.g.given|, s.m.size, if IsWriting(s.m.writer) then s.m.tail + 1 else s.m.tail);
    assert !s.g.moved[i] && !s.g.counted[i];
    assert !AllDone(s.g.counted, k, s.m.size);
    var s' := Do(s, Claim(t));
    assert Serves(s', t, i);
  }

  lemma LaterIfClaimed<T>(s: State<T>, s': State<T>)
    requires Inv(s) && s.m.head < s.m.tail && s'.m.size == s.m.size && s'.m.headers == s.m.headers
    requires exists t :: s'.g == s.g.(takers := s.g.takers + [t])
    ensures Later(s, s')
  {
    hide ClearedFit, Window, TailFits, OpenEntries, OpenContents, Owned, Delivered, NoneForgotten, ReadersFit,
      WriterFits,
      Covers, EndsAt;
  }

  lemma ClaimKeeps<T>(s: State<T>, t: Thread)
    requires Inv(s) && t !in s.m.readers && s.m.head < s.m.tail
    ensures Enabled(s, Claim(t)) && Inv(Do(s, Claim(t)))
  {
    hide ClearedFit, ProgressFits, Window, HeadersFit, TailFits, OpenEntries, OpenContents, Owned, Delivered,
      NoneForgotten, ReadersFit, ReaderFits, SameFor, WriterFits, Later;
    ClaimFits(s, t);
    var m, g, s' := s.m, s.g, Do(s, Claim(t));
    MovesOwned(m, g, t, LoadHeader(m.head));
    ClaimNotForgotten(m.readers, g.takers, g.counted, g.given, g.cleared, g.last, m.size, t);
    WriterIgnoresReaders(m, s'.m, g.place, g.given);
    LaterIfClaimed(s, s');
    forall u | u in m.readers
      ensures SameFor(s, s', m.readers[u])
    {
      Unchanged(s, s', u);
    }
    ReadersStay(s, s', t);
  }
}
