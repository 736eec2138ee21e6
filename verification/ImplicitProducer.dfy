/**
 * The queue of one implicit producer: elements in blocks, blocks found through a circular index.
 * A dequeuer first claims an index and later takes the element, so elements leave in any order.
 */
module ImplicitProducers {
  import opened Options
  import opened Remainders
  import opened BlockIndexes
  import DequeueClaims

  /** Slots with their elements, and elementsCompletelyDequeued. */
  datatype Block<T> = Block(elements: seq<Option<T>>, completed: nat)

  /** The number of the block of an index. */
  function BlockNumber(i: nat, size: nat): nat
    requires size > 0
  {
    i / size
  }

  /** The slot of an index in its block. */
  function SlotIn(i: nat, size: nat): nat
    requires size > 0
  {
    i % size
  }

  /** How many of the indices from lo up to hi are done. */
  function CountDone(done: seq<bool>, lo: nat, hi: nat): (n: nat)
    requires lo <= hi <= |done|
    ensures n <= hi - lo
  {
    if lo == hi then 0 else CountDone(done, lo, hi - 1) + (if done[hi - 1] then 1 else 0)
  }

  lemma {:induction false} CountAllDone(done: seq<bool>, lo: nat, hi: nat)
    requires lo <= hi <= |done|
    ensures CountDone(done, lo, hi) == hi - lo <==> forall i :: lo <= i < hi ==> done[i]
  {
    if lo < hi {
      CountAllDone(done, lo, hi - 1);
    }
  }

  /** Marking one more index. */
  lemma {:induction false} CountMarked(done: seq<bool>, lo: nat, hi: nat, i: nat)
    requires lo <= hi <= |done| && i < |done| && !done[i]
    ensures CountDone(done[i := true], lo, hi) == CountDone(done, lo, hi) + (if lo <= i < hi then 1 else 0)
  {
    if lo < hi {
      CountMarked(done, lo, hi - 1, i);
    }
  }

  lemma {:induction false} CountPrefix(done: seq<bool>, more: seq<bool>, lo: nat, hi: nat)
    requires lo <= hi <= |done|
    ensures CountDone(done + more, lo, hi) == CountDone(done, lo, hi)
  {
    if lo < hi {
      CountPrefix(done, more, lo, hi - 1);
    }
  }

  /** One past the last index enqueued into the block that starts at base. */
  function End(base: nat, size: nat, tail: nat): nat {
    if base + size <= tail then base + size else tail
  }

  /** All elements of block k were enqueued and taken. */
  ghost predicate AllDone(done: seq<bool>, k: nat, size: nat) {
    k * size + size <= |done| && forall i :: k * size <= i < k * size + size ==> done[i]
  }

  /** A block holds the elements of its indices that are not taken yet, and counts the others. */
  ghost predicate HoldsFrom<T>(b: Block<T>, base: nat, size: nat, history: seq<T>, done: seq<bool>)
    requires |history| == |done|
  {
    && |b.elements| == size && base < |done|
    && (forall j :: 0 <= j < size && base + j < |done| ==>
          b.elements[j] == if done[base + j] then None else Some(history[base + j]))
    && b.completed == CountDone(done, base, End(base, size, |done|)) < size
  }

  ghost predicate BlockFits<T>(b: Block<T>, k: nat, size: nat, history: seq<T>, done: seq<bool>)
    requires |history| == |done|
  {
    HoldsFrom(b, k * size, size, history, done)
  }

  ghost predicate BlocksFit<T>(blocks: map<BlockId, Block<T>>, owned: map<nat, BlockId>, size: nat,
                               history: seq<T>, done: seq<bool>)
    requires |history| == |done|
  {
    && (forall k :: k in owned ==> owned[k] in blocks && BlockFits(blocks[owned[k]], k, size, history, done))
    && (forall j, k :: j in owned && k in owned && j != k ==> owned[j] != owned[k])
  }

  /** Owned are exactly the started blocks with elements to come or to take. */
  ghost predicate OwnedExactly(owned: map<nat, BlockId>, started: nat, size: nat, done: seq<bool>) {
    forall k :: 0 <= k < started ==> (k in owned <==> !AllDone(done, k, size))
  }

  /** The free blocks: allocated, of the right size, no two the same, and none of them owned. */
  ghost predicate PoolFits<T>(pool: seq<BlockId>, blocks: map<BlockId, Block<T>>, owned: map<nat, BlockId>, size: nat) {
    && (forall i :: 0 <= i < |pool| ==> pool[i] in blocks && |blocks[pool[i]].elements| == size)
    && (forall i, k :: 0 <= i < |pool| && k in owned ==> pool[i] != owned[k])
    && (forall i, j :: 0 <= i < j < |pool| ==> pool[i] != pool[j])
  }

  // ----- What enqueueing and taking do to the blocks

  /** The next element goes to the newest block, which is owned and not full. */
  lemma WriteFits<T>(blocks: map<BlockId, Block<T>>, owned: map<nat, BlockId>, size: nat,
                     history: seq<T>, done: seq<bool>, k: nat, e: T)
    requires |history| == |done| && size > 0
    requires k * size <= |done| < k * size + size && k in owned && owned[k] in blocks
    requires SlotIn(|done|, size) == |done| - k * size
    requires BlocksFit(blocks, owned - {k}, size, history, done)
    requires forall j :: j in owned && j != k ==> owned[j] != owned[k]
    requires forall j :: j in owned ==> j <= k
    requires if |done| == k * size then |blocks[owned[k]].elements| == size && blocks[owned[k]].completed == 0
             else BlockFits(blocks[owned[k]], k, size, history, done)
    ensures
      var b := blocks[owned[k]];
      && |b.elements| == size
      && BlocksFit(blocks[owned[k] := b.(elements := b.elements[SlotIn(|done|, size) := Some(e)])], owned, size,
                   history + [e], done + [false])
  {
    WrittenBlockFits(blocks[owned[k]], k, size, history, done, e);
    forall j | j in owned - {k}
      ensures BlockFits(blocks[(owned - {k})[j]], j, size, history + [e], done + [false])
    {
      OlderEnds(j, k, size);
      OlderBlockFits(blocks[(owned - {k})[j]], j, size, history, done, e);
    }
    hide BlockFits;
    assert forall j :: j in owned && j != k ==> j in owned - {k} && (owned - {k})[j] == owned[j];
  }

  lemma OlderEnds(j: nat, k: nat, size: nat)
    requires j < k
    ensures j * size + size <= k * size
  {
    MultipleIsLarge(k - j, size);
    assert (k - j) * size == k * size - j * size;
  }

  lemma WrittenBlockFits<T>(b: Block<T>, k: nat, size: nat, history: seq<T>, done: seq<bool>, e: T)
    requires |history| == |done| && k * size <= |done| < k * size + size
    requires if |done| == k * size then |b.elements| == size && b.completed == 0
             else BlockFits(b, k, size, history, done)
    ensures |b.elements| == size
    ensures
      BlockFits(b.(elements := b.elements[|done| - k * size := Some(e)]), k, size, history + [e], done + [false])
  {
    WrittenFrom(b, k * size, size, history, done, e);
  }

  lemma WrittenFrom<T>(b: Block<T>, base: nat, size: nat, history: seq<T>, done: seq<bool>, e: T)
    requires |history| == |done| && base <= |done| < base + size
    requires if |done| == base then |b.elements| == size && b.completed == 0
      else HoldsFrom(b, base, size, history, done)
    ensures |b.elements| == size
    ensures HoldsFrom(b.(elements := b.elements[|done| - base := Some(e)]), base, size, history + [e], done + [false])
  {
    CountPrefix(done, [false], base, |done|);
  }

  lemma OlderBlockFits<T>(b: Block<T>, k: nat, size: nat, history: seq<T>, done: seq<bool>, e: T)
    requires |history| == |done| && BlockFits(b, k, size, history, done) && k * size + size <= |done|
    ensures BlockFits(b, k, size, history + [e], done + [false])
  {
    CountPrefix(done, [false], k * size, k * size + size);
  }

  /** Taking the element of index i from block k. */
  lemma TakeFits<T>(blocks: map<BlockId, Block<T>>, owned: map<nat, BlockId>, size: nat,
                    history: seq<T>, done: seq<bool>, k: nat, i: nat)
    requires |history| == |done| && size > 0 && BlocksFit(blocks, owned, size, history, done)
    requires k in owned && k * size <= i < k * size + size && i < |done| && !done[i]
    ensures
      var b := blocks[owned[k]];
      var taken := Block(b.elements[i - k * size := None], b.completed + 1);
      && b.elements[i - k * size] == Some(history[i])
      && (taken.completed == size <==> AllDone(done[i := true], k, size))
      && BlocksFit(blocks[owned[k] := taken], if taken.completed == size then owned - {k} else owned, size,
                   history, done[i := true])
  {
    var done', owned' := done[i := true], if AllDone(done[i := true], k, size) then owned - {k} else owned;
    TakenBlock(blocks[owned[k]], k, size, history, done, i);
    hide BlockFits, AllDone;
    forall j | j in owned && j != k
      ensures BlockFits(blocks[owned[j]], j, size, history, done')
    {
      OtherBlockFits(blocks[owned[j]], j, k, size, history, done, i);
    }
    assert forall j :: j in owned' ==> j in owned && owned'[j] == owned[j];
  }

  lemma TakenBlock<T>(b: Block<T>, k: nat, size: nat, history: seq<T>, done: seq<bool>, i: nat)
    requires |history| == |done| && BlockFits(b, k, size, history, done)
    requires k * size <= i < k * size + size && i < |done| && !done[i]
    ensures
      var taken := Block(b.elements[i - k * size := None], b.completed + 1);
      && b.elements[i - k * size] == Some(history[i])
      && (taken.completed == size <==> AllDone(done[i := true], k, size))
      && (taken.completed != size ==> BlockFits(taken, k, size, history, done[i := true]))
  {
    var done' := done[i := true];
    assert b.elements[i - k * size] == if done[k * size + (i - k * size)] then None
      else Some(history[k * size + (i - k * size)]);
    CountMarked(done, k * size, End(k * size, size, |done|), i);
    CountAllDone(done', k * size, End(k * size, size, |done|));
  }

  lemma OtherBlockFits<T>(b: Block<T>, j: nat, k: nat, size: nat, history: seq<T>, done: seq<bool>, i: nat)
    requires |history| == |done| && BlockFits(b, j, size, history, done) && j != k
    requires k * size <= i < k * size + size && i < |done| && !done[i]
    ensures BlockFits(b, j, size, history, done[i := true])
  {
    BlocksDisjoint(j, k, size, i);
    CountMarked(done, j * size, End(j * size, size, |done|), i);
  }

  lemma BlocksDisjoint(j: nat, k: nat, size: nat, i: nat)
    requires j != k && k * size <= i < k * size + size
    ensures !(j * size <= i < j * size + size)
  {
    MultipleIsLarge(k - j, size);
    assert (k - j) * size == k * size - j * size;
  }

  lemma OwnedAfterTake(owned: map<nat, BlockId>, started: nat, size: nat, done: seq<bool>, k: nat, i: nat)
    requires OwnedExactly(owned, started, size, done) && k < started && i < |done| && !done[i]
    requires k * size <= i < k * size + size
    ensures k in owned
    ensures
      OwnedExactly(if AllDone(done[i := true], k, size) then owned - {k} else owned, started, size, done[i := true])
  {
    var done' := done[i := true];
    forall j | 0 <= j < started && j != k
      ensures AllDone(done', j, size) <==> AllDone(done, j, size)
    {
      BlocksDisjoint(j, k, size, i);
      assert forall x :: j * size <= x < j * size + size && x < |done| ==> done'[x] == done[x];
    }
  }

  lemma OwnedAfterWrite(owned: map<nat, BlockId>, started: nat, size: nat, done: seq<bool>)
    requires OwnedExactly(owned, started, size, done) && size > 0
    requires |done| < started * size < |done| + size + 1
    ensures OwnedExactly(owned, started, size, done + [false])
  {
    forall j | 0 <= j < started
      ensures AllDone(done + [false], j, size) <==> AllDone(done, j, size)
    {
      if j * size + size <= |done| {
        assert forall i :: j * size <= i < j * size + size ==> (done + [false])[i] == done[i];
      } else if j * size <= |done| {
        assert !(done + [false])[|done|];
      }
    }
  }

  /** Block started - 1 is the one that the tail is in, or has just left. */
  ghost predicate StartedFits(started: nat, size: nat, tail: nat) {
    tail <= started * size < tail + size
  }

  lemma StartedAt(started: nat, size: nat, tail: nat)
    requires size > 0 && StartedFits(started, size, tail)
    ensures SlotIn(tail, size) == 0 <==> tail == started * size
    ensures SlotIn(tail, size) != 0 ==> started > 0 && StartedFits(started, size, tail + 1)
    ensures SlotIn(tail, size) == 0 ==> StartedFits(started + 1, size, tail + 1)
  {
    if tail == started * size {
      RemainderIsUnique(tail, started, 0, size);
    } else {
      MultipleIsLarge(started, size);
      assert tail == (started - 1) * size + (tail - (started - 1) * size);
      RemainderIsUnique(tail, started - 1, tail - (started - 1) * size, size);
    }
  }

  /** Where in its block the next element goes. */
  lemma NextSlot(started: nat, size: nat, tail: nat)
    requires size > 0 && started > 0 && StartedFits(started, size, tail + 1)
    ensures (started - 1) * size <= tail < (started - 1) * size + size
    ensures SlotIn(tail, size) == tail - (started - 1) * size
  {
    RemainderIsUnique(tail, started - 1, tail - (started - 1) * size, size);
  }

  /** The loop of new_block_index: the old entries, starting behind the tail, and then unused ones. */
  method CopyEntries(index: seq<Entry>, tail: nat) returns (grown: seq<Entry>)
    requires tail < |index|
    ensures grown == Grown(index, tail)
  {
    var n := |index|;
    var prevPos, i := tail, 0;
    grown := [];
    ModSmall(tail, n);
    while i < n
      invariant 0 <= i <= n && prevPos == Mod(tail + i, n) && grown == Grown(index, tail)[..i]
    {
      ModSum(tail + i, 1, n);
      GrownAt(index, tail, i);
      prevPos := Mod(prevPos + 1, n);
      grown := grown + [index[prevPos]];
      i := i + 1;
    }
    grown := grown + seq(n, _ => Entry(None, None));
  }

  /** The words of head and tail leave room for one more block between them. */
  predicate HasLeeway(head: nat, tail: nat, size: nat) {
    DequeueClaims.CircularLessThan(DequeueClaims.Wrap(head), DequeueClaims.Wrap(tail + size))
  }

  /** A queue shorter than the range of a word is refused another block exactly from half that range on. */
  lemma LeewayIff(head: nat, tail: nat, size: nat)
    requires head <= tail && size > 0 && tail + size - head < DequeueClaims.WORD
    ensures HasLeeway(head, tail, size) <==> tail + size - head < DequeueClaims.HALF
  {
    DequeueClaims.CircularAgrees(head, tail + size);
    hide DequeueClaims.CircularLessThan;
  }

  class ImplicitProducer<T> {
    const size: nat
    var tailIndex: nat
    var headIndex: nat
    var index: seq<Entry>         // empty if its first allocation failed
    var indexTail: nat
    var nextBlockIndexCapacity: nat
    var blocks: map<BlockId, Block<T>>
    var tailBlock: BlockId
    var pool: seq<BlockId>        // the free blocks of the queue this producer belongs to
    var nextId: BlockId

    /** Every element ever enqueued, whether it was taken, and the owned blocks. */
    ghost var history: seq<T>
    ghost var done: seq<bool>
    ghost var owned: map<nat, BlockId>
    ghost var started: nat
    ghost var origin: int

    ghost predicate Shaped()
      reads this
    {
      && size > 0 && |history| == |done| == tailIndex && headIndex <= tailIndex
      && (forall i :: headIndex <= i < tailIndex ==> !done[i])
      && nextBlockIndexCapacity > 0 && (index != [] ==> nextBlockIndexCapacity == 2 * |index|)
      && (forall id :: id in blocks ==> id < nextId)
      && PoolFits(pool, blocks, owned, size)
    }

    ghost predicate Indexed()
      reads this
    {
      if index == [] then owned == map[] && started == 0
      else IndexFits(index, indexTail, started, origin, size, owned)
    }

    ghost predicate Valid()
      reads this
    {
      && Shaped() && Indexed() && StartedFits(started, size, tailIndex)
      && BlocksFit(blocks, owned, size, history, done)
      && OwnedExactly(owned, started, size, done)
      && (SlotIn(tailIndex, size) != 0 ==> started > 0 && started - 1 in owned && owned[started - 1] == tailBlock)
    }

    /** The tail block has a free slot for the element at the tail. */
    ghost predicate Ready()
      reads this
    {
      && Shaped() && Indexed() && started > 0 && StartedFits(started, size, tailIndex + 1)
      && started - 1 in owned && owned[started - 1] == tailBlock && tailBlock in blocks
      && BlocksFit(blocks, owned - {started - 1}, size, history, done)
      && (forall j :: j in owned && j != started - 1 ==> owned[j] != tailBlock)
      && (if SlotIn(tailIndex, size) == 0 then |blocks[tailBlock].elements| == size && blocks[tailBlock].completed == 0
          else BlockFits(blocks[tailBlock], started - 1, size, history, done))
      && OwnedExactly(owned, started, size, done + [false])
    }

    constructor (size: nat, indexCapacity: nat, indexAllocated: bool)
      requires size > 0 && indexCapacity > 0
      ensures Valid() && history == [] && done == [] && headIndex == 0 && pool == []
    {
      this.size := size;
      tailIndex, headIndex := 0, 0;
      index := if indexAllocated then seq(indexCapacity, _ => Entry(None, None)) else [];
      indexTail := indexCapacity - 1;
      nextBlockIndexCapacity := if indexAllocated then 2 * indexCapacity else indexCapacity;
      blocks, tailBlock, pool, nextId := map[], 0, [], 0;
      history, done, owned, started, origin := [], [], map[], 0, 0;
      new;
      if indexAllocated {
        ModTurn(-1, indexCapacity);
        ModSmall(indexCapacity - 1, indexCapacity);
      }
    }

    /** new_block_index: the index grows to twice its capacity. */
    method NewBlockIndex()
      requires Shaped() && Indexed() && index != []
      modifies this`index, this`indexTail, this`nextBlockIndexCapacity, this`origin
      ensures Shaped() && Indexed() && index == Grown(old(index), old(indexTail)) && indexTail == |old(index)| - 1
    {
      GrownFits(index, indexTail, started, origin, size, owned);
      hide Grown, IndexFits, PoolFits;
      var n := |index|;
      index := CopyEntries(index, indexTail);
      indexTail := n - 1;
      nextBlockIndexCapacity := 2 * nextBlockIndexCapacity;
      origin := n - started;
    }

    /** A free block: from the pool, or a new one if that may be allocated. */
    method RequisitionBlock(mayAllocate: bool) returns (block: Option<BlockId>)
      requires Shaped() && BlocksFit(blocks, owned, size, history, done)
      modifies this`pool, this`blocks, this`nextId
      ensures Shaped() && BlocksFit(blocks, owned, size, history, done)
      ensures block.None? <==> old(pool) == [] && !mayAllocate
      ensures block.Some? ==> block.value in blocks && |blocks[block.value].elements| == size
      ensures block.Some? ==> block.value !in pool && forall k :: k in owned ==> owned[k] != block.value
      ensures block.None? ==> pool == old(pool) && blocks == old(blocks)
    {
      if pool != [] {
        block := Some(pool[0]);
        pool := pool[1..];
      } else if mayAllocate {
        block := Some(nextId);
        blocks := blocks[nextId := Block(seq(size, _ => None), 0)];
        nextId := nextId + 1;
      } else {
        block := None;
      }
    }

    ghost predicate NextIsUnused()
      reads this
    {
      index != [] && index[Mod(indexTail + 1, |index|)].block.None?
    }

    /** See to it that the entry after the tail has no block; the index may have to grow for it. */
    method MakeRoom(mayGrow: bool) returns (ok: bool)
      requires Shaped() && Indexed()
      modifies this`index, this`indexTail, this`nextBlockIndexCapacity, this`origin
      ensures Shaped() && Indexed()
      ensures ok <==> old(NextIsUnused()) || (mayGrow && old(index) != [])
      ensures ok ==> NextIsUnused()
      ensures !ok ==> unchanged(this)
    {
      assert index != [] ==> indexTail < |index|;
      hide PoolFits, IndexFits, Mod;
      if index == [] {
        ok := false;
      } else if index[Mod(indexTail + 1, |index|)].block.None? {
        ok := true;
      } else if mayGrow {
        GrownIsUnused(index, indexTail);
        NewBlockIndex();
        ok := true;
      } else {
        ok := false;
      }
    }

    /**
     * Key the entry for the next block.  Before is the index without the new key; the new tail is
     * not the place of a started block yet.
     */
    method InsertBlockIndexEntry(mayGrow: bool) returns (ok: bool, p: nat, ghost before: seq<Entry>)
      requires Shaped() && Indexed()
      modifies this`index, this`indexTail, this`nextBlockIndexCapacity, this`origin
      ensures Shaped()
      ensures ok <==> old(NextIsUnused()) || (mayGrow && old(index) != [])
      ensures !ok ==> Indexed() && unchanged(this)
      ensures ok ==> before != [] && p == indexTail == Pos(started, origin, |before|) && before[p].block.None?
      ensures ok ==> IndexFits(before, Pos(started - 1, origin, |before|), started, origin, size, owned)
      ensures ok ==> index == before[p := Entry(Some(tailIndex), None)]
    {
      hide PoolFits, IndexFits, Pos, Mod;
      ok := MakeRoom(mayGrow);
      p, before := 0, index;
      if ok {
        TailIsNewest(index, indexTail, started, origin, size, owned);
        NextTail(started, origin, |index|);
        p := Mod(indexTail + 1, |index|);
        index := index[p := index[p].(key := Some(tailIndex))];
        indexTail := p;
      }
    }

    /** The first half of enqueue at the end of a block: find an entry and a block for the next one. */
    method StartBlock(mayGrow: bool, mayAllocate: bool) returns (ok: bool)
      requires Valid() && SlotIn(tailIndex, size) == 0
      modifies this
      ensures history == old(history) && done == old(done) && tailIndex == old(tailIndex) && headIndex == old(headIndex)
      ensures ok <==>
        && HasLeeway(old(headIndex), old(tailIndex), size)
        && (old(NextIsUnused()) || (mayGrow && old(index) != [])) && (old(pool) != [] || mayAllocate)
      ensures if ok then Ready() else Valid()
    {
      hide BlocksFit, OwnedExactly, PoolFits, IndexFits;
      if !HasLeeway(headIndex, tailIndex, size) {
        return false;
      }
      StartedAt(started, size, tailIndex);
      var entry, p; ghost var before;
      entry, p, before := InsertBlockIndexEntry(mayGrow);
      if !entry {
        return false;
      }
      var newBlock := RequisitionBlock(mayAllocate);
      if newBlock.None? {
        RewindBlockIndexTail(before);
        return false;
      }
      EnterBlock(newBlock.value, before);
      return true;
    }

    /** No block was to be had: the tail goes back, and the entry stays without a block. */
    method RewindBlockIndexTail(ghost before: seq<Entry>)
      requires Shaped() && before != [] && indexTail == Pos(started, origin, |before|) && before[indexTail].block.None?
      requires IndexFits(before, Pos(started - 1, origin, |before|), started, origin, size, owned)
      requires index == before[indexTail := Entry(Some(tailIndex), None)]
      modifies this`index, this`indexTail
      ensures Shaped() && Indexed()
    {
      RewindFits(before, Pos(started - 1, origin, |before|), started, origin, size, owned, tailIndex);
      NextTail(started, origin, |before|);
      hide IndexFits, Pos, Mod, PoolFits;
      var idxEntry := indexTail;
      indexTail := Mod(indexTail + (|index| - 1), |index|);
      index := index[idxEntry := index[idxEntry].(block := None)];
    }

    /** The new block is reset, entered in the index, and becomes the tail block. */
    method EnterBlock(newBlock: BlockId, ghost before: seq<Entry>)
      requires Shaped() && before != [] && indexTail == Pos(started, origin, |before|) && before[indexTail].block.None?
      requires IndexFits(before, Pos(started - 1, origin, |before|), started, origin, size, owned)
      requires index == before[indexTail := Entry(Some(tailIndex), None)]
      requires tailIndex == started * size && SlotIn(tailIndex, size) == 0
      requires StartedFits(started + 1, size, tailIndex + 1)
      requires BlocksFit(blocks, owned, size, history, done) && OwnedExactly(owned, started, size, done)
      requires newBlock in blocks && |blocks[newBlock].elements| == size
      requires newBlock !in pool && forall k :: k in owned ==> owned[k] != newBlock
      modifies this`index, this`blocks, this`tailBlock, this`owned, this`started
      ensures Ready() && tailBlock == newBlock && owned == old(owned)[old(started) := newBlock]
      ensures started == old(started) + 1 && blocks.Keys == old(blocks).Keys
    {
      hide IndexFits, Pos, BlocksFit, OwnedExactly, PoolFits, BlockFits, StartedFits, SlotIn;
      EnterPlan(before, started, origin, size, owned, blocks, history, done, pool, newBlock);
      blocks := blocks[newBlock := blocks[newBlock].(completed := 0)];
      index := index[indexTail := index[indexTail].(block := Some(newBlock))];
      tailBlock := newBlock;
      owned := owned[started := newBlock];
      started := started + 1;
      assert index == before[indexTail := Entry(Some(tailIndex), Some(newBlock))];
    }

    /** The second half of enqueue: construct the element in its slot and publish the new tail. */
    method WriteElement(element: T)
      requires Ready()
      modifies this`blocks, this`tailIndex, this`history, this`done
      ensures Valid() && history == old(history) + [element] && done == old(done) + [false]
    {
      hide IndexFits, BlocksFit, BlockFits, OwnedExactly, PoolFits, SlotIn, StartedFits;
      WritePlan(index, indexTail, started, origin, size, owned, blocks, history, done, pool, tailBlock, element);
      var block := blocks[tailBlock];
      blocks := blocks[tailBlock := block.(elements := block.elements[SlotIn(tailIndex, size) := Some(element)])];
      tailIndex := tailIndex + 1;
      history := history + [element];
      done := done + [false];
    }

    /** A refused element leaves the queue as it was. */
    method Enqueue(element: T, mayGrow: bool, mayAllocate: bool) returns (ok: bool)
      requires Valid()
      modifies this
      ensures Valid() && headIndex == old(headIndex)
      ensures ok <==>
        || SlotIn(old(tailIndex), size) != 0
        || (HasLeeway(old(headIndex), old(tailIndex), size)
            && (old(NextIsUnused()) || (mayGrow && old(index) != [])) && (old(pool) != [] || mayAllocate))
      ensures if ok then history == old(history) + [element] && done == old(done) + [false]
              else history == old(history) && done == old(done)
    {
      if SlotIn(tailIndex, size) == 0 {
        ok := StartBlock(mayGrow, mayAllocate);
        if !ok {
          return;
        }
      } else {
        InTailBlock();
      }
      WriteElement(element);
      ok := true;
    }

    ghost method InTailBlock()
      requires Valid() && SlotIn(tailIndex, size) != 0
      ensures Ready()
    {
      StartedAt(started, size, tailIndex);
      NextSlot(started, size, tailIndex);
      OwnedAfterWrite(owned, started, size, done);
    }

    /** A dequeuer that passed its checks gets the next index. */
    method Claim() returns (i: nat)
      requires Valid() && headIndex < tailIndex
      modifies this`headIndex
      ensures Valid() && i == old(headIndex) && headIndex == i + 1
    {
      hide IndexFits, BlocksFit, OwnedExactly, PoolFits;
      i := headIndex;
      headIndex := headIndex + 1;
    }

    /**
     * The rest of dequeue for a claimed index: find its block through the index, move the element out,
     * and give the block back to the pool if that was its last one.
     */
    method Take(i: nat) returns (element: T, ghost id: BlockId)
      requires Valid() && i < headIndex && !done[i]
      modifies this`index, this`blocks, this`pool, this`done, this`owned
      ensures Valid() && history == old(history) && done == old(done)[i := true]
      ensures element == history[i]
      ensures BlockNumber(i, size) in old(owned) && id == old(owned)[BlockNumber(i, size)]
      ensures pool == if AllDone(done, BlockNumber(i, size), size) then old(pool) + [id] else old(pool)
    {
      hide PoolFits, IndexFits, BlocksFit, OwnedExactly, AllDone, Position, StartedFits, SlotIn, BlockNumber;
      TakePlan(index, indexTail, started, origin, size, owned, blocks, history, done, pool, i);
      id := owned[BlockNumber(i, size)];
      var p := Position(index, indexTail, size, i);
      var block := index[p].block.value;
      element := blocks[block].elements[SlotIn(i, size)].value;
      SetEmpty(block, SlotIn(i, size), p, i, BlockNumber(i, size));
    }

    /** The two halves of dequeue without anyone in between: the oldest element, if there is one. */
    method Dequeue() returns (element: Option<T>)
      requires Valid()
      modifies this
      ensures Valid() && history == old(history)
      ensures element == if old(headIndex) < old(tailIndex) then Some(history[old(headIndex)]) else None
      ensures headIndex == old(headIndex) + (if element.Some? then 1 else 0) && tailIndex == old(tailIndex)
    {
      element := None;
      if headIndex < tailIndex {
        var i := Claim();
        ghost var id;
        var e;
        e, id := Take(i);
        element := Some(e);
      }
    }

    /** Destroy the element, count it, and release the block if it was the last one. */
    method SetEmpty(id: BlockId, slot: nat, p: nat, ghost i: nat, ghost k: nat)
      requires Shaped() && StartedFits(started, size, tailIndex) && i < headIndex
      requires id in blocks && slot < |blocks[id].elements| == size && p < |index|
      requires SlotIn(tailIndex, size) != 0 ==> started > 0 && started - 1 in owned && owned[started - 1] == tailBlock
      requires
        var taken := Block(blocks[id].elements[slot := None], blocks[id].completed + 1);
        var full, done' := taken.completed == size, done[i := true];
        var owned' := if full then owned - {k} else owned;
        && (full && SlotIn(tailIndex, size) != 0 ==> k != started - 1)
        && IndexFits(if full then index[p := index[p].(block := None)] else index, indexTail, started, origin, size,
           owned')
        && BlocksFit(blocks[id := taken], owned', size, history, done')
        && OwnedExactly(owned', started, size, done')
        && PoolFits(if full then pool + [id] else pool, blocks[id := taken], owned', size)
      modifies this`index, this`blocks, this`pool, this`done, this`owned
      ensures Valid() && done == old(done)[i := true]
      ensures pool == if old(blocks[id].completed) + 1 == size then old(pool) + [id] else old(pool)
    {
      hide PoolFits, IndexFits, BlocksFit, OwnedExactly, StartedFits, SlotIn;
      var b := blocks[id];
      var nowEmpty := b.completed + 1 == size;
      blocks := blocks[id := Block(b.elements[slot := None], b.completed + 1)];
      done := done[i := true];
      if nowEmpty {
        index := index[p := index[p].(block := None)];
        pool := pool + [id];
        owned := owned - {k};
      }
    }
  }

  /** A block that is still being filled is not done. */
  lemma LastStaysOwned(done: seq<bool>, k: nat, started: nat, size: nat)
    requires size > 0 && StartedFits(started, size, |done|) && AllDone(done, k, size) && SlotIn(|done|, size) != 0
    ensures k != started - 1
  {
    StartedAt(started, size, |done|);
  }

  /** What entering a new block comes to. */
  lemma EnterPlan<T>(before: seq<Entry>, started: nat, origin: int, size: nat, owned: map<nat, BlockId>,
                     blocks: map<BlockId, Block<T>>, history: seq<T>, done: seq<bool>, pool: seq<BlockId>, id: BlockId)
    requires size > 0 && |history| == |done| == started * size
    requires before != [] && before[Pos(started, origin, |before|)].block.None?
    requires IndexFits(before, Pos(started - 1, origin, |before|), started, origin, size, owned)
    requires BlocksFit(blocks, owned, size, history, done) && OwnedExactly(owned, started, size, done)
    requires PoolFits(pool, blocks, owned, size)
    requires id in blocks && |blocks[id].elements| == size && id !in pool && forall k :: k in owned ==> owned[k] != id
    ensures
      var p, owned', blocks' := Pos(started, origin, |before|), owned[started := id],
        blocks[id := blocks[id].(completed := 0)];
      && IndexFits(before[p := Entry(Some(|done|), Some(id))], p, started + 1, origin, size, owned')
      && BlocksFit(blocks', owned' - {started}, size, history, done)
      && PoolFits(pool, blocks', owned', size)
      && OwnedExactly(owned', started + 1, size, done + [false])
  {
    InsertFits(before, Pos(started - 1, origin, |before|), started, origin, size, owned, id);
    StartedIsOwned(owned, started, size, done, id);
    ResetFits(blocks, owned, size, history, done, id);
    NewestIsNew(before, Pos(started - 1, origin, |before|), started, origin, size, owned);
    PoolKept(pool, blocks, owned, size, id, blocks[id].(completed := 0), owned[started := id]);
    assert owned[started := id] - {started} == owned;
    hide IndexFits, Pos, BlocksFit, OwnedExactly, PoolFits;
  }

  /** What writing the next element comes to. */
  lemma WritePlan<T>(index: seq<Entry>, tail: nat, started: nat, origin: int, size: nat, owned: map<nat, BlockId>,
                     blocks: map<BlockId, Block<T>>, history: seq<T>, done: seq<bool>, pool: seq<BlockId>,
                     id: BlockId, e: T)
    requires size > 0 && started > 0 && |history| == |done| && StartedFits(started, size, |done| + 1)
    requires IndexFits(index, tail, started, origin, size, owned) && PoolFits(pool, blocks, owned, size)
    requires started - 1 in owned && owned[started - 1] == id && id in blocks
    requires BlocksFit(blocks, owned - {started - 1}, size, history, done)
    requires forall j :: j in owned && j != started - 1 ==> owned[j] != id
    requires if SlotIn(|done|, size) == 0 then |blocks[id].elements| == size && blocks[id].completed == 0
             else BlockFits(blocks[id], started - 1, size, history, done)
    ensures
      var b, slot := blocks[id], SlotIn(|done|, size);
      && slot < |b.elements| == size
      && BlocksFit(blocks[id := b.(elements := b.elements[slot := Some(e)])], owned, size,
                   history + [e], done + [false])
      && PoolFits(pool, blocks[id := b.(elements := b.elements[slot := Some(e)])], owned, size)
      && StartedFits(started, size, |done| + 1)
  {
    NextSlot(started, size, |done|);
    NewestIsLast(index, tail, started, origin, size, owned);
    WriteFits(blocks, owned, size, history, done, started - 1, e);
    var b := blocks[id];
    PoolKept(pool, blocks, owned, size, id, b.(elements := b.elements[SlotIn(|done|, size) := Some(e)]), owned);
  }

  /** What taking element i comes to, in the index, the blocks and the pool. */
  lemma TakePlan<T>(index: seq<Entry>, tail: nat, started: nat, origin: int, size: nat, owned: map<nat, BlockId>,
                    blocks: map<BlockId, Block<T>>, history: seq<T>, done: seq<bool>, pool: seq<BlockId>, i: nat)
    requires size > 0 && |history| == |done| && i < |done| && !done[i] && StartedFits(started, size, |done|)
    requires if index == [] then owned == map[] && started == 0
      else IndexFits(index, tail, started, origin, size, owned)
    requires BlocksFit(blocks, owned, size, history, done) && OwnedExactly(owned, started, size, done)
    requires PoolFits(pool, blocks, owned, size)
    ensures BlockNumber(i, size) in owned && owned[BlockNumber(i, size)] in blocks && SlotIn(i, size) < size
    ensures |blocks[owned[BlockNumber(i, size)]].elements| == size
    ensures blocks[owned[BlockNumber(i, size)]].elements[SlotIn(i, size)] == Some(history[i])
    ensures index != [] && tail < |index| && index[tail].key.Some?
    ensures Position(index, tail, size, i) < |index|
    ensures index[Position(index, tail, size, i)].block == Some(owned[BlockNumber(i, size)])
    ensures AllDone(done[i := true], BlockNumber(i, size), size) && SlotIn(|done|, size) != 0 ==>
      BlockNumber(i, size) != started - 1
    ensures
      var p, id, k := Position(index, tail, size, i), owned[BlockNumber(i, size)], BlockNumber(i, size);
      var taken := Block(blocks[id].elements[SlotIn(i, size) := None], blocks[id].completed + 1);
      var full, done' := taken.completed == size, done[i := true];
      var owned' := if full then owned - {k} else owned;
      && (full <==> AllDone(done', k, size))
      && IndexFits(if full then index[p := index[p].(block := None)] else index, tail, started, origin, size, owned')
      && BlocksFit(blocks[id := taken], owned', size, history, done')
      && OwnedExactly(owned', started, size, done')
      && PoolFits(if full then pool + [id] else pool, blocks[id := taken], owned', size)
  {
    hide PoolFits, IndexFits, BlocksFit, OwnedExactly, AllDone, Pos, StartedFits, BlockNumber;
    var k := BlockNumber(i, size);
    BlockOf(i, started, size, |done|);
    if AllDone(done[i := true], k, size) && SlotIn(|done|, size) != 0 {
      LastStaysOwned(done[i := true], k, started, size);
    }
    OwnedAfterTake(owned, started, size, done, k, i);
    OwnedIsNotPooled(pool, blocks, owned, size, history, done, k);
    TakeFits(blocks, owned, size, history, done, k, i);
    PositionIsRight(index, tail, started, origin, size, owned, i, k);
    ReleaseFits(index, tail, started, origin, size, owned, k);
    var id := owned[k];
    var taken := Block(blocks[id].elements[SlotIn(i, size) := None], blocks[id].completed + 1);
    PoolKept(pool, blocks, owned, size, id, taken, owned);
    PoolAfterRelease(pool, blocks[id := taken], owned, size, k);
  }

  /** The block of an index. */
  lemma BlockOf(i: nat, started: nat, size: nat, tail: nat)
    requires size > 0 && StartedFits(started, size, tail) && i < tail
    ensures
      var k := BlockNumber(i, size);
      k < started && k * size <= i < k * size + size && SlotIn(i, size) == i - k * size
  {
    var k := BlockNumber(i, size);
    assert i == k * size + i % size;
    MultipleIsLarge(k - started, size);
    assert (k - started) * size == k * size - started * size;
  }

  lemma PoolKept<T>(pool: seq<BlockId>, blocks: map<BlockId, Block<T>>, owned: map<nat, BlockId>, size: nat,
                    id: BlockId, b: Block<T>, owned': map<nat, BlockId>)
    requires PoolFits(pool, blocks, owned, size) && id !in pool && |b.elements| == size
    requires forall k :: k in owned' ==> (k in owned && owned'[k] == owned[k]) || owned'[k] == id
    ensures PoolFits(pool, blocks[id := b], owned', size)
  {
  }

  lemma PoolAfterRelease<T>(pool: seq<BlockId>, blocks: map<BlockId, Block<T>>, owned: map<nat, BlockId>, size: nat,
                            k: nat)
    requires PoolFits(pool, blocks, owned, size) && k in owned && owned[k] in blocks
    requires |blocks[owned[k]].elements| == size
    requires forall j :: j in owned && j != k ==> owned[j] != owned[k]
    ensures PoolFits(pool + [owned[k]], blocks, owned - {k}, size)
  {
  }

  lemma OwnedIsNotPooled<T>(pool: seq<BlockId>, blocks: map<BlockId, Block<T>>, owned: map<nat, BlockId>, size: nat,
                            history: seq<T>, done: seq<bool>, k: nat)
    requires PoolFits(pool, blocks, owned, size) && |history| == |done| && BlocksFit(blocks, owned, size, history, done)
    requires k in owned
    ensures owned[k] !in pool && owned[k] in blocks && |blocks[owned[k]].elements| == size
    ensures forall j :: j in owned && j != k ==> owned[j] != owned[k]
  {
    assert BlockFits(blocks[owned[k]], k, size, history, done);
  }

  lemma GrownIsUnused(index: seq<Entry>, tail: nat)
    requires tail < |index|
    ensures Grown(index, tail)[Mod(|index| - 1 + 1, 2 * |index|)] == Entry(None, None)
  {
    ModSmall(|index|, 2 * |index|);
  }

  lemma TailIsNewest(index: seq<Entry>, tail: nat, started: nat, origin: int, size: nat, owned: map<nat, BlockId>)
    requires IndexFits(index, tail, started, origin, size, owned)
    ensures |index| > 0 && tail == Pos(started - 1, origin, |index|)
  {
  }

  lemma NewestIsLast(index: seq<Entry>, tail: nat, started: nat, origin: int, size: nat, owned: map<nat, BlockId>)
    requires IndexFits(index, tail, started, origin, size, owned)
    ensures forall j :: j in owned ==> j <= started - 1
  {
  }

  lemma NewestIsNew(index: seq<Entry>, tail: nat, started: nat, origin: int, size: nat, owned: map<nat, BlockId>)
    requires IndexFits(index, tail, started, origin, size, owned)
    ensures started !in owned
  {
  }

  /** A started block with nothing in it yet is owned. */
  lemma StartedIsOwned(owned: map<nat, BlockId>, started: nat, size: nat, done: seq<bool>, id: BlockId)
    requires OwnedExactly(owned, started, size, done) && |done| == started * size && size > 0
    ensures OwnedExactly(owned[started := id], started + 1, size, done + [false])
  {
    forall j | 0 <= j < started
      ensures AllDone(done + [false], j, size) <==> AllDone(done, j, size)
    {
      OlderEnds(j, started, size);
      assert forall i :: j * size <= i < j * size + size ==> (done + [false])[i] == done[i];
    }
    assert !(done + [false])[|done|];
  }

  lemma ResetFits<T>(blocks: map<BlockId, Block<T>>, owned: map<nat, BlockId>, size: nat,
                     history: seq<T>, done: seq<bool>, id: BlockId)
    requires |history| == |done| && id in blocks && forall k :: k in owned ==> owned[k] != id
    requires BlocksFit(blocks, owned, size, history, done)
    ensures BlocksFit(blocks[id := blocks[id].(completed := 0)], owned, size, history, done)
  {
  }
}
