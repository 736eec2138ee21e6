/**
 * The circular index from block numbers to blocks of an implicit producer.  Block k holds the elements
 * with indices from k * size up to (k + 1) * size; an owned block is one that still has elements to give.
 */
module BlockIndexes {
  import opened Options
  import opened Remainders

  type BlockId = nat

  /** An unused entry has the invalid key; a released one, no block. */
  datatype Entry = Entry(key: Option<nat>, block: Option<BlockId>)

  /** Where the entry of block k is, in an index of this capacity. */
  function Pos(k: int, origin: int, capacity: nat): (p: nat)
    requires capacity > 0
    ensures p < capacity
  {
    Mod(k + origin, capacity)
  }

  ghost predicate EntryFits(index: seq<Entry>, origin: int, size: nat, k: nat, id: BlockId)
    requires |index| > 0
  {
    index[Pos(k, origin, |index|)] == Entry(Some(k * size), Some(id))
  }

  ghost predicate Occupied(origin: int, capacity: nat, owned: map<nat, BlockId>, p: nat)
    requires capacity > 0
  {
    exists k :: k in owned && Pos(k, origin, capacity) == p
  }

  /** The index represents the owned blocks among the first started ones; the newest is at the tail. */
  ghost predicate IndexFits(index: seq<Entry>, tail: nat, started: nat, origin: int, size: nat, owned: map<nat,
                            BlockId>) {
    && |index| > 0 && tail == Pos(started - 1, origin, |index|)
    && (forall k :: k in owned ==> k < started <= k + |index| && EntryFits(index, origin, size, k, owned[k]))
    && (owned.Keys != {} ==> started > 0 && index[tail].key == Some((started - 1) * size))
    && (forall p :: 0 <= p < |index| && index[p].block.Some? ==> Occupied(origin, |index|, owned, p))
  }

  /** Division of signed words truncates towards zero. */
  function SignedQuotient(a: int, b: nat): int
    requires b > 0
  {
    if a >= 0 then a / b else -((-a) / b)
  }

  /** get_block_index_index_for_index: from an entry with this key back by as many blocks as the bases are apart. */
  function PositionFrom(p: nat, key: nat, size: nat, capacity: nat, i: nat): (q: nat)
    requires size > 0 && capacity > 0
    ensures q < capacity
  {
    var base := i - i % size;
    Mod(p + SignedQuotient(base - key, size), capacity)
  }

  /** The same from the tail. */
  function Position(index: seq<Entry>, tail: nat, size: nat, i: nat): (p: nat)
    requires tail < |index| && index[tail].key.Some? && size > 0
    ensures p < |index|
  {
    PositionFrom(tail, index[tail].key.value, size, |index|, i)
  }

  lemma BlocksApart(i: nat, k: nat, newest: nat, size: nat)
    requires size > 0 && k <= newest && k * size <= i < k * size + size
    ensures i - i % size == k * size && SignedQuotient(k * size - newest * size, size) == k - newest
  {
    RemainderIsUnique(i, k, i - k * size, size);
    var back := newest - k;
    assert newest * size - k * size == back * size + 0;
    QuotientIsUnique(back * size, back, 0, size);
  }

  /** From the entry of any later block, an index in block k leads to the entry of block k. */
  lemma PositionFromLater(n: nat, k: nat, i: nat, origin: int, capacity: nat, size: nat)
    requires size > 0 && capacity > 0 && k <= n && k * size <= i < k * size + size
    ensures PositionFrom(Pos(n, origin, capacity), n * size, size, capacity, i) == Pos(k, origin, capacity)
  {
    BlocksApart(i, k, n, size);
    hide Mod, SignedQuotient;
    ModSum(n + origin, k - n, capacity);
  }

  /** Every index in an owned block resolves to that block's entry. */
  lemma PositionIsRight(index: seq<Entry>, tail: nat, started: nat, origin: int, size: nat, owned: map<nat, BlockId>,
                        i: nat, k: nat)
    requires IndexFits(index, tail, started, origin, size, owned) && size > 0
    requires k in owned && k * size <= i < k * size + size
    ensures tail < |index| && index[tail].key.Some?
    ensures Position(index, tail, size, i) == Pos(k, origin, |index|)
    ensures index[Position(index, tail, size, i)] == Entry(Some(k * size), Some(owned[k]))
  {
    assert k in owned.Keys && EntryFits(index, origin, size, k, owned[k]);
    assert tail == Mod(started - 1 + origin, |index|) && index[tail].key == Some((started - 1) * size);
    hide IndexFits, EntryFits, PositionFrom;
    PositionFromLater(started - 1, k, i, origin, |index|, size);
  }

  /** Different owned blocks have different entries. */
  lemma PositionsDiffer(j: nat, k: nat, origin: int, capacity: nat)
    requires capacity > 0 && j < k < j + capacity
    ensures Pos(j, origin, capacity) != Pos(k, origin, capacity)
  {
    ModsDiffer(j + origin, k + origin, capacity);
  }

  lemma NextTail(started: nat, origin: int, capacity: nat)
    requires capacity > 0
    ensures Mod(Pos(started - 1, origin, capacity) + 1, capacity) == Pos(started, origin, capacity)
    ensures Mod(Pos(started, origin, capacity) + (capacity - 1), capacity) == Pos(started - 1, origin, capacity)
  {
    hide Mod;
    ModSum(started - 1 + origin, 1, capacity);
    ModSum(started + origin, capacity - 1, capacity);
    ModTurn(started - 1 + origin, capacity);
  }

  /** When the entry after the tail has no block, it is free for the next one. */
  lemma NextIsFree(index: seq<Entry>, tail: nat, started: nat, origin: int, size: nat, owned: map<nat, BlockId>)
    requires IndexFits(index, tail, started, origin, size, owned)
    requires index[Pos(started, origin, |index|)].block.None?
    ensures forall k :: k in owned ==> started < k + |index| && Pos(k, origin, |index|) != Pos(started, origin, |index|)
    ensures owned.Keys != {} ==> tail != Pos(started, origin, |index|)
  {
    forall k | k in owned
      ensures started < k + |index| && Pos(k, origin, |index|) != Pos(started, origin, |index|)
    {
      assert EntryFits(index, origin, size, k, owned[k]);
      if started == k + |index| {
        ModTurn(k + origin, |index|);
      }
    }
    if k :| k in owned {
      if tail == Pos(started, origin, |index|) && |index| > 1 {
        ModsDiffer(started - 1 + origin, started + origin, |index|);
      }
    }
  }

  /** Entering the next block. */
  lemma InsertFits(index: seq<Entry>, tail: nat, started: nat, origin: int, size: nat, owned: map<nat, BlockId>,
                   id: BlockId)
    requires IndexFits(index, tail, started, origin, size, owned)
    requires index[Pos(started, origin, |index|)].block.None?
    ensures
      var p := Pos(started, origin, |index|);
      IndexFits(index[p := Entry(Some(started * size), Some(id))], p, started + 1, origin, size, owned[started := id])
  {
    var p := Pos(started, origin, |index|);
    var index', owned' := index[p := Entry(Some(started * size), Some(id))], owned[started := id];
    NextIsFree(index, tail, started, origin, size, owned);
    hide Pos;
    forall k | k in owned'
      ensures k < started + 1 <= k + |index'| && EntryFits(index', origin, size, k, owned'[k])
    {
      assert k != started ==> EntryFits(index, origin, size, k, owned[k]);
    }
    forall q | 0 <= q < |index'| && index'[q].block.Some?
      ensures Occupied(origin, |index'|, owned', q)
    {
      if q == p {
        assert started in owned' && Pos(started, origin, |index'|) == p;
      } else {
        assert Occupied(origin, |index|, owned, q);
        var k :| k in owned && Pos(k, origin, |index|) == q;
        assert k in owned';
      }
    }
  }

  /** A key left behind by an attempt that found no block does no harm. */
  lemma RewindFits(index: seq<Entry>, tail: nat, started: nat, origin: int, size: nat, owned: map<nat, BlockId>,
                   key: nat)
    requires IndexFits(index, tail, started, origin, size, owned)
    requires index[Pos(started, origin, |index|)].block.None?
    ensures
      IndexFits(index[Pos(started, origin, |index|) := Entry(Some(key), None)], tail, started, origin, size, owned)
  {
    NextIsFree(index, tail, started, origin, size, owned);
    hide Pos;
    var index' := index[Pos(started, origin, |index|) := Entry(Some(key), None)];
    forall k | k in owned
      ensures EntryFits(index', origin, size, k, owned[k])
    {
      assert EntryFits(index, origin, size, k, owned[k]);
    }
  }

  /** Dropping a block from its entry. */
  lemma ReleaseFits(index: seq<Entry>, tail: nat, started: nat, origin: int, size: nat, owned: map<nat, BlockId>,
                    k: nat)
    requires IndexFits(index, tail, started, origin, size, owned) && k in owned
    ensures
      var p := Pos(k, origin, |index|);
      IndexFits(index[p := index[p].(block := None)], tail, started, origin, size, owned - {k})
  {
    var p := Pos(k, origin, |index|);
    var index', owned' := index[p := index[p].(block := None)], owned - {k};
    forall j | j in owned'
      ensures EntryFits(index', origin, size, j, owned'[j])
    {
      assert EntryFits(index, origin, size, j, owned[j]);
      if j < k {
        PositionsDiffer(j, k, origin, |index|);
      } else {
        PositionsDiffer(k, j, origin, |index|);
      }
    }
    forall q | 0 <= q < |index'| && index'[q].block.Some?
      ensures Occupied(origin, |index'|, owned', q)
    {
      var j :| j in owned && Pos(j, origin, |index|) == q;
      assert j in owned';
    }
    assert owned'.Keys != {} ==> owned.Keys != {};
  }

  // ----- Growing

  /** From after the tail round to the tail. */
  function Rotated<T>(index: seq<T>, tail: nat): (rotated: seq<T>)
    requires tail < |index|
    ensures |rotated| == |index|
  {
    index[tail + 1..] + index[..tail + 1]
  }

  lemma RotatedAt<T>(index: seq<T>, tail: nat, j: nat)
    requires tail < |index| && j < |index|
    ensures Rotated(index, tail)[j] == index[Mod(tail + 1 + j, |index|)]
  {
    var n := |index|;
    hide Mod;
    if j < n - tail - 1 {
      ModSmall(tail + 1 + j, n);
    } else {
      ModTurn(tail + 1 + j - n, n);
      ModSmall(tail + 1 + j - n, n);
    }
  }

  /** new_block_index: the old entries, rotated, then as many unused ones. */
  function Grown(index: seq<Entry>, tail: nat): (grown: seq<Entry>)
    requires tail < |index|
    ensures |grown| == 2 * |index|
  {
    Rotated(index, tail) + seq(|index|, _ => Entry(None, None))
  }

  /** Each old entry is found again where the rotation puts it. */
  lemma GrownAt(index: seq<Entry>, tail: nat, j: nat)
    requires tail < |index| && j < |index|
    ensures Grown(index, tail)[j] == index[Mod(tail + 1 + j, |index|)]
  {
    RotatedAt(index, tail, j);
    hide Rotated, Mod;
  }

  /** Block k was at Pos(k, origin) and is at k + n - started now. */
  lemma RotatedPos<T>(index: seq<T>, tail: nat, started: nat, origin: int, k: nat)
    requires |index| > 0 && tail == Pos(started - 1, origin, |index|) && k < started <= k + |index|
    ensures
      var n := |index|;
      && Pos(k, n - started, 2 * n) == k + n - started
      && Mod(tail + 1 + (k + n - started), n) == Pos(k, origin, n)
      && Rotated(index, tail)[k + n - started] == index[Pos(k, origin, n)]
  {
    hide Mod, Rotated;
    var n := |index|;
    ModSmall(k + n - started, 2 * n);
    ModSum(started - 1 + origin, 1 + (k + n - started), n);
    ModTurn(k + origin, n);
    assert started - 1 + origin + (1 + (k + n - started)) == k + origin + n;
    RotatedAt(index, tail, k + n - started);
  }

  lemma GrownIsRotated(index: seq<Entry>, tail: nat, j: nat)
    requires tail < |index| && j < |index|
    ensures Grown(index, tail)[j] == Rotated(index, tail)[j]
  {
    hide Rotated;
  }

  lemma SameRotation(tail: nat, a: nat, b: nat, n: nat)
    requires a < n && b < n && Mod(tail + 1 + a, n) == Mod(tail + 1 + b, n)
    ensures a == b
  {
    hide Mod;
    if a < b {
      ModsDiffer(tail + 1 + a, tail + 1 + b, n);
    } else if b < a {
      ModsDiffer(tail + 1 + b, tail + 1 + a, n);
    }
  }

  /** An entry of the grown index with a block is the entry of an owned block. */
  lemma GrownOccupied(index: seq<Entry>, tail: nat, started: nat, origin: int, size: nat, owned: map<nat, BlockId>,
                      p: nat)
    requires IndexFits(index, tail, started, origin, size, owned)
    requires p < 2 * |index| && Grown(index, tail)[p].block.Some?
    ensures Occupied(|index| - started, 2 * |index|, owned, p)
  {
    hide Mod;
    var n := |index|;
    assert p < n;
    GrownAt(index, tail, p);
    var q := Mod(tail + 1 + p, n);
    assert Occupied(origin, n, owned, q);
    var k :| k in owned && Pos(k, origin, n) == q;
    hide Grown, Pos;
    RotatedPos(index, tail, started, origin, k);
    SameRotation(tail, p, k + n - started, n);
  }

  lemma GrownTail(index: seq<Entry>, tail: nat, started: nat)
    requires tail < |index|
    ensures Pos(started - 1, |index| - started, 2 * |index|) == |index| - 1
    ensures Grown(index, tail)[|index| - 1] == index[tail]
  {
    hide Mod, Grown;
    var n := |index|;
    ModSmall(n - 1, 2 * n);
    GrownAt(index, tail, n - 1);
    ModTurn(tail, n);
    ModSmall(tail, n);
  }

  /** Growing preserves every lookup: the same blocks, under a new origin. */
  lemma GrownFits(index: seq<Entry>, tail: nat, started: nat, origin: int, size: nat, owned: map<nat, BlockId>)
    requires IndexFits(index, tail, started, origin, size, owned)
    ensures IndexFits(Grown(index, tail), |index| - 1, started, |index| - started, size, owned)
  {
    hide Grown, Pos, Mod, Occupied, Rotated;
    var n, grown, origin' := |index|, Grown(index, tail), |index| - started;
    GrownTail(index, tail, started);
    forall k | k in owned
      ensures EntryFits(grown, origin', size, k, owned[k])
    {
      assert EntryFits(index, origin, size, k, owned[k]);
      RotatedPos(index, tail, started, origin, k);
      GrownIsRotated(index, tail, k + n - started);
    }
    forall p | 0 <= p < |grown| && grown[p].block.Some?
      ensures Occupied(origin', |grown|, owned, p)
    {
      GrownOccupied(index, tail, started, origin, size, owned, p);
    }
  }
}
