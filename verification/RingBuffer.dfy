/**
 * The single-producer single-consumer ring buffer: first as one thread sees it, then as a machine
 * in which every load, comparison, word of a copy and store is a step of its own.
 */
module RingBuffers {
  import opened Remainders

  // ----- The k-th item is in slot Mod(k, n) of a ring of n

  /** GetSize's arithmetic: the distance between two counts from their slots alone. */
  lemma SizeFromSlots(tail: nat, head: nat, n: nat)
    requires n > 0 && tail <= head < tail + n
    ensures Mod(Mod(head, n) + n - Mod(tail, n), n) == head - tail
  {
    hide Mod;
    ModSum(tail, head - tail, n);
    BackAgain(Mod(tail, n), head - tail, n);
  }

  /** Going on by size slots and asking for the distance gives size. */
  lemma BackAgain(tail: nat, size: nat, n: nat)
    requires tail < n && size < n
    ensures Mod(Mod(tail + size, n) + n - tail, n) == size
  {
    hide Mod;
    if tail + size < n {
      ModSmall(tail + size, n);
      ModTurn(size, n);
    } else {
      ModTurn(tail + size - n, n);
      ModSmall(tail + size - n, n);
    }
    ModSmall(size, n);
  }

  // ----- As one thread sees it

  class RingBuffer<T(0)> {
    const capacity: nat
    const slots: array<T>
    var head: nat
    var tail: nat

    ghost predicate Valid()
      reads this
    {
      slots.Length == capacity + 1 && head < slots.Length && tail < slots.Length
    }

    ghost function Size(): nat
      requires Valid()
      reads this
    {
      Mod(head + slots.Length - tail, slots.Length)
    }

    /** The slot of the i-th oldest item. */
    ghost function Place(i: nat): (slot: nat)
      requires Valid()
      reads this
      ensures slot < slots.Length
    {
      Mod(tail + i, slots.Length)
    }

    ghost function At(i: nat): T
      requires Valid()
      reads this, slots
    {
      slots[Place(i)]
    }

    /** The items, oldest first. */
    ghost function Contents(): (items: seq<T>)
      requires Valid()
      reads this, slots
      ensures |items| == Size()
    {
      seq(Size(), (i: nat) requires Valid() reads this, slots => At(i))
    }

    constructor (capacity: nat)
      ensures Valid() && fresh(slots) && this.capacity == capacity && Contents() == []
    {
      this.capacity := capacity;
      slots := new T[capacity + 1];
      head, tail := 0, 0;
      new;
      ModTurn(0, slots.Length);
      ModSmall(0, slots.Length);
    }

    method Enqueue(item: T) returns (ok: bool)
      requires Valid()
      modifies this`head, slots
      ensures Valid() && ok == (|old(Contents())| < capacity)
      ensures Contents() == if ok then old(Contents()) + [item] else old(Contents())
    {
      var n := slots.Length;
      var nextHead := Mod(head + 1, n);
      ghost var size, before := Size(), Contents();
      AfterPush(head, tail, n);
      if nextHead == tail {
        return false;
      }
      hide Mod;
      forall i | 0 <= i < size
        ensures Place(i) != head
      {
        ModsDiffer(tail + i, tail + size, n);
      }
      slots[head] := item;
      head := nextHead;
      assert Size() == size + 1;
      assert forall i :: 0 <= i < size ==> At(i) == before[i];
      assert Contents() == before + [item];
      ok := true;
    }

    method Dequeue(out: T) returns (ok: bool, item: T)
      requires Valid()
      modifies this`tail
      ensures Valid() && ok == (old(Contents()) != [])
      ensures ok ==> [item] + Contents() == old(Contents())
      ensures !ok ==> item == out && Contents() == old(Contents())
    {
      var n := slots.Length;
      ghost var size, before := Size(), Contents();
      AfterPop(head, tail, n);
      if tail == head {
        return false, out;
      }
      item := slots[tail];
      tail := Mod(tail + 1, n);
      hide Mod;
      assert Size() == size - 1;
      forall i: nat | i < size - 1
        ensures At(i) == before[i + 1]
      {
        ModSum(old(tail) + 1, i, n);
        assert old(tail) + 1 + i == old(tail) + (i + 1);
        assert before[i + 1] == old(At(i + 1));
      }
      assert [item] + Contents() == before;
      ok := true;
    }

    method GetSize() returns (size: nat)
      requires Valid()
      ensures size == |Contents()| <= capacity
    {
      size := Mod(head + slots.Length - tail, slots.Length);
    }
  }

  lemma HeadFromSize(head: nat, tail: nat, n: nat)
    requires head < n && tail < n
    ensures Mod(tail + Mod(head + n - tail, n), n) == head
  {
    hide Mod;
    ModSum(head + n - tail, tail, n);
    ModTurn(head, n);
    ModSmall(head, n);
  }

  /** The producer's arithmetic. */
  lemma AfterPush(head: nat, tail: nat, n: nat)
    requires head < n && tail < n
    ensures
      var size, next := Mod(head + n - tail, n), Mod(head + 1, n);
      && Mod(tail + size, n) == head
      && (next == tail <==> size == n - 1)
      && (next != tail ==> Mod(next + n - tail, n) == size + 1)
  {
    hide Mod;
    var size := Mod(head + n - tail, n);
    HeadFromSize(head, tail, n);
    ModSum(tail + size, 1, n);
    ModSmall(tail, n);
    if size + 1 < n {
      ModsDiffer(tail, tail + size + 1, n);
      BackAgain(tail, size + 1, n);
    } else {
      ModTurn(tail, n);
    }
  }

  /** The consumer's arithmetic. */
  lemma AfterPop(head: nat, tail: nat, n: nat)
    requires head < n && tail < n
    ensures
      var size, next := Mod(head + n - tail, n), Mod(tail + 1, n);
      && Mod(tail, n) == tail
      && (tail == head <==> size == 0)
      && (tail != head ==> Mod(head + n - next, n) == size - 1)
  {
    hide Mod;
    var size := Mod(head + n - tail, n);
    HeadFromSize(head, tail, n);
    ModSmall(tail, n);
    if size > 0 {
      ModsDiffer(tail, tail + size, n);
      SizeFromSlots(tail + 1, tail + size, n);
    }
  }
}
