/**
 * One producer's blocks and their index while an enqueuer and any number of dequeuers are at work, one access to
 * shared memory per step.  Dequeuers look their block up with a header, a tail and a key that they read
 * one after the other; meanwhile blocks are entered, released and reused, and the index is rewound or replaced.
 */
module BlockRaces {
  import opened Options
  import opened Remainders
  import opened BlockIndexes
  import opened ImplicitProducers

  type Thread = nat

  /** One version of the index: which entry each slot points to.  Versions share entries. */
  datatype Header = Header(slots: seq<nat>, tail: nat)

  /** Where the enqueuer is; x is the entry it prepares, b the block it was given. */
  datatype Writer<T> =
    | Idle
    | Check(element: T)
    | Grow(element: T)
    | Key(element: T, x: nat)
    | Advance(element: T, x: nat)
    | Requisition(element: T, x: nat)
    | Rewind(x: nat)
    | Null(x: nat)
    | Reset(element: T, x: nat, b: BlockId)
    | Enter(element: T, x: nat, b: BlockId)
    | Write(element: T)
    | Publish(element: T)

  /** Where a dequeuer is that claimed index i; h, p, x and b are the header, tail, entry and block it has read. */
  datatype Reader =
    | LoadHeader(i: nat)
    | LoadTail(i: nat, h: nat)
    | LoadKey(i: nat, h: nat, p: nat)
    | LoadBlock(i: nat, x: nat)
    | MoveOut(i: nat, x: nat, b: BlockId)
    | Count(i: nat, x: nat, b: BlockId)
    | Clear(i: nat, x: nat, b: BlockId)
    | Free(b: BlockId)

  datatype Memory<T> = Memory(
    size: nat,
    entries: seq<Entry>,
    headers: seq<Header>,     // the last one is current
    blocks: map<BlockId, Block<T>>,
    pool: set<BlockId>,
    nextBlock: BlockId,
    tailBlock: BlockId,
    tail: nat,
    head: nat,
    writer: Writer<T>,
    readers: map<Thread, Reader>)

  datatype Owner = Pooled | WithWriter | OfBlock(k: nat) | WithReader(t: Thread)

  datatype Delivery<T> = Delivery(index: nat, element: T)

  /**
   * What no access reads: the elements published; the entry of each block number, and the block of each started
   * one; the numbers whose entry was cleared, and the lowest that was not; which elements were moved out and counted;
   * how far each header goes; who has each block, who claimed each index, which index was the last of its block.
   */
  datatype Shadow<T> = Shadow(
    history: seq<T>,
    place: seq<nat>,
    given: seq<BlockId>,
    cleared: set<nat>,
    low: nat,
    moved: seq<bool>,
    counted: seq<bool>,
    origins: seq<int>,
    limits: seq<nat>,
    owner: map<BlockId, Owner>,
    takers: seq<Thread>,
    last: map<nat, nat>,
    got: seq<Delivery<T>>)

  datatype State<T> = State(m: Memory<T>, g: Shadow<T>)

  /** What the environment decides: may memory be allocated, which free block comes, what is in new memory. */
  datatype Choice = Choice(mayGrow: bool, mayAllocate: bool, pick: BlockId, junk: seq<Option<BlockId>>)

  datatype Action<T> =
    | Begin(element: T)
    | Produce(choice: Choice)
    | Claim(t: Thread)
    | Consume(t: Thread)

  // ----- The enqueuer

  function Current<T>(m: Memory<T>): Header
    requires m.headers != []
  {
    m.headers[|m.headers| - 1]
  }

  function Behind(h: Header): (p: nat)
    requires h.slots != []
    ensures p < |h.slots|
  {
    Mod(h.tail + 1, |h.slots|)
  }

  predicate IsFree(e: Entry) {
    e.key.None? || e.block.None?
  }

  /** Does the index have what the enqueuer's next access refers to? */
  predicate CanProduce<T>(m: Memory<T>, c: Choice) {
    match m.writer
    case Idle => true
    case Check(_) =>
      && m.headers != [] && var h := Current(m);
      h.slots != [] && h.slots[Behind(h)] < |m.entries|
    case Grow(_) => m.headers != [] && Current(m).tail < |Current(m).slots| == |c.junk|
    case Key(_, x) => x < |m.entries|
    case Advance(_, x) => m.headers != [] && Current(m).slots != []
    case Requisition(_, x) => m.pool != {} ==> c.pick in m.pool
    case Rewind(x) => m.headers != [] && Current(m).slots != []
    case Null(x) => x < |m.entries|
    case Reset(_, x, b) => b in m.blocks
    case Enter(_, x, b) => x < |m.entries|
    case Write(_) => m.size > 0 && m.tailBlock in m.blocks && SlotIn(m.tail, m.size) < |m.blocks[m.tailBlock].elements|
    case Publish(_) => true
  }

  function WithTail<T>(m: Memory<T>, tail: nat): Memory<T>
    requires m.headers != []
  {
    m.(headers := m.headers[|m.headers| - 1 := Current(m).(tail := tail)])
  }

  /** new_block_index: the slots rotated, then as many pointing to new entries. */
  function Larger(h: Header, entries: nat): (h': Header)
    requires h.tail < |h.slots|
    ensures |h'.slots| == 2 * |h.slots| && h'.tail == |h.slots| - 1
  {
    Header(Rotated(h.slots, h.tail) + seq(|h.slots|, j requires 0 <= j => entries + j), |h.slots| - 1)
  }

  function Unused(junk: seq<Option<BlockId>>): (entries: seq<Entry>)
    ensures |entries| == |junk| && forall j :: 0 <= j < |junk| ==> entries[j] == Entry(None, junk[j])
  {
    seq(|junk|, j requires 0 <= j < |junk| => Entry(None, junk[j]))
  }

  function WithElement<T>(b: Block<T>, slot: nat, element: Option<T>): Block<T>
    requires slot < |b.elements|
  {
    b.(elements := b.elements[slot := element])
  }

  function Produced<T>(m: Memory<T>, c: Choice): Memory<T>
    requires CanProduce(m, c)
  {
    match m.writer
    case Idle => m
    case Check(e) =>
      var h := Current(m);
      if IsFree(m.entries[h.slots[Behind(h)]]) then m.(writer := Key(e, h.slots[Behind(h)]))
      else m.(writer := if c.mayGrow then Grow(e) else Idle)
    case Grow(e) =>
      var h' := Larger(Current(m), |m.entries|);
      m.(entries := m.entries + Unused(c.junk), headers := m.headers + [h'], writer := Key(e, h'.slots[Behind(h')]))
    case Key(e, x) => m.(entries := m.entries[x := m.entries[x].(key := Some(m.tail))], writer := Advance(e, x))
    case Advance(e, x) => WithTail(m, Behind(Current(m))).(writer := Requisition(e, x))
    case Requisition(e, x) =>
      if m.pool != {} then m.(pool := m.pool - {c.pick}, writer := Reset(e, x, c.pick))
      else if c.mayAllocate then
        m.(blocks := m.blocks[m.nextBlock := Block(seq(m.size, _ => None), 0)], nextBlock := m.nextBlock + 1,
           writer := Reset(e, x, m.nextBlock))
      else m.(writer := Rewind(x))
    case Rewind(x) =>
      var h := Current(m);
      WithTail(m, Mod(h.tail + (|h.slots| - 1), |h.slots|)).(writer := Null(x))
    case Null(x) => m.(entries := m.entries[x := m.entries[x].(block := None)], writer := Idle)
    case Reset(e, x, b) => m.(blocks := m.blocks[b := m.blocks[b].(completed := 0)], writer := Enter(e, x, b))
    case Enter(e, x, b) =>
      m.(entries := m.entries[x := m.entries[x].(block := Some(b))], tailBlock := b, writer := Write(e))
    case Write(e) =>
      var b := m.blocks[m.tailBlock];
      m.(blocks := m.blocks[m.tailBlock := WithElement(b, SlotIn(m.tail, m.size), Some(e))], writer := Publish(e))
    case Publish(e) => m.(tail := m.tail + 1, writer := Idle)
  }

  /** A call of enqueue: within a block it can write at once; at its end it needs another one, if there is leeway. */
  function Begun<T>(m: Memory<T>, e: T): Memory<T>
    requires m.size > 0
  {
    m.(writer :=
      if SlotIn(m.tail, m.size) != 0 then Write(e) else if HasLeeway(m.head, m.tail, m.size) then Check(e) else Idle)
  }

  // ----- A dequeuer

  predicate CanConsume<T>(m: Memory<T>, r: Reader) {
    match r
    case LoadHeader(i) => m.headers != []
    case LoadTail(i, h) => h < |m.headers|
    case LoadKey(i, h, p) =>
      && m.size > 0 && h < |m.headers| && p < |m.headers[h].slots|
      && m.headers[h].slots[p] < |m.entries| && m.entries[m.headers[h].slots[p]].key.Some?
    case LoadBlock(i, x) => x < |m.entries| && m.entries[x].block.Some?
    case MoveOut(i, x, b) =>
      && m.size > 0 && b in m.blocks
      && SlotIn(i, m.size) < |m.blocks[b].elements| && m.blocks[b].elements[SlotIn(i, m.size)].Some?
    case Count(i, x, b) => b in m.blocks
    case Clear(i, x, b) => x < |m.entries|
    case Free(b) => true
  }

  function Goto<T>(m: Memory<T>, t: Thread, r: Reader): Memory<T> {
    m.(readers := m.readers[t := r])
  }

  function Consumed<T>(m: Memory<T>, t: Thread): Memory<T>
    requires t in m.readers && CanConsume(m, m.readers[t])
  {
    match m.readers[t]
    case LoadHeader(i) => Goto(m, t, LoadTail(i, |m.headers| - 1))
    case LoadTail(i, h) => Goto(m, t, LoadKey(i, h, m.headers[h].tail))
    case LoadKey(i, h, p) =>
      var slots := m.headers[h].slots;
      Goto(m, t, LoadBlock(i, slots[PositionFrom(p, m.entries[slots[p]].key.value, m.size, |slots|, i)]))
    case LoadBlock(i, x) => Goto(m, t, MoveOut(i, x, m.entries[x].block.value))
    case MoveOut(i, x, b) =>
      Goto(m, t, Count(i, x, b)).(blocks := m.blocks[b := WithElement(m.blocks[b], SlotIn(i, m.size), None)])
    case Count(i, x, b) =>
      var completed := m.blocks[b].completed + 1;
      var m' := m.(blocks := m.blocks[b := m.blocks[b].(completed := completed)]);
      if completed == m.size then Goto(m', t, Clear(i, x, b)) else m'.(readers := m.readers - {t})
    case Clear(i, x, b) =>
      Goto(m, t, Free(b)).(entries := m.entries[x := m.entries[x].(block := None)])
    case Free(b) => m.(pool := m.pool + {b}, readers := m.readers - {t})
  }

  // ----- What is remembered

  function Started<T>(s: State<T>): nat {
    |s.g.given|
  }

  /** The first number from low up to started that is not cleared. */
  function Lowest(cleared: set<nat>, low: nat, started: nat): (k: nat)
    requires low <= started
    ensures low <= k <= started && (k < started ==> k !in cleared) && forall j :: low <= j < k ==> j in cleared
    decreases started - low
  {
    if low < started && low in cleared then Lowest(cleared, low + 1, started) else low
  }

  function RecordProduced<T>(s: State<T>, c: Choice): Shadow<T>
    requires CanProduce(s.m, c)
  {
    var m, g := s.m, s.g;
    match m.writer
    case Grow(_) => g.(origins := g.origins + [|Current(m).slots| - Started(s)], limits := g.limits + [|g.place|])
    case Key(_, x) => if |g.place| == |g.given| then g.(place := g.place + [x]) else g
    case Requisition(_, x) =>
      var w := Produced(m, c).writer;
      if w.Reset? then g.(owner := g.owner[w.b := WithWriter]) else g
    case Enter(_, x, b) => g.(given := g.given + [b], owner := g.owner[b := OfBlock(Started(s))])
    case Publish(e) => g.(history := g.history + [e], moved := g.moved + [false], counted := g.counted + [false])
    case _ => g
  }

  function RecordConsumed<T>(s: State<T>, t: Thread): Shadow<T>
    requires t in s.m.readers && CanConsume(s.m, s.m.readers[t]) && s.m.size > 0
  {
    var m, g := s.m, s.g;
    match m.readers[t]
    case MoveOut(i, x, b) =>
      if i >= |g.moved| then g
      else g.(moved := g.moved[i := true],
              got := g.got + [Delivery(i, m.blocks[b].elements[SlotIn(i, m.size)].value)])
    case Count(i, x, b) =>
      if i >= |g.counted| then g
      else g.(counted := g.counted[i := true],
              last := if m.blocks[b].completed + 1 == m.size then g.last[BlockNumber(i, m.size) := i] else g.last)
    case Clear(i, x, b) =>
      var cleared := g.cleared + {BlockNumber(i, m.size)};
      g.(cleared := cleared, low := if g.low <= |g.given| then Lowest(cleared, g.low, |g.given|) else g.low,
         owner := g.owner[b := WithReader(t)])
    case Free(b) => g.(owner := g.owner[b := Pooled])
    case _ => g
  }

  predicate Enabled<T>(s: State<T>, a: Action<T>) {
    s.m.size > 0 &&
    match a
    case Begin(_) => s.m.writer.Idle?
    case Produce(c) => CanProduce(s.m, c)
    case Claim(t) => t !in s.m.readers
    case Consume(t) => t in s.m.readers && CanConsume(s.m, s.m.readers[t])
  }

  function Do<T>(s: State<T>, a: Action<T>): State<T>
    requires Enabled(s, a)
  {
    match a
    case Begin(e) => s.(m := Begun(s.m, e))
    case Produce(c) => State(Produced(s.m, c), RecordProduced(s, c))
    case Claim(t) =>
      State(Goto(s.m, t, LoadHeader(s.m.head)).(head := s.m.head + 1), s.g.(takers := s.g.takers + [t]))
    case Consume(t) => State(Consumed(s.m, t), RecordConsumed(s, t))
  }

  // ----- The invariant: counts

  ghost predicate Counts<T>(history: seq<T>, moved: seq<bool>, counted: seq<bool>, tail: nat, head: nat,
                            takers: seq<Thread>) {
    && |history| == |moved| == |counted| == tail && |takers| == head <= tail
    && (forall i :: 0 <= i < tail && counted[i] ==> moved[i])
    && (forall i :: head <= i < tail ==> !moved[i])
  }

  /** Cleared are only blocks whose elements are all counted; all below low are, and low is not. */
  ghost predicate ClearedFit(cleared: set<nat>, low: nat, started: nat, counted: seq<bool>, size: nat) {
    && low <= started && (low < started ==> low !in cleared)
    && (forall k :: 0 <= k < low ==> k in cleared)
    && (forall k :: k in cleared ==> k < started && AllDone(counted, k, size))
  }

  predicate IsWriting<T>(w: Writer<T>) {
    w.Write? || w.Publish?
  }

  predicate HasAdvanced<T>(w: Writer<T>) {
    w.Requisition? || w.Rewind? || w.Reset? || w.Enter?
  }

  ghost predicate ProgressFits<T>(size: nat, tail: nat, writer: Writer<T>, started: nat, places: nat) {
    && size > 0 && started <= places <= started + 1
    && StartedFits(started, size, if IsWriting(writer) then tail + 1 else tail)
    && (IsWriting(writer) ==> started > 0)
    && (writer.Grow? ==> places == started)
    && (writer.Check? || writer.Grow? || writer.Key? || writer.Advance? || HasAdvanced(writer) || writer.Null?
        || places > started ==>
          SlotIn(tail, size) == 0 && tail == started * size && !IsWriting(writer))
    && (writer.Advance? || HasAdvanced(writer) || writer.Null? ==> places == started + 1)
  }

  // ----- The invariant: the index

  /** From low on, entries have the keys of their blocks, and are different. */
  ghost predicate Window(entries: seq<Entry>, place: seq<nat>, low: nat, size: nat) {
    && (forall n :: low <= n < |place| ==> place[n] < |entries| && entries[place[n]].key == Some(n * size))
    && (forall j, n :: low <= j < n < |place| ==> place[j] != place[n])
  }

  /** A header leads to the entries of all blocks from low up to its limit. */
  ghost predicate Covers(h: Header, origin: int, limit: nat, place: seq<nat>, low: nat, entries: nat) {
    && h.tail < |h.slots| && limit <= |place|
    && (forall p :: 0 <= p < |h.slots| ==> h.slots[p] < entries)
    && (forall p, q :: 0 <= p < q < |h.slots| ==> h.slots[p] != h.slots[q])
    && (low < limit ==> limit <= low + |h.slots|)
    && (forall n :: low <= n < limit ==> h.slots[Pos(n, origin, |h.slots|)] == place[n])
  }

  function Limit(limits: seq<nat>, places: nat, h: nat): nat {
    if h < |limits| then limits[h] else places
  }

  /** The tail is the slot of the last one of so many blocks. */
  ghost predicate EndsAt(h: Header, origin: int, blocks: nat) {
    h.slots != [] && h.tail == Pos(blocks - 1, origin, |h.slots|)
  }

  ghost predicate HeadersFit(headers: seq<Header>, origins: seq<int>, limits: seq<nat>, place: seq<nat>, low: nat,
                             entries: nat) {
    && |headers| == |origins| == |limits| + 1
    && (forall h :: 0 <= h < |headers| ==>
          Covers(headers[h], origins[h], Limit(limits, |place|, h), place, low, entries))
    && (forall h :: 0 <= h < |limits| ==> EndsAt(headers[h], origins[h], limits[h]))
  }

  ghost predicate TailFits(headers: seq<Header>, origins: seq<int>, blocks: nat) {
    headers != [] && |origins| == |headers| && EndsAt(headers[|headers| - 1], origins[|headers| - 1], blocks)
  }

  // ----- The invariant: blocks

  ghost predicate IsOpen(k: nat, given: seq<BlockId>, cleared: set<nat>) {
    k < |given| && k !in cleared
  }

  ghost predicate OpenEntries(entries: seq<Entry>, place: seq<nat>, given: seq<BlockId>, cleared: set<nat>) {
    forall k: nat :: IsOpen(k, given, cleared) ==>
      k < |place| && place[k] < |entries| && entries[place[k]].block == Some(given[k])
  }

  ghost predicate Contents<T>(b: Block<T>, base: nat, size: nat, history: seq<T>, moved: seq<bool>,
                              counted: seq<bool>) {
    && |history| == |moved| == |counted| && base <= |counted| && |b.elements| == size
    && (forall j :: 0 <= j < size && base + j < |history| ==>
          b.elements[j] == if moved[base + j] then None else Some(history[base + j]))
    && b.completed == CountDone(counted, base, End(base, size, |counted|))
  }

  ghost predicate OpenContents<T>(blocks: map<BlockId, Block<T>>, given: seq<BlockId>, cleared: set<nat>, size: nat,
                                  history: seq<T>, moved: seq<bool>, counted: seq<bool>) {
    forall k: nat :: IsOpen(k, given, cleared) ==>
      given[k] in blocks && Contents(blocks[given[k]], k * size, size, history, moved, counted)
  }

  predicate WriterHas<T>(w: Writer<T>, b: BlockId) {
    (w.Reset? || w.Enter?) && w.b == b
  }

  ghost predicate OwnerFits<T>(b: BlockId, owner: Owner, pool: set<BlockId>, given: seq<BlockId>, cleared: set<nat>,
                               writer: Writer<T>, readers: map<Thread, Reader>) {
    match owner
    case Pooled => b in pool
    case WithWriter => WriterHas(writer, b)
    case OfBlock(k) => IsOpen(k, given, cleared) && given[k] == b
    case WithReader(t) => t in readers && readers[t] == Free(b)
  }

  /** Each block has exactly one owner, and each owner its block. */
  ghost predicate Owned<T>(blocks: map<BlockId, Block<T>>, nextBlock: nat, size: nat, owner: map<BlockId, Owner>,
                           pool: set<BlockId>, given: seq<BlockId>, cleared: set<nat>, writer: Writer<T>,
                           readers: map<Thread, Reader>) {
    && blocks.Keys == owner.Keys
    && (forall b :: b in blocks ==> b < nextBlock && |blocks[b].elements| == size)
    && (forall b :: b in owner ==> OwnerFits(b, owner[b], pool, given, cleared, writer, readers))
    && (forall b :: b in pool ==> b in owner && owner[b] == Pooled)
    && (forall k: nat :: IsOpen(k, given, cleared) ==> given[k] in owner && owner[given[k]] == OfBlock(k))
    && (writer.Reset? || writer.Enter? ==> writer.b in owner && owner[writer.b] == WithWriter)
    && (forall t :: t in readers && readers[t].Free? ==> readers[t].b in owner && owner[readers[t].b] == WithReader(t))
  }

  // ----- The invariant: the enqueuer

  ghost predicate WriterFits<T>(m: Memory<T>, place: seq<nat>, given: seq<BlockId>) {
    && m.size > 0
    && (SlotIn(m.tail, m.size) != 0 || IsWriting(m.writer) ==> given != [] && m.tailBlock == given[|given| - 1])
    && match m.writer
       case Idle => |place| > |given| ==> place[|given|] < |m.entries| && m.entries[place[|given|]].block.None?
       case Check(_) => |place| > |given| ==> place[|given|] < |m.entries| && m.entries[place[|given|]].block.None?
       case Grow(_) => true
       case Key(_, x) =>
         && m.headers != [] && Current(m).slots != [] && x == Current(m).slots[Behind(Current(m))]
         && x < |m.entries| && IsFree(m.entries[x]) && (|place| > |given| ==> x == place[|given|])
       case Write(_) => true
       case Publish(e) =>
         && m.tailBlock in m.blocks && SlotIn(m.tail, m.size) < |m.blocks[m.tailBlock].elements|
         && m.blocks[m.tailBlock].elements[SlotIn(m.tail, m.size)] == Some(e)
       case Enter(_, x, b) => |place| > |given| && x == place[|given|] && b in m.blocks && m.blocks[b].completed == 0
       case _ => |place| > |given| && m.writer.x == place[|given|]
  }

  // ----- The invariant: the dequeuers

  function IndexOf(r: Reader): Option<nat> {
    if r.Free? then None else Some(r.i)
  }

  /** Thread t has claimed index i, whose block is open. */
  ghost predicate Serves<T>(s: State<T>, t: Thread, i: nat) {
    && s.m.size > 0 && i < |s.g.takers| && s.g.takers[i] == t && |s.g.takers| <= |s.g.moved| == |s.g.counted|
    && BlockNumber(i, s.m.size) < |s.g.given| <= |s.g.place| && BlockNumber(i, s.m.size) !in s.g.cleared
  }

  ghost predicate InHeader<T>(s: State<T>, h: nat, k: nat) {
    && |s.g.origins| == |s.m.headers| && h < |s.m.headers| && s.m.headers[h].slots != []
    && k < Limit(s.g.limits, |s.g.place|, h)
  }

  /** Slot p of header h is that of block k or a later one. */
  ghost predicate IsLater<T>(s: State<T>, h: nat, p: nat, k: nat) {
    InHeader(s, h, k) &&
    exists n :: k <= n < Limit(s.g.limits, |s.g.place|, h) && Pos(n, s.g.origins[h], |s.m.headers[h].slots|) == p
  }

  ghost predicate ReaderFits<T>(s: State<T>, t: Thread, r: Reader) {
    r.Free? ||
    (Serves(s, t, r.i) &&
     var k := BlockNumber(r.i, s.m.size);
     && (if r.Count? || r.Clear? then s.g.moved[r.i] else !s.g.moved[r.i])
     && (if r.Clear? then s.g.counted[r.i] else !s.g.counted[r.i])
     && match r
        case LoadHeader(_) => true
        case LoadTail(_, h) => InHeader(s, h, k)
        case LoadKey(_, h, p) => IsLater(s, h, p, k)
        case LoadBlock(_, x) => x == s.g.place[k]
        case MoveOut(_, x, b) => x == s.g.place[k] && b == s.g.given[k]
        case Count(_, x, b) => x == s.g.place[k] && b == s.g.given[k]
        case Clear(_, x, b) =>
          && x == s.g.place[k] && b == s.g.given[k]
          && AllDone(s.g.counted, k, s.m.size) && k in s.g.last && s.g.last[k] == r.i)
  }

  ghost predicate ReadersFit<T>(s: State<T>) {
    forall t :: t in s.m.readers ==> ReaderFits(s, t, s.m.readers[t])
  }

  /** No claimed index is forgotten, and no finished block. */
  ghost predicate NoneForgotten(readers: map<Thread, Reader>, takers: seq<Thread>, counted: seq<bool>,
                                given: seq<BlockId>,
                                   cleared: set<nat>, last: map<nat, nat>, size: nat) {
    && size > 0
    && (forall i :: 0 <= i < |takers| && i < |counted| && !counted[i] ==>
          takers[i] in readers && IndexOf(readers[takers[i]]) == Some(i))
    && (forall k: nat :: IsOpen(k, given, cleared) && AllDone(counted, k, size) ==>
          && k in last && last[k] < |takers| && BlockNumber(last[k], size) == k && takers[last[k]] in readers
          && readers[takers[last[k]]].Clear? && readers[takers[last[k]]].i == last[k])
  }

  predicate HasGot<T>(got: seq<Delivery<T>>, i: nat) {
    exists d :: 0 <= d < |got| && got[d].index == i
  }

  /** What was moved out is what was enqueued, once for each index. */
  ghost predicate Delivered<T>(got: seq<Delivery<T>>, history: seq<T>, moved: seq<bool>) {
    && |moved| == |history|
    && (forall d :: 0 <= d < |got| ==>
          got[d].index < |history| && moved[got[d].index] && got[d].element == history[got[d].index])
    && (forall c, d :: 0 <= c < d < |got| ==> got[c].index != got[d].index)
    && (forall i :: 0 <= i < |moved| && moved[i] ==> HasGot(got, i))
  }

  ghost predicate Inv<T>(s: State<T>) {
    var m, g := s.m, s.g;
    && Counts(g.history, g.moved, g.counted, m.tail, m.head, g.takers)
    && ClearedFit(g.cleared, g.low, |g.given|, g.counted, m.size)
    && ProgressFits(m.size, m.tail, m.writer, |g.given|, |g.place|)
    && Window(m.entries, g.place, g.low, m.size)
    && HeadersFit(m.headers, g.origins, g.limits, g.place, g.low, |m.entries|)
    && TailFits(m.headers, g.origins, |g.given| + (if HasAdvanced(m.writer) then 1 else 0))
    && OpenEntries(m.entries, g.place, g.given, g.cleared)
    && OpenContents(m.blocks, g.given, g.cleared, m.size, g.history, g.moved, g.counted)
    && Owned(m.blocks, m.nextBlock, m.size, g.owner, m.pool, g.given, g.cleared, m.writer, m.readers)
    && WriterFits(m, g.place, g.given)
    && ReadersFit(s)
    && NoneForgotten(m.readers, g.takers, g.counted, g.given, g.cleared, g.last, m.size)
    && Delivered(g.got, g.history, g.moved)
  }
}
