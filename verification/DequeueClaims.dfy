/**
 * How the dequeuers of one producer's queue share out its elements, one atomic access per step.
 * A dequeuer takes an optimistic ticket, checks it against a count of failed tickets that it read
 * earlier and that may be stale, and only then claims an index.
 */
module DequeueClaims {
  type Thread = nat

  const WORD: int := 0x1_0000_0000_0000_0000
  const HALF: int := 0x8000_0000_0000_0000

  // ----- Wrapped comparison

  /** What a 64-bit counter holds after count increments. */
  function Wrap(count: int): nat {
    count % WORD
  }

  /** circular_less_than on 64-bit words. */
  predicate CircularLessThan(a: nat, b: nat) {
    Wrap(a - b) > HALF
  }

  /** Closer than half the range. */
  predicate Close(a: int, b: int) {
    -HALF < a - b <= HALF
  }

  lemma WrapDifference(a: int, b: int)
    ensures Wrap(Wrap(a) - Wrap(b)) == Wrap(a - b)
  {
    var turns := a / WORD - b / WORD;
    assert a - b == turns * WORD + (Wrap(a) - Wrap(b));
  }

  /** On counts less than a whole range apart, the wrapped comparison is right exactly when they are close. */
  lemma CircularAgrees(a: int, b: int)
    requires -WORD < a - b < WORD
    ensures (CircularLessThan(Wrap(a), Wrap(b)) <==> a < b) <==> Close(a, b)
  {
    WrapDifference(a, b);
  }

  /** The test of dequeue: optimistic - overcommit before tail, all in wrapped arithmetic. */
  predicate Within(optimistic: int, overcommit: int, tail: int) {
    CircularLessThan(Wrap(Wrap(optimistic) - Wrap(overcommit)), Wrap(tail))
  }

  lemma WithinAgrees(optimistic: int, overcommit: int, tail: int)
    requires Close(optimistic - overcommit, tail)
    ensures Within(optimistic, overcommit, tail) <==> optimistic - overcommit < tail
  {
    WrapDifference(optimistic, overcommit);
    CircularAgrees(optimistic - overcommit, tail);
  }

  // ----- The machine

  /** Where a dequeuer is, with the counters it has read. */
  datatype Pc =
    | Idle
    | LoadTail
    | LoadOvercommit(tail: nat)
    | LoadOptimistic(tail: nat, overcommit: nat)
    | TakeTicket(overcommit: nat)
    | ReloadTail(overcommit: nat, ticket: nat)
    | Claim(ticket: nat)
    | Overcommit(ticket: nat)

  /** Counters as the number of increments so far; the program sees them through Wrap only. */
  datatype Machine = Machine(
    tail: nat,
    head: nat,
    optimistic: nat,
    overcommit: nat,
    pcs: map<Thread, Pc>)

  /** What became of a ticket. */
  datatype Outcome = Pending | Passed | Claimed | Failed

  /** An index a dequeuer was given, as the program sees it. */
  datatype Claiming = Claiming(thread: Thread, index: nat)

  /** The published elements, the fate and the taker of each ticket, and the claims.  No access reads them. */
  datatype Shadow<E> = Shadow(published: seq<E>, tickets: seq<Outcome>, owners: seq<Thread>, claims: seq<Claiming>)

  datatype State<E> = State(m: Machine, g: Shadow<E>)

  datatype Action<E> = Publish(element: E) | Call(t: Thread) | Move(t: Thread)

  predicate Enabled<E>(s: State<E>, a: Action<E>) {
    match a
    case Publish(_) => true
    case Call(t) => t in s.m.pcs && s.m.pcs[t].Idle?
    case Move(t) =>
      t in s.m.pcs && (s.m.pcs[t].Claim? || s.m.pcs[t].Overcommit? || s.m.pcs[t].ReloadTail? ==>
        s.m.pcs[t].ticket < |s.g.tickets|)
  }

  function Goto(m: Machine, t: Thread, pc: Pc): Machine {
    m.(pcs := m.pcs[t := pc])
  }

  function Decide<E>(s: State<E>, k: nat, o: Outcome): Shadow<E>
    requires k < |s.g.tickets|
  {
    s.g.(tickets := s.g.tickets[k := o])
  }

  function Access<E>(s: State<E>, t: Thread): State<E>
    requires Enabled(s, Move(t))
  {
    var m := s.m;
    match m.pcs[t]
    case Idle => s
    case LoadTail => s.(m := Goto(m, t, LoadOvercommit(m.tail)))
    case LoadOvercommit(tail) => s.(m := Goto(m, t, LoadOptimistic(tail, m.overcommit)))
    case LoadOptimistic(tail, overcommit) =>
      s.(m := Goto(m, t, if Within(m.optimistic, overcommit, tail) then TakeTicket(overcommit) else Idle))
    case TakeTicket(overcommit) =>
      State(Goto(m, t, ReloadTail(overcommit, m.optimistic)).(optimistic := m.optimistic + 1),
            s.g.(tickets := s.g.tickets + [Pending], owners := s.g.owners + [t]))
    case ReloadTail(overcommit, k) =>
      if Within(k, overcommit, m.tail) then State(Goto(m, t, Claim(k)), Decide(s, k, Passed))
      else s.(m := Goto(m, t, Overcommit(k)))
    case Claim(k) =>
      State(Goto(m, t, Idle).(head := m.head + 1),
            Decide(s, k, Claimed).(claims := s.g.claims + [Claiming(t, Wrap(m.head))]))
    case Overcommit(k) =>
      State(Goto(m, t, Idle).(overcommit := m.overcommit + 1), Decide(s, k, Failed))
  }

  function Do<E>(s: State<E>, a: Action<E>): State<E>
    requires Enabled(s, a)
  {
    match a
    case Publish(e) => State(s.m.(tail := s.m.tail + 1), s.g.(published := s.g.published + [e]))
    case Call(t) => s.(m := Goto(s.m, t, LoadTail))
    case Move(t) => Access(s, t)
  }

  function Initial<E>(threads: set<Thread>): State<E> {
    State(Machine(0, 0, 0, 0, map t | t in threads :: Idle), Shadow([], [], [], []))
  }

  function Next<E>(s: State<E>, a: Action<E>): State<E> {
    if Enabled(s, a) then Do(s, a) else s
  }

  /** A run takes its actions in order; one that is not enabled does nothing. */
  function Run<E>(threads: set<Thread>, actions: seq<Action<E>>): State<E> {
    if actions == [] then Initial(threads)
    else Next(Run(threads, actions[..|actions| - 1]), actions[|actions| - 1])
  }

  /** The comparison a thread makes in its next access is between counts closer than half the range. */
  predicate ComparesClose(m: Machine, pc: Pc) {
    match pc
    case LoadOptimistic(tail, overcommit) => Close(m.optimistic - overcommit, tail)
    case ReloadTail(overcommit, k) => Close(k - overcommit, m.tail)
    case _ => true
  }

  /** No dequeuer sleeps on a stale counter while the others go half way round the range. */
  predicate NeverLaps<E>(threads: set<Thread>, actions: seq<Action<E>>) {
    actions == [] ||
    var rest, a := actions[..|actions| - 1], actions[|actions| - 1];
    && NeverLaps(threads, rest)
    && var m := Run(threads, rest).m;
       (a.Move? && a.t in m.pcs ==> ComparesClose(m, m.pcs[a.t]))
  }

  // ----- Counting tickets

  function Count(tickets: seq<Outcome>, o: Outcome): nat {
    if tickets == [] then 0
    else Count(tickets[..|tickets| - 1], o) + (if tickets[|tickets| - 1] == o then 1 else 0)
  }

  function Served(tickets: seq<Outcome>): nat {
    Count(tickets, Passed) + Count(tickets, Claimed)
  }

  lemma {:induction false} CountAll(tickets: seq<Outcome>)
    ensures Count(tickets, Pending) + Served(tickets) + Count(tickets, Failed) == |tickets|
  {
    if tickets != [] {
      CountAll(tickets[..|tickets| - 1]);
    }
  }

  lemma CountPush(tickets: seq<Outcome>, x: Outcome, o: Outcome)
    ensures Count(tickets + [x], o) == Count(tickets, o) + (if x == o then 1 else 0)
  {
    assert (tickets + [x])[..|tickets|] == tickets;
  }

  /** Deciding a ticket moves one from its old outcome to its new one. */
  lemma {:induction false} CountUpdate(tickets: seq<Outcome>, k: nat, x: Outcome, o: Outcome)
    requires k < |tickets|
    ensures Count(tickets[k := x], o) == Count(tickets, o) - (if tickets[k] == o then 1 else 0) +
      (if x == o then 1 else 0)
  {
    var last, after := |tickets| - 1, tickets[k := x];
    if k == last {
      assert after[..last] == tickets[..last];
    } else {
      CountUpdate(tickets[..last], k, x, o);
      assert after[..last] == tickets[..last][k := x];
    }
  }

  // ----- The invariant

  /** The test a ticket passed, against all the failures before it. */
  predicate Fair(tickets: seq<Outcome>, k: nat, tail: nat)
    requires k < |tickets|
  {
    tickets[k].Passed? || tickets[k].Claimed? ==> k - Count(tickets[..k], Failed) < tail
  }

  /** Where the pc of a thread holding a ticket belongs. */
  predicate TicketFits(pc: Pc, tickets: seq<Outcome>) {
    match pc
    case ReloadTail(v, k) => k < |tickets| && tickets[k] == Pending && v <= Count(tickets[..k], Failed)
    case Claim(k) => k < |tickets| && tickets[k] == Passed
    case Overcommit(k) => k < |tickets| && tickets[k] == Pending
    case _ => true
  }

  predicate SeenFits(pc: Pc, m: Machine) {
    match pc
    case LoadOvercommit(tail) => tail <= m.tail
    case LoadOptimistic(tail, v) => tail <= m.tail && v <= m.overcommit
    case TakeTicket(v) => v <= m.overcommit
    case _ => true
  }

  predicate HasTicket(pc: Pc) {
    pc.ReloadTail? || pc.Claim? || pc.Overcommit?
  }

  predicate Holds(pcs: map<Thread, Pc>, t: Thread, k: nat) {
    t in pcs && HasTicket(pcs[t]) && pcs[t].ticket == k
  }

  predicate Undecided(o: Outcome) {
    o.Pending? || o.Passed?
  }

  /** The undecided tickets are exactly the ones held, each by the thread that took it. */
  predicate Owned(pcs: map<Thread, Pc>, tickets: seq<Outcome>, owners: seq<Thread>) {
    && |owners| == |tickets|
    && (forall t :: t in pcs && HasTicket(pcs[t]) ==> pcs[t].ticket < |owners| && owners[pcs[t].ticket] == t)
    && (forall k :: 0 <= k < |tickets| && Undecided(tickets[k]) ==> Holds(pcs, owners[k], k))
  }

  predicate AllFair(tickets: seq<Outcome>, tail: nat) {
    forall k :: 0 <= k < |tickets| ==> Fair(tickets, k, tail)
  }

  predicate CountersFit<E>(s: State<E>) {
    && s.m.tail == |s.g.published|
    && s.m.optimistic == |s.g.tickets|
    && s.m.overcommit == Count(s.g.tickets, Failed)
    && s.m.head == Count(s.g.tickets, Claimed) == |s.g.claims|
    && (forall i :: 0 <= i < |s.g.claims| ==> s.g.claims[i].index == Wrap(i))
  }

  predicate Inv<E>(s: State<E>) {
    && CountersFit(s)
    && AllFair(s.g.tickets, s.m.tail)
    && Owned(s.m.pcs, s.g.tickets, s.g.owners)
    && (forall t :: t in s.m.pcs ==> TicketFits(s.m.pcs[t], s.g.tickets) && SeenFits(s.m.pcs[t], s.m))
  }

  /** The heart of it: fair tickets never outnumber the published elements. */
  lemma {:induction false} ServedWithinTail(tickets: seq<Outcome>, tail: nat)
    requires AllFair(tickets, tail)
    ensures Served(tickets) <= tail
  {
    if tickets != [] {
      var last := |tickets| - 1;
      var rest := tickets[..last];
      assert AllFair(rest, tail) by {
        forall k | 0 <= k < last
          ensures Fair(rest, k, tail)
        {
          assert Fair(tickets, k, tail);
          assert rest[..k] == tickets[..k];
        }
      }
      ServedWithinTail(rest, tail);
      CountAll(rest);
      assert Fair(tickets, last, tail);
    }
  }

  /** Deciding one ticket, fairly if it passes, leaves the others fair. */
  lemma DecidedIsFair(tickets: seq<Outcome>, k: nat, o: Outcome, tail: nat)
    requires k < |tickets| && AllFair(tickets, tail) && !tickets[k].Failed?
    requires o.Passed? || o.Claimed? ==> k - Count(tickets[..k], Failed) < tail
    ensures AllFair(tickets[k := o], tail)
  {
    var after := tickets[k := o];
    forall j | 0 <= j < |after|
      ensures Fair(after, j, tail)
    {
      assert Fair(tickets, j, tail);
      if j <= k {
        assert after[..j] == tickets[..j];
      } else {
        assert after[..j] == tickets[..j][k := o];
        CountUpdate(tickets[..j], k, o, Failed);
      }
    }
  }

  /** A thread with another ticket, or none, is not affected. */
  lemma OtherTicketFits(pc: Pc, tickets: seq<Outcome>, k: nat, o: Outcome)
    requires k < |tickets| && !tickets[k].Failed? && TicketFits(pc, tickets) && (HasTicket(pc) ==> pc.ticket != k)
    ensures TicketFits(pc, tickets[k := o])
  {
    if pc.ReloadTail? {
      var j := pc.ticket;
      if j < k {
        assert tickets[k := o][..j] == tickets[..j];
      } else {
        assert tickets[k := o][..j] == tickets[..j][k := o];
        CountUpdate(tickets[..j], k, o, Failed);
      }
    }
  }

  lemma PushedIsFair(tickets: seq<Outcome>, tail: nat)
    requires AllFair(tickets, tail)
    ensures AllFair(tickets + [Pending], tail)
  {
    var after := tickets + [Pending];
    forall k | 0 <= k < |after|
      ensures Fair(after, k, tail)
    {
      if k < |tickets| {
        assert Fair(tickets, k, tail);
        assert after[..k] == tickets[..k];
      }
    }
  }

  // ----- The accesses

  lemma TakeTicketKeeps<E>(s: State<E>, t: Thread)
    requires Inv(s) && Enabled(s, Move(t)) && s.m.pcs[t].TakeTicket?
    ensures Inv(Access(s, t))
  {
    var s', tickets := Access(s, t), s.g.tickets;
    PushedIsFair(tickets, s.m.tail);
    CountPush(tickets, Pending, Failed);
    CountPush(tickets, Pending, Claimed);
    forall u | u in s'.m.pcs
      ensures TicketFits(s'.m.pcs[u], s'.g.tickets) && SeenFits(s'.m.pcs[u], s'.m)
    {
      if u == t {
        assert s'.g.tickets[..|tickets|] == tickets;
      } else {
        var pc := s.m.pcs[u];
        assert TicketFits(pc, tickets) && SeenFits(pc, s.m);
        if pc.ReloadTail? {
          assert s'.g.tickets[..pc.ticket] == tickets[..pc.ticket];
        }
      }
    }
  }

  lemma DecidedIsOwned(pcs: map<Thread, Pc>, tickets: seq<Outcome>, owners: seq<Thread>, t: Thread, pc: Pc, o: Outcome)
    requires Owned(pcs, tickets, owners) && t in pcs && HasTicket(pcs[t])
    requires if Undecided(o) then HasTicket(pc) && pc.ticket == pcs[t].ticket else !HasTicket(pc)
    ensures Owned(pcs[t := pc], tickets[pcs[t].ticket := o], owners)
  {
    var k := pcs[t].ticket;
    forall j | 0 <= j < |tickets| && j != k && Undecided(tickets[j])
      ensures Holds(pcs[t := pc], owners[j], j)
    {
      assert Holds(pcs, owners[j], j);
    }
  }

  /** Deciding the ticket a thread holds does not disturb the others. */
  lemma DecideKeepsOthers<E>(s: State<E>, t: Thread, o: Outcome, u: Thread)
    requires Inv(s) && t in s.m.pcs && u in s.m.pcs && u != t && HasTicket(s.m.pcs[t])
    requires s.m.pcs[t].ticket < |s.g.tickets|
    ensures TicketFits(s.m.pcs[u], s.g.tickets[s.m.pcs[t].ticket := o]) && SeenFits(s.m.pcs[u], s.m)
  {
    assert TicketFits(s.m.pcs[t], s.g.tickets) && TicketFits(s.m.pcs[u], s.g.tickets);
    OtherTicketFits(s.m.pcs[u], s.g.tickets, s.m.pcs[t].ticket, o);
  }

  /** What deciding the ticket of thread t to o, and sending t on to pc, keeps. */
  lemma DecideKeeps<E>(s: State<E>, t: Thread, pc: Pc, o: Outcome)
    requires Inv(s) && t in s.m.pcs && HasTicket(s.m.pcs[t]) && s.m.pcs[t].ticket < |s.g.tickets| && !o.Pending?
    requires if Undecided(o) then HasTicket(pc) && pc.ticket == s.m.pcs[t].ticket else !HasTicket(pc)
    requires o.Passed? || o.Claimed? ==>
      s.m.pcs[t].ticket - Count(s.g.tickets[..s.m.pcs[t].ticket], Failed) < s.m.tail
    ensures
      var k, tickets := s.m.pcs[t].ticket, s.g.tickets;
      && AllFair(tickets[k := o], s.m.tail)
      && Owned(s.m.pcs[t := pc], tickets[k := o], s.g.owners)
      && (forall u :: u in s.m.pcs && u != t ==> TicketFits(s.m.pcs[u], tickets[k := o]) && SeenFits(s.m.pcs[u], s.m))
      && Count(tickets[k := o], Failed) == Count(tickets, Failed) + (if o.Failed? then 1 else 0)
      && Count(tickets[k := o], Claimed) == Count(tickets, Claimed) + (if o.Claimed? then 1 else 0)
  {
    var k, tickets := s.m.pcs[t].ticket, s.g.tickets;
    assert TicketFits(s.m.pcs[t], tickets);
    forall u | u in s.m.pcs && u != t
      ensures TicketFits(s.m.pcs[u], tickets[k := o]) && SeenFits(s.m.pcs[u], s.m)
    {
      DecideKeepsOthers(s, t, o, u);
    }
    DecidedIsFair(tickets, k, o, s.m.tail);
    DecidedIsOwned(s.m.pcs, tickets, s.g.owners, t, pc, o);
    CountUpdate(tickets, k, o, Failed);
    CountUpdate(tickets, k, o, Claimed);
  }

  /** A stale overcommit count only makes the test stricter. */
  lemma PassKeeps<E>(s: State<E>, t: Thread)
    requires Inv(s) && Enabled(s, Move(t)) && s.m.pcs[t].ReloadTail? && ComparesClose(s.m, s.m.pcs[t])
    requires Within(s.m.pcs[t].ticket, s.m.pcs[t].overcommit, s.m.tail)
    ensures Inv(Access(s, t))
  {
    var k, v := s.m.pcs[t].ticket, s.m.pcs[t].overcommit;
    assert TicketFits(s.m.pcs[t], s.g.tickets);
    WithinAgrees(k, v, s.m.tail);
    DecideKeeps(s, t, Claim(k), Passed);
    hide AllFair, Owned, Within;
  }

  lemma FailKeeps<E>(s: State<E>, t: Thread)
    requires Inv(s) && Enabled(s, Move(t)) && s.m.pcs[t].ReloadTail?
    requires !Within(s.m.pcs[t].ticket, s.m.pcs[t].overcommit, s.m.tail)
    ensures Inv(Access(s, t))
  {
    hide AllFair, Within;
    var s' := Access(s, t);
    forall u | u in s'.m.pcs
      ensures TicketFits(s'.m.pcs[u], s'.g.tickets) && SeenFits(s'.m.pcs[u], s'.m)
    {
      assert TicketFits(s.m.pcs[u], s.g.tickets) && SeenFits(s.m.pcs[u], s.m);
    }
    forall k | 0 <= k < |s.g.tickets| && Undecided(s.g.tickets[k])
      ensures Holds(s'.m.pcs, s'.g.owners[k], k)
    {
      assert Holds(s.m.pcs, s.g.owners[k], k);
    }
  }

  lemma ClaimKeeps<E>(s: State<E>, t: Thread)
    requires Inv(s) && Enabled(s, Move(t)) && s.m.pcs[t].Claim?
    ensures Inv(Access(s, t))
  {
    assert TicketFits(s.m.pcs[t], s.g.tickets) && Fair(s.g.tickets, s.m.pcs[t].ticket, s.m.tail);
    DecideKeeps(s, t, Idle, Claimed);
    hide AllFair, Owned;
  }

  lemma OvercommitKeeps<E>(s: State<E>, t: Thread)
    requires Inv(s) && Enabled(s, Move(t)) && s.m.pcs[t].Overcommit?
    ensures Inv(Access(s, t))
  {
    assert TicketFits(s.m.pcs[t], s.g.tickets);
    DecideKeeps(s, t, Idle, Failed);
    hide AllFair, Owned;
    forall u | u in s.m.pcs && u != t
      ensures SeenFits(s.m.pcs[u], Access(s, t).m)
    {
      assert SeenFits(s.m.pcs[u], s.m);
    }
  }

  lemma PublishKeeps<E>(s: State<E>, e: E)
    requires Inv(s)
    ensures Inv(Do(s, Publish(e)))
  {
    var s' := Do(s, Publish(e));
    forall k | 0 <= k < |s.g.tickets|
      ensures Fair(s.g.tickets, k, s'.m.tail)
    {
      assert Fair(s.g.tickets, k, s.m.tail);
    }
    forall u | u in s'.m.pcs
      ensures TicketFits(s'.m.pcs[u], s'.g.tickets) && SeenFits(s'.m.pcs[u], s'.m)
    {
      assert TicketFits(s.m.pcs[u], s.g.tickets) && SeenFits(s.m.pcs[u], s.m);
    }
  }

  /** The steps that only read. */
  lemma ReadKeeps<E>(s: State<E>, t: Thread, pc: Pc)
    requires Inv(s) && t in s.m.pcs && !HasTicket(s.m.pcs[t]) && !HasTicket(pc) && SeenFits(pc, s.m)
    ensures Inv(s.(m := Goto(s.m, t, pc)))
  {
    var s' := s.(m := Goto(s.m, t, pc));
    forall u | u in s'.m.pcs
      ensures TicketFits(s'.m.pcs[u], s'.g.tickets) && SeenFits(s'.m.pcs[u], s'.m)
    {
      assert u in s.m.pcs ==> TicketFits(s.m.pcs[u], s.g.tickets) && SeenFits(s.m.pcs[u], s.m);
    }
  }

  lemma StepKeeps<E>(s: State<E>, a: Action<E>)
    requires Inv(s) && Enabled(s, a) && (a.Move? ==> ComparesClose(s.m, s.m.pcs[a.t]))
    ensures Inv(Do(s, a))
  {
    match a
    case Publish(e) => PublishKeeps(s, e);
    case Call(t) => ReadKeeps(s, t, LoadTail);
    case Move(t) =>
      assert SeenFits(s.m.pcs[t], s.m);
      match s.m.pcs[t]
      case Idle =>
      case LoadTail => ReadKeeps(s, t, LoadOvercommit(s.m.tail));
      case LoadOvercommit(tail) => ReadKeeps(s, t, LoadOptimistic(tail, s.m.overcommit));
      case LoadOptimistic(tail, v) =>
        ReadKeeps(s, t, if Within(s.m.optimistic, v, tail) then TakeTicket(v) else Idle);
      case TakeTicket(_) => TakeTicketKeeps(s, t);
      case ReloadTail(v, k) => if Within(k, v, s.m.tail) { PassKeeps(s, t); } else { FailKeeps(s, t); }
      case Claim(_) => ClaimKeeps(s, t);
      case Overcommit(_) => OvercommitKeeps(s, t);
  }

  lemma {:induction false} RunKeeps<E>(threads: set<Thread>, actions: seq<Action<E>>)
    requires NeverLaps(threads, actions)
    ensures Inv(Run(threads, actions))
  {
    if actions != [] {
      var rest, a := actions[..|actions| - 1], actions[|actions| - 1];
      RunKeeps(threads, rest);
      if Enabled(Run(threads, rest), a) {
        StepKeeps(Run(threads, rest), a);
      }
    }
  }

  // ----- What dequeue promises

  /** headIndex never passes tailIndex, and the i-th claim is of index i. */
  lemma HeadNeverPassesTail<E>(threads: set<Thread>, actions: seq<Action<E>>)
    requires NeverLaps(threads, actions)
    ensures
      var s := Run(threads, actions);
      && s.m.head <= s.m.tail == |s.g.published|
      && |s.g.claims| == s.m.head
      && forall i :: 0 <= i < |s.g.claims| ==> s.g.claims[i].index == Wrap(i)
  {
    RunKeeps(threads, actions);
    var s := Run(threads, actions);
    ServedWithinTail(s.g.tickets, s.m.tail);
  }

  /** A dequeuer about to claim finds an element published before. */
  lemma ClaimIsBelowTail<E>(s: State<E>, t: Thread)
    requires Inv(s) && t in s.m.pcs && s.m.pcs[t].Claim?
    ensures Enabled(s, Move(t)) && s.m.head < s.m.tail == |s.g.published|
  {
    assert TicketFits(s.m.pcs[t], s.g.tickets);
    StepKeeps(s, Move(t));
    var s' := Do(s, Move(t));
    ServedWithinTail(s'.g.tickets, s'.m.tail);
  }

  /** A claim is of the next index, by one dequeuer, and of an element published before. */
  lemma ClaimIsOfPublished<E>(threads: set<Thread>, actions: seq<Action<E>>, t: Thread)
    requires NeverLaps(threads, actions)
    requires t in Run(threads, actions).m.pcs && Run(threads, actions).m.pcs[t].Claim?
    ensures
      var s := Run(threads, actions);
      var s' := Next(s, Move(t));
      && s.m.head < |s.g.published|
      && s'.g.claims == s.g.claims + [Claiming(t, Wrap(|s.g.claims|))]
      && s'.g.published == s.g.published
  {
    RunKeeps(threads, actions);
    ClaimIsBelowTail(Run(threads, actions), t);
  }

  lemma {:induction false} CountNone(tickets: seq<Outcome>, o: Outcome)
    requires forall k :: 0 <= k < |tickets| ==> tickets[k] != o
    ensures Count(tickets, o) == 0
  {
    if tickets != [] {
      CountNone(tickets[..|tickets| - 1], o);
    }
  }

  /** Once every dequeuer has returned, no ticket is left over: the counters account for the claims. */
  lemma QuietCountersBalance<E>(threads: set<Thread>, actions: seq<Action<E>>)
    requires NeverLaps(threads, actions)
    requires forall t :: t in Run(threads, actions).m.pcs ==> Run(threads, actions).m.pcs[t].Idle?
    ensures
      var m := Run(threads, actions).m;
      m.optimistic - m.overcommit == m.head
  {
    RunKeeps(threads, actions);
    var s := Run(threads, actions);
    forall k | 0 <= k < |s.g.tickets|
      ensures !Undecided(s.g.tickets[k])
    {
      assert !Holds(s.m.pcs, s.g.owners[k], k);
    }
    CountNone(s.g.tickets, Pending);
    CountNone(s.g.tickets, Passed);
    CountAll(s.g.tickets);
  }

  /** n accesses of thread t with no other thread in between. */
  function Moves<E>(s: State<E>, t: Thread, n: nat): State<E> {
    if n == 0 then s else Next(Moves(s, t, n - 1), Move(t))
  }

  /** With nothing to get, the first test fails. */
  lemma MovesAloneEmpty<E>(s: State<E>, t: Thread)
    requires t in s.m.pcs && s.m.pcs[t].Idle? && !Within(s.m.optimistic, s.m.overcommit, s.m.tail)
    ensures Moves(Next(s, Call(t)), t, 6) == s
  {
    hide Within;
    var m, v := s.m, s.m.overcommit;
    var s0 := Next(s, Call(t));
    assert Moves(s0, t, 1) == s.(m := Goto(m, t, LoadOvercommit(m.tail)));
    assert Moves(s0, t, 2) == s.(m := Goto(m, t, LoadOptimistic(m.tail, v)));
    assert m.pcs[t := Idle] == m.pcs;
    assert Moves(s0, t, 3) == s;
    assert Moves(s0, t, 4) == Moves(s0, t, 5) == Moves(s0, t, 6) == s;
  }

  /** Three accesses of a dequeuer that nobody disturbs, up to its ticket. */
  lemma MovesToTicket<E>(s: State<E>, t: Thread)
    requires t in s.m.pcs && s.m.pcs[t].Idle? && Within(s.m.optimistic, s.m.overcommit, s.m.tail)
    ensures Moves(Next(s, Call(t)), t, 3) == s.(m := Goto(s.m, t, TakeTicket(s.m.overcommit)))
  {
    hide Within;
    var m, v := s.m, s.m.overcommit;
    var s0 := Next(s, Call(t));
    assert Moves(s0, t, 1) == s.(m := Goto(m, t, LoadOvercommit(m.tail)));
    assert Moves(s0, t, 2) == s.(m := Goto(m, t, LoadOptimistic(m.tail, v)));
  }

  /** And three more, to its claim. */
  lemma MovesAlone<E>(s: State<E>, t: Thread)
    requires t in s.m.pcs && s.m.pcs[t].Idle? && Within(s.m.optimistic, s.m.overcommit, s.m.tail)
    requires s.m.optimistic == |s.g.tickets|
    ensures
      var s' := Moves(Next(s, Call(t)), t, 6);
      && s'.m.pcs == s.m.pcs
      && s'.g.published == s.g.published
      && s'.g.claims == s.g.claims + [Claiming(t, Wrap(s.m.head))]
  {
    var m, v, k := s.m, s.m.overcommit, s.m.optimistic;
    var s0 := Next(s, Call(t));
    MovesToTicket(s, t);
    var s3 := Moves(s0, t, 3);
    var s4, s5, s6 := Moves(s0, t, 4), Moves(s0, t, 5), Moves(s0, t, 6);
    assert s4 == Next(s3, Move(t)) && s5 == Next(s4, Move(t)) && s6 == Next(s5, Move(t));
    hide Moves, Within;
    assert s4.m == Goto(m, t, ReloadTail(v, k)).(optimistic := k + 1);
    assert s5.m == Goto(m, t, Claim(k)).(optimistic := k + 1);
    assert m.pcs[t := Idle] == m.pcs;
  }

  /** A dequeuer with no other one active gets the oldest element if and only if there is one. */
  lemma AloneItIsAQueue<E>(threads: set<Thread>, actions: seq<Action<E>>, t: Thread)
    requires NeverLaps(threads, actions) && t in Run(threads, actions).m.pcs
    requires forall u :: u in Run(threads, actions).m.pcs ==> Run(threads, actions).m.pcs[u].Idle?
    requires Close(Run(threads, actions).m.head, Run(threads, actions).m.tail)
    ensures
      var s := Run(threads, actions);
      var s' := Moves(Next(s, Call(t)), t, 6);
      && s'.m.pcs == s.m.pcs
      && s'.g.published == s.g.published
      && s'.g.claims ==
           (if s.m.head < |s.g.published| then s.g.claims + [Claiming(t, Wrap(s.m.head))] else s.g.claims)
  {
    RunKeeps(threads, actions);
    QuietCountersBalance(threads, actions);
    var s := Run(threads, actions);
    WithinAgrees(s.m.optimistic, s.m.overcommit, s.m.tail);
    if s.m.head < s.m.tail {
      MovesAlone(s, t);
    } else {
      MovesAloneEmpty(s, t);
    }
  }

  // ----- How long a run can be sure not to lap

  predicate Small<E>(s: State<E>, n: nat) {
    && s.m.tail <= n && s.m.optimistic <= n && s.m.overcommit <= n
    && (forall t :: t in s.m.pcs ==> SmallPc(s.m.pcs[t], n))
  }

  predicate SmallPc(pc: Pc, n: nat) {
    match pc
    case LoadOvercommit(tail) => tail <= n
    case LoadOptimistic(tail, v) => tail <= n && v <= n
    case TakeTicket(v) => v <= n
    case ReloadTail(v, k) => v <= n && k <= n
    case _ => true
  }

  lemma {:induction false} CountersAreSmall<E>(threads: set<Thread>, actions: seq<Action<E>>)
    ensures Small(Run(threads, actions), |actions|)
  {
    if actions != [] {
      var rest := actions[..|actions| - 1];
      CountersAreSmall(threads, rest);
      assert forall t :: t in Run(threads, rest).m.pcs ==> SmallPc(Run(threads, rest).m.pcs[t], |rest|);
    }
  }

  /** No run of fewer than 2^63 steps laps. */
  lemma {:induction false} ShortRunsNeverLap<E>(threads: set<Thread>, actions: seq<Action<E>>)
    requires |actions| < HALF
    ensures NeverLaps(threads, actions)
  {
    if actions != [] {
      var rest := actions[..|actions| - 1];
      ShortRunsNeverLap(threads, rest);
      CountersAreSmall(threads, rest);
      RunKeeps(threads, rest);
      var s := Run(threads, rest);
      forall t | t in s.m.pcs
        ensures ComparesClose(s.m, s.m.pcs[t])
      {
        ReadsAreOlder(s, t);
        assert SmallPc(s.m.pcs[t], |rest|);
      }
    }
  }

  /** The overcommit count a dequeuer has read is at most the tickets before the one it compares. */
  lemma ReadsAreOlder<E>(s: State<E>, t: Thread)
    requires Inv(s) && t in s.m.pcs
    ensures s.m.pcs[t].LoadOptimistic? ==> s.m.pcs[t].overcommit <= s.m.optimistic
    ensures s.m.pcs[t].ReloadTail? ==> s.m.pcs[t].overcommit <= s.m.pcs[t].ticket
  {
    var pc := s.m.pcs[t];
    assert TicketFits(pc, s.g.tickets) && SeenFits(pc, s.m);
    CountAll(s.g.tickets);
    if pc.ReloadTail? {
      CountAll(s.g.tickets[..pc.ticket]);
    }
  }
}
