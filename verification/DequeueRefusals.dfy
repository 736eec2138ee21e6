/**
 * When a dequeuer gives up while others are at work.  It compares counters that it read at different times, so it can
 * give up although there is an element that nobody has claimed.
 */
module DequeueRefusals {
  import opened DequeueClaims

  /** Tickets whose fate is open. */
  function Undecideds(tickets: seq<Outcome>): nat {
    Count(tickets, Pending) + Count(tickets, Passed)
  }

  /** The first test, of the optimistic count against the tail and the failures read before. */
  lemma FirstRefusalOf<E>(s: State<E>, t: Thread)
    requires Inv(s) && t in s.m.pcs && s.m.pcs[t].LoadOptimistic? && ComparesClose(s.m, s.m.pcs[t])
    ensures
      var pc := s.m.pcs[t];
      && pc.overcommit <= s.m.overcommit && pc.tail <= s.m.tail
      && (Next(s, Move(t)).m.pcs[t].Idle? <==>
            pc.tail <= s.m.head + Undecideds(s.g.tickets) + (s.m.overcommit - pc.overcommit))
  {
    var pc := s.m.pcs[t];
    assert SeenFits(pc, s.m);
    CountAll(s.g.tickets);
    WithinAgrees(s.m.optimistic, pc.overcommit, pc.tail);
    hide Within, Count, AllFair, Owned;
  }

  /**
   * A dequeuer gives up at its first test if and only if every element that was published when it looked at the tail is
   * claimed by now, or covered by a ticket whose fate is open or that has failed since it looked at the failures.
   */
  lemma GivesUpIff<E>(threads: set<Thread>, actions: seq<Action<E>>, t: Thread)
    requires NeverLaps(threads, actions + [Move(t)])
    requires var m := Run(threads, actions).m; t in m.pcs && m.pcs[t].LoadOptimistic?
    ensures
      var s := Run(threads, actions);
      var pc := s.m.pcs[t];
      && pc.overcommit <= s.m.overcommit && pc.tail <= s.m.tail
      && (Next(s, Move(t)).m.pcs[t].Idle? <==>
            pc.tail <= s.m.head + Undecideds(s.g.tickets) + (s.m.overcommit - pc.overcommit))
  {
    assert (actions + [Move(t)])[..|actions|] == actions;
    RunKeeps(threads, actions);
    hide Run;
    FirstRefusalOf(Run(threads, actions), t);
  }

  lemma SecondRefusalOf<E>(s: State<E>, t: Thread)
    requires Inv(s) && t in s.m.pcs && s.m.pcs[t].ReloadTail? && ComparesClose(s.m, s.m.pcs[t])
    ensures
      var k, v := s.m.pcs[t].ticket, s.m.pcs[t].overcommit;
      && k < |s.g.tickets| && v <= Count(s.g.tickets[..k], Failed)
      && var before := s.g.tickets[..k];
         Next(s, Move(t)).m.pcs[t].Overcommit? <==>
           s.m.tail <= Served(before) + Count(before, Pending) + (Count(before, Failed) - v)
  {
    var pc := s.m.pcs[t];
    assert TicketFits(pc, s.g.tickets);
    CountAll(s.g.tickets[..pc.ticket]);
    WithinAgrees(pc.ticket, pc.overcommit, s.m.tail);
    hide Within, Count, AllFair, Owned;
  }

  /**
   * With its ticket it gives up if and only if every element published by now is covered by an earlier ticket that has
   * passed, or whose fate is open, or that has failed since it looked at the failures.
   */
  lemma TicketFailsIff<E>(threads: set<Thread>, actions: seq<Action<E>>, t: Thread)
    requires NeverLaps(threads, actions + [Move(t)])
    requires var m := Run(threads, actions).m; t in m.pcs && m.pcs[t].ReloadTail?
    ensures
      var s := Run(threads, actions);
      var k, v := s.m.pcs[t].ticket, s.m.pcs[t].overcommit;
      && k < |s.g.tickets| && v <= Count(s.g.tickets[..k], Failed)
      && var before := s.g.tickets[..k];
         Next(s, Move(t)).m.pcs[t].Overcommit? <==>
           s.m.tail <= Served(before) + Count(before, Pending) + (Count(before, Failed) - v)
  {
    assert (actions + [Move(t)])[..|actions|] == actions;
    RunKeeps(threads, actions);
    hide Run;
    SecondRefusalOf(Run(threads, actions), t);
  }

  // ----- A run in which a dequeuer gives up in vain

  function Calls<E>(t: Thread, n: nat): seq<Action<E>> {
    if n == 0 then [Call(t)] else Calls(t, n - 1) + [Move(t)]
  }

  lemma OneMoreAction<E>(threads: set<Thread>, actions: seq<Action<E>>, a: Action<E>)
    ensures Run(threads, actions + [a]) == Next(Run(threads, actions), a)
  {
    assert (actions + [a])[..|actions|] == actions;
  }

  lemma {:induction false} RunsCalls<E>(threads: set<Thread>, actions: seq<Action<E>>, t: Thread, n: nat)
    ensures Run(threads, actions + Calls(t, n)) == Moves(Next(Run(threads, actions), Call(t)), t, n)
  {
    hide Run, Next;
    if n == 0 {
      OneMoreAction(threads, actions, Call(t));
    } else {
      RunsCalls(threads, actions, t, n - 1);
      OneMoreAction(threads, actions + Calls(t, n - 1), Move(t));
      assert actions + Calls(t, n) == actions + Calls(t, n - 1) + [Move(t)];
    }
  }

  /** One element; threads 1 and 2 see it and are about to take tickets. */
  function BothSeeOne<E>(e: E): seq<Action<E>> {
    [Publish(e)] + Calls(1, 3) + Calls(2, 3)
  }

  function Pcs(one: Pc, two: Pc): map<Thread, Pc> {
    map[1 := one, 2 := two, 3 := Idle]
  }

  lemma BothSee<E>(e: E)
    ensures
      Run({1, 2, 3}, BothSeeOne(e)) ==
        State(Machine(1, 0, 0, 0, Pcs(TakeTicket(0), TakeTicket(0))), Shadow([e], [], [], []))
  {
    var threads := {1, 2, 3};
    var s1 := State(Machine(1, 0, 0, 0, Pcs(Idle, Idle)), Shadow([e], [], [], []));
    var none: seq<Action<E>> := [];
    assert Run(threads, none) == State(Machine(0, 0, 0, 0, Pcs(Idle, Idle)), Shadow([], [], [], []));
    OneMoreAction(threads, none, Publish(e));
    assert none + [Publish(e)] == [Publish(e)];
    assert Run(threads, [Publish(e)]) == s1;
    WithinAgrees(0, 0, 1);
    hide Within, Run;
    RunsCalls(threads, [Publish(e)], 1, 3);
    MovesToTicket(s1, 1);
    var s2 := s1.(m := Goto(s1.m, 1, TakeTicket(0)));
    RunsCalls(threads, [Publish(e)] + Calls(1, 3), 2, 3);
    MovesToTicket(s2, 2);
    hide Moves, Next, Calls;
    assert s2.(m := Goto(s2.m, 2, TakeTicket(0))).m.pcs == Pcs(TakeTicket(0), TakeTicket(0));
  }

  /** Thread 1 claims it; the ticket of thread 2 fails, but is not counted yet when another element is published. */
  function OneClaims<E>(e': E): seq<Action<E>> {
    [Move(1), Move(2), Move(1), Move(1), Move(2), Publish(e')]
  }

  function Doomed<E>(e: E, e': E): State<E> {
    State(Machine(2, 1, 2, 0, Pcs(Idle, Overcommit(1))), Shadow([e, e'], [Claimed, Pending], [1, 2], [Claiming(1, 0)]))
  }

  /** Both have their tickets now. */
  function Ticketed<E>(e: E): State<E> {
    State(Machine(1, 0, 2, 0, Pcs(ReloadTail(0, 0), ReloadTail(0, 1))), Shadow([e], [Pending, Pending], [1, 2], []))
  }

  lemma BothTake<E>(threads: set<Thread>, actions: seq<Action<E>>, e: E)
    requires Run(threads, actions) ==
      State(Machine(1, 0, 0, 0, Pcs(TakeTicket(0), TakeTicket(0))), Shadow([e], [], [], []))
    ensures Run(threads, actions + [Move(1)] + [Move(2)]) == Ticketed(e)
  {
    hide Run, Within;
    OneMoreAction(threads, actions, Move(1));
    assert Run(threads, actions + [Move(1)]) ==
      State(Machine(1, 0, 1, 0, Pcs(ReloadTail(0, 0), TakeTicket(0))), Shadow([e], [Pending], [1], []));
    OneMoreAction(threads, actions + [Move(1)], Move(2));
  }

  lemma FirstPasses<E>(threads: set<Thread>, actions: seq<Action<E>>, e: E)
    requires Run(threads, actions) == Ticketed(e)
    ensures Run(threads, actions + [Move(1)] + [Move(1)]) ==
      State(Machine(1, 1, 2, 0, Pcs(Idle, ReloadTail(0, 1))), Shadow([e], [Claimed, Pending], [1, 2], [Claiming(1, 0)]))
  {
    hide Run, Within;
    WithinAgrees(0, 0, 1);
    OneMoreAction(threads, actions, Move(1));
    assert Run(threads, actions + [Move(1)]) ==
      State(Machine(1, 0, 2, 0, Pcs(Claim(0), ReloadTail(0, 1))), Shadow([e], [Passed, Pending], [1, 2], []));
    OneMoreAction(threads, actions + [Move(1)], Move(1));
  }

  lemma SecondFails<E>(threads: set<Thread>, actions: seq<Action<E>>, e: E, e': E)
    requires Run(threads, actions) ==
      State(Machine(1, 1, 2, 0, Pcs(Idle, ReloadTail(0, 1))), Shadow([e], [Claimed, Pending], [1, 2], [Claiming(1, 0)]))
    ensures Run(threads, actions + [Move(2)] + [Publish(e')]) == Doomed(e, e')
  {
    hide Run, Within;
    WithinAgrees(1, 0, 1);
    OneMoreAction(threads, actions, Move(2));
    OneMoreAction(threads, actions + [Move(2)], Publish(e'));
  }

  lemma ClaimsOne<E>(threads: set<Thread>, actions: seq<Action<E>>, e: E, e': E)
    requires Run(threads, actions) ==
      State(Machine(1, 0, 0, 0, Pcs(TakeTicket(0), TakeTicket(0))), Shadow([e], [], [], []))
    ensures Run(threads, actions + OneClaims(e')) == Doomed(e, e')
  {
    hide Run, Next, Within, Doomed, Ticketed;
    var taken := actions + [Move(1)] + [Move(2)];
    var passed := taken + [Move(1)] + [Move(1)];
    assert actions + OneClaims(e') == passed + [Move(2)] + [Publish(e')];
    BothTake(threads, actions, e);
    FirstPasses(threads, taken, e);
    SecondFails(threads, passed, e, e');
  }

  /**
   * Thread 3 calls only now, is not disturbed, and gets nothing, although two elements were published and one claimed.
   * No one else claims the other one either: the ticket of thread 2 will only be counted as failed.
   */
  lemma GivesUpInVain<E>(e: E, e': E)
    ensures Run({1, 2, 3}, BothSeeOne(e) + OneClaims(e')) == Doomed(e, e')
    ensures Run({1, 2, 3}, BothSeeOne(e) + OneClaims(e') + Calls(3, 6)) == Doomed(e, e')
  {
    hide Run, Next, Moves, Calls, OneClaims, BothSeeOne, Within;
    BothSee(e);
    ClaimsOne({1, 2, 3}, BothSeeOne(e), e, e');
    RunsCalls({1, 2, 3}, BothSeeOne(e) + OneClaims(e'), 3, 6);
    WithinAgrees(2, 0, 2);
    MovesAloneEmpty(Doomed(e, e'), 3);
  }
}
