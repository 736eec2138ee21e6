/**
 * That the free list gets things done: when try_get gives up, and what a thread that nobody disturbs achieves,
 * wherever the other threads have stopped.
 */
module FreeListProgress {
  import opened Options
  import opened FreeLists

  function Next(s: State, a: Action): State {
    if Enabled(s, a) then Do(s, a) else s
  }

  // ----- When try_get gives up

  /** Is a thread here in a call of try_get? */
  predicate InGet(pc: Pc) {
    match pc
    case Idle => false
    case AddFlag(_) => false
    case PushLoadHead(_, after) => after.Retry?
    case PushStoreNext(_, _, after) => after.Retry?
    case PushStoreRefs(_, _, after) => after.Retry?
    case PushSwing(_, _, after) => after.Retry?
    case PushUndo(_, _, after) => after.Retry?
    case _ => true
  }

  /** Does thread t learn what the head is, to go on with, by its next access? */
  predicate Learns(m: Machine, t: Thread) {
    t in m.pcs && (m.pcs[t].GetLoadHead? || (m.pcs[t].GetSwing? && m.head != Some(m.pcs[t].node)))
  }

  /** The head that thread t has loaded, or was handed by its failed swing, last. */
  function Seen(nodes: set<Node>, threads: set<Thread>, actions: seq<Action>, t: Thread): Option<Node> {
    if actions == [] then None
    else
      var rest, a := actions[..|actions| - 1], actions[|actions| - 1];
      var m := Run(nodes, threads, rest).m;
      if a == Move(t) && Learns(m, t) then m.head else Seen(nodes, threads, rest, t)
  }

  /** Is this the last access of an attempt that found the head taken away, or has no head yet to attempt? */
  predicate EndsAttempt(m: Machine, pc: Pc) {
    match pc
    case GetLoadHead => true
    case GetUndo(n, _) => n in m.refs && m.refs[n] != SHOULD_BE_ON_FREELIST + 1
    case PushSwing(_, head, after) => after.Retry? && m.head == head
    case PushUndo(n, _, after) => after.Retry? && n in m.refs && m.refs[n] != 1
    case _ => false
  }

  /** What a thread in try_get will go on with is the head it has seen last. */
  predicate Remembers(pc: Pc, seen: Option<Node>) {
    && (pc.GetUndo? ==> pc.head == seen)
    && (InGet(pc) && !(pc.GetLoadHead? || pc.GetLoadRefs? || pc.GetTakeRef? || pc.GetLoadNext? || pc.GetSwing?
                       || pc.GetDropRefs? || pc.GetUndo?)
        ==> pc.after == Retry(seen))
  }

  lemma OneMoreAction(nodes: set<Node>, threads: set<Thread>, actions: seq<Action>, a: Action, t: Thread)
    ensures Run(nodes, threads, actions + [a]) == Next(Run(nodes, threads, actions), a)
    ensures Seen(nodes, threads, actions + [a], t) ==
      if a == Move(t) && Learns(Run(nodes, threads, actions).m, t) then Run(nodes, threads, actions).m.head
      else Seen(nodes, threads, actions, t)
  {
    assert (actions + [a])[..|actions|] == actions;
  }

  lemma StepRemembers(s: State, a: Action, t: Thread, seen: Option<Node>)
    requires t in s.m.pcs && Remembers(s.m.pcs[t], seen)
    ensures t in Next(s, a).m.pcs
    ensures Remembers(Next(s, a).m.pcs[t], if a == Move(t) && Learns(s.m, t) then s.m.head else seen)
  {
  }

  lemma {:induction false} RunRemembers(nodes: set<Node>, threads: set<Thread>, actions: seq<Action>, t: Thread)
    requires t in threads
    ensures t in Run(nodes, threads, actions).m.pcs
    ensures Remembers(Run(nodes, threads, actions).m.pcs[t], Seen(nodes, threads, actions, t))
  {
    if actions != [] {
      var rest, a := actions[..|actions| - 1], actions[|actions| - 1];
      RunRemembers(nodes, threads, rest, t);
      assert actions == rest + [a];
      OneMoreAction(nodes, threads, rest, a, t);
      hide Run, Seen, Next, Remembers, Learns;
      StepRemembers(Run(nodes, threads, rest), a, t, Seen(nodes, threads, rest, t));
    }
  }

  /**
   * In every run, whatever the others do: a thread returns from try_get with a node by giving up the references to one,
   * and only so.  It returns without one if and only if its attempt is over and the head it has seen last was None;
   * if that was a node, it starts an attempt on that.
   */
  lemma ReturnsWithoutNodeIff(nodes: set<Node>, threads: set<Thread>, actions: seq<Action>, t: Thread)
    requires |threads| < SHOULD_BE_ON_FREELIST - 1 && t in threads
    requires t in Run(nodes, threads, actions).m.pcs && InGet(Run(nodes, threads, actions).m.pcs[t])
    ensures
      var s, s' := Run(nodes, threads, actions), Run(nodes, threads, actions + [Move(t)]);
      var pc, pc', seen := s.m.pcs[t], s'.m.pcs[t], Seen(nodes, threads, actions + [Move(t)], t);
      && (pc.GetDropRefs? ==> pc'.Idle? && s'.g.log == s.g.log + [Got(pc.node)])
      && (!pc.GetDropRefs? ==> s'.g.log == s.g.log && (pc'.Idle? <==> EndsAttempt(s.m, pc) && seen.None?))
      && (EndsAttempt(s.m, pc) && seen.Some? ==> pc' == GetLoadRefs(seen.value))
      && (!pc'.Idle? ==> InGet(pc'))
  {
    RunRemembers(nodes, threads, actions, t);
    MovesAreEnabled(nodes, threads, actions, t);
    OneMoreAction(nodes, threads, actions, Move(t), t);
    hide Run, Seen, Next, Remembers, EndsAttempt, InGet, Learns, Enabled;
    StepReturns(Run(nodes, threads, actions), t, Seen(nodes, threads, actions, t));
  }

  lemma StepReturns(s: State, t: Thread, seen: Option<Node>)
    requires t in s.m.pcs && InGet(s.m.pcs[t]) && Remembers(s.m.pcs[t], seen) && Enabled(s, Move(t))
    ensures
      var s', seen' := Next(s, Move(t)), if Learns(s.m, t) then s.m.head else seen;
      t in s'.m.pcs &&
      var pc, pc' := s.m.pcs[t], s'.m.pcs[t];
      && (pc.GetDropRefs? ==> pc'.Idle? && s'.g.log == s.g.log + [Got(pc.node)])
      && (!pc.GetDropRefs? ==> s'.g.log == s.g.log && (pc'.Idle? <==> EndsAttempt(s.m, pc) && seen'.None?))
      && (EndsAttempt(s.m, pc) && seen'.Some? ==> pc' == GetLoadRefs(seen'.value))
      && (!pc'.Idle? ==> InGet(pc'))
  {
  }

  // ----- A thread alone

  /** The next k accesses of thread t, with no other thread's in between. */
  function Alone(s: State, t: Thread, k: nat): State {
    if k == 0 then s else Next(Alone(s, t, k - 1), Move(t))
  }

  /** The first node is there, unflagged, and has a reference of the list. */
  lemma FirstIsFree(s: State)
    requires Inv(s) && s.g.list != []
    ensures
      var n := s.g.list[0];
      && s.m.head == Some(n) && n in s.m.refs && n in s.m.next && 1 <= s.m.refs[n] < SHOULD_BE_ON_FREELIST
      && s.m.next[n] == if |s.g.list| == 1 then None else Some(s.g.list[1])
  {
    var n := s.g.list[0];
    assert n in s.g.list;
    assert NodeCounted(s.m, s.g, n);
    FewHolders(s.m, n);
  }

  lemma AloneGoesOn(s: State, t: Thread, k: nat)
    ensures Alone(s, t, 0) == s && Alone(s, t, k + 1) == Next(Alone(s, t, k), Move(t))
  {
  }

  /** The accesses of an undisturbed try_get up to its reference. */
  lemma TakesRef(s: State, t: Thread)
    requires t in s.m.pcs && s.m.pcs[t].Idle? && s.m.head.Some? && s.m.head.value in s.m.refs
    requires s.m.head.value in s.m.next
    requires 1 <= s.m.refs[s.m.head.value] < SHOULD_BE_ON_FREELIST
    ensures
      var n := s.m.head.value;
      Alone(Next(s, CallGet(t)), t, 3) ==
        s.(m := Goto(s.m, t, GetLoadNext(n)).(refs := s.m.refs[n := s.m.refs[n] + 1]))
  {
    var n, s0 := s.m.head.value, Next(s, CallGet(t));
    AloneGoesOn(s0, t, 0);
    AloneGoesOn(s0, t, 1);
    AloneGoesOn(s0, t, 2);
    hide Alone;
    assert Alone(s0, t, 1) == s.(m := Goto(s.m, t, GetLoadRefs(n)));
    assert Alone(s0, t, 2) == s.(m := Goto(s.m, t, GetTakeRef(n, s.m.refs[n])));
  }

  /** And from there. */
  lemma TakesNode(s: State, s3: State, t: Thread)
    requires t in s.m.pcs && s.m.pcs[t].Idle? && s.m.head.Some? && s.m.head.value in s.m.refs
    requires s.m.head.value in s.m.next
    requires 1 <= s.m.refs[s.m.head.value] < SHOULD_BE_ON_FREELIST && s.g.list != []
    requires
      var n := s.m.head.value;
      s3 == s.(m := Goto(s.m, t, GetLoadNext(n)).(refs := s.m.refs[n := s.m.refs[n] + 1]))
    ensures
      var s' := Next(Next(Next(s3, Move(t)), Move(t)), Move(t));
      && s'.m.pcs == s.m.pcs && s'.m.head == s.m.next[s.m.head.value]
      && s'.g.log == s.g.log + [Got(s.m.head.value)] && s'.g.list == s.g.list[1..]
  {
    var n := s.m.head.value;
    var s4, s5 := Next(s3, Move(t)), Next(Next(s3, Move(t)), Move(t));
    assert s4 == s3.(m := Goto(s3.m, t, GetSwing(n, s.m.next[n])));
    assert s5.m == Goto(s3.m, t, GetDropRefs(n)).(head := s.m.next[n]);
    assert s5.g.log == s.g.log && s5.g.list == s.g.list[1..];
    assert s.m.pcs[t := Idle] == s.m.pcs;
  }

  /**
   * A thread that calls try_get and is not disturbed gets the first node of the list, if there is one, and nothing
   * otherwise, wherever the other threads have stopped.
   */
  lemma AloneItGets(nodes: set<Node>, threads: set<Thread>, actions: seq<Action>, t: Thread)
    requires |threads| < SHOULD_BE_ON_FREELIST - 1
    requires t in Run(nodes, threads, actions).m.pcs && Run(nodes, threads, actions).m.pcs[t].Idle?
    ensures
      var s := Run(nodes, threads, actions);
      var s' := Alone(Next(s, CallGet(t)), t, if s.g.list == [] then 1 else 6);
      && s'.m.pcs == s.m.pcs
      && s'.g.log == (if s.g.list == [] then s.g.log else s.g.log + [Got(s.g.list[0])])
      && s'.g.list == (if s.g.list == [] then [] else s.g.list[1..])
      && (s.g.list == [] ==> s' == s)
  {
    RunKeeps(nodes, threads, actions);
    hide Run;
    var s := Run(nodes, threads, actions);
    if s.g.list == [] {
      AloneOnNothing(s, t);
    } else {
      AloneOnFirst(s, t);
    }
  }

  lemma NoFirst(s: State)
    requires Inv(s) && s.g.list == []
    ensures s.m.head == None
  {
  }

  lemma AloneOnNothing(s: State, t: Thread)
    requires Inv(s) && s.g.list == [] && t in s.m.pcs && s.m.pcs[t].Idle?
    ensures Alone(Next(s, CallGet(t)), t, 1) == s
  {
    hide Inv, Alone;
    NoFirst(s);
    AloneGoesOn(Next(s, CallGet(t)), t, 0);
    assert s.m.pcs[t := Idle] == s.m.pcs;
  }

  lemma AloneOnFirst(s: State, t: Thread)
    requires Inv(s) && s.g.list != [] && t in s.m.pcs && s.m.pcs[t].Idle?
    ensures
      var s' := Alone(Next(s, CallGet(t)), t, 6);
      && s'.m.pcs == s.m.pcs && s'.g.log == s.g.log + [Got(s.g.list[0])] && s'.g.list == s.g.list[1..]
  {
    hide Inv, Alone, Next;
    FirstIsFree(s);
    var s0 := Next(s, CallGet(t));
    TakesRef(s, t);
    AloneGoesOn(s0, t, 3);
    AloneGoesOn(s0, t, 4);
    AloneGoesOn(s0, t, 5);
    TakesNode(s, Alone(s0, t, 3), t);
  }

  /**
   * A thread that adds a node and is not disturbed puts it first, if no other thread still refers to the node;
   * otherwise it leaves that to the last of those.
   */
  lemma AloneItGives(nodes: set<Node>, threads: set<Thread>, actions: seq<Action>, t: Thread, n: Node)
    requires |threads| < SHOULD_BE_ON_FREELIST - 1
    requires Enabled(Run(nodes, threads, actions), CallAdd(t, n))
    ensures
      var s := Run(nodes, threads, actions);
      var s' := Alone(Next(s, CallAdd(t, n)), t, if s.m.refs[n] == 0 then 5 else 1);
      && s'.m.pcs == s.m.pcs && s'.g.log == s.g.log + [Gave(n)]
      && s'.g.list == (if s.m.refs[n] == 0 then [n] + s.g.list else s.g.list)
      && (s.m.refs[n] != 0 ==> s'.g.roles == s.g.roles[n := Waiting])
  {
    RunKeeps(nodes, threads, actions);
    hide Run;
    var s := Run(nodes, threads, actions);
    UserHoldsUnflagged(s, n);
    if s.m.refs[n] == 0 {
      AloneOnUnreferenced(s, t, n);
    } else {
      AloneOnReferenced(s, t, n);
    }
  }

  lemma UserHoldsUnflagged(s: State, n: Node)
    requires Inv(s) && Logged(s) && n in s.m.refs && !Given(s.g.log, n)
    ensures n in s.m.next && n in s.g.roles && s.m.refs[n] < SHOULD_BE_ON_FREELIST - 1
  {
    assert NodeCounted(s.m, s.g, n);
    FewHolders(s.m, n);
  }

  lemma AloneOnReferenced(s: State, t: Thread, n: Node)
    requires Enabled(s, CallAdd(t, n)) && n in s.m.next && n in s.g.roles
    requires 0 < s.m.refs[n] < SHOULD_BE_ON_FREELIST - 1
    ensures
      var s' := Alone(Next(s, CallAdd(t, n)), t, 1);
      && s'.m.pcs == s.m.pcs && s'.g.log == s.g.log + [Gave(n)] && s'.g.list == s.g.list
      && s'.g.roles == s.g.roles[n := Waiting]
  {
    AloneGoesOn(Next(s, CallAdd(t, n)), t, 0);
    assert s.m.pcs[t := Idle] == s.m.pcs;
  }

  /** The accesses of an undisturbed add up to the node's link. */
  lemma PreparesNode(s: State, t: Thread, n: Node)
    requires Enabled(s, CallAdd(t, n)) && n in s.m.next && n in s.g.roles && s.m.refs[n] == 0
    ensures
      var s3 := Alone(Next(s, CallAdd(t, n)), t, 3);
      && s3.m.pcs == s.m.pcs[t := PushStoreRefs(n, s.m.head, Return)] && s3.m.head == s.m.head
      && n in s3.m.refs && s3.m.next == s.m.next[n := s.m.head]
      && s3.g.log == s.g.log + [Gave(n)] && s3.g.list == s.g.list
  {
    var s0 := Next(s, CallAdd(t, n));
    AloneGoesOn(s0, t, 0);
    AloneGoesOn(s0, t, 1);
    AloneGoesOn(s0, t, 2);
    hide Alone;
    var s1, s2 := Alone(s0, t, 1), Alone(s0, t, 2);
    assert s1.m.pcs == s.m.pcs[t := PushLoadHead(n, Return)] && s1.m.head == s.m.head && s1.m.next == s.m.next;
    assert n in s1.m.refs && s1.g.log == s.g.log + [Gave(n)] && s1.g.list == s.g.list;
    assert s2 == s1.(m := Goto(s1.m, t, PushStoreNext(n, s.m.head, Return)));
  }

  lemma AloneOnUnreferenced(s: State, t: Thread, n: Node)
    requires Enabled(s, CallAdd(t, n)) && n in s.m.next && n in s.g.roles && s.m.refs[n] == 0
    ensures
      var s' := Alone(Next(s, CallAdd(t, n)), t, 5);
      s'.m.pcs == s.m.pcs && s'.g.log == s.g.log + [Gave(n)] && s'.g.list == [n] + s.g.list
  {
    var s0 := Next(s, CallAdd(t, n));
    PreparesNode(s, t, n);
    AloneGoesOn(s0, t, 3);
    AloneGoesOn(s0, t, 4);
    hide Alone;
    var s3, s4 := Alone(s0, t, 3), Alone(s0, t, 4);
    assert s4.m.pcs == s3.m.pcs[t := PushSwing(n, s.m.head, Return)] && s4.m.head == s.m.head;
    assert n in s4.m.refs && n in s4.m.next && s4.g.log == s3.g.log && s4.g.list == s3.g.list;
    assert s.m.pcs[t := Idle] == s.m.pcs;
  }
}
