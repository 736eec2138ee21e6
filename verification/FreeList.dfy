/**
 * The lock-free free list of the queue's blocks, one atomic access per step.
 * A node that is given back may still be referenced by threads that read a stale head, so its
 * counter keeps two things apart: how many threads (and the list) refer to the node, and the
 * wish to have it on the list.
 */
module FreeLists {
  import opened Options

  type Node = nat
  type Thread = nat

  const SHOULD_BE_ON_FREELIST: nat := 0x8000_0000
  const TWO_TO_THE_32: nat := 0x1_0000_0000

  /** 32-bit unsigned arithmetic. */
  function U32(x: int): nat {
    x % TWO_TO_THE_32
  }

  /** The reference count proper, refs & REFS_MASK. */
  function RefCount(refs: nat): nat {
    refs % SHOULD_BE_ON_FREELIST
  }

  /** What add_knowing_refcount_is_zero returns to: the end of add, or the loop of try_get. */
  datatype After = Return | Retry(head: Option<Node>)

  /** Where a thread is: the access it does next, with its local variables. */
  datatype Pc =
    | Idle
    // add
    | AddFlag(node: Node)
    // add_knowing_refcount_is_zero
    | PushLoadHead(node: Node, after: After)
    | PushStoreNext(node: Node, head: Option<Node>, after: After)
    | PushStoreRefs(node: Node, head: Option<Node>, after: After)
    | PushSwing(node: Node, head: Option<Node>, after: After)
    | PushUndo(node: Node, head: Option<Node>, after: After)
    // try_get
    | GetLoadHead
    | GetLoadRefs(node: Node)
    | GetTakeRef(node: Node, refs: nat)
    | GetLoadNext(node: Node)
    | GetSwing(node: Node, next: Option<Node>)
    | GetDropRefs(node: Node)
    | GetUndo(node: Node, head: Option<Node>)

  /** Everything the program itself has. */
  datatype Machine = Machine(
    head: Option<Node>,
    next: map<Node, Option<Node>>,
    refs: map<Node, nat>,
    pcs: map<Thread, Pc>)

  /** The loop of try_get goes on with a head, or gives up without one. */
  function Loop(head: Option<Node>): Pc {
    if head.None? then Idle else GetLoadRefs(head.value)
  }

  function Resume(after: After): Pc {
    match after
    case Return => Idle
    case Retry(head) => Loop(head)
  }

  predicate InMachine(m: Machine, pc: Pc) {
    !(pc.Idle? || pc.GetLoadHead?) ==> pc.node in m.refs && pc.node in m.next
  }

  function Goto(m: Machine, t: Thread, pc: Pc): Machine {
    m.(pcs := m.pcs[t := pc])
  }

  /** Add to a counter, modulo 2^32. */
  function FetchAdd(m: Machine, n: Node, delta: int): Machine
    requires n in m.refs
  {
    m.(refs := m.refs[n := U32(m.refs[n] + delta)])
  }

  /** The next atomic access of thread t. */
  function Access(m: Machine, t: Thread): Machine
    requires t in m.pcs && InMachine(m, m.pcs[t])
  {
    match m.pcs[t]
    case Idle => m
    case AddFlag(n) =>
      var was := m.refs[n];
      Goto(FetchAdd(m, n, SHOULD_BE_ON_FREELIST), t, if was == 0 then PushLoadHead(n, Return) else Idle)
    case PushLoadHead(n, after) =>
      Goto(m, t, PushStoreNext(n, m.head, after))
    case PushStoreNext(n, head, after) =>
      Goto(m.(next := m.next[n := head]), t, PushStoreRefs(n, head, after))
    case PushStoreRefs(n, head, after) =>
      Goto(m.(refs := m.refs[n := 1]), t, PushSwing(n, head, after))
    case PushSwing(n, head, after) =>
      if m.head == head then Goto(m.(head := Some(n)), t, Resume(after))
      else Goto(m, t, PushUndo(n, m.head, after))
    case PushUndo(n, head, after) =>
      var was := m.refs[n];
      Goto(FetchAdd(m, n, SHOULD_BE_ON_FREELIST - 1), t,
           if was == 1 then PushStoreNext(n, head, after) else Resume(after))
    case GetLoadHead =>
      Goto(m, t, Loop(m.head))
    case GetLoadRefs(n) =>
      Goto(m, t, if RefCount(m.refs[n]) == 0 then GetLoadHead else GetTakeRef(n, m.refs[n]))
    case GetTakeRef(n, refs) =>
      if m.refs[n] == refs then Goto(FetchAdd(m, n, 1), t, GetLoadNext(n)) else Goto(m, t, GetLoadHead)
    case GetLoadNext(n) =>
      Goto(m, t, GetSwing(n, m.next[n]))
    case GetSwing(n, next) =>
      if m.head == Some(n) then Goto(m.(head := next), t, GetDropRefs(n)) else Goto(m, t, GetUndo(n, m.head))
    case GetDropRefs(n) =>
      Goto(FetchAdd(m, n, -2), t, Idle)
    case GetUndo(n, head) =>
      var was := m.refs[n];
      Goto(FetchAdd(m, n, -1), t,
           if was == SHOULD_BE_ON_FREELIST + 1 then PushLoadHead(n, Retry(head)) else Loop(head))
  }

  // ----- What the proof keeps beside the machine

  /** Who is responsible for a node. */
  datatype Role =
    | Out                 // its user holds it
    | Giving(thread: Thread)  // in add, before the flag is set
    | Waiting             // flagged; the last thread to drop a reference will push it
    | Pushing(thread: Thread) // being pushed, counter not yet back at one
    | Offering(thread: Thread)// counter at one or more, swing of the head ahead or just failed
    | Listed
    | Taken(thread: Thread)   // swung off the list, references not yet dropped

  /** What users see: a node handed out by try_get, and a node given back to add. */
  datatype Event = Got(node: Node) | Gave(node: Node)

  /** The nodes on the list, the responsibilities, and the history.  No access reads them. */
  datatype Shadow = Shadow(list: seq<Node>, roles: map<Node, Role>, log: seq<Event>)

  function Assign(g: Shadow, n: Node, r: Role): Shadow {
    g.(roles := g.roles[n := r])
  }

  function Follow(m: Machine, g: Shadow, t: Thread): Shadow
    requires t in m.pcs && InMachine(m, m.pcs[t])
  {
    match m.pcs[t]
    case AddFlag(n) => Assign(g, n, if m.refs[n] == 0 then Pushing(t) else Waiting)
    case PushStoreRefs(n, _, _) => Assign(g, n, Offering(t))
    case PushSwing(n, head, _) =>
      if m.head == head then Assign(g, n, Listed).(list := [n] + g.list) else g
    case PushUndo(n, _, _) => Assign(g, n, if m.refs[n] == 1 then Pushing(t) else Waiting)
    case GetSwing(n, _) =>
      if m.head == Some(n) && g.list != [] then Assign(g, n, Taken(t)).(list := g.list[1..]) else g
    case GetDropRefs(n) => Assign(g, n, Out).(log := g.log + [Got(n)])
    case GetUndo(n, _) =>
      if m.refs[n] == SHOULD_BE_ON_FREELIST + 1 then Assign(g, n, Pushing(t)) else g
    case _ => g
  }

  datatype State = State(m: Machine, g: Shadow)

  // ----- Runs

  datatype Action = CallAdd(t: Thread, n: Node) | CallGet(t: Thread) | Move(t: Thread)

  /** Was n given back and not handed out since? */
  predicate Given(log: seq<Event>, n: Node) {
    log != [] &&
    (if log[|log| - 1].node == n then log[|log| - 1].Gave? else Given(log[..|log| - 1], n))
  }

  /** A call needs an idle thread, and add a node its caller holds; any thread may move. */
  predicate Enabled(s: State, a: Action) {
    a.t in s.m.pcs && InMachine(s.m, s.m.pcs[a.t]) &&
    match a
    case CallAdd(t, n) => s.m.pcs[t].Idle? && n in s.m.refs && !Given(s.g.log, n)
    case CallGet(t) => s.m.pcs[t].Idle?
    case Move(t) => true
  }

  function Do(s: State, a: Action): State
    requires Enabled(s, a)
  {
    match a
    case CallAdd(t, n) =>
      State(Goto(s.m, t, AddFlag(n)), Assign(s.g, n, Giving(t)).(log := s.g.log + [Gave(n)]))
    case CallGet(t) => s.(m := Goto(s.m, t, GetLoadHead))
    case Move(t) => State(Access(s.m, t), Follow(s.m, s.g, t))
  }

  /** Any number of nodes, all held by their users, and any number of threads. */
  function Initial(nodes: set<Node>, threads: set<Thread>): State {
    State(Machine(None, map n | n in nodes :: None, map n | n in nodes :: 0, map t | t in threads :: Idle),
          Shadow([], map n | n in nodes :: Out, []))
  }

  /** A run takes its actions in order; one that is not enabled does nothing. */
  function Run(nodes: set<Node>, threads: set<Thread>, actions: seq<Action>): State {
    if actions == [] then Initial(nodes, threads)
    else
      var s, a := Run(nodes, threads, actions[..|actions| - 1]), actions[|actions| - 1];
      if Enabled(s, a) then Do(s, a) else s
  }

  // ----- The invariant

  /** Does a thread at pc hold a counted reference to the node? */
  predicate Holds(pc: Pc, n: Node) {
    (pc.GetLoadNext? || pc.GetSwing? || pc.GetDropRefs? || pc.GetUndo?) && pc.node == n
  }

  function Holders(pcs: map<Thread, Pc>, n: Node): set<Thread> {
    set t | t in pcs && Holds(pcs[t], n)
  }

  /** Does the list itself, or a push or pop in progress on its behalf, hold one more reference? */
  predicate ListRef(r: Role) {
    r.Offering? || r.Listed? || r.Taken?
  }

  predicate Flagged(r: Role) {
    r.Waiting? || r.Pushing?
  }

  function Expected(holders: nat, r: Role): nat {
    holders + (if ListRef(r) then 1 else 0) + (if Flagged(r) then SHOULD_BE_ON_FREELIST else 0)
  }

  ghost predicate NodeCounted(m: Machine, g: Shadow, n: Node)
    requires n in m.refs && n in g.roles
  {
    var holders := |Holders(m.pcs, n)|;
    && m.refs[n] == Expected(holders, g.roles[n])
    && (g.roles[n].Waiting? ==> holders > 0)
    && (g.roles[n].Pushing? ==> holders == 0)
  }

  /** The responsibility that comes with a place in the program. */
  function RoleAt(pc: Pc, t: Thread): Role {
    match pc
    case AddFlag(_) => Giving(t)
    case PushLoadHead(_, _) => Pushing(t)
    case PushStoreNext(_, _, _) => Pushing(t)
    case PushStoreRefs(_, _, _) => Pushing(t)
    case PushSwing(_, _, _) => Offering(t)
    case PushUndo(_, _, _) => Offering(t)
    case GetDropRefs(_) => Taken(t)
    case _ => Out
  }

  /** The local variables of a thread are still true. */
  ghost predicate LocalsFit(m: Machine, pc: Pc) {
    && (!(pc.Idle? || pc.GetLoadHead?) ==> pc.node in m.refs)
    && (pc.PushStoreRefs? || pc.PushSwing? ==> pc.node in m.next && m.next[pc.node] == pc.head)
    && (pc.GetSwing? ==> pc.node in m.next && m.next[pc.node] == pc.next)
    && (pc.GetTakeRef? ==> RefCount(pc.refs) != 0)
    && (pc.PushStoreNext? || pc.PushStoreRefs? || pc.PushSwing? || pc.PushUndo? || pc.GetUndo? ==> Inside(m, pc.head))
    && (pc.PushLoadHead? || pc.PushStoreNext? || pc.PushStoreRefs? || pc.PushSwing? || pc.PushUndo? ==>
         pc.after.Retry? ==> Inside(m, pc.after.head))
  }

  ghost predicate ThreadFits(m: Machine, g: Shadow, t: Thread, pc: Pc) {
    && LocalsFit(m, pc)
    && (RoleAt(pc, t) != Out ==> pc.node in g.roles && g.roles[pc.node] == RoleAt(pc, t))
  }

  /** A responsible thread is where its responsibility says. */
  ghost predicate NodeFits(m: Machine, g: Shadow, n: Node)
    requires n in g.roles
  {
    var r := g.roles[n];
    r.Giving? || r.Pushing? || r.Offering? || r.Taken? ==>
      r.thread in m.pcs && RoleAt(m.pcs[r.thread], r.thread) == r && m.pcs[r.thread].node == n
  }

  predicate Inside(m: Machine, n: Option<Node>) {
    n.Some? ==> n.value in m.refs
  }

  /** Following next from the head walks the list, which ends and never repeats a node. */
  ghost predicate IsList(m: Machine, list: seq<Node>) {
    && m.head == (if list == [] then None else Some(list[0]))
    && (forall i :: 0 <= i < |list| ==> list[i] in m.next)
    && (forall i :: 0 <= i < |list| - 1 ==> m.next[list[i]] == Some(list[i + 1]))
    && (list != [] ==> m.next[list[|list| - 1]] == None)
    && (forall i, j :: 0 <= i < j < |list| ==> list[i] != list[j])
  }

  ghost predicate Nodes(m: Machine, g: Shadow) {
    m.next.Keys == m.refs.Keys == g.roles.Keys
  }

  ghost predicate Counted(m: Machine, g: Shadow) {
    Nodes(m, g) && forall n :: n in m.refs ==> NodeCounted(m, g, n)
  }

  ghost predicate Fits(m: Machine, g: Shadow) {
    && (forall t :: t in m.pcs ==> ThreadFits(m, g, t, m.pcs[t]))
    && (forall n :: n in g.roles ==> NodeFits(m, g, n))
  }

  ghost predicate Linked(m: Machine, g: Shadow) {
    IsList(m, g.list) && forall n :: n in g.roles ==> (g.roles[n].Listed? <==> n in g.list)
  }

  /** Fewer threads than the counter can tell apart. */
  ghost predicate FewThreads(m: Machine) {
    |m.pcs| < SHOULD_BE_ON_FREELIST - 1
  }

  ghost predicate Inv(s: State) {
    FewThreads(s.m) && Counted(s.m, s.g) && Fits(s.m, s.g) && Linked(s.m, s.g)
  }

  // ----- Counting

  lemma HoldersAfter(pcs: map<Thread, Pc>, t: Thread, pc: Pc, n: Node)
    requires t in pcs
    ensures Holders(pcs[t := pc], n) == if Holds(pc, n) then Holders(pcs, n) + {t} else Holders(pcs, n) - {t}
    ensures |Holders(pcs[t := pc], n)| ==
      |Holders(pcs, n)| + (if Holds(pc, n) then 1 else 0) - (if Holds(pcs[t], n) then 1 else 0)
  {
    var before, after := Holders(pcs, n), Holders(pcs[t := pc], n);
    assert after == if Holds(pc, n) then before + {t} else before - {t};
    assert t in before <==> Holds(pcs[t], n);
  }

  lemma FewHolders(m: Machine, n: Node)
    requires FewThreads(m)
    ensures |Holders(m.pcs, n)| < SHOULD_BE_ON_FREELIST - 1
  {
    SubsetSize(Holders(m.pcs, n), m.pcs.Keys);
    assert |m.pcs.Keys| == |m.pcs|;
  }

  lemma SubsetSize(a: set<Thread>, b: set<Thread>)
    requires a <= b
    ensures |a| <= |b|
  {
    if a != {} {
      var x :| x in a;
      SubsetSize(a - {x}, b - {x});
    }
  }

  /** The role concerns no thread but t. */
  predicate Concerns(r: Role, t: Thread) {
    r.Out? || r.Waiting? || r.Listed? || r.thread == t
  }

  /** A step of thread t that touches node n and nothing else. */
  ghost predicate Touches(s: State, s': State, t: Thread, n: Node) {
    && t in s.m.pcs && t in s'.m.pcs && s'.m.pcs == s.m.pcs[t := s'.m.pcs[t]]
    && n in s.m.refs && n in s.m.next && n in s.g.roles && n in s'.m.refs && n in s'.m.next && n in s'.g.roles
    && s'.m.refs == s.m.refs[n := s'.m.refs[n]]
    && s'.m.next == s.m.next[n := s'.m.next[n]]
    && s'.g.roles == s.g.roles[n := s'.g.roles[n]]
    && (s.m.pcs[t].Idle? || s.m.pcs[t].GetLoadHead? || s.m.pcs[t].node == n)
    && (forall k :: k != n ==> !Holds(s'.m.pcs[t], k))
    && (s'.m.next[n] == s.m.next[n] || s.g.roles[n] == Pushing(t))
    && (s'.g.roles[n] == s.g.roles[n] || (Concerns(s.g.roles[n], t) && Concerns(s'.g.roles[n], t)))
  }

  lemma OthersCounted(s: State, s': State, t: Thread, n: Node)
    requires Counted(s.m, s.g) && Touches(s, s', t, n) && NodeCounted(s'.m, s'.g, n)
    ensures Counted(s'.m, s'.g)
  {
    forall k | k in s'.m.refs && k != n
      ensures NodeCounted(s'.m, s'.g, k)
    {
      assert NodeCounted(s.m, s.g, k);
      HoldersAfter(s.m.pcs, t, s'.m.pcs[t], k);
    }
  }

  lemma OtherThreadFits(s: State, s': State, t: Thread, n: Node, u: Thread)
    requires Touches(s, s', t, n) && Nodes(s.m, s.g) && NodeCounted(s.m, s.g, n) && NodeFits(s.m, s.g, n)
    requires u in s.m.pcs && u != t && ThreadFits(s.m, s.g, u, s.m.pcs[u])
    ensures ThreadFits(s'.m, s'.g, u, s.m.pcs[u])
  {
    var pc := s.m.pcs[u];
    assert Holds(pc, n) ==> u in Holders(s.m.pcs, n);
    assert s'.m.refs.Keys == s.m.refs.Keys;
  }

  lemma OtherNodeFits(s: State, s': State, t: Thread, n: Node, k: Node)
    requires Touches(s, s', t, n) && k in s.g.roles && k != n && NodeFits(s.m, s.g, k)
    requires RoleAt(s'.m.pcs[t], t) != Out ==> s'.m.pcs[t].node == n
    ensures NodeFits(s'.m, s'.g, k)
  {
  }

  lemma OthersFit(s: State, s': State, t: Thread, n: Node)
    requires Counted(s.m, s.g) && Fits(s.m, s.g) && Touches(s, s', t, n)
    requires ThreadFits(s'.m, s'.g, t, s'.m.pcs[t]) && NodeFits(s'.m, s'.g, n)
    requires RoleAt(s'.m.pcs[t], t) != Out ==> s'.m.pcs[t].node == n
    ensures Fits(s'.m, s'.g)
  {
    assert NodeCounted(s.m, s.g, n) && NodeFits(s.m, s.g, n);
    forall u | u in s'.m.pcs && u != t
      ensures ThreadFits(s'.m, s'.g, u, s'.m.pcs[u])
    {
      OtherThreadFits(s, s', t, n, u);
    }
    forall k | k in s'.g.roles && k != n
      ensures NodeFits(s'.m, s'.g, k)
    {
      OtherNodeFits(s, s', t, n, k);
    }
  }

  /** What is known of the node and the thread a step is about. */
  lemma Known(s: State, t: Thread, n: Node)
    requires Inv(s) && t in s.m.pcs
    ensures Nodes(s.m, s.g) && ThreadFits(s.m, s.g, t, s.m.pcs[t])
    ensures n in s.m.refs ==> n in s.g.roles && n in s.m.next && NodeCounted(s.m, s.g, n) && NodeFits(s.m, s.g, n)
    ensures |Holders(s.m.pcs, n)| < SHOULD_BE_ON_FREELIST - 1
  {
    FewHolders(s.m, n);
  }

  /** A step keeps the invariant if it does so for the node it touches and for the list. */
  lemma TouchKeeps(s: State, s': State, t: Thread, n: Node)
    requires Inv(s) && Touches(s, s', t, n)
    requires NodeCounted(s'.m, s'.g, n) && NodeFits(s'.m, s'.g, n)
    requires ThreadFits(s'.m, s'.g, t, s'.m.pcs[t]) && Linked(s'.m, s'.g)
    requires RoleAt(s'.m.pcs[t], t) != Out ==> s'.m.pcs[t].node == n
    ensures Inv(s')
  {
    OthersCounted(s, s', t, n);
    OthersFit(s, s', t, n);
    assert s'.m.pcs.Keys == s.m.pcs.Keys;
    assert |s'.m.pcs.Keys| == |s'.m.pcs| && |s.m.pcs.Keys| == |s.m.pcs|;
  }

  /** The list is untouched when neither the head, nor a next field on it, nor its membership changes. */
  lemma LinkedStill(s: State, s': State, n: Node)
    requires Inv(s) && s'.m.head == s.m.head && s'.g.list == s.g.list
    requires n in s.g.roles && n in s'.g.roles && s'.g.roles == s.g.roles[n := s'.g.roles[n]]
    requires n in s'.m.next && s'.m.next == s.m.next[n := s'.m.next[n]]
    requires s'.g.roles[n].Listed? <==> s.g.roles[n].Listed?
    requires n in s.m.next && (s'.m.next[n] == s.m.next[n] || !s.g.roles[n].Listed?)
    ensures Linked(s'.m, s'.g)
  {
    assert s.g.roles[n].Listed? <==> n in s.g.list;
  }

  // ----- The accesses, one by one

  /** A thread of a state that keeps the invariant, about to do its next access. */
  ghost predicate Ready(s: State, t: Thread) {
    Inv(s) && t in s.m.pcs && InMachine(s.m, s.m.pcs[t])
  }

  function Moved(s: State, t: Thread): State
    requires t in s.m.pcs && InMachine(s.m, s.m.pcs[t])
  {
    Do(s, Move(t))
  }

  /** A step that touches no node at all: it only decides where the thread goes on. */
  lemma StayKeeps(s: State, t: Thread, pc: Pc)
    requires Inv(s) && t in s.m.pcs && RoleAt(s.m.pcs[t], t) == Out && RoleAt(pc, t) == Out && LocalsFit(s.m, pc)
    requires forall k :: !Holds(s.m.pcs[t], k) && !Holds(pc, k)
    ensures Inv(s.(m := Goto(s.m, t, pc)))
  {
    var s' := s.(m := Goto(s.m, t, pc));
    forall n | n in s.m.refs
      ensures NodeCounted(s'.m, s'.g, n) && NodeFits(s'.m, s'.g, n)
    {
      Known(s, t, n);
      HoldersAfter(s.m.pcs, t, pc, n);
    }
    forall u | u in s'.m.pcs
      ensures ThreadFits(s'.m, s'.g, u, s'.m.pcs[u])
    {
    }
    assert IsList(s'.m, s'.g.list);
    assert s'.m.pcs.Keys == s.m.pcs.Keys;
    assert |s'.m.pcs.Keys| == |s'.m.pcs| && |s.m.pcs.Keys| == |s.m.pcs|;
  }

  /** The head is a node of the list. */
  lemma HeadInside(s: State)
    requires Inv(s)
    ensures Inside(s.m, s.m.head)
    ensures s.m.head.Some? ==> s.g.list != [] && s.g.list[0] == s.m.head.value && s.g.roles[s.m.head.value] == Listed
  {
    if s.m.head.Some? {
      assert s.g.list[0] in s.g.list;
    }
  }

  lemma AddFlagKeeps(s: State, t: Thread)
    requires Ready(s, t) && s.m.pcs[t].AddFlag?
    ensures Inv(Moved(s, t))
  {
    hide Inv, Linked, Holders;
    var n, s' := s.m.pcs[t].node, Moved(s, t);
    Known(s, t, n);
    HoldersAfter(s.m.pcs, t, s'.m.pcs[t], n);
    LinkedStill(s, s', n);
    TouchKeeps(s, s', t, n);
  }

  lemma PushLoadHeadKeeps(s: State, t: Thread)
    requires Ready(s, t) && s.m.pcs[t].PushLoadHead?
    ensures Inv(Moved(s, t))
  {
    hide Inv, Linked, Holders;
    var n, s' := s.m.pcs[t].node, Moved(s, t);
    HeadInside(s);
    Known(s, t, n);
    HoldersAfter(s.m.pcs, t, s'.m.pcs[t], n);
    LinkedStill(s, s', n);
    TouchKeeps(s, s', t, n);
  }

  lemma PushStoreNextKeeps(s: State, t: Thread)
    requires Ready(s, t) && s.m.pcs[t].PushStoreNext?
    ensures Inv(Moved(s, t))
  {
    hide Inv, Linked, Holders;
    var n, s' := s.m.pcs[t].node, Moved(s, t);
    Known(s, t, n);
    HoldersAfter(s.m.pcs, t, s'.m.pcs[t], n);
    LinkedStill(s, s', n);
    TouchKeeps(s, s', t, n);
  }

  lemma PushStoreRefsKeeps(s: State, t: Thread)
    requires Ready(s, t) && s.m.pcs[t].PushStoreRefs?
    ensures Inv(Moved(s, t))
  {
    hide Inv, Linked, Holders;
    var n, s' := s.m.pcs[t].node, Moved(s, t);
    Known(s, t, n);
    HoldersAfter(s.m.pcs, t, s'.m.pcs[t], n);
    LinkedStill(s, s', n);
    TouchKeeps(s, s', t, n);
  }

  lemma PushSwingFails(s: State, t: Thread)
    requires Ready(s, t) && s.m.pcs[t].PushSwing? && s.m.head != s.m.pcs[t].head
    ensures Inv(Moved(s, t))
  {
    hide Inv, Linked, Holders;
    var n, s' := s.m.pcs[t].node, Moved(s, t);
    HeadInside(s);
    Known(s, t, n);
    HoldersAfter(s.m.pcs, t, s'.m.pcs[t], n);
    LinkedStill(s, s', n);
    TouchKeeps(s, s', t, n);
  }

  /** A pushed node becomes the first of the list. */
  lemma PushedIsLinked(s: State, t: Thread)
    requires Ready(s, t) && s.m.pcs[t].PushSwing? && s.m.head == s.m.pcs[t].head
    ensures Linked(Moved(s, t).m, Moved(s, t).g)
  {
    var n, s', list := s.m.pcs[t].node, Moved(s, t), s.g.list;
    Known(s, t, n);
    assert Linked(s.m, s.g);
    hide Inv, Nodes, NodeCounted, NodeFits;
    assert n !in list;
    assert s'.g.list == [n] + list;
  }

  lemma PushSwingKeeps(s: State, t: Thread)
    requires Ready(s, t) && s.m.pcs[t].PushSwing? && s.m.head == s.m.pcs[t].head
    ensures Inv(Moved(s, t))
  {
    hide Inv, Linked, Holders;
    var n, s' := s.m.pcs[t].node, Moved(s, t);
    HeadInside(s);
    Known(s, t, n);
    HoldersAfter(s.m.pcs, t, s'.m.pcs[t], n);
    PushedIsLinked(s, t);
    TouchKeeps(s, s', t, n);
  }

  lemma PushUndoKeeps(s: State, t: Thread)
    requires Ready(s, t) && s.m.pcs[t].PushUndo?
    ensures Inv(Moved(s, t))
  {
    hide Inv, Linked, Holders;
    var n, s' := s.m.pcs[t].node, Moved(s, t);
    Known(s, t, n);
    HoldersAfter(s.m.pcs, t, s'.m.pcs[t], n);
    LinkedStill(s, s', n);
    TouchKeeps(s, s', t, n);
  }

  lemma GetLoadRefsKeeps(s: State, t: Thread)
    requires Ready(s, t) && s.m.pcs[t].GetLoadRefs?
    ensures Inv(Moved(s, t))
  {
    hide Inv;
    Known(s, t, s.m.pcs[t].node);
    StayKeeps(s, t, Moved(s, t).m.pcs[t]);
  }

  /** The reference is only taken while the counter is not zero, so never of a node being pushed. */
  lemma GetTakeRefKeeps(s: State, t: Thread)
    requires Ready(s, t) && s.m.pcs[t].GetTakeRef? && s.m.refs[s.m.pcs[t].node] == s.m.pcs[t].refs
    ensures Inv(Moved(s, t))
  {
    hide Inv, Linked, Holders;
    var n, s' := s.m.pcs[t].node, Moved(s, t);
    Known(s, t, n);
    HoldersAfter(s.m.pcs, t, s'.m.pcs[t], n);
    LinkedStill(s, s', n);
    TouchKeeps(s, s', t, n);
  }

  lemma GetTakeRefFails(s: State, t: Thread)
    requires Ready(s, t) && s.m.pcs[t].GetTakeRef? && s.m.refs[s.m.pcs[t].node] != s.m.pcs[t].refs
    ensures Inv(Moved(s, t))
  {
    hide Inv;
    Known(s, t, s.m.pcs[t].node);
    StayKeeps(s, t, GetLoadHead);
  }

  lemma GetLoadNextKeeps(s: State, t: Thread)
    requires Ready(s, t) && s.m.pcs[t].GetLoadNext?
    ensures Inv(Moved(s, t))
  {
    hide Inv, Linked, Holders;
    var n, s' := s.m.pcs[t].node, Moved(s, t);
    Known(s, t, n);
    HoldersAfter(s.m.pcs, t, s'.m.pcs[t], n);
    LinkedStill(s, s', n);
    TouchKeeps(s, s', t, n);
  }

  lemma GetSwingFails(s: State, t: Thread)
    requires Ready(s, t) && s.m.pcs[t].GetSwing? && s.m.head != Some(s.m.pcs[t].node)
    ensures Inv(Moved(s, t))
  {
    hide Inv, Linked, Holders;
    var n, s' := s.m.pcs[t].node, Moved(s, t);
    HeadInside(s);
    Known(s, t, n);
    HoldersAfter(s.m.pcs, t, s'.m.pcs[t], n);
    LinkedStill(s, s', n);
    TouchKeeps(s, s', t, n);
  }

  lemma TailIsList(m: Machine, m': Machine, list: seq<Node>)
    requires IsList(m, list) && list != [] && m'.next == m.next && m'.head == m.next[list[0]]
    ensures IsList(m', list[1..])
  {
  }

  /** The stale-head case: the next field read earlier is still the second node of the list. */
  lemma PoppedIsLinked(s: State, t: Thread)
    requires Ready(s, t) && s.m.pcs[t].GetSwing? && s.m.head == Some(s.m.pcs[t].node)
    ensures Linked(Moved(s, t).m, Moved(s, t).g)
  {
    var n, s', list := s.m.pcs[t].node, Moved(s, t), s.g.list;
    Known(s, t, n);
    HeadInside(s);
    TailIsList(s.m, s'.m, list);
    assert forall k :: k in list <==> k == n || k in list[1..];
    assert n !in list[1..];
    hide Inv, Nodes, NodeCounted, NodeFits, IsList;
    assert forall k :: k in s.g.roles ==> (s.g.roles[k].Listed? <==> k in list);
  }

  lemma GetSwingKeeps(s: State, t: Thread)
    requires Ready(s, t) && s.m.pcs[t].GetSwing? && s.m.head == Some(s.m.pcs[t].node)
    ensures Inv(Moved(s, t))
  {
    hide Inv, Linked, Holders;
    var n, s' := s.m.pcs[t].node, Moved(s, t);
    HeadInside(s);
    Known(s, t, n);
    HoldersAfter(s.m.pcs, t, s'.m.pcs[t], n);
    PoppedIsLinked(s, t);
    TouchKeeps(s, s', t, n);
  }

  lemma GetDropRefsKeeps(s: State, t: Thread)
    requires Ready(s, t) && s.m.pcs[t].GetDropRefs?
    ensures Inv(Moved(s, t))
  {
    hide Inv, Linked, Holders;
    var n, s' := s.m.pcs[t].node, Moved(s, t);
    Known(s, t, n);
    HoldersAfter(s.m.pcs, t, s'.m.pcs[t], n);
    LinkedStill(s, s', n);
    TouchKeeps(s, s', t, n);
  }

  lemma GetUndoKeeps(s: State, t: Thread)
    requires Ready(s, t) && s.m.pcs[t].GetUndo?
    ensures Inv(Moved(s, t))
  {
    hide Inv, Linked, Holders;
    var n, s' := s.m.pcs[t].node, Moved(s, t);
    Known(s, t, n);
    HoldersAfter(s.m.pcs, t, s'.m.pcs[t], n);
    LinkedStill(s, s', n);
    TouchKeeps(s, s', t, n);
  }

  lemma CallAddKeeps(s: State, t: Thread, n: Node)
    requires Inv(s) && Enabled(s, CallAdd(t, n)) && n in s.g.roles && s.g.roles[n] == Out
    ensures Inv(Do(s, CallAdd(t, n)))
  {
    hide Inv, Linked, Holders;
    var s' := Do(s, CallAdd(t, n));
    Known(s, t, n);
    HoldersAfter(s.m.pcs, t, s'.m.pcs[t], n);
    LinkedStill(s, s', n);
    TouchKeeps(s, s', t, n);
  }

  lemma MoveKeeps(s: State, t: Thread)
    requires Ready(s, t)
    ensures Inv(Moved(s, t))
  {
    hide Inv;
    match s.m.pcs[t]
    case Idle => assert Moved(s, t).m == s.m && Moved(s, t).g == s.g;
    case AddFlag(_) => AddFlagKeeps(s, t);
    case PushLoadHead(_, _) => PushLoadHeadKeeps(s, t);
    case PushStoreNext(_, _, _) => PushStoreNextKeeps(s, t);
    case PushStoreRefs(_, _, _) => PushStoreRefsKeeps(s, t);
    case PushSwing(_, head, _) => if s.m.head == head { PushSwingKeeps(s, t); } else { PushSwingFails(s, t); }
    case PushUndo(_, _, _) => PushUndoKeeps(s, t);
    case GetLoadHead =>
      HeadInside(s);
      StayKeeps(s, t, Loop(s.m.head));
      assert Moved(s, t) == s.(m := Goto(s.m, t, Loop(s.m.head)));
    case GetLoadRefs(_) => GetLoadRefsKeeps(s, t);
    case GetTakeRef(n, refs) => if s.m.refs[n] == refs { GetTakeRefKeeps(s, t); } else { GetTakeRefFails(s, t); }
    case GetLoadNext(_) => GetLoadNextKeeps(s, t);
    case GetSwing(n, _) => if s.m.head == Some(n) { GetSwingKeeps(s, t); } else { GetSwingFails(s, t); }
    case GetDropRefs(_) => GetDropRefsKeeps(s, t);
    case GetUndo(_, _) => GetUndoKeeps(s, t);
  }

  // ----- The history

  /** A node is only handed out after it was given back, and only given back after it was handed out. */
  ghost predicate Alternates(log: seq<Event>) {
    forall i :: 0 <= i < |log| ==> (log[i].Got? <==> Given(log[..i], log[i].node))
  }

  ghost predicate Logged(s: State) {
    && Alternates(s.g.log)
    && (forall n :: n in s.g.roles ==> (s.g.roles[n] == Out <==> !Given(s.g.log, n)))
  }

  lemma AlternatesAfter(log: seq<Event>, e: Event)
    requires Alternates(log) && (e.Got? <==> Given(log, e.node))
    ensures Alternates(log + [e])
    ensures forall n :: Given(log + [e], n) == if n == e.node then e.Gave? else Given(log, n)
  {
    var after := log + [e];
    assert after[..|log|] == log;
    forall i | 0 <= i < |log|
      ensures after[i].Got? <==> Given(after[..i], after[i].node)
    {
      assert after[..i] == log[..i];
    }
  }

  /** Only the end of try_get turns a node over to its user. */
  lemma MoveKeepsOut(s: State, t: Thread, n: Node)
    requires Ready(s, t) && !s.m.pcs[t].GetDropRefs? && n in s.g.roles
    ensures n in Moved(s, t).g.roles && (Moved(s, t).g.roles[n] == Out <==> s.g.roles[n] == Out)
  {
    hide Inv, Holders, LocalsFit, NodeFits;
    var pc := s.m.pcs[t];
    Known(s, t, n);
    if pc.GetSwing? {
      HeadInside(s);
    } else if pc.GetUndo? && pc.node == n {
      HoldersAfter(s.m.pcs, t, Idle, n);
    } else if pc.AddFlag? || pc.PushStoreRefs? || pc.PushSwing? || pc.PushUndo? {
      assert pc.node == n ==> s.g.roles[n] == RoleAt(pc, t);
    }
  }

  lemma StepKeepsLog(s: State, a: Action)
    requires Inv(s) && Logged(s) && Enabled(s, a)
    ensures Logged(Do(s, a))
  {
    hide Inv, Alternates, Given;
    match a
    case CallAdd(_, n) => AlternatesAfter(s.g.log, Gave(n));
    case CallGet(_) =>
    case Move(t) =>
      if s.m.pcs[t].GetDropRefs? {
        Known(s, t, s.m.pcs[t].node);
        AlternatesAfter(s.g.log, Got(s.m.pcs[t].node));
      } else {
        MovedLog(s, t);
        forall n | n in Moved(s, t).g.roles
          ensures Moved(s, t).g.roles[n] == Out <==> !Given(s.g.log, n)
        {
          MoveKeepsOut(s, t, n);
        }
      }
  }

  lemma MovedLog(s: State, t: Thread)
    requires Ready(s, t) && !s.m.pcs[t].GetDropRefs?
    ensures Moved(s, t).g.log == s.g.log && Moved(s, t).g.roles.Keys == s.g.roles.Keys
  {
    HeadInside(s);
    if !s.m.pcs[t].Idle? && !s.m.pcs[t].GetLoadHead? {
      Known(s, t, s.m.pcs[t].node);
    }
    hide Inv, NodeCounted, NodeFits, ThreadFits;
  }

  /** One step, of any thread. */
  lemma StepKeeps(s: State, a: Action)
    requires Inv(s) && Logged(s) && Enabled(s, a)
    ensures Inv(Do(s, a)) && Logged(Do(s, a))
  {
    StepKeepsLog(s, a);
    hide Inv;
    match a
    case CallAdd(t, n) =>
      Known(s, t, n);
      CallAddKeeps(s, t, n);
    case CallGet(t) => StayKeeps(s, t, GetLoadHead);
    case Move(t) => MoveKeeps(s, t);
  }

  /** Every reachable state of any number of threads, in any interleaving. */
  lemma {:induction false} RunKeeps(nodes: set<Node>, threads: set<Thread>, actions: seq<Action>)
    requires |threads| < SHOULD_BE_ON_FREELIST - 1
    ensures Inv(Run(nodes, threads, actions)) && Logged(Run(nodes, threads, actions))
  {
    if actions == [] {
      var s := Initial(nodes, threads);
      assert s.m.pcs.Keys == threads;
      assert |s.m.pcs| == |s.m.pcs.Keys|;
      forall n | n in s.m.refs
        ensures NodeCounted(s.m, s.g, n)
      {
        assert Holders(s.m.pcs, n) == {};
      }
    } else {
      var rest, a := actions[..|actions| - 1], actions[|actions| - 1];
      RunKeeps(nodes, threads, rest);
      if Enabled(Run(nodes, threads, rest), a) {
        StepKeeps(Run(nodes, threads, rest), a);
      }
    }
  }

  // ----- What the free list promises

  /** Between two times a node is handed out it is given back. */
  lemma {:induction false} GivenInBetween(log: seq<Event>, n: Node, from: nat)
    requires from < |log| && log[from] == Got(n) && Given(log, n)
    ensures exists k :: from < k < |log| && log[k] == Gave(n)
  {
    var last := |log| - 1;
    if log[last].node != n {
      GivenInBetween(log[..last], n, from);
    } else {
      assert from < last;
    }
  }

  lemma NeverHandedOutTwice(nodes: set<Node>, threads: set<Thread>, actions: seq<Action>, n: Node, i: nat, j: nat)
    requires |threads| < SHOULD_BE_ON_FREELIST - 1
    requires i < j < |Run(nodes, threads, actions).g.log|
    requires Run(nodes, threads, actions).g.log[i] == Run(nodes, threads, actions).g.log[j] == Got(n)
    ensures exists k :: i < k < j && Run(nodes, threads, actions).g.log[k] == Gave(n)
  {
    RunKeeps(nodes, threads, actions);
    GivenInBetween(Run(nodes, threads, actions).g.log[..j], n, i);
  }

  /** The k-th node from the head. */
  function Walk(m: Machine, k: nat): Option<Node> {
    if k == 0 then m.head
    else
      var before := Walk(m, k - 1);
      if before.Some? && before.value in m.next then m.next[before.value] else None
  }

  lemma {:induction false} WalkIsTheList(m: Machine, list: seq<Node>, k: nat)
    requires IsList(m, list)
    ensures Walk(m, k) == if k < |list| then Some(list[k]) else None
  {
    if k > 0 {
      WalkIsTheList(m, list, k - 1);
    }
  }

  /** The list ends, has no cycle, and no node that users hold can be reached from its head. */
  lemma ListIsSound(nodes: set<Node>, threads: set<Thread>, actions: seq<Action>, i: nat, j: nat)
    requires |threads| < SHOULD_BE_ON_FREELIST - 1
    ensures
      var s := Run(nodes, threads, actions);
      && Walk(s.m, |s.g.list|) == None
      && (Walk(s.m, i) == Walk(s.m, j) && Walk(s.m, i).Some? ==> i == j)
      && (Walk(s.m, i).Some? ==> Given(s.g.log, Walk(s.m, i).value))
  {
    var s := Run(nodes, threads, actions);
    RunKeeps(nodes, threads, actions);
    WalkIsTheList(s.m, s.g.list, i);
    WalkIsTheList(s.m, s.g.list, j);
    WalkIsTheList(s.m, s.g.list, |s.g.list|);
    if i < |s.g.list| {
      assert s.g.list[i] in s.g.list;
    }
  }

  /** The assertion in try_get: a node just swung off the list does not have the flag. */
  lemma TakenIsNotFlagged(nodes: set<Node>, threads: set<Thread>, actions: seq<Action>, t: Thread)
    requires |threads| < SHOULD_BE_ON_FREELIST - 1
    requires t in Run(nodes, threads, actions).m.pcs && Run(nodes, threads, actions).m.pcs[t].GetDropRefs?
    ensures
      var m := Run(nodes, threads, actions).m;
      m.pcs[t].node in m.refs && 2 <= m.refs[m.pcs[t].node] < SHOULD_BE_ON_FREELIST
  {
    var s := Run(nodes, threads, actions);
    RunKeeps(nodes, threads, actions);
    var n := s.m.pcs[t].node;
    Known(s, t, n);
    HoldersAfter(s.m.pcs, t, Idle, n);
  }

  /** No node is lost: once every call has returned, the list has exactly the nodes given back. */
  lemma NothingIsLost(nodes: set<Node>, threads: set<Thread>, actions: seq<Action>, n: Node)
    requires |threads| < SHOULD_BE_ON_FREELIST - 1
    requires forall t :: t in Run(nodes, threads, actions).m.pcs ==> Run(nodes, threads, actions).m.pcs[t].Idle?
    requires n in Run(nodes, threads, actions).m.refs
    ensures
      var s := Run(nodes, threads, actions);
      && (n in s.g.list <==> Given(s.g.log, n))
      && s.m.refs[n] == (if n in s.g.list then 1 else 0)
  {
    var s := Run(nodes, threads, actions);
    RunKeeps(nodes, threads, actions);
    assert NodeCounted(s.m, s.g, n) && NodeFits(s.m, s.g, n);
    assert Holders(s.m.pcs, n) == {};
  }

  /** A thread can always do its next access: all its nodes exist. */
  lemma MovesAreEnabled(nodes: set<Node>, threads: set<Thread>, actions: seq<Action>, t: Thread)
    requires |threads| < SHOULD_BE_ON_FREELIST - 1 && t in Run(nodes, threads, actions).m.pcs
    ensures Enabled(Run(nodes, threads, actions), Move(t))
  {
    RunKeeps(nodes, threads, actions);
    var s := Run(nodes, threads, actions);
    assert ThreadFits(s.m, s.g, t, s.m.pcs[t]);
  }
}
