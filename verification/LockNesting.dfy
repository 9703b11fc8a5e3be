/** The three spin locks, and the signal handlers that interrupt their holders.
    A signal may arrive at any step of a thread's own code, critical sections included,
    but not inside its handler.  Only the scope lock records its owner. */
module LockNesting {
  import opened Sums

  /** A thread's own code. */
  datatype Base =
    | App
    | WantUsers | HoldUsers      // registering or unregistering the thread
    | WantScope | HoldScope      // adding or clearing in-scope methods

  /** Its handler; `own` says that the handler took the scope lock itself. */
  datatype Handler =
    | None
    | Began
    | SeekScope
    | Looking(own: bool)
    | SeekFrame(own: bool)
    | HoldFrame(own: bool)
    | Done(own: bool)

  datatype Thread = Thread(base: Base, handler: Handler)

  datatype Agent = Idle | AgentWantUsers | AgentHoldUsers | AgentWantFrame | AgentHoldFrame

  datatype Scope = Unowned | OwnedBy(i: nat)

  /** The users and frame locks are plain flags. */
  datatype State = State(users: bool, scope: Scope, frame: bool, agent: Agent, threads: seq<Thread>)

  datatype ThreadStep =
    | EnterUsers | TakeUsers | DropUsers
    | EnterScope | TakeScope | DropScope
    | Test | Skip | HandlerTakeScope | FindFrame | TakeFrame | DropFrame | Return

  datatype AgentStep =
    | AgentEnterUsers | AgentTakeUsers | AgentDropUsers | AgentEnterFrame | AgentTakeFrame | AgentDropFrame

  datatype Action = Spawn | Signal(i: nat) | ByThread(i: nat, step: ThreadStep) | ByAgent(act: AgentStep)

  const INITIAL := State(false, Unowned, false, Idle, [])

  predicate ThreadEnabled(s: State, t: Thread, step: ThreadStep) {
    match step
    case EnterUsers => t.handler.None? && t.base.App?
    case TakeUsers => t.handler.None? && t.base.WantUsers? && !s.users
    case DropUsers => t.handler.None? && t.base.HoldUsers?
    case EnterScope => t.handler.None? && t.base.App?
    case TakeScope => t.handler.None? && t.base.WantScope? && s.scope.Unowned?
    case DropScope => t.handler.None? && t.base.HoldScope?
    case Test => t.handler.Began?
    case Skip => t.handler.Began?
    case HandlerTakeScope => t.handler.SeekScope? && s.scope.Unowned?
    case FindFrame => t.handler.Looking?
    case TakeFrame => t.handler.SeekFrame? && !s.frame
    case DropFrame => t.handler.HoldFrame?
    case Return => t.handler.Looking? || t.handler.Done?
  }

  predicate AgentEnabled(s: State, act: AgentStep) {
    match act
    case AgentEnterUsers => s.agent.Idle?
    case AgentTakeUsers => s.agent.AgentWantUsers? && !s.users
    case AgentDropUsers => s.agent.AgentHoldUsers?
    case AgentEnterFrame => s.agent.Idle?
    case AgentTakeFrame => s.agent.AgentWantFrame? && !s.frame
    case AgentDropFrame => s.agent.AgentHoldFrame?
  }

  predicate Enabled(s: State, a: Action) {
    match a
    case Spawn => true
    case Signal(i) => i < |s.threads| && s.threads[i].handler.None?
    case ByThread(i, step) => i < |s.threads| && ThreadEnabled(s, s.threads[i], step)
    case ByAgent(act) => AgentEnabled(s, act)
  }

  function StepThread(s: State, i: nat, step: ThreadStep): Thread
    requires i < |s.threads| && ThreadEnabled(s, s.threads[i], step)
  {
    var t := s.threads[i];
    match step
    case EnterUsers => t.(base := WantUsers)
    case TakeUsers => t.(base := HoldUsers)
    case DropUsers => t.(base := App)
    case EnterScope => t.(base := WantScope)
    case TakeScope => t.(base := HoldScope)
    case DropScope => t.(base := App)
    case Test => t.(handler := if s.scope == OwnedBy(i) then Looking(false) else SeekScope)
    case Skip => t.(handler := None)
    case HandlerTakeScope => t.(handler := Looking(true))
    case FindFrame => t.(handler := SeekFrame(t.handler.own))
    case TakeFrame => t.(handler := HoldFrame(t.handler.own))
    case DropFrame => t.(handler := Done(t.handler.own))
    case Return => t.(handler := None)
  }

  /** Releases are plain stores: nothing checks who held the lock. */
  function StepLocks(s: State, i: nat, step: ThreadStep): State
    requires i < |s.threads| && ThreadEnabled(s, s.threads[i], step)
  {
    match step
    case TakeUsers => s.(users := true)
    case DropUsers => s.(users := false)
    case TakeScope => s.(scope := OwnedBy(i))
    case DropScope => s.(scope := Unowned)
    case HandlerTakeScope => s.(scope := OwnedBy(i))
    case TakeFrame => s.(frame := true)
    case DropFrame => s.(frame := false)
    case Return => if s.threads[i].handler.own then s.(scope := Unowned) else s
    case _ => s
  }

  function ApplyAgent(s: State, act: AgentStep): State
    requires AgentEnabled(s, act)
  {
    match act
    case AgentEnterUsers => s.(agent := AgentWantUsers)
    case AgentTakeUsers => s.(agent := AgentHoldUsers, users := true)
    case AgentDropUsers => s.(agent := Idle, users := false)
    case AgentEnterFrame => s.(agent := AgentWantFrame)
    case AgentTakeFrame => s.(agent := AgentHoldFrame, frame := true)
    case AgentDropFrame => s.(agent := Idle, frame := false)
  }

  function Apply(s: State, a: Action): State
    requires Enabled(s, a)
  {
    match a
    case Spawn => s.(threads := s.threads + [Thread(App, None)])
    case Signal(i) => s.(threads := s.threads[i := s.threads[i].(handler := Began)])
    case ByThread(i, step) => StepLocks(s, i, step).(threads := s.threads[i := StepThread(s, i, step)])
    case ByAgent(act) => ApplyAgent(s, act)
  }

  predicate Legal(s: State, run: seq<Action>)
    decreases |run|
  {
    run == [] || (Enabled(s, run[0]) && Legal(Apply(s, run[0]), run[1..]))
  }

  function Exec(s: State, run: seq<Action>): State
    requires Legal(s, run)
    decreases |run|
  {
    if run == [] then s else Exec(Apply(s, run[0]), run[1..])
  }

  // ---- who holds what

  predicate HandlerOwns(h: Handler) {
    (h.Looking? || h.SeekFrame? || h.HoldFrame? || h.Done?) && h.own
  }

  predicate HandlerBorrows(h: Handler) {
    (h.Looking? || h.SeekFrame? || h.HoldFrame? || h.Done?) && !h.own
  }

  predicate HoldsUsers(t: Thread) { t.base.HoldUsers? }

  predicate HoldsScope(t: Thread) { t.base.HoldScope? || HandlerOwns(t.handler) }

  predicate HoldsFrame(t: Thread) { t.handler.HoldFrame? }

  /** A borrowing handler runs inside its own thread's critical section; a seeking or owning
      one does not. */
  predicate ThreadInv(t: Thread) {
    && (HandlerBorrows(t.handler) ==> t.base.HoldScope?)
    && (t.handler.SeekScope? || HandlerOwns(t.handler) ==> !t.base.HoldScope?)
  }

  function One(b: bool): int {
    if b then 1 else 0
  }

  function UsersHeld(ts: seq<Thread>): (h: seq<int>)
    ensures |h| == |ts| && forall i :: 0 <= i < |h| ==> h[i] == One(HoldsUsers(ts[i]))
  {
    seq(|ts|, i requires 0 <= i < |ts| => One(HoldsUsers(ts[i])))
  }

  function FrameHeld(ts: seq<Thread>): (h: seq<int>)
    ensures |h| == |ts| && forall i :: 0 <= i < |h| ==> h[i] == One(HoldsFrame(ts[i]))
  {
    seq(|ts|, i requires 0 <= i < |ts| => One(HoldsFrame(ts[i])))
  }

  function UsersHolders(s: State): int {
    Sum(UsersHeld(s.threads)) + One(s.agent.AgentHoldUsers?)
  }

  function FrameHolders(s: State): int {
    Sum(FrameHeld(s.threads)) + One(s.agent.AgentHoldFrame?)
  }

  predicate ScopeInv(s: State) {
    && (s.scope.OwnedBy? ==> s.scope.i < |s.threads|)
    && forall i :: 0 <= i < |s.threads| ==>
         ThreadInv(s.threads[i]) && (HoldsScope(s.threads[i]) <==> s.scope == OwnedBy(i))
  }

  /** Each flag is up exactly when one activity holds it, and the scope lock names its holder. */
  predicate Inv(s: State) {
    && UsersHolders(s) == One(s.users)
    && FrameHolders(s) == One(s.frame)
    && ScopeInv(s)
  }

  lemma ScopeStep(s: State, i: nat, step: ThreadStep)
    requires ScopeInv(s) && Enabled(s, ByThread(i, step))
    ensures ScopeInv(Apply(s, ByThread(i, step)))
  {
    var s' := Apply(s, ByThread(i, step));
    assert ThreadInv(s.threads[i]);
    assert s'.threads[i] == StepThread(s, i, step);
    assert ThreadInv(s'.threads[i]) && (HoldsScope(s'.threads[i]) <==> s'.scope == OwnedBy(i));
    forall k | 0 <= k < |s.threads| && k != i
      ensures ThreadInv(s'.threads[k]) && (HoldsScope(s'.threads[k]) <==> s'.scope == OwnedBy(k))
    {
      assert s'.threads[k] == s.threads[k];
    }
  }

  lemma UsersStep(s: State, i: nat, step: ThreadStep)
    requires UsersHolders(s) == One(s.users) && FrameHolders(s) == One(s.frame) && Enabled(s, ByThread(i, step))
    ensures UsersHolders(Apply(s, ByThread(i, step))) == One(Apply(s, ByThread(i, step)).users)
  {
    var t' := StepThread(s, i, step);
    assert UsersHeld(s.threads[i := t']) == UsersHeld(s.threads)[i := One(HoldsUsers(t'))];
    SumUpdate(UsersHeld(s.threads), i, One(HoldsUsers(t')));
    HolderMeansHeld(s, i);
  }

  lemma FrameStep(s: State, i: nat, step: ThreadStep)
    requires UsersHolders(s) == One(s.users) && FrameHolders(s) == One(s.frame) && Enabled(s, ByThread(i, step))
    ensures FrameHolders(Apply(s, ByThread(i, step))) == One(Apply(s, ByThread(i, step)).frame)
  {
    var t' := StepThread(s, i, step);
    assert FrameHeld(s.threads[i := t']) == FrameHeld(s.threads)[i := One(HoldsFrame(t'))];
    SumUpdate(FrameHeld(s.threads), i, One(HoldsFrame(t')));
    HolderMeansHeld(s, i);
  }

  lemma HolderMeansHeld(s: State, i: nat)
    requires UsersHolders(s) == One(s.users) && FrameHolders(s) == One(s.frame) && i < |s.threads|
    ensures HoldsUsers(s.threads[i]) ==> s.users && !s.agent.AgentHoldUsers?
    ensures HoldsFrame(s.threads[i]) ==> s.frame && !s.agent.AgentHoldFrame?
  {
    SumUpdate(UsersHeld(s.threads), i, 0);
    SumUpdate(FrameHeld(s.threads), i, 0);
    SumZero(UsersHeld(s.threads)[i := 0]);
    SumZero(FrameHeld(s.threads)[i := 0]);
  }

  lemma SpawnStep(s: State)
    requires Inv(s)
    ensures Inv(Apply(s, Spawn))
  {
    SpawnCounts(s);
    SpawnScope(s);
    hide UsersHolders, FrameHolders, ScopeInv;
  }

  lemma SpawnCounts(s: State)
    ensures UsersHolders(Apply(s, Spawn)) == UsersHolders(s)
    ensures FrameHolders(Apply(s, Spawn)) == FrameHolders(s)
  {
    var s' := Apply(s, Spawn);
    assert UsersHeld(s'.threads) == UsersHeld(s.threads) + [0];
    assert FrameHeld(s'.threads) == FrameHeld(s.threads) + [0];
    SumAppend(UsersHeld(s.threads), 0);
    SumAppend(FrameHeld(s.threads), 0);
    hide Sum;
  }

  lemma SpawnScope(s: State)
    requires ScopeInv(s)
    ensures ScopeInv(Apply(s, Spawn))
  {
  }

  lemma SignalStep(s: State, i: nat)
    requires Inv(s) && Enabled(s, Signal(i))
    ensures Inv(Apply(s, Signal(i)))
  {
    var s' := Apply(s, Signal(i));
    assert UsersHeld(s'.threads) == UsersHeld(s.threads);
    assert FrameHeld(s'.threads) == FrameHeld(s.threads);
    forall k | 0 <= k < |s.threads|
      ensures ThreadInv(s'.threads[k]) && (HoldsScope(s'.threads[k]) <==> s'.scope == OwnedBy(k))
    {
      assert ThreadInv(s.threads[k]);
    }
  }

  lemma AgentStepInv(s: State, act: AgentStep)
    requires Inv(s) && AgentEnabled(s, act)
    ensures Inv(ApplyAgent(s, act))
  {
    SumZero(UsersHeld(s.threads));
    SumZero(FrameHeld(s.threads));
    assert ScopeInv(ApplyAgent(s, act)) by {
      forall k | 0 <= k < |s.threads|
        ensures ThreadInv(s.threads[k]) && (HoldsScope(s.threads[k]) <==> s.scope == OwnedBy(k))
      {
      }
    }
  }

  lemma StepInv(s: State, a: Action)
    requires Inv(s) && Enabled(s, a)
    ensures Inv(Apply(s, a))
  {
    match a {
      case Spawn => SpawnStep(s);
      case Signal(i) => SignalStep(s, i);
      case ByThread(i, step) => ScopeStep(s, i, step); UsersStep(s, i, step); FrameStep(s, i, step);
      case ByAgent(act) => AgentStepInv(s, act);
    }
  }

  lemma {:induction false} RunInv(s: State, run: seq<Action>)
    requires Inv(s) && Legal(s, run)
    ensures Inv(Exec(s, run))
    decreases |run|
  {
    if run == [] {
    } else {
      StepInv(s, run[0]);
      RunInv(Apply(s, run[0]), run[1..]);
    }
  }

  // ---- mutual exclusion

  /** Who may hold a lock: a thread (in its own code or its handler) or the agent. */
  datatype Actor = TheAgent | TheThread(i: nat)

  datatype Lock = UsersLock | ScopeLock | FrameLock

  predicate Present(s: State, x: Actor) {
    x.TheThread? ==> x.i < |s.threads|
  }

  predicate Holds(s: State, x: Actor, l: Lock)
    requires Present(s, x)
  {
    match l
    case UsersLock => if x.TheAgent? then s.agent.AgentHoldUsers? else HoldsUsers(s.threads[x.i])
    case ScopeLock => x.TheThread? && HoldsScope(s.threads[x.i])
    case FrameLock => if x.TheAgent? then s.agent.AgentHoldFrame? else HoldsFrame(s.threads[x.i])
  }

  predicate Taken(s: State, l: Lock) {
    match l
    case UsersLock => s.users
    case ScopeLock => s.scope.OwnedBy?
    case FrameLock => s.frame
  }

  /** What the innermost activity of an actor is spinning on. */
  predicate SpinsOn(s: State, x: Actor, l: Lock)
    requires Present(s, x)
  {
    match x
    case TheAgent =>
      (l.UsersLock? && s.agent.AgentWantUsers?) || (l.FrameLock? && s.agent.AgentWantFrame?)
    case TheThread(i) =>
      var t := s.threads[i];
      match l
      case UsersLock => t.handler.None? && t.base.WantUsers?
      case ScopeLock => (t.handler.None? && t.base.WantScope?) || t.handler.SeekScope?
      case FrameLock => t.handler.SeekFrame?
  }

  predicate Blocked(s: State, x: Actor)
    requires Present(s, x)
  {
    exists l :: SpinsOn(s, x, l) && Taken(s, l)
  }

  function Rank(l: Lock): nat {
    match l
    case UsersLock => 1
    case ScopeLock => 2
    case FrameLock => 3
  }

  /** In every reachable state a lock is taken exactly when somebody holds it, and then by
      one actor only, although two of the three are released by a plain store. */
  lemma MutualExclusion(run: seq<Action>, l: Lock, x: Actor, y: Actor)
    requires Legal(INITIAL, run)
    requires Present(Exec(INITIAL, run), x) && Present(Exec(INITIAL, run), y)
    ensures var s := Exec(INITIAL, run);
            && (Holds(s, x, l) ==> Taken(s, l))
            && (Holds(s, x, l) && Holds(s, y, l) ==> x == y)
            && (Taken(s, l) ==> exists z :: Present(s, z) && Holds(s, z, l))
  {
    RunInv(INITIAL, run);
    var s := Exec(INITIAL, run);
    OneHolder(s, l, x, y);
    if Taken(s, l) {
      var z := HolderOf(s, l);
    }
  }

  lemma OneHolder(s: State, l: Lock, x: Actor, y: Actor)
    requires Inv(s) && Present(s, x) && Present(s, y)
    ensures Holds(s, x, l) ==> Taken(s, l)
    ensures Holds(s, x, l) && Holds(s, y, l) ==> x == y
  {
    SumZero(UsersHeld(s.threads));
    SumZero(FrameHeld(s.threads));
    if x.TheThread? { HolderMeansHeld(s, x.i); }
    if y.TheThread? { HolderMeansHeld(s, y.i); }
    if x.TheThread? && y.TheThread? && x.i != y.i {
      TwoTerms(UsersHeld(s.threads), x.i, y.i);
      TwoTerms(FrameHeld(s.threads), x.i, y.i);
    }
  }

  lemma TwoTerms(h: seq<int>, i: nat, j: nat)
    requires i < |h| && j < |h| && i != j && forall k :: 0 <= k < |h| ==> h[k] >= 0
    ensures h[i] + h[j] <= Sum(h)
  {
    SumUpdate(h, i, 0);
    SumUpdate(h[i := 0], j, 0);
    SumZero(h[i := 0][j := 0]);
  }

  lemma HolderOf(s: State, l: Lock) returns (x: Actor)
    requires Inv(s) && Taken(s, l)
    ensures Present(s, x) && Holds(s, x, l)
  {
    SumZero(UsersHeld(s.threads));
    SumZero(FrameHeld(s.threads));
    match l {
      case ScopeLock => x := TheThread(s.scope.i);
      case UsersLock =>
        if s.agent.AgentHoldUsers? {
          x := TheAgent;
        } else {
          var i :| 0 <= i < |s.threads| && UsersHeld(s.threads)[i] != 0;
          x := TheThread(i);
        }
      case FrameLock =>
        if s.agent.AgentHoldFrame? {
          x := TheAgent;
        } else {
          var i :| 0 <= i < |s.threads| && FrameHeld(s.threads)[i] != 0;
          x := TheThread(i);
        }
    }
  }

  // ---- no deadlock

  /** Whoever spins on a lock holds only locks of lower rank. */
  lemma WaitsGoUpward(s: State, x: Actor, held: Lock, wanted: Lock)
    requires Inv(s) && Present(s, x) && Holds(s, x, held) && SpinsOn(s, x, wanted)
    ensures Rank(held) < Rank(wanted)
  {
    if x.TheThread? { assert ThreadInv(s.threads[x.i]); }
  }

  /** The lock of highest rank that is taken is held by someone who is not blocked. */
  lemma SomeHolderIsFree(s: State) returns (l: Lock, x: Actor)
    requires Inv(s) && (s.users || s.frame || s.scope.OwnedBy?)
    ensures Present(s, x) && Holds(s, x, l) && !Blocked(s, x)
  {
    l := if s.frame then FrameLock else if s.scope.OwnedBy? then ScopeLock else UsersLock;
    x := HolderOf(s, l);
    forall w | SpinsOn(s, x, w) ensures !Taken(s, w) {
      WaitsGoUpward(s, x, l, w);
    }
  }

  /** In every reachable state in which somebody is blocked, the lock it spins on is held, every
      holder that is itself blocked waits for a lock of higher rank, and some holder of a
      lock can take a step. */
  lemma NoDeadlock(run: seq<Action>, x: Actor)
    requires Legal(INITIAL, run) && Present(Exec(INITIAL, run), x) && Blocked(Exec(INITIAL, run), x)
    ensures exists l, y ::
      Present(Exec(INITIAL, run), y) && Holds(Exec(INITIAL, run), y, l) && !Blocked(Exec(INITIAL, run), y)
  {
    RunInv(INITIAL, run);
    var l, y := SomeHolderIsFree(Exec(INITIAL, run));
  }

  // ---- releases

  /** A nested handler that found its own thread holding the scope lock returns with that lock
      still held, and every step that frees a lock is taken by the one who holds it. */
  lemma ReleasesAreOwn(s: State, i: nat, step: ThreadStep, l: Lock)
    requires Inv(s) && Enabled(s, ByThread(i, step))
    ensures HandlerBorrows(s.threads[i].handler) ==>
      s.scope == OwnedBy(i) && Apply(s, ByThread(i, step)).scope == OwnedBy(i)
    ensures Taken(s, l) && !Taken(Apply(s, ByThread(i, step)), l) ==> Holds(s, TheThread(i), l)
  {
    assert ThreadInv(s.threads[i]);
  }

  /** Steps left, at most, until a thread that holds a lock holds none. */
  function HandlerTodo(h: Handler): nat {
    match h
    case None => 0
    case Began => 6
    case SeekScope => 5
    case Looking(_) => 4
    case SeekFrame(_) => 3
    case HoldFrame(_) => 2
    case Done(_) => 1
  }

  function Todo(t: Thread): nat {
    if HoldsUsers(t) || HoldsScope(t) || HoldsFrame(t)
    then HandlerTodo(t.handler) + One(t.base.HoldUsers? || t.base.HoldScope?)
    else 0
  }

  function Todos(ts: seq<Thread>): (h: seq<int>)
    ensures |h| == |ts| && forall i :: 0 <= i < |h| ==> h[i] == Todo(ts[i])
  {
    seq(|ts|, i requires 0 <= i < |ts| => Todo(ts[i]))
  }

  function Work(s: State): int {
    Sum(Todos(s.threads)) + One(s.agent.AgentHoldUsers? || s.agent.AgentHoldFrame?)
  }

  predicate HolderAction(s: State, a: Action) {
    match a
    case ByThread(i, _) => i < |s.threads| && Todo(s.threads[i]) > 0
    case ByAgent(_) => s.agent.AgentHoldUsers? || s.agent.AgentHoldFrame?
    case _ => false
  }

  /** Whatever a lock holder does next, as long as it is not interrupted again, brings it
      closer to holding nothing. */
  lemma HoldersMakeProgress(s: State, a: Action)
    requires Inv(s) && Enabled(s, a) && HolderAction(s, a)
    ensures 0 <= Work(Apply(s, a)) < Work(s)
  {
    var s' := Apply(s, a);
    SumZero(Todos(s'.threads));
    if a.ByThread? {
      assert ThreadInv(s.threads[a.i]);
      var t' := StepThread(s, a.i, a.step);
      assert Todo(t') < Todo(s.threads[a.i]);
      assert Todos(s'.threads) == Todos(s.threads)[a.i := Todo(t')];
      SumUpdate(Todos(s.threads), a.i, Todo(t'));
    }
  }

  lemma FreeHolderSteps(s: State, l: Lock, x: Actor) returns (a: Action)
    requires Inv(s) && Present(s, x) && Holds(s, x, l) && !Blocked(s, x)
    ensures Enabled(s, a) && HolderAction(s, a)
  {
    assert forall w :: SpinsOn(s, x, w) ==> !Taken(s, w);
    if x.TheAgent? {
      a := ByAgent(if s.agent.AgentHoldUsers? then AgentDropUsers else AgentDropFrame);
    } else {
      var t := s.threads[x.i];
      assert ThreadInv(t);
      var step := match t.handler
        case None => if t.base.HoldUsers? then DropUsers else DropScope
        case Began => Test
        case SeekScope => HandlerTakeScope
        case Looking(_) => Return
        case SeekFrame(_) => TakeFrame
        case HoldFrame(_) => DropFrame
        case Done(_) => Return;
      assert t.handler.SeekScope? ==> SpinsOn(s, x, ScopeLock);
      assert t.handler.SeekFrame? ==> SpinsOn(s, x, FrameLock);
      a := ByThread(x.i, step);
    }
  }

  predicate HoldersOnly(s: State, run: seq<Action>)
    requires Legal(s, run)
    decreases |run|
  {
    run == [] || (HolderAction(s, run[0]) && HoldersOnly(Apply(s, run[0]), run[1..]))
  }

  /** From every consistent state the holders alone, without any help, free every lock within
      a number of steps known beforehand. */
  lemma {:induction false} AllLocksCanBeFreed(s: State) returns (run: seq<Action>)
    requires Inv(s)
    ensures Legal(s, run) && HoldersOnly(s, run) && |run| <= Work(s)
    ensures forall l :: !Taken(Exec(s, run), l)
    decreases Work(s)
  {
    SumZero(Todos(s.threads));
    if s.users || s.frame || s.scope.OwnedBy? {
      var l, x := SomeHolderIsFree(s);
      var a := FreeHolderSteps(s, l, x);
      HoldersMakeProgress(s, a);
      StepInv(s, a);
      var rest := AllLocksCanBeFreed(Apply(s, a));
      run := [a] + rest;
      assert run[1..] == rest;
    } else {
      run := [];
    }
  }

  // ---- the nesting happens

  ghost predicate Reaches(s: State, s': State) {
    exists run :: Legal(s, run) && Exec(s, run) == s'
  }

  lemma {:induction false} ExecSnoc(s: State, run: seq<Action>, a: Action)
    requires Legal(s, run) && Enabled(Exec(s, run), a)
    ensures Legal(s, run + [a]) && Exec(s, run + [a]) == Apply(Exec(s, run), a)
    decreases |run|
  {
    if run == [] {
      assert (run + [a])[1..] == [];
    } else {
      ExecSnoc(Apply(s, run[0]), run[1..], a);
      assert (run + [a])[1..] == run[1..] + [a];
    }
  }

  lemma Extend(m: State, a: Action) returns (m': State)
    requires Reaches(INITIAL, m) && Enabled(m, a)
    ensures m' == Apply(m, a) && Reaches(INITIAL, m')
  {
    var run :| Legal(INITIAL, run) && Exec(INITIAL, run) == m;
    ExecSnoc(INITIAL, run, a);
    m' := Apply(m, a);
  }

  lemma OneThread() returns (s: State)
    ensures Reaches(INITIAL, s) && s == State(false, Unowned, false, Idle, [Thread(App, None)])
  {
    assert Legal(INITIAL, []) && Exec(INITIAL, []) == INITIAL;
    s := Extend(INITIAL, Spawn);
  }

  /** A handler runs inside its own thread's critical section, publishes a frame, and leaves the
      scope lock to the code it interrupted, which then releases it. */
  lemma HandlerInsideCriticalSection() returns (inside: State, after: State)
    ensures Reaches(INITIAL, inside)
    ensures inside == State(false, OwnedBy(0), true, Idle, [Thread(HoldScope, HoldFrame(false))])
    ensures Reaches(INITIAL, after) && after == State(false, Unowned, false, Idle, [Thread(App, None)])
  {
    inside := OneThread();
    inside := Extend(inside, ByThread(0, EnterScope));
    inside := Extend(inside, ByThread(0, TakeScope));
    assert inside == State(false, OwnedBy(0), false, Idle, [Thread(HoldScope, None)]);
    inside := Extend(inside, Signal(0));
    inside := Extend(inside, ByThread(0, Test));
    inside := HoldsTheFrame(inside, Looking(false));
    after := LetsTheFrameGo(inside, HoldFrame(false));
    after := Extend(after, ByThread(0, DropScope));
  }

  lemma HoldsTheFrame(m: State, h: Handler) returns (s: State)
    requires Reaches(INITIAL, m) && |m.threads| == 1 && m.threads[0].handler == h && h.Looking? && !m.frame
    ensures Reaches(INITIAL, s)
    ensures s == m.(frame := true, threads := [m.threads[0].(handler := HoldFrame(h.own))])
  {
    s := Extend(m, ByThread(0, FindFrame));
    s := Extend(s, ByThread(0, TakeFrame));
  }

  lemma LetsTheFrameGo(m: State, h: Handler) returns (s: State)
    requires Reaches(INITIAL, m) && |m.threads| == 1 && m.threads[0].handler == h && h.HoldFrame?
    ensures Reaches(INITIAL, s)
    ensures s == m.(frame := false, scope := if h.own then Unowned else m.scope,
                    threads := [m.threads[0].(handler := None)])
  {
    s := Extend(m, ByThread(0, DropFrame));
    s := Extend(s, ByThread(0, Return));
  }

  /** A handler that interrupts its thread while that holds the lock of the thread list takes the
      other two, all three being held by one thread then, and releases just those. */
  lemma AllThreeHeld() returns (inside: State, after: State)
    ensures Reaches(INITIAL, inside)
    ensures inside == State(true, OwnedBy(0), true, Idle, [Thread(HoldUsers, HoldFrame(true))])
    ensures Reaches(INITIAL, after) && after == State(true, Unowned, false, Idle, [Thread(HoldUsers, None)])
  {
    inside := OneThread();
    inside := Extend(inside, ByThread(0, EnterUsers));
    inside := Extend(inside, ByThread(0, TakeUsers));
    assert inside == State(true, Unowned, false, Idle, [Thread(HoldUsers, None)]);
    inside := InterruptedHolder(inside);
    inside := HoldsTheFrame(inside, Looking(true));
    after := LetsTheFrameGo(inside, HoldFrame(true));
  }

  lemma InterruptedHolder(m: State) returns (s: State)
    requires Reaches(INITIAL, m) && m == State(true, Unowned, false, Idle, [Thread(HoldUsers, None)])
    ensures Reaches(INITIAL, s) && s == State(true, OwnedBy(0), false, Idle, [Thread(HoldUsers, Looking(true))])
  {
    s := Extend(m, Signal(0));
    s := Extend(s, ByThread(0, Test));
    s := Extend(s, ByThread(0, HandlerTakeScope));
  }

  /** A handler that has nothing to publish, as during an experiment, leaves all locks alone. */
  lemma HandlerMaySkip(s: State, i: nat)
    requires i < |s.threads| && s.threads[i].handler.None?
    ensures Enabled(s, Signal(i)) && Enabled(Apply(s, Signal(i)), ByThread(i, Skip))
    ensures Apply(Apply(s, Signal(i)), ByThread(i, Skip)) == s
  {
    assert s.threads[i := s.threads[i].(handler := Began)][i := s.threads[i]] == s.threads;
  }

  /** The agent waits while the thread holds the lock of the thread list, takes it afterwards, lets
      it go, and does the same with the frame lock. */
  lemma AgentTakesItsTurn() returns (blocked: State, users: State, frame: State, after: State)
    ensures Reaches(INITIAL, blocked) && Blocked(blocked, TheAgent)
    ensures blocked == State(true, Unowned, false, AgentWantUsers, [Thread(HoldUsers, None)])
    ensures Reaches(INITIAL, users) && users == State(true, Unowned, false, AgentHoldUsers, [Thread(App, None)])
    ensures Reaches(INITIAL, frame) && frame == State(false, Unowned, true, AgentHoldFrame, [Thread(App, None)])
    ensures Reaches(INITIAL, after) && after == State(false, Unowned, false, Idle, [Thread(App, None)])
  {
    blocked := OneThread();
    blocked := Extend(blocked, ByThread(0, EnterUsers));
    blocked := Extend(blocked, ByThread(0, TakeUsers));
    blocked := Extend(blocked, ByAgent(AgentEnterUsers));
    assert blocked == State(true, Unowned, false, AgentWantUsers, [Thread(HoldUsers, None)]);
    assert SpinsOn(blocked, TheAgent, UsersLock) && Taken(blocked, UsersLock);
    users := AgentAfterThread(blocked);
    frame := Extend(users, ByAgent(AgentDropUsers));
    frame := Extend(frame, ByAgent(AgentEnterFrame));
    frame := Extend(frame, ByAgent(AgentTakeFrame));
    after := Extend(frame, ByAgent(AgentDropFrame));
  }

  lemma AgentAfterThread(m: State) returns (s: State)
    requires Reaches(INITIAL, m) && m == State(true, Unowned, false, AgentWantUsers, [Thread(HoldUsers, None)])
    ensures Reaches(INITIAL, s) && s == State(true, Unowned, false, AgentHoldUsers, [Thread(App, None)])
  {
    s := Extend(m, ByThread(0, DropUsers));
    s := Extend(s, ByAgent(AgentTakeUsers));
  }
}
