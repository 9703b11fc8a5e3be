/** Progress-point hits: counted per thread, flushed into a shared counter by handlers and on
    thread exit, read and zeroed by the agent.  Every access to the shared counter is a step
    of its own, and so is every zeroing that follows a read. */
module ProgressHits {
  import opened Sums

  /** A thread's own code: its exit adds its hits to the shared counter and then zeroes them. */
  datatype Base = Running | ExitFlushed | Exited

  /** Its handler, which can interrupt that code anywhere: it took the experiment branch; it has
      added the hits and not zeroed them yet. */
  datatype Handler = Idle | InExperiment | Flushed

  datatype Thread = Thread(hits: nat, base: Base, handler: Handler)

  datatype Agent =
    | Sampling | Starting | Looping | Draining
    | Read             // copied the shared counter into the experiment
    | Zeroed           // and zeroed it
    | Stopped

  /** Hits that no row will ever show, by where they were lost. */
  datatype Losses = Losses(atStart: int, atZeroing: int, unnamed: int) {
    function Total(): int { atStart + atZeroing + unnamed }
  }

  /** `breakpoints`, `lost` and `duplicated`, the hits added twice, are bookkeeping; `inHand` is the
      experiment's own counter. */
  datatype State = State(pointsHit: int, inHand: int, agent: Agent, threads: seq<Thread>,
                         rows: seq<int>, lost: Losses, breakpoints: nat, duplicated: nat)
  {
    predicate InExperiment() { agent.Starting? || agent.Looping? }
  }

  datatype ThreadStep = Breakpoint | Enter | Add | Zero | ExitAdd | ExitZero

  datatype AgentStep = Start | ClearHits | Finish | Abandon | ReadHits | ZeroHits | WriteRow | Discard

  datatype Action = Spawn | Erase(i: nat) | ByThread(i: nat, step: ThreadStep) | ByAgent(act: AgentStep)

  const INITIAL := State(0, 0, Sampling, [], [], Losses(0, 0, 0), 0, 0)

  predicate ThreadEnabled(s: State, t: Thread, step: ThreadStep) {
    match step
    case Breakpoint => t.base.Running? && t.handler.Idle?
    case Enter => t.handler.Idle? && s.InExperiment()
    case Add => t.handler.InExperiment?
    case Zero => t.handler.Flushed?
    case ExitAdd => t.base.Running? && t.handler.Idle?
    case ExitZero => t.base.ExitFlushed? && t.handler.Idle?
  }

  predicate AgentEnabled(s: State, act: AgentStep) {
    match act
    case Start => s.agent.Sampling?
    case ClearHits => s.agent.Starting?
    case Finish => s.agent.Looping?
    case Abandon => s.agent.Draining?
    case ReadHits => s.agent.Draining?
    case ZeroHits => s.agent.Read?
    case WriteRow => s.agent.Zeroed?
    case Discard => s.agent.Zeroed?
  }

  predicate Enabled(s: State, a: Action) {
    match a
    case Spawn => true
    case Erase(i) => i < |s.threads| && s.threads[i].base.Exited? && s.threads[i].handler.Idle?
    case ByThread(i, step) => i < |s.threads| && ThreadEnabled(s, s.threads[i], step)
    case ByAgent(act) => AgentEnabled(s, act)
  }

  function StepThread(s: State, t: Thread, step: ThreadStep): Thread
    requires ThreadEnabled(s, t, step)
  {
    match step
    case Breakpoint => t.(hits := t.hits + if s.InExperiment() then 1 else 0)
    case Enter => t.(handler := InExperiment)
    case Add => t.(handler := Flushed)
    case Zero => t.(hits := 0, handler := Idle)
    case ExitAdd => t.(base := ExitFlushed)
    case ExitZero => t.(hits := 0, base := Exited)
  }

  /** The handler adds hits that the exit of its own thread has added and not zeroed yet. */
  predicate Doubles(t: Thread, step: ThreadStep) {
    step.Add? && t.base.ExitFlushed?
  }

  function ApplyAgent(s: State, act: AgentStep): State
    requires AgentEnabled(s, act)
  {
    match act
    case Start => s.(agent := Starting)
    case ClearHits => s.(agent := Looping, pointsHit := 0, lost := s.lost.(atStart := s.lost.atStart + s.pointsHit))
    case Finish => s.(agent := Draining)
    case Abandon => s.(agent := Stopped)
    case ReadHits => s.(agent := Read, inHand := s.pointsHit)
    case ZeroHits =>
      s.(agent := Zeroed, pointsHit := 0, lost := s.lost.(atZeroing := s.lost.atZeroing + s.pointsHit - s.inHand))
    case WriteRow => s.(agent := Sampling, rows := s.rows + [s.inHand])
    case Discard => s.(agent := Sampling, lost := s.lost.(unnamed := s.lost.unnamed + s.inHand))
  }

  function Apply(s: State, a: Action): State
    requires Enabled(s, a)
  {
    match a
    case Spawn => s.(threads := s.threads + [Thread(0, Running, Idle)])
    case Erase(i) => s.(threads := s.threads[..i] + s.threads[i + 1..])
    case ByThread(i, step) =>
      s.(pointsHit := if step.Add? || step.ExitAdd? then s.pointsHit + s.threads[i].hits else s.pointsHit,
         breakpoints := if step.Breakpoint? && s.InExperiment() then s.breakpoints + 1 else s.breakpoints,
         duplicated := s.duplicated + if Doubles(s.threads[i], step) then s.threads[i].hits else 0,
         threads := s.threads[i := StepThread(s, s.threads[i], step)])
    case ByAgent(act) => ApplyAgent(s, act)
  }

  predicate Legal(s: State, run: seq<Action>)
    decreases |run|
  {
    run == [] || (Enabled(s, run[0]) && Legal(Apply(s, run[0]), run[1..]))
  }

  function Exec(s: State, run: seq<Action>): State
    requires Legal(s, run)
    decreases |run|
  {
    if run == [] then s else Exec(Apply(s, run[0]), run[1..])
  }

  // ---- conservation

  /** Hits a thread has not handed over yet: none once they are added, even before the zeroing. */
  function Unflushed(t: Thread): nat {
    if t.handler.Flushed? || t.base.ExitFlushed? then 0 else t.hits
  }

  function Pockets(s: State): (p: seq<int>)
    ensures |p| == |s.threads| && forall i :: 0 <= i < |p| ==> p[i] == Unflushed(s.threads[i])
  {
    seq(|s.threads|, i requires 0 <= i < |s.threads| => Unflushed(s.threads[i]))
  }

  /** Hits read from the counter and no longer in it. */
  function InTransit(s: State): int {
    if s.agent.Zeroed? then s.inHand else 0
  }

  function Accounted(s: State): int {
    Sum(s.rows) + InTransit(s) + s.pointsHit + Sum(Pockets(s)) + s.lost.Total()
  }

  predicate Inv(s: State) {
    && Accounted(s) == s.breakpoints + s.duplicated
    && 0 <= s.pointsHit && 0 <= s.lost.atStart && 0 <= s.lost.atZeroing && 0 <= s.lost.unnamed
    && (s.agent.Read? || s.agent.Zeroed? ==> 0 <= s.inHand)
    && (s.agent.Read? ==> s.inHand <= s.pointsHit)
    && (forall i :: 0 <= i < |s.rows| ==> 0 <= s.rows[i])
    && (forall i :: 0 <= i < |s.threads| && s.threads[i].base.Exited? ==> s.threads[i].hits == 0)
  }

  lemma ThreadKeepsAccount(s: State, i: nat, step: ThreadStep)
    requires Inv(s) && Enabled(s, ByThread(i, step))
    ensures Inv(Apply(s, ByThread(i, step)))
  {
    var s' := Apply(s, ByThread(i, step));
    var u := Unflushed(s'.threads[i]);
    assert Pockets(s') == Pockets(s)[i := u];
    SumUpdate(Pockets(s), i, u);
    assert u - Unflushed(s.threads[i])
        == (s'.breakpoints - s.breakpoints) + (s'.duplicated - s.duplicated) - (s'.pointsHit - s.pointsHit);
  }

  lemma AgentKeepsAccount(s: State, act: AgentStep)
    requires Inv(s) && AgentEnabled(s, act)
    ensures Inv(ApplyAgent(s, act))
  {
    assert Pockets(ApplyAgent(s, act)) == Pockets(s);
    SumAppend(s.rows, s.inHand);
    hide Pockets;
  }

  lemma SpawnKeepsAccount(s: State)
    requires Inv(s)
    ensures Inv(Apply(s, Spawn))
  {
    assert Pockets(Apply(s, Spawn)) == Pockets(s) + [0];
    SumAppend(Pockets(s), 0);
  }

  lemma EraseKeepsAccount(s: State, i: nat)
    requires Inv(s) && Enabled(s, Erase(i))
    ensures Inv(Apply(s, Erase(i)))
  {
    assert Pockets(Apply(s, Erase(i))) == Pockets(s)[..i] + Pockets(s)[i + 1..];
    SumRemove(Pockets(s), i);
  }

  lemma StepInv(s: State, a: Action)
    requires Inv(s) && Enabled(s, a)
    ensures Inv(Apply(s, a))
  {
    hide Inv;
    match a {
      case Spawn => SpawnKeepsAccount(s);
      case Erase(i) => EraseKeepsAccount(s, i);
      case ByThread(i, step) => ThreadKeepsAccount(s, i, step);
      case ByAgent(act) => AgentKeepsAccount(s, act);
    }
  }

  predicate Empty(s: State) {
    && |s.threads| == |s.rows| == 0 && s.pointsHit == 0 && s.agent.Sampling?
    && s.lost == Losses(0, 0, 0) && s.breakpoints == s.duplicated == 0
  }

  lemma EmptyAccount(s: State)
    requires Empty(s)
    ensures Accounted(s) == 0
  {
    SumEmpty(Pockets(s));
    SumEmpty(s.rows);
    hide Sum, Pockets;
  }

  lemma EmptyInv(s: State)
    requires Empty(s)
    ensures Inv(s)
  {
    hide Accounted;
    EmptyAccount(s);
  }

  lemma InitialInv()
    ensures Inv(INITIAL)
  {
    hide Inv;
    EmptyInv(INITIAL);
  }

  lemma {:induction false} RunInv(s: State, run: seq<Action>)
    requires Inv(s) && Legal(s, run)
    ensures Inv(Exec(s, run))
    decreases |run|
  {
    if run == [] {
    } else {
      StepInv(s, run[0]);
      RunInv(Apply(s, run[0]), run[1..]);
    }
  }

  // ---- the order of the agent's steps

  predicate Follows(act: AgentStep, next: AgentStep) {
    match act
    case Start => next.ClearHits?
    case ClearHits => next.Finish?
    case Finish => next.ReadHits? || next.Abandon?
    case ReadHits => next.ZeroHits?
    case ZeroHits => next.WriteRow? || next.Discard?
    case WriteRow => next.Start?
    case Discard => next.Start?
    case Abandon => false
  }

  /** The agent keeps to the order of its program, however the threads interleave. */
  lemma {:induction false} AgentOrder(s: State, run: seq<Action>, k: nat)
    requires Legal(s, run) && 0 < k < |run| && run[0].ByAgent? && run[k].ByAgent?
    requires forall j :: 0 < j < k ==> !run[j].ByAgent?
    ensures Follows(run[0].act, run[k].act)
  {
    NextAgentStep(Apply(s, run[0]), run[1..], k - 1);
  }

  lemma {:induction false} NextAgentStep(s: State, run: seq<Action>, k: nat)
    requires Legal(s, run) && k < |run| && run[k].ByAgent? && forall j :: 0 <= j < k ==> !run[j].ByAgent?
    ensures exists s': State :: s'.agent == s.agent && AgentEnabled(s', run[k].act)
    decreases k
  {
    if k == 0 {
    } else {
      assert !run[0].ByAgent?;
      assert forall j :: 0 <= j < k - 1 ==> run[1..][j] == run[j + 1];
      NextAgentStep(Apply(s, run[0]), run[1..], k - 1);
    }
  }

  // ---- which breakpoints count

  /** Breakpoints hit from the moment the experiment flag goes up until it goes down. */
  function HitsMade(s: State, run: seq<Action>): nat
    requires Legal(s, run)
    decreases |run|
  {
    if run == [] then 0
    else (if (s.agent.Starting? || s.agent.Looping?) && run[0].ByThread? && run[0].step.Breakpoint? then 1 else 0)
         + HitsMade(Apply(s, run[0]), run[1..])
  }

  lemma {:induction false} BreakpointsAreHitsMade(s: State, run: seq<Action>)
    requires Legal(s, run)
    ensures Exec(s, run).breakpoints == s.breakpoints + HitsMade(s, run)
    decreases |run|
  {
    if run == [] {
    } else {
      BreakpointsAreHitsMade(Apply(s, run[0]), run[1..]);
    }
  }

  /** A breakpoint adds one to the hits of its own thread during an experiment, and at any other
      time it changes nothing at all. */
  lemma BreakpointCounts(s: State, i: nat)
    requires i < |s.threads| && s.threads[i].base.Running? && s.threads[i].handler.Idle?
    ensures Enabled(s, ByThread(i, Breakpoint))
    ensures s.agent.Starting? || s.agent.Looping? ==>
      Apply(s, ByThread(i, Breakpoint)) ==
      s.(breakpoints := s.breakpoints + 1, threads := s.threads[i := s.threads[i].(hits := s.threads[i].hits + 1)])
    ensures !s.agent.Starting? && !s.agent.Looping? ==> Apply(s, ByThread(i, Breakpoint)) == s
  {
    assert s.threads[i := s.threads[i]] == s.threads;
  }

  /** A handler starts to flush if and only if an experiment is on, whatever its thread is doing. */
  lemma HandlerStarts(s: State, i: nat)
    requires i < |s.threads| && s.threads[i].handler.Idle?
    ensures Enabled(s, ByThread(i, Enter)) <==> s.agent.Starting? || s.agent.Looping?
  {
  }

  /** A handler that flushes has started during an experiment, at whatever time it flushes. */
  lemma HandlersStartInExperiments(s: State, a: Action, i: nat)
    requires Enabled(s, a) && i < |s.threads| == |Apply(s, a).threads|
    requires s.threads[i].handler.Idle? && !Apply(s, a).threads[i].handler.Idle?
    ensures a == ByThread(i, Enter) && (s.agent.Starting? || s.agent.Looping?)
  {
  }

  // ---- what becomes of a hit depends on when it is flushed

  /** Where the agent is when a thread adds its hits to the shared counter. */
  datatype Window =
    | Own        // between the clearing and the reading of the counter
    | Late       // between the reading and the zeroing
    | Gap        // from the zeroing to the next clearing
    | Never      // after an abandoned experiment

  function WindowOf(a: Agent): Window {
    match a
    case Looping => Own
    case Draining => Own
    case Read => Late
    case Stopped => Never
    case _ => Gap
  }

  function FlushOf(s: State, a: Action): nat
    requires Enabled(s, a)
  {
    if a.ByThread? && (a.step.Add? || a.step.ExitAdd?) then s.threads[a.i].hits else 0
  }

  /** All hits flushed in that window. */
  function FlushedIn(s: State, run: seq<Action>, w: Window): nat
    requires Legal(s, run)
    decreases |run|
  {
    if run == [] then 0
    else (if WindowOf(s.agent) == w then FlushOf(s, run[0]) else 0) + FlushedIn(Apply(s, run[0]), run[1..], w)
  }

  /** No thread flushes a hit in that window. */
  predicate NoneFlushed(s: State, run: seq<Action>, w: Window)
    requires Legal(s, run)
    decreases |run|
  {
    run == [] || ((WindowOf(s.agent) == w ==> FlushOf(s, run[0]) == 0) && NoneFlushed(Apply(s, run[0]), run[1..], w))
  }

  /** No experiment is discarded for want of a class after it read a hit. */
  predicate NoneDiscarded(s: State, run: seq<Action>)
    requires Legal(s, run)
    decreases |run|
  {
    run == [] || ((run[0] == ByAgent(Discard) ==> s.inHand == 0) && NoneDiscarded(Apply(s, run[0]), run[1..]))
  }

  /** Hits of each window that are lost, or about to be. */
  function LateOnes(s: State): int {
    s.lost.atZeroing + if s.agent.Read? then s.pointsHit - s.inHand else 0
  }

  function GapOnes(s: State): int {
    s.lost.atStart + if WindowOf(s.agent) == Gap then s.pointsHit else 0
  }

  /** And hits flushed in time, wherever they are by now. */
  function OwnOnes(s: State): int {
    Sum(s.rows) + s.lost.unnamed
    + match s.agent
      case Looping => s.pointsHit
      case Draining => s.pointsHit
      case Stopped => s.pointsHit
      case Read => s.inHand
      case Zeroed => s.inHand
      case _ => 0
  }

  lemma FateStep(s: State, a: Action)
    requires Enabled(s, a)
    ensures var s' := Apply(s, a);
            var f := FlushOf(s, a);
            && LateOnes(s') == LateOnes(s) + (if WindowOf(s.agent) == Late then f else 0)
            && GapOnes(s') == GapOnes(s) + (if WindowOf(s.agent) == Gap then f else 0)
            && OwnOnes(s') == OwnOnes(s) + (if WindowOf(s.agent) == Own || WindowOf(s.agent) == Never then f else 0)
  {
    if a == ByAgent(WriteRow) { SumAppend(s.rows, s.inHand); }
  }

  /** Every hit ends up where the moment of its flushing sends it: the hits shown or read are those
      flushed in time, and the two kinds of losses are those flushed too late and too early. */
  lemma {:induction false} FatesAreWindows(s: State, run: seq<Action>)
    requires Legal(s, run)
    ensures var e := Exec(s, run);
            && LateOnes(e) == LateOnes(s) + FlushedIn(s, run, Late)
            && GapOnes(e) == GapOnes(s) + FlushedIn(s, run, Gap)
            && OwnOnes(e) == OwnOnes(s) + FlushedIn(s, run, Own) + FlushedIn(s, run, Never)
    decreases |run|
  {
    if run == [] {
    } else {
      FateStep(s, run[0]);
      hide LateOnes, GapOnes, OwnOnes, FlushOf;
      FatesAreWindows(Apply(s, run[0]), run[1..]);
    }
  }

  lemma {:induction false} FlushedIsNone(s: State, run: seq<Action>, w: Window)
    requires Legal(s, run)
    ensures FlushedIn(s, run, w) == 0 <==> NoneFlushed(s, run, w)
    decreases |run|
  {
    if run == [] {
    } else {
      FlushedIsNone(Apply(s, run[0]), run[1..], w);
    }
  }

  lemma {:induction false} UnnamedAreDiscarded(s: State, run: seq<Action>)
    requires Inv(s) && Legal(s, run)
    ensures s.lost.unnamed <= Exec(s, run).lost.unnamed
    ensures s.lost.unnamed == Exec(s, run).lost.unnamed <==> NoneDiscarded(s, run)
    decreases |run|
  {
    if run == [] {
    } else {
      StepInv(s, run[0]);
      UnnamedStep(s, run[0]);
      hide Inv;
      UnnamedAreDiscarded(Apply(s, run[0]), run[1..]);
    }
  }

  lemma UnnamedStep(s: State, a: Action)
    requires Inv(s) && Enabled(s, a)
    ensures Apply(s, a).lost.unnamed == s.lost.unnamed + if a == ByAgent(Discard) then s.inHand else 0
    ensures a == ByAgent(Discard) ==> s.inHand >= 0
  {
  }

  /** Nothing has been lost, and nothing is about to be. */
  predicate NoLosses(s: State) {
    Inv(s) && LateOnes(s) == 0 && GapOnes(s) == 0 && s.lost.unnamed == 0 && s.duplicated == 0
  }

  lemma InitialNoLosses(s: State)
    requires s == INITIAL
    ensures NoLosses(s) && Inv(s)
  {
    InitialInv();
    hide Inv;
  }

  /** No handler adds hits that the exit of its own thread has added before. */
  predicate NoneDoubled(s: State, run: seq<Action>)
    requires Legal(s, run)
    decreases |run|
  {
    run == [] || (Duplicates(s, run[0]) == 0 && NoneDoubled(Apply(s, run[0]), run[1..]))
  }

  function Duplicates(s: State, a: Action): nat
    requires Enabled(s, a)
  {
    if a.ByThread? && Doubles(s.threads[a.i], a.step) then s.threads[a.i].hits else 0
  }

  /** Exactly when hits are counted twice: when a handler runs between the two steps of its own
      thread's exit and that thread has hits left. */
  lemma {:induction false} DuplicatesAreExact(s: State, run: seq<Action>)
    requires Legal(s, run)
    ensures s.duplicated <= Exec(s, run).duplicated
    ensures s.duplicated == Exec(s, run).duplicated <==> NoneDoubled(s, run)
    decreases |run|
  {
    if run == [] {
    } else {
      assert Apply(s, run[0]).duplicated == s.duplicated + Duplicates(s, run[0]);
      hide Duplicates;
      DuplicatesAreExact(Apply(s, run[0]), run[1..]);
    }
  }

  predicate LossesExact(s: State, run: seq<Action>)
    requires Legal(s, run)
  {
    var e := Exec(s, run);
    && (!e.agent.Read? ==> (e.lost.atZeroing == 0 <==> NoneFlushed(s, run, Late)))
    && (WindowOf(e.agent) != Gap ==> (e.lost.atStart == 0 <==> NoneFlushed(s, run, Gap)))
    && (e.lost.unnamed == 0 <==> NoneDiscarded(s, run))
  }

  lemma LossesFrom(s: State, run: seq<Action>)
    requires NoLosses(s) && Legal(s, run)
    ensures LossesExact(s, run)
    ensures Exec(s, run).pointsHit == 0 ==> (Exec(s, run).lost == Losses(0, 0, 0) <==> OnTime(s, run))
  {
    RunInv(s, run);
    FatesAreWindows(s, run);
    FlushedIsNone(s, run, Late);
    FlushedIsNone(s, run, Gap);
    UnnamedAreDiscarded(s, run);
    var e := Exec(s, run);
    assert Inv(e);
    hide Exec, Legal, FlushedIn, NoneFlushed, NoneDiscarded;
  }

  /** Exactly when hits are lost, over any run of the program.  None is lost at a zeroing if and
      only if no thread flushes one between the reading and the zeroing; none is lost at a
      start if and only if no thread flushes one between a zeroing and the next start (nor
      before the first); and none goes with a discarded experiment if and only if
      no experiment is discarded that read one. */
  lemma LossesAreExact(s: State, run: seq<Action>)
    requires s == INITIAL && Legal(s, run)
    ensures LossesExact(s, run)
  {
    hide NoLosses, LossesExact, Conserved, Legal;
    InitialNoLosses(s);
    LossesFrom(s, run);
  }

  predicate AllFlushed(s: State) {
    forall i :: 0 <= i < |s.threads| ==> Unflushed(s.threads[i]) == 0
  }

  predicate NothingUnderWay(s: State) {
    InTransit(s) == 0 && s.pointsHit == 0 && AllFlushed(s)
  }

  /** All hits were flushed in time, and none went with a discarded experiment. */
  predicate OnTime(s: State, run: seq<Action>)
    requires Legal(s, run)
  {
    NoneFlushed(s, run, Late) && NoneFlushed(s, run, Gap) && NoneDiscarded(s, run)
  }

  /** Each breakpoint hit inside an experiment is accounted for: in a written row, the hands of
      the agent, the shared counter, a thread's own counter, or the losses; and so is each
      second count of a hit.  There are second counts exactly when a handler doubles the exit of
      its thread; and the rows show everything counted exactly when nothing is under way and
      every flush of the run was in time. */
  predicate Conserved(s: State, run: seq<Action>)
    requires Legal(s, run)
  {
    var e := Exec(s, run);
    && Accounted(e) == e.breakpoints + e.duplicated
    && (e.duplicated == 0 <==> NoneDoubled(s, run))
    && 0 <= Sum(e.rows) <= e.breakpoints + e.duplicated
    && (Sum(e.rows) == e.breakpoints + e.duplicated <==> NothingUnderWay(e) && OnTime(s, run))
  }

  lemma ConservedFrom(s: State, run: seq<Action>)
    requires NoLosses(s) && Legal(s, run)
    ensures Conserved(s, run)
  {
    RunInv(s, run);
    DuplicatesAreExact(s, run);
    hide Inv, Accounted, LossesExact, OnTime, NoneDoubled;
    LossesFrom(s, run);
    AllShown(Exec(s, run));
  }

  /** Over every run of the program. */
  lemma HitsAreConserved(s: State, run: seq<Action>)
    requires s == INITIAL && Legal(s, run)
    ensures Conserved(s, run)
  {
    hide NoLosses, LossesExact, Conserved, Legal;
    InitialNoLosses(s);
    ConservedFrom(s, run);
  }

  /** The row of one experiment: the hits made meanwhile, and those counted a second time, plus what
      the threads and the shared counter held before, minus what they hold after, minus what
      was lost. */
  lemma RowBalance(s: State, run: seq<Action>, row: int)
    requires Inv(s) && Legal(s, run) && s.agent.Sampling?
    requires Exec(s, run).agent.Sampling? && Exec(s, run).rows == s.rows + [row]
    ensures var e := Exec(s, run);
            row == (e.breakpoints - s.breakpoints) + (e.duplicated - s.duplicated)
                   + (Sum(Pockets(s)) - Sum(Pockets(e)))
                   + (s.pointsHit - e.pointsHit) - (e.lost.Total() - s.lost.Total())
  {
    RunInv(s, run);
    SumAppend(s.rows, row);
  }

  lemma PocketsEmpty(s: State)
    ensures 0 <= Sum(Pockets(s))
    ensures Sum(Pockets(s)) == 0 <==> AllFlushed(s)
  {
    var p := Pockets(s);
    SumZero(p);
    if AllFlushed(s) {
      assert forall i :: 0 <= i < |p| ==> p[i] == 0;
    } else {
      var i :| 0 <= i < |s.threads| && Unflushed(s.threads[i]) != 0;
      assert p[i] != 0;
    }
  }

  lemma AllShown(s: State)
    requires Inv(s)
    ensures Accounted(s) == s.breakpoints + s.duplicated && 0 <= Sum(s.rows) <= s.breakpoints + s.duplicated
    ensures Sum(s.rows) == s.breakpoints + s.duplicated <==> NothingUnderWay(s) && s.lost == Losses(0, 0, 0)
  {
    SumZero(s.rows);
    PocketsEmpty(s);
  }

  // ---- where hits go astray

  ghost predicate Reaches(s: State, s': State) {
    exists run :: Legal(s, run) && Exec(s, run) == s'
  }

  lemma {:induction false} ExecSnoc(s: State, run: seq<Action>, a: Action)
    requires Legal(s, run) && Enabled(Exec(s, run), a)
    ensures Legal(s, run + [a]) && Exec(s, run + [a]) == Apply(Exec(s, run), a)
    decreases |run|
  {
    if run == [] {
      assert (run + [a])[1..] == [];
    } else {
      ExecSnoc(Apply(s, run[0]), run[1..], a);
      assert (run + [a])[1..] == run[1..] + [a];
    }
  }

  lemma Extend(m: State, a: Action) returns (m': State)
    requires Reaches(INITIAL, m) && Enabled(m, a)
    ensures m' == Apply(m, a) && Reaches(INITIAL, m')
  {
    var run :| Legal(INITIAL, run) && Exec(INITIAL, run) == m;
    ExecSnoc(INITIAL, run, a);
    m' := Apply(m, a);
  }

  /** One thread in the middle of an experiment, with one hit of its own. */
  lemma OneHit() returns (s: State)
    ensures Reaches(INITIAL, s)
    ensures s == State(0, 0, Looping, [Thread(1, Running, Idle)], [], Losses(0, 0, 0), 1, 0)
  {
    assert Legal(INITIAL, []) && Exec(INITIAL, []) == INITIAL;
    s := Extend(INITIAL, Spawn);
    s := Extend(s, ByAgent(Start));
    s := Extend(s, ByAgent(ClearHits));
    s := Extend(s, ByThread(0, Breakpoint));
  }

  lemma EndExperiment(m: State, l: Losses) returns (s: State)
    requires Reaches(INITIAL, m) && m.agent.Looping? && m.lost == l
    ensures Reaches(INITIAL, s)
    ensures s == m.(agent := Sampling, pointsHit := 0, inHand := m.pointsHit, rows := m.rows + [m.pointsHit])
  {
    s := Extend(m, ByAgent(Finish));
    s := Extend(s, ByAgent(ReadHits));
    s := Extend(s, ByAgent(ZeroHits));
    s := Extend(s, ByAgent(WriteRow));
    assert s.lost == l;
  }

  /** The next experiment begins and the thread's handler flushes what it has. */
  lemma NextExperimentFlushes(m: State, h: nat) returns (s: State)
    requires Reaches(INITIAL, m) && m.agent.Sampling? && m.pointsHit == 0 && m.threads == [Thread(h, Running, Idle)]
    ensures Reaches(INITIAL, s) && s == m.(agent := Looping, pointsHit := h, threads := [Thread(0, Running, Idle)])
  {
    s := Extend(m, ByAgent(Start));
    s := Extend(s, ByAgent(ClearHits));
    s := Extend(s, ByThread(0, Enter));
    s := Extend(s, ByThread(0, Add));
    s := Extend(s, ByThread(0, Zero));
  }

  /** A hit that is not flushed before its experiment ends is shown by the next row instead. */
  lemma HitCarriesOver() returns (s: State)
    ensures Reaches(INITIAL, s) && s.rows == [0, 1] && s.breakpoints == 1
  {
    s := OneHit();
    s := EndExperiment(s, Losses(0, 0, 0));
    s := NextExperimentFlushes(s, 1);
    s := EndExperiment(s, Losses(0, 0, 0));
  }

  /** A thread that exits between the read of the counter and its zeroing loses its hits. */
  lemma HitLostBetweenReadAndZero() returns (s: State)
    ensures Reaches(INITIAL, s) && s.rows == [0] && s.lost == Losses(0, 1, 0) && s.breakpoints == 1
  {
    s := OneHit();
    s := Extend(s, ByAgent(Finish));
    s := Extend(s, ByAgent(ReadHits));
    s := Extend(s, ByThread(0, ExitAdd));
    s := Extend(s, ByAgent(ZeroHits));
    s := Extend(s, ByAgent(WriteRow));
  }

  /** A thread that exits between two experiments loses the hits it has left. */
  lemma HitLostBetweenExperiments() returns (s: State)
    ensures Reaches(INITIAL, s) && s.rows == [0, 0] && s.lost == Losses(1, 0, 0) && s.breakpoints == 1
  {
    s := OneHit();
    s := EndExperiment(s, Losses(0, 0, 0));
    s := Extend(s, ByThread(0, ExitAdd));
    s := Extend(s, ByAgent(Start));
    s := Extend(s, ByAgent(ClearHits));
    s := EndExperiment(s, Losses(1, 0, 0));
  }

  /** So do hits of an experiment whose class cannot be named go. */
  lemma HitLostWithItsRow() returns (s: State)
    ensures Reaches(INITIAL, s) && s.rows == [] && s.lost == Losses(0, 0, 1) && s.breakpoints == 1
  {
    s := OneHit();
    s := Extend(s, ByThread(0, Enter));
    s := Extend(s, ByThread(0, Add));
    s := Extend(s, ByAgent(Finish));
    s := Extend(s, ByAgent(ReadHits));
    s := Extend(s, ByAgent(ZeroHits));
    s := Extend(s, ByAgent(Discard));
  }

  lemma InterruptedExit(m: State) returns (s: State)
    requires Reaches(INITIAL, m) && m == State(0, 0, Looping, [Thread(1, Running, Idle)], [], Losses(0, 0, 0), 1, 0)
    ensures Reaches(INITIAL, s)
    ensures s == State(1, 0, Looping, [Thread(1, ExitFlushed, InExperiment)], [], Losses(0, 0, 0), 1, 0)
  {
    s := Extend(m, ByThread(0, ExitAdd));
    s := Extend(s, ByThread(0, Enter));
  }

  /** A handler that interrupts the exit of its thread between the adding and the zeroing counts
      the hits again, in the same row ... */
  lemma HitShownTwice() returns (s: State)
    ensures Reaches(INITIAL, s) && s.rows == [2] && s.breakpoints == 1 && s.duplicated == 1
  {
    s := OneHit();
    s := InterruptedExit(s);
    s := Extend(s, ByThread(0, Add));
    s := EndExperiment(s, Losses(0, 0, 0));
  }

  /** ... or in the next. */
  lemma HitInTwoRows() returns (s: State)
    ensures Reaches(INITIAL, s) && s.rows == [1, 1] && s.breakpoints == 1 && s.duplicated == 1
  {
    s := OneHit();
    s := InterruptedExit(s);
    s := EndExperiment(s, Losses(0, 0, 0));
    s := Extend(s, ByAgent(Start));
    s := Extend(s, ByAgent(ClearHits));
    s := Extend(s, ByThread(0, Add));
    s := EndExperiment(s, Losses(0, 0, 0));
  }
}
