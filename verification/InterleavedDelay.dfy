/** The delay protocol of the profiler, one shared access at a time.
    Every application thread keeps a local delay; all of them share one global
    delay.  A step of this model is one access to shared state: reading the
    global delay and adding to it (or waking from the sleep it caused) are
    separate steps, and any other thread, or the agent, may step in between. */
module InterleavedDelay {
  import opened Sums
  import Sleeping

  const SIGNAL_FREQ := 1000000
  const SIGNALS_PER_SYNC := 10

  /** Where a thread is in its life: registered only while Live or Leaving. */
  datatype Stage = Joining | Live | Leaving

  /** Where a thread is inside its signal handler, or inside its settlement on exit. */
  datatype Phase =
    | Running
    | InGap                         // the handler found no experiment
    | InExperiment                  // the handler found one, the signal is not yet counted
    | AtSync                        // tenth signal counted, global delay not yet read
    | Sleeping(request: int)        // was behind: catching up
    | Adding(amount: int)           // was ahead: about to push the global delay
    | SettleSleeping(request: int)  // the same two cases on thread exit
    | SettleAdding(amount: int)

  datatype Thread = Thread(local: int, signals: nat, stage: Stage, phase: Phase)

  datatype AgentPhase = Sampling | Starting | Looping | Draining | Recorded | Stopped

  /** `delay` is the delay field of the current experiment: the credit per hit,
      overwritten with the total when the experiment is recorded. */
  datatype State = State(global: int, delay: int, agent: AgentPhase, threads: seq<Thread>) {
    predicate InExperiment() { agent.Starting? || agent.Looping? }
  }

  datatype AgentStep = Start | SetDelay(d: int) | Finish | Record | Reset | Abandon

  datatype ThreadStep =
    | Insert
    | Enter | GapReset | Count(onLine: bool) | ReadGlobal | Wake(slept: int) | Add
    | SettleRead | SettleWake | SettleAdd | Erase

  /** Join creates a thread record; its index is its position among the records. */
  datatype Action = ByAgent(act: AgentStep) | Join | ByThread(i: nat, step: ThreadStep)

  predicate Enabled(s: State, a: Action) {
    match a
    case ByAgent(act) => AgentEnabled(s, act)
    case Join => true
    case ByThread(i, step) => i < |s.threads| && ThreadEnabled(s.threads[i], step)
  }

  predicate AgentEnabled(s: State, act: AgentStep) {
    match act
    case Start => s.agent.Sampling?
    case SetDelay(d) => s.agent.Starting? && 0 <= d <= SIGNAL_FREQ
    case Finish => s.agent.Looping?
    case Record => s.agent.Draining?
    case Abandon => s.agent.Draining?
    case Reset => s.agent.Recorded?
  }

  /** How long a handler may sleep that asked for `request`: a request that nanosleep rejects can
      return at any time. */
  predicate MaySleep(request: int, slept: int) {
    0 <= slept && (request < Sleeping.TV_NSEC_LIMIT ==> slept >= request)
  }

  predicate ThreadEnabled(t: Thread, step: ThreadStep) {
    match step
    case Insert => t.stage.Joining?
    case Enter => !t.stage.Joining? && t.phase.Running?
    case GapReset => t.phase.InGap?
    case Count(_) => t.phase.InExperiment?
    case ReadGlobal => t.phase.AtSync?
    case Wake(slept) => t.phase.Sleeping? && MaySleep(t.phase.request, slept)
    case Add => t.phase.Adding?
    case SettleRead => t.stage.Live? && t.phase.Running?
    case SettleWake => t.phase.SettleSleeping?
    case SettleAdd => t.phase.SettleAdding?
    case Erase => t.stage.Leaving? && t.phase.Running?
  }

  /** The thread after one of its own steps in state `s`. */
  function StepThread(t: Thread, step: ThreadStep, s: State): Thread
    requires ThreadEnabled(t, step)
  {
    match step
    case Insert => t.(stage := Live)
    case Enter => t.(phase := if s.InExperiment() then InExperiment else InGap)
    case GapReset => t.(local := 0, phase := Running)
    case Count(onLine) =>
      t.(local := if onLine then t.local + s.delay else t.local,
         signals := t.signals + 1,
         phase := if t.signals + 1 == SIGNALS_PER_SYNC then AtSync else Running)
    case ReadGlobal =>
      var diff := s.global - t.local;
      t.(phase := if diff > 0 then Sleeping(diff) else Adding(-diff))
    case Wake(slept) => t.(local := t.local + slept, signals := 0, phase := Running)
    case Add => t.(signals := 0, phase := Running)
    case SettleRead =>
      var diff := s.global - t.local;
      t.(phase := if diff > 0 then SettleSleeping(diff) else SettleAdding(-diff))
    case SettleWake => t.(stage := Leaving, phase := Running)
    case SettleAdd => t.(stage := Leaving, phase := Running)
    case Erase => t
  }

  /** What the step adds to the global delay. */
  function Pushed(t: Thread, step: ThreadStep): int
    requires ThreadEnabled(t, step)
  {
    if step.Add? || step.SettleAdd? then t.phase.amount else 0
  }

  function ApplyAgent(s: State, act: AgentStep): State {
    match act
    case Start => s.(agent := Starting)
    case SetDelay(d) => s.(agent := Looping, delay := d)
    case Finish => s.(agent := Draining)
    case Record => s.(agent := Recorded, delay := s.global)
    case Reset => s.(agent := Sampling, global := 0)
    case Abandon => s.(agent := Stopped)
  }

  function Apply(s: State, a: Action): State
    requires Enabled(s, a)
  {
    match a
    case ByAgent(act) => ApplyAgent(s, act)
    case Join => s.(threads := s.threads + [Thread(s.global, 0, Joining, Running)])
    case ByThread(i, step) =>
      if step.Erase? then s.(threads := s.threads[..i] + s.threads[i + 1..])
      else s.(global := s.global + Pushed(s.threads[i], step),
              threads := s.threads[i := StepThread(s.threads[i], step, s)])
  }

  predicate Legal(s: State, run: seq<Action>)
    decreases |run|
  {
    run == [] || (Enabled(s, run[0]) && Legal(Apply(s, run[0]), run[1..]))
  }

  function Exec(s: State, run: seq<Action>): State
    requires Legal(s, run)
    decreases |run|
  {
    if run == [] then s else Exec(Apply(s, run[0]), run[1..])
  }

  const INITIAL := State(0, 0, Sampling, [])

  // ---- what every step keeps

  predicate ThreadOk(t: Thread) {
    && 0 <= t.local
    && (match t.phase
        case Running => t.signals < SIGNALS_PER_SYNC
        case InGap => t.signals < SIGNALS_PER_SYNC && !t.stage.Joining?
        case InExperiment => t.signals < SIGNALS_PER_SYNC && !t.stage.Joining?
        case AtSync => t.signals == SIGNALS_PER_SYNC && !t.stage.Joining?
        case Sleeping(d) => t.signals == SIGNALS_PER_SYNC && d > 0 && !t.stage.Joining?
        case Adding(p) => t.signals == SIGNALS_PER_SYNC && p >= 0 && !t.stage.Joining?
        case SettleSleeping(d) => t.signals < SIGNALS_PER_SYNC && d > 0 && t.stage.Live?
        case SettleAdding(p) => t.signals < SIGNALS_PER_SYNC && p >= 0 && t.stage.Live?)
  }

  predicate Ok(s: State) {
    0 <= s.global && 0 <= s.delay && forall i :: 0 <= i < |s.threads| ==> ThreadOk(s.threads[i])
  }

  lemma OkStep(s: State, a: Action)
    requires Ok(s) && Enabled(s, a)
    ensures Ok(Apply(s, a))
  {
  }

  lemma {:induction false} OkRun(s: State, run: seq<Action>)
    requires Ok(s) && Legal(s, run)
    ensures Ok(Exec(s, run))
    decreases |run|
  {
    if run == [] {
    } else {
      OkStep(s, run[0]);
      OkRun(Apply(s, run[0]), run[1..]);
    }
  }

  lemma ReachableOk(run: seq<Action>)
    requires Legal(INITIAL, run)
    ensures Ok(Exec(INITIAL, run))
  {
    OkRun(INITIAL, run);
  }

  // ---- the potential

  function Max(a: int, b: int): (m: int)
    ensures m >= a && m >= b && (m == a || m == b)
  {
    if a < b then b else a
  }

  /** What a thread may still push into the global delay without a further credit:
      its lead over the global delay, or the amount it has already decided to add. */
  function Due(t: Thread, global: int): int {
    match t.phase
    case InGap => 0
    case Sleeping(d) => Max(0, t.local + d - global)
    case Adding(p) => Max(p, t.local - global)
    case SettleAdding(p) => Max(p, t.local - global)
    case _ => Max(0, t.local - global)
  }

  function Dues(s: State): (d: seq<int>)
    ensures |d| == |s.threads|
    ensures forall i :: 0 <= i < |d| ==> d[i] == Due(s.threads[i], s.global)
  {
    seq(|s.threads|, i requires 0 <= i < |s.threads| => Due(s.threads[i], s.global))
  }

  function Potential(s: State): int {
    s.global + Sum(Dues(s))
  }

  function Credit(s: State, a: Action): int {
    if a.ByThread? && a.step.Count? && a.step.onLine then s.delay else 0
  }

  function Oversleep(s: State, a: Action): int
    requires Enabled(s, a)
  {
    if a.ByThread? && a.step.Wake? then Max(0, a.step.slept - s.threads[a.i].phase.request) else 0
  }

  lemma DuesOk(s: State)
    requires Ok(s)
    ensures forall i :: 0 <= i < |s.threads| ==> Due(s.threads[i], s.global) >= 0
    ensures Sum(Dues(s)) >= 0 && Potential(s) >= s.global
  {
    forall i | 0 <= i < |s.threads| ensures Due(s.threads[i], s.global) >= 0 {
      assert ThreadOk(s.threads[i]);
    }
    SumZero(Dues(s));
  }

  /** Thread `i` pushes `p` and gains at most `e`: the others only lose lead. */
  lemma PotentialPush(s: State, i: nat, t: Thread, p: int, e: int)
    requires i < |s.threads| && p >= 0
    requires Due(t, s.global + p) <= Due(s.threads[i], s.global) - p + e
    ensures Potential(s.(global := s.global + p, threads := s.threads[i := t])) <= Potential(s) + e
  {
    var s' := s.(global := s.global + p, threads := s.threads[i := t]);
    var due := Due(s.threads[i], s.global) - p + e;
    SumUpdate(Dues(s), i, due);
    SumMonotone(Dues(s'), Dues(s)[i := due]);
  }

  /** One step of one thread, seen by that thread alone. */
  lemma DueStep(s: State, i: nat, step: ThreadStep)
    requires 0 <= s.global && 0 <= s.delay && i < |s.threads| && ThreadOk(s.threads[i])
    requires Enabled(s, ByThread(i, step)) && !step.Erase?
    ensures var t := s.threads[i];
            var p := Pushed(t, step);
            && 0 <= p
            && Due(StepThread(t, step, s), s.global + p)
               <= Due(t, s.global) - p + Credit(s, ByThread(i, step)) + Oversleep(s, ByThread(i, step))
  {
  }

  lemma PotentialStep(s: State, a: Action)
    requires Ok(s) && Enabled(s, a) && a != ByAgent(Reset)
    ensures Potential(Apply(s, a)) <= Potential(s) + Credit(s, a) + Oversleep(s, a)
  {
    match a
    case ByAgent(act) =>
      assert Dues(Apply(s, a)) == Dues(s);
    case Join =>
      assert Dues(Apply(s, a)) == Dues(s) + [0];
      SumAppend(Dues(s), 0);
    case ByThread(i, step) =>
      if step.Erase? {
        EraseDue(s, i);
      } else {
        PotentialOfThread(s, i, step);
      }
  }

  lemma PotentialOfThread(s: State, i: nat, step: ThreadStep)
    requires Ok(s) && Enabled(s, ByThread(i, step)) && !step.Erase?
    ensures var a := ByThread(i, step); Potential(Apply(s, a)) <= Potential(s) + Credit(s, a) + Oversleep(s, a)
  {
    var a := ByThread(i, step);
    DueStep(s, i, step);
    hide Due;
    PotentialPush(s, i, StepThread(s.threads[i], step, s), Pushed(s.threads[i], step), Credit(s,
        a) + Oversleep(s, a));
  }

  lemma EraseDue(s: State, i: nat)
    requires Ok(s) && Enabled(s, ByThread(i, Erase))
    ensures Potential(Apply(s, ByThread(i, Erase))) <= Potential(s)
  {
    assert ThreadOk(s.threads[i]);
    assert Dues(Apply(s, ByThread(i, Erase))) == Dues(s)[..i] + Dues(s)[i + 1..];
    SumRemove(Dues(s), i);
  }

  // ---- conservation over whole runs

  predicate NoReset(run: seq<Action>) {
    forall k :: 0 <= k < |run| ==> run[k] != ByAgent(Reset)
  }

  /** Total delay credited to threads found on the selected line. */
  function Credits(s: State, run: seq<Action>): int
    requires Legal(s, run)
    decreases |run|
  {
    if run == [] then 0 else Credit(s, run[0]) + Credits(Apply(s, run[0]), run[1..])
  }

  /** Total time handlers slept beyond what they asked for. */
  function Oversleeps(s: State, run: seq<Action>): int
    requires Legal(s, run)
    decreases |run|
  {
    if run == [] then 0 else Oversleep(s, run[0]) + Oversleeps(Apply(s, run[0]), run[1..])
  }

  /** From any state whatsoever, clean or not, and under every interleaving up to the
      next reset, the global delay stays within the opening potential plus the credits
      granted plus the oversleeps. */
  lemma {:induction false} Conservation(s: State, run: seq<Action>)
    requires Ok(s) && Legal(s, run) && NoReset(run)
    ensures Exec(s, run).global <= Potential(Exec(s, run))
    ensures Potential(Exec(s, run)) <= Potential(s) + Credits(s, run) + Oversleeps(s, run)
    decreases |run|
  {
    if run == [] {
      DuesOk(s);
    } else {
      assert run[0] != ByAgent(Reset);
      PotentialStep(s, run[0]);
      OkStep(s, run[0]);
      Conservation(Apply(s, run[0]), run[1..]);
    }
  }

  function PushOf(s: State, a: Action): int
    requires Enabled(s, a)
  {
    if a.ByThread? then Pushed(s.threads[a.i], a.step) else 0
  }

  /** Total delay pushed into the global delay. */
  function Pushes(s: State, run: seq<Action>): int
    requires Legal(s, run)
    decreases |run|
  {
    if run == [] then 0 else PushOf(s, run[0]) + Pushes(Apply(s, run[0]), run[1..])
  }

  predicate NobodyPushes(s: State, run: seq<Action>)
    requires Legal(s, run)
    decreases |run|
  {
    run == [] || (PushOf(s, run[0]) == 0 && NobodyPushes(Apply(s, run[0]), run[1..]))
  }

  /** Between resets the global delay grows by what is pushed into it and never decreases; it
      stands still exactly as long as nobody pushes. */
  lemma {:induction false} GlobalMonotone(s: State, run: seq<Action>)
    requires Ok(s) && Legal(s, run) && NoReset(run)
    ensures Exec(s, run).global == s.global + Pushes(s, run)
    ensures Pushes(s, run) >= 0
    ensures Pushes(s, run) == 0 <==> NobodyPushes(s, run)
    decreases |run|
  {
    if run == [] {
    } else {
      assert run[0] != ByAgent(Reset);
      if run[0].ByThread? {
        assert ThreadOk(s.threads[run[0].i]);
      }
      OkStep(s, run[0]);
      GlobalMonotone(Apply(s, run[0]), run[1..]);
    }
  }
}
