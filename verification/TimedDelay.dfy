/** The interleaved protocol on the agent's clock.  Every step of InterleavedDelay stays possible at any
    time; only a handler starts no more often than the agent signals.  The bound that rounds obey
    then holds up to what single steps can add to it: handlers oversleep, a thread synchronises
    after the next signal has come, and pushes overlap. */
module TimedDelay {
  import opened InterleavedDelay
  import DelayExactness
  import RoundDelay

  /** `pending`: signalled, and the handler has not started.  A second signal is lost then.
      `late`, `overslept` and `overlapped` are bookkeeping. */
  datatype Timed = Timed(s: State, pending: seq<bool>, rounds: nat, late: nat, overslept: int, overlapped: int)

  datatype TimedAction = Tick | Do(a: Action)

  predicate Can(x: Timed, e: TimedAction) {
    match e
    case Tick => true
    case Do(a) =>
      && Enabled(x.s, a)
      && (a.ByThread? ==> a.i < |x.pending|)
      && (a.ByThread? && a.step.Enter? ==> x.pending[a.i])
      && (a.ByAgent? ==> a.act.Finish? || a.act.Abandon?)
  }

  /** What a push lifts the global delay by beyond itself and the local delay it settles. */
  function OverlapOf(s: State, a: Action): int
    requires Enabled(s, a)
  {
    if a.ByThread? && (a.step.Add? || a.step.SettleAdd?)
    then Max(0, s.global + s.threads[a.i].phase.amount - Max(s.global, s.threads[a.i].local))
    else 0
  }

  /** It overlaps exactly if somebody has pushed since it was decided. */
  lemma OverlapIsPush(s: State, a: Action)
    requires Enabled(s, a) && a.ByThread? && (a.step.Add? || a.step.SettleAdd?)
    ensures var amount := s.threads[a.i].phase.amount;
            OverlapOf(s, a) == 0 <==> amount <= 0 || s.global <= s.threads[a.i].local - amount
  {
  }

  /** The thread catches up when its next signal has already come. */
  predicate Late(x: Timed, a: Action)
    requires Can(x, Do(a))
  {
    a.ByThread? && a.step.Wake? && x.pending[a.i]
  }

  function PendingAfter(x: Timed, a: Action): seq<bool>
    requires Can(x, Do(a))
  {
    if a.Join? then x.pending + [false]
    else if a.ByThread? && a.step.Erase? then x.pending[..a.i] + x.pending[a.i + 1..]
    else if a.ByThread? && a.step.Enter? then x.pending[a.i := false]
    else x.pending
  }

  function Signalled(x: Timed): (p: seq<bool>)
    requires |x.pending| == |x.s.threads|
    ensures |p| == |x.pending|
    ensures forall i :: 0 <= i < |p| ==> p[i] == (x.pending[i] || !x.s.threads[i].stage.Joining?)
  {
    seq(|x.pending|, i requires 0 <= i < |x.pending| => x.pending[i] || !x.s.threads[i].stage.Joining?)
  }

  function After(x: Timed, e: TimedAction): Timed
    requires Can(x, e) && |x.pending| == |x.s.threads|
  {
    match e
    case Tick => x.(rounds := x.rounds + 1, pending := Signalled(x))
    case Do(a) =>
      Timed(Apply(x.s, a), PendingAfter(x, a), x.rounds, x.late + if Late(x, a) then 1 else 0,
            x.overslept + Oversleep(x.s, a), x.overlapped + OverlapOf(x.s, a))
  }

  predicate Possible(x: Timed, run: seq<TimedAction>)
    requires |x.pending| == |x.s.threads|
    decreases |run|
  {
    run == [] || (Can(x, run[0]) && Possible(After(x, run[0]), run[1..]))
  }

  function AfterAll(x: Timed, run: seq<TimedAction>): Timed
    requires |x.pending| == |x.s.threads| && Possible(x, run)
    decreases |run|
  {
    if run == [] then x else AfterAll(After(x, run[0]), run[1..])
  }

  /** The steps without the clock. */
  function Steps(run: seq<TimedAction>): seq<Action> {
    if run == [] then [] else (if run[0].Do? then [run[0].a] else []) + Steps(run[1..])
  }

  /** Every timed run is a run of the interleaved protocol. */
  lemma {:induction false} TimedIsInterleaved(x: Timed, run: seq<TimedAction>)
    requires |x.pending| == |x.s.threads| && Possible(x, run)
    ensures Legal(x.s, Steps(run)) && Exec(x.s, Steps(run)) == AfterAll(x, run).s
    decreases |run|
  {
    if run == [] {
    } else {
      TimedIsInterleaved(After(x, run[0]), run[1..]);
      if run[0].Do? {
        assert Steps(run)[1..] == Steps(run[1..]);
      } else {
        assert Steps(run) == Steps(run[1..]);
      }
    }
  }

  /** A clean start of the experiment, with no signal under way. */
  predicate Opening(x: Timed) {
    && Ok(x.s) && x.s.InExperiment() && DelayExactness.Clean(x.s) && |x.pending| == |x.s.threads|
    && x.rounds == x.late == 0 && x.overslept == x.overlapped == 0
    && forall i :: 0 <= i < |x.pending| ==> !x.pending[i] && !x.s.threads[i].phase.InExperiment?
  }

  // ---- the invariant

  /** Signals of this thread so far that it has not counted. */
  function Uncounted(t: Thread, pending: bool): nat {
    (if t.phase.InExperiment? then 1 else 0) + if pending then 1 else 0
  }

  function Slack(x: Timed): int {
    x.overslept + x.overlapped
  }

  /** What a thread can have been credited by the time it has counted all but `u` signals. */
  function Bound(x: Timed, u: int): int {
    (x.rounds + x.late - u) * x.s.delay + Slack(x)
  }

  predicate ThreadBound(x: Timed, t: Thread, pending: bool) {
    && Uncounted(t, pending) <= x.rounds
    && (match t.phase
        case InGap => true
        case Sleeping(d) => t.local + d <= Bound(x, 0) && t.local <= Bound(x, Uncounted(t, pending))
        case _ => t.local <= Bound(x, Uncounted(t, pending)))
  }

  predicate Timely(x: Timed) {
    && Ok(x.s) && |x.pending| == |x.s.threads|
    && 0 <= x.overslept && 0 <= x.overlapped && x.s.global <= Bound(x, 0)
    && forall i :: 0 <= i < |x.pending| ==> ThreadBound(x, x.s.threads[i], x.pending[i])
  }

  /** The bound only grows. */
  lemma BoundGrows(x: Timed, x': Timed, u: int, u': int)
    requires 0 <= x.s.delay == x'.s.delay && Slack(x) <= Slack(x')
    requires x.rounds + x.late - u <= x'.rounds + x'.late - u'
    ensures Bound(x, u) + Slack(x') - Slack(x) <= Bound(x', u')
  {
    RoundDelay.Times(x.rounds + x.late - u, x'.rounds + x'.late - u', x.s.delay);
  }

  lemma OpeningTimely(x: Timed)
    requires Opening(x)
    ensures Timely(x)
  {
    forall i | 0 <= i < |x.pending| ensures ThreadBound(x, x.s.threads[i], x.pending[i]) {
      assert ThreadOk(x.s.threads[i]) && DelayExactness.Level(x.s.threads[i]);
    }
  }

  lemma TickTimely(x: Timed)
    requires Timely(x)
    ensures Timely(After(x, Tick))
  {
    var x' := After(x, Tick);
    BoundGrows(x, x', 0, 0);
    forall i | 0 <= i < |x.pending| ensures ThreadBound(x', x'.s.threads[i], x'.pending[i]) {
      assert ThreadBound(x, x.s.threads[i], x.pending[i]);
      BoundGrows(x, x', Uncounted(x.s.threads[i], x.pending[i]), Uncounted(x.s.threads[i], x'.pending[i]));
    }
  }

  /** A thread that takes no step. */
  lemma OtherTimely(x: Timed, x': Timed, t: Thread, pending: bool)
    requires ThreadBound(x, t, pending) && 0 <= x.s.delay == x'.s.delay && Slack(x) <= Slack(x')
    requires x.rounds == x'.rounds && x.late <= x'.late
    ensures ThreadBound(x', t, pending)
  {
    BoundGrows(x, x', 0, 0);
    BoundGrows(x, x', Uncounted(t, pending), Uncounted(t, pending));
  }

  /** The thread that takes the step, and the global delay. */
  lemma SelfTimely(x: Timed, i: nat, step: ThreadStep)
    requires Timely(x) && Can(x, Do(ByThread(i, step))) && !step.Erase?
    ensures var x' := After(x, Do(ByThread(i, step)));
            x'.s.global <= Bound(x', 0) && ThreadBound(x', x'.s.threads[i], x'.pending[i])
  {
    var a := ByThread(i, step);
    var x' := After(x, Do(a));
    var t := x.s.threads[i];
    assert ThreadOk(t) && ThreadBound(x, t, x.pending[i]);
    BoundGrows(x, x', 0, 0);
    if step.Wake? {
      WakeTimely(x, i, step.slept);
    } else if step.Count? {
      CountTimely(x, i, step.onLine);
    } else if step.GapReset? {
      RoundDelay.Times(0, x.rounds + x.late - Uncounted(t.(phase := Running), x.pending[i]), x.s.delay);
    } else if step.Add? || step.SettleAdd? {
      PushTimely(x, i, step);
    } else {
      BoundGrows(x, x', Uncounted(t, x.pending[i]), Uncounted(x'.s.threads[i], x'.pending[i]));
    }
  }

  lemma PushTimely(x: Timed, i: nat, step: ThreadStep)
    requires Timely(x) && Can(x, Do(ByThread(i, step))) && (step.Add? || step.SettleAdd?)
    ensures var x' := After(x, Do(ByThread(i, step)));
            x'.s.global <= Bound(x', 0) && ThreadBound(x', x'.s.threads[i], x'.pending[i])
  {
    var x' := After(x, Do(ByThread(i, step)));
    var t := x.s.threads[i];
    var u := Uncounted(t, x.pending[i]);
    assert ThreadBound(x, t, x.pending[i]);
    BoundGrows(x, x', 0, 0);
    BoundGrows(x, x', u, u);
    BoundGrows(x, x, u, 0);
    hide Bound;
  }

  lemma CountTimely(x: Timed, i: nat, onLine: bool)
    requires Timely(x) && Can(x, Do(ByThread(i, Count(onLine))))
    ensures var x' := After(x, Do(ByThread(i, Count(onLine))));
            ThreadBound(x', x'.s.threads[i], x'.pending[i])
  {
    var t := x.s.threads[i];
    assert ThreadBound(x, t, x.pending[i]);
    var k := x.rounds + x.late - Uncounted(t, x.pending[i]);
    assert (k + 1) * x.s.delay == k * x.s.delay + x.s.delay;
  }

  lemma WakeTimely(x: Timed, i: nat, slept: int)
    requires Timely(x) && Can(x, Do(ByThread(i, Wake(slept))))
    ensures var x' := After(x, Do(ByThread(i, Wake(slept))));
            ThreadBound(x', x'.s.threads[i], x'.pending[i])
  {
    var x' := After(x, Do(ByThread(i, Wake(slept))));
    assert ThreadBound(x, x.s.threads[i], x.pending[i]);
    BoundGrows(x, x', 0, Uncounted(x'.s.threads[i], x'.pending[i]));
  }

  lemma ThreadTimely(x: Timed, i: nat, step: ThreadStep)
    requires Timely(x) && Can(x, Do(ByThread(i, step))) && !step.Erase?
    ensures Timely(After(x, Do(ByThread(i, step))))
  {
    var a := ByThread(i, step);
    var x' := After(x, Do(a));
    OkStep(x.s, a);
    SelfTimely(x, i, step);
    hide ThreadOk;
    forall k | 0 <= k < |x.pending| && k != i ensures ThreadBound(x', x'.s.threads[k], x'.pending[k]) {
      OtherTimely(x, x', x.s.threads[k], x.pending[k]);
    }
  }

  lemma EraseTimely(x: Timed, i: nat)
    requires Timely(x) && Can(x, Do(ByThread(i, Erase)))
    ensures Timely(After(x, Do(ByThread(i, Erase))))
  {
    var x' := After(x, Do(ByThread(i, Erase)));
    OkStep(x.s, ByThread(i, Erase));
    forall k | 0 <= k < |x'.pending| ensures ThreadBound(x', x'.s.threads[k], x'.pending[k]) {
      var j := if k < i then k else k + 1;
      assert x'.s.threads[k] == x.s.threads[j] && x'.pending[k] == x.pending[j];
      OtherTimely(x, x', x.s.threads[j], x.pending[j]);
    }
  }

  lemma JoinTimely(x: Timed)
    requires Timely(x)
    ensures Timely(After(x, Do(Join)))
  {
    var x' := After(x, Do(Join));
    OkStep(x.s, Join);
    forall k | 0 <= k < |x'.pending| ensures ThreadBound(x', x'.s.threads[k], x'.pending[k]) {
      if k < |x.pending| { OtherTimely(x, x', x.s.threads[k], x.pending[k]); }
    }
  }

  lemma EventTimely(x: Timed, e: TimedAction)
    requires Timely(x) && Can(x, e)
    ensures Timely(After(x, e)) && After(x, e).s.delay == x.s.delay
  {
    hide Timely;
    match e {
      case Tick => TickTimely(x);
      case Do(a) =>
        match a {
          case Join => JoinTimely(x);
          case ByAgent(act) => AgentTimely(x, act);
          case ByThread(i, step) => if step.Erase? { EraseTimely(x, i); } else { ThreadTimely(x, i, step); }
        }
    }
  }

  lemma AgentTimely(x: Timed, act: AgentStep)
    requires Timely(x) && Can(x, Do(ByAgent(act)))
    ensures Timely(After(x, Do(ByAgent(act))))
  {
    var x' := After(x, Do(ByAgent(act)));
    OkStep(x.s, ByAgent(act));
    forall k | 0 <= k < |x.pending| ensures ThreadBound(x', x'.s.threads[k], x'.pending[k]) {
      OtherTimely(x, x', x.s.threads[k], x.pending[k]);
    }
  }

  lemma {:induction false} RunTimely(x: Timed, run: seq<TimedAction>)
    requires Timely(x) && Possible(x, run)
    ensures Timely(AfterAll(x, run)) && AfterAll(x, run).s.delay == x.s.delay
    decreases |run|
  {
    if run == [] {
    } else {
      EventTimely(x, run[0]);
      hide Timely;
      RunTimely(After(x, run[0]), run[1..]);
    }
  }

  /** No push of the run overlaps another. */
  predicate NoOverlap(x: Timed, run: seq<TimedAction>)
    requires |x.pending| == |x.s.threads| && Possible(x, run)
    decreases |run|
  {
    run == [] || ((run[0].Do? ==> OverlapOf(x.s, run[0].a) == 0) && NoOverlap(After(x, run[0]), run[1..]))
  }

  lemma {:induction false} OverlapsAreExact(x: Timed, run: seq<TimedAction>)
    requires |x.pending| == |x.s.threads| && Possible(x, run)
    ensures x.overlapped <= AfterAll(x, run).overlapped
    ensures x.overlapped == AfterAll(x, run).overlapped <==> NoOverlap(x, run)
    decreases |run|
  {
    if run == [] {
    } else {
      OverlapsAreExact(After(x, run[0]), run[1..]);
    }
  }

  /** The claim of the whole tool under free interleaving.  From a clean start the global delay is at most
      one credit per round, and one more for each late synchronisation, plus what handlers
      overslept and what pushes overlapped.  Pushes that find the global delay as they read it add
      nothing; then, with no late synchronisation and no oversleep, the round bound holds. */
  lemma InterleavedRoundBound(x: Timed, run: seq<TimedAction>)
    requires Opening(x) && Possible(x, run)
    ensures var e := AfterAll(x, run);
            && e.s.global <= (e.rounds + e.late) * x.s.delay + e.overslept + e.overlapped
            && (e.overlapped == 0 <==> NoOverlap(x, run))
  {
    OpeningTimely(x);
    RunTimely(x, run);
    OverlapsAreExact(x, run);
  }

  /** So the effective duration is negative by no more than that. */
  lemma InterleavedEffectiveDuration(x: Timed, run: seq<TimedAction>, draw: nat, duration: int)
    requires Opening(x) && Possible(x, run) && draw < 25 && x.s.delay == RoundDelay.DelayFor(draw)
    requires duration >= AfterAll(x, run).rounds * SIGNAL_FREQ
    ensures var e := AfterAll(x, run);
            && duration - e.s.global >= -(e.late * x.s.delay + e.overslept + e.overlapped)
            && 20 * (e.s.global - e.late * x.s.delay - e.overslept - e.overlapped)
               <= RoundDelay.Twentieths(draw) * duration
  {
    OpeningTimely(x);
    RunTimely(x, run);
    hide Timely, Opening;
    TimelyEffect(AfterAll(x, run), draw, duration);
  }

  lemma TimelyEffect(e: Timed, draw: nat, duration: int)
    requires Timely(e) && draw < 25 && e.s.delay == RoundDelay.DelayFor(draw) && duration >= e.rounds * SIGNAL_FREQ
    ensures duration - e.s.global >= -(e.late * e.s.delay + e.overslept + e.overlapped)
    ensures 20 * (e.s.global - e.late * e.s.delay - e.overslept - e.overlapped)
         <= RoundDelay.Twentieths(draw) * duration
  {
    assert (e.rounds + e.late) * e.s.delay == e.rounds * e.s.delay + e.late * e.s.delay;
    RoundDelay.Times(0, e.late, e.s.delay);
    var sh := RoundDelay.Shared(e.s.global, e.s.delay, e.rounds, e.late * e.s.delay + e.overslept + e.overlapped);
    hide ThreadBound, ThreadOk;
    RoundDelay.DelayWithinDuration(sh, draw, duration);
  }

  // ---- both additions are needed

  ghost predicate Reaches(x: Timed, y: Timed) {
    |x.pending| == |x.s.threads| && exists run :: Possible(x, run) && AfterAll(x, run) == y
  }

  lemma {:induction false} AfterSnoc(x: Timed, run: seq<TimedAction>, e: TimedAction)
    requires |x.pending| == |x.s.threads| && Possible(x, run)
        && |AfterAll(x, run).pending| == |AfterAll(x, run).s.threads|
    requires Can(AfterAll(x, run), e)
    ensures Possible(x, run + [e]) && AfterAll(x, run + [e]) == After(AfterAll(x, run), e)
    decreases |run|
  {
    if run == [] {
      assert (run + [e])[1..] == [];
    } else {
      AfterSnoc(After(x, run[0]), run[1..], e);
      assert (run + [e])[1..] == run[1..] + [e];
    }
  }

  lemma Next(x: Timed, y: Timed, e: TimedAction) returns (z: Timed)
    requires Reaches(x, y) && |y.pending| == |y.s.threads| && Can(y, e)
    ensures z == After(y, e) && Reaches(x, z)
  {
    var run :| Possible(x, run) && AfterAll(x, run) == y;
    AfterSnoc(x, run, e);
    z := After(y, e);
  }

  /** A whole handler that does not synchronise. */
  lemma Counts(x: Timed, y: Timed, i: nat) returns (z: Timed)
    requires Reaches(x, y) && |y.pending| == |y.s.threads| && y.s.agent.Looping? && i < |y.pending| && y.pending[i]
    requires y.s.threads[i].phase.Running? && y.s.threads[i].stage.Live? && y.s.threads[i].signals < 9
    ensures Reaches(x, z)
    ensures z == y.(pending := y.pending[i := false], s := y.s.(threads := y.s.threads[i :=
                   Thread(y.s.threads[i].local + y.s.delay, y.s.threads[i].signals + 1, Live, Running)]))
  {
    z := Next(x, y, Do(ByThread(i, Enter)));
    z := Next(x, z, Do(ByThread(i, Count(true))));
  }

  function Start(d: int, signals: nat): Timed {
    Timed(State(0, d, Looping, [Thread(0, signals, Live, Running), Thread(0, 0, Live, Running)]), [false,
        false], 0, 0, 0, 0)
  }

  /** After one round of two threads that are both credited and exit, the global delay is two
      credits: with the full speedup the effective duration of a single round is negative. */
  lemma OverlapBeatsRounds(d: int) returns (x: Timed, y: Timed)
    requires 0 < d <= SIGNAL_FREQ
    ensures Opening(x) && x.s.delay == d && Reaches(x, y)
    ensures y.rounds == 1 && y.s.global == 2 * d && y.overlapped == d && y.late == 0 && y.overslept == 0
  {
    x := Start(d, 0);
    assert Possible(x, []) && AfterAll(x, []) == x;
    y := Next(x, x, Tick);
    assert y.pending == [true, true];
    y := Counts(x, y, 0);
    y := Counts(x, y, 1);
    assert y.s.threads == [Thread(d, 1, Live, Running), Thread(d, 1, Live, Running)];
    y := BothExit(x, y, d);
  }

  lemma BothExit(x: Timed, m: Timed, d: int) returns (y: Timed)
    requires Reaches(x, m) && |m.pending| == 2 && m.s.global == 0 && d > 0
    requires m.s.threads == [Thread(d, 1, Live, Running), Thread(d, 1, Live, Running)]
    ensures Reaches(x, y) && y.rounds == m.rounds && y.late == m.late && y.overslept == m.overslept
    ensures y.s.global == 2 * d && y.overlapped == m.overlapped + d
  {
    y := Next(x, m, Do(ByThread(0, SettleRead)));
    y := Next(x, y, Do(ByThread(1, SettleRead)));
    assert y.s.threads == [Thread(d, 1, Live, SettleAdding(d)), Thread(d, 1, Live, SettleAdding(d))];
    y := BothAdd(x, y, d);
  }

  lemma BothAdd(x: Timed, m: Timed, d: int) returns (y: Timed)
    requires Reaches(x, m) && |m.pending| == 2 && m.s.global == 0 && d > 0
    requires m.s.threads == [Thread(d, 1, Live, SettleAdding(d)), Thread(d, 1, Live, SettleAdding(d))]
    ensures Reaches(x, y) && y.rounds == m.rounds && y.late == m.late && y.overslept == m.overslept
    ensures y.s.global == 2 * d && y.overlapped == m.overlapped + d
  {
    y := Next(x, m, Do(ByThread(0, SettleAdd)));
    assert y.s.threads[1] == Thread(d, 1, Live, SettleAdding(d)) && y.s.global == d;
    y := Next(x, y, Do(ByThread(1, SettleAdd)));
  }

  /** After two rounds the global delay is three credits: the first thread synchronises when the
      second signal has come and the other thread has used it, and is then credited once more. */
  lemma LateBeatsRounds(d: int) returns (x: Timed, y: Timed)
    requires 0 < d <= SIGNAL_FREQ
    ensures Opening(x) && x.s.delay == d && Reaches(x, y)
    ensures y.rounds == 2 && y.late == 1 && y.s.global == 3 * d && y.overlapped == 0 && y.overslept == 0
  {
    x := Start(d, 9);
    y := TenthSignal(x, d);
    y := OtherAhead(x, y, d);
    y := LateCatchUp(x, y, d);
    y := LateCredit(x, y, d);
  }

  function Two(global: int, d: int, t: Thread, u: Thread, p: bool, q: bool, rounds: nat, late: nat): Timed {
    Timed(State(global, d, Looping, [t, u]), [p, q], rounds, late, 0, 0)
  }

  lemma TenthSignal(x: Timed, d: int) returns (y: Timed)
    requires 0 < d && x == Start(d, 9)
    ensures Reaches(x, y)
    ensures y == Two(0, d, Thread(0, 10, Live, AtSync), Thread(0, 0, Live, Running), false, true, 1, 0)
  {
    assert Possible(x, []) && AfterAll(x, []) == x;
    y := Next(x, x, Tick);
    assert y.pending == [true, true];
    y := Next(x, y, Do(ByThread(0, Enter)));
    y := Next(x, y, Do(ByThread(0, Count(false))));
  }

  lemma OtherAhead(x: Timed, m: Timed, d: int) returns (y: Timed)
    requires 0 < d && Reaches(x, m)
    requires m == Two(0, d, Thread(0, 10, Live, AtSync), Thread(0, 0, Live, Running), false, true, 1, 0)
    ensures Reaches(x, y)
    ensures y == Two(0, d, Thread(0, 10, Live, AtSync), Thread(2 * d, 2, Live, Running), true, false, 2, 0)
  {
    y := Counts(x, m, 1);
    assert y == Two(0, d, Thread(0, 10, Live, AtSync), Thread(d, 1, Live, Running), false, false, 1, 0);
    y := Next(x, y, Tick);
    assert y.pending == [true, true];
    y := Counts(x, y, 1);
  }

  lemma LateCatchUp(x: Timed, m: Timed, d: int) returns (y: Timed)
    requires 0 < d && Reaches(x, m)
    requires m == Two(0, d, Thread(0, 10, Live, AtSync), Thread(2 * d, 2, Live, Running), true, false, 2, 0)
    ensures Reaches(x, y)
    ensures y == Two(2 * d, d, Thread(0, 10, Live, Sleeping(2 * d)), Thread(2 * d, 2, Leaving, Running), true, false,
                     2, 0)
  {
    y := OtherExits(x, m, d);
    y := Next(x, y, Do(ByThread(0, ReadGlobal)));
  }

  lemma OtherExits(x: Timed, m: Timed, d: int) returns (y: Timed)
    requires 0 < d && Reaches(x, m)
    requires m == Two(0, d, Thread(0, 10, Live, AtSync), Thread(2 * d, 2, Live, Running), true, false, 2, 0)
    ensures Reaches(x, y)
    ensures y == Two(2 * d, d, Thread(0, 10, Live, AtSync), Thread(2 * d, 2, Leaving, Running), true, false, 2, 0)
  {
    y := Next(x, m, Do(ByThread(1, SettleRead)));
    y := Next(x, y, Do(ByThread(1, SettleAdd)));
  }

  lemma LateCredit(x: Timed, m: Timed, d: int) returns (y: Timed)
    requires 0 < d && Reaches(x, m)
    requires m == Two(2 * d, d, Thread(0, 10, Live, Sleeping(2 * d)), Thread(2 * d, 2, Leaving, Running), true,
        false, 2, 0)
    ensures Reaches(x, y) && y.rounds == 2 && y.late == 1 && y.s.global == 3 * d && y.overlapped == 0
        && y.overslept == 0
  {
    y := Next(x, m, Do(ByThread(0, Wake(2 * d))));
    assert y == Two(2 * d, d, Thread(2 * d, 0, Live, Running), Thread(2 * d, 2, Leaving, Running), true, false, 2, 1);
    y := Counts(x, y, 0);
    assert y == Two(2 * d, d, Thread(3 * d, 1, Live, Running), Thread(2 * d, 2, Leaving, Running), false,
        false, 2, 1);
    y := Next(x, y, Do(ByThread(0, SettleRead)));
    y := Next(x, y, Do(ByThread(0, SettleAdd)));
  }
}
