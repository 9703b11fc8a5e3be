/** What a whole run means for one thread, and where the protocol's accounting stops being
    exact: the runs that show it, each with the condition that rules it out. */
module DelayRuns {
  import opened InterleavedDelay
  import opened DelayExactness
  import Sleeping

  // ---- one thread followed through a run

  function Place(run: seq<Action>, i: nat): nat {
    if run == [] then i else Place(run[1..], MovedTo(run[0], i))
  }

  /** The thread is neither erased nor cleared by a gap signal during the run. */
  predicate Persists(run: seq<Action>, i: nat) {
    run == [] || (run[0] != ByThread(i, Erase) && run[0] != ByThread(i, GapReset)
        && Persists(run[1..], MovedTo(run[0], i)))
  }

  function CreditsOf(s: State, run: seq<Action>, i: nat): int
    requires Legal(s, run)
    decreases |run|
  {
    if run == [] then 0
    else (if run[0] == ByThread(i, Count(true)) then s.delay else 0)
         + CreditsOf(Apply(s, run[0]), run[1..], MovedTo(run[0], i))
  }

  function SleptBy(run: seq<Action>, i: nat): int {
    if run == [] then 0
    else (if run[0].ByThread? && run[0].i == i && run[0].step.Wake? then run[0].step.slept else 0)
         + SleptBy(run[1..], MovedTo(run[0], i))
  }

  /** The local delay of a thread is what it started from, plus its own credits, plus the
      time it was made to sleep -- whatever the other threads and the agent do meanwhile. */
  lemma {:induction false} LocalDelayLaw(s: State, run: seq<Action>, i: nat)
    requires Legal(s, run) && i < |s.threads| && Persists(run, i)
    ensures Place(run, i) < |Exec(s, run).threads|
    ensures Exec(s, run).threads[Place(run, i)].local
         == s.threads[i].local + CreditsOf(s, run, i) + SleptBy(run, i)
    decreases |run|
  {
    if run == [] {
    } else {
      var s' := Apply(s, run[0]);
      var j := MovedTo(run[0], i);
      assert s'.threads[j].local == s.threads[i].local
        + (if run[0] == ByThread(i, Count(true)) then s.delay else 0)
        + (if run[0].ByThread? && run[0].i == i && run[0].step.Wake? then run[0].step.slept else 0);
      LocalDelayLaw(s', run[1..], j);
    }
  }

  predicate TakesNoStep(run: seq<Action>, i: nat) {
    run == [] || (!(run[0].ByThread? && run[0].i == i) && TakesNoStep(run[1..], MovedTo(run[0], i)))
  }

  lemma {:induction false} OthersLeaveItAlone(s: State, run: seq<Action>, i: nat)
    requires Legal(s, run) && i < |s.threads| && TakesNoStep(run, i)
    ensures Place(run, i) < |Exec(s, run).threads|
    ensures Exec(s, run).threads[Place(run, i)] == s.threads[i]
    decreases |run|
  {
    if run == [] {
    } else {
      OthersLeaveItAlone(Apply(s, run[0]), run[1..], MovedTo(run[0], i));
    }
  }

  // ---- whole handlers

  /** Whatever happens meanwhile, a handler that starts while no experiment is on takes one more
      step and is done: the local delay is zero, and nothing else has changed. */
  lemma GapHandlerClears(s: State, i: nat, run: seq<Action>, step: ThreadStep)
    requires s.agent.Sampling? || s.agent.Draining? || s.agent.Recorded? || s.agent.Stopped?
    requires Enabled(s, ByThread(i, Enter))
    requires Legal(Apply(s, ByThread(i, Enter)), run) && TakesNoStep(run, i)
    requires Enabled(Exec(Apply(s, ByThread(i, Enter)), run), ByThread(Place(run, i), step))
    ensures var mid := Exec(Apply(s, ByThread(i, Enter)), run);
            var end := Apply(mid, ByThread(Place(run, i), step));
            && end.threads == mid.threads[Place(run, i) := s.threads[i].(local := 0)]
            && end.global == mid.global && end.delay == mid.delay && end.agent == mid.agent
  {
    OthersLeaveItAlone(Apply(s, ByThread(i, Enter)), run, i);
  }

  /** And one that starts during an experiment counts the signal, credits the delay in force or
      nothing, each of which can happen, and then synchronises if it was the tenth. */
  lemma ExperimentHandlerCounts(s: State, i: nat, run: seq<Action>, step: ThreadStep)
    requires s.agent.Starting? || s.agent.Looping?
    requires Ok(s) && Enabled(s, ByThread(i, Enter))
    requires Legal(Apply(s, ByThread(i, Enter)), run) && TakesNoStep(run, i)
    ensures var mid := Exec(Apply(s, ByThread(i, Enter)), run);
            var j := Place(run, i);
            && (forall hit :: Enabled(mid, ByThread(j, Count(hit))))
            && (Enabled(mid, ByThread(j, step)) ==>
                  var end := Apply(mid, ByThread(j, step));
                  && (end == Apply(mid, ByThread(j, Count(true))) || end == Apply(mid, ByThread(j, Count(false))))
                  && end.threads[j].signals == s.threads[i].signals + 1 && end.global == mid.global
                  && (end.threads[j].phase.Running? <==> end.threads[j].signals < 10)
                  && (end.threads[j].phase.AtSync? <==> end.threads[j].signals == 10))
            && Apply(mid, ByThread(j, Count(true))).threads[j].local == s.threads[i].local + mid.delay
            && Apply(mid, ByThread(j, Count(false))).threads[j].local == s.threads[i].local
  {
    assert ThreadOk(s.threads[i]);
    OthersLeaveItAlone(Apply(s, ByThread(i, Enter)), run, i);
  }

  /** The end of an experiment: handlers finish, new ones start, the agent records and resets, and
      nobody joins or exits. */
  predicate GapStep(a: Action) {
    match a
    case ByAgent(act) => act.Record?
    case Join => false
    case ByThread(_, step) =>
      step.Enter? || step.GapReset? || step.Count? || step.ReadGlobal? || step.Wake? || step.Add?
  }

  predicate GapRun(run: seq<Action>) {
    && run != [] && run[|run| - 1] == ByAgent(Reset)
    && forall k :: 0 <= k < |run| - 1 ==> GapStep(run[k])
  }

  predicate EntersIn(run: seq<Action>, i: nat) {
    exists k :: 0 <= k < |run| && run[k] == ByThread(i, Enter)
  }

  predicate Cleared(t: Thread) {
    t.phase.InGap? || (t.phase.Running? && t.local == 0)
  }

  /** If every registered thread starts a handler after the experiment flag went down and before
      the reset, the next experiment has a clean state to start from. */
  lemma {:induction false} GapSignalsClean(s: State, run: seq<Action>)
    requires s.agent.Draining? || s.agent.Recorded?
    requires Legal(s, run) && GapRun(run)
    requires forall i :: 0 <= i < |s.threads| ==>
      !s.threads[i].stage.Joining? && (Cleared(s.threads[i]) || EntersIn(run, i))
    ensures Clean(Exec(s, run))
    decreases |run|
  {
    var a := run[0];
    var s' := Apply(s, a);
    if |run| == 1 {
      assert run[1..] == [];
      forall i | 0 <= i < |s.threads| ensures Cleared(s.threads[i]) {
        assert !EntersIn(run, i);
      }
    } else {
      var rest := run[1..];
      assert GapStep(a) && rest[|rest| - 1] == run[|run| - 1];
      assert forall k :: 0 <= k < |rest| - 1 ==> rest[k] == run[k + 1];
      forall i | 0 <= i < |s'.threads|
        ensures !s'.threads[i].stage.Joining? && (Cleared(s'.threads[i]) || EntersIn(rest, i))
      {
        if EntersIn(run, i) && a != ByThread(i, Enter) {
          var k :| 0 <= k < |run| && run[k] == ByThread(i, Enter);
          assert rest[k - 1] == ByThread(i, Enter);
        }
      }
      GapSignalsClean(s', rest);
    }
  }

  /** A thread that takes no step at all keeps what it has, and that is not clean. */
  lemma MissedIsUnclean(s: State, run: seq<Action>, i: nat)
    requires Legal(s, run) && TakesNoStep(run, i)
    requires i < |s.threads| && s.threads[i].phase.Running? && s.threads[i].local != 0
    ensures !Clean(Exec(s, run))
  {
    OthersLeaveItAlone(s, run, i);
    assert !Level(Exec(s, run).threads[Place(run, i)]);
  }

  /** What the agent does next. */
  predicate Follows(act: AgentStep, next: AgentStep) {
    match act
    case Start => next.SetDelay?
    case SetDelay(_) => next.Finish?
    case Finish => next.Record? || next.Abandon?
    case Record => next.Reset?
    case Reset => next.Start?
    case Abandon => false
  }

  /** The agent keeps to the order of its program, however the threads interleave. */
  lemma {:induction false} AgentOrder(s: State, run: seq<Action>, k: nat)
    requires Legal(s, run) && 0 < k < |run| && run[0].ByAgent? && run[k].ByAgent?
    requires forall j :: 0 < j < k ==> !run[j].ByAgent?
    ensures Follows(run[0].act, run[k].act)
  {
    NextAgentStep(Apply(s, run[0]), run[1..], k - 1);
  }

  lemma {:induction false} NextAgentStep(s: State, run: seq<Action>, k: nat)
    requires Legal(s, run) && k < |run| && run[k].ByAgent? && forall j :: 0 <= j < k ==> !run[j].ByAgent?
    ensures AgentEnabled(s, run[k].act)
    decreases k
  {
    if k == 0 {
    } else {
      assert !run[0].ByAgent?;
      assert forall j :: 0 <= j < k - 1 ==> run[1..][j] == run[j + 1];
      NextAgentStep(Apply(s, run[0]), run[1..], k - 1);
    }
  }

  /** From the recording of an experiment until the next one sets its own, the delay field holds
      what the global delay was. */
  lemma {:induction false} DelayIsTotal(s: State, run: seq<Action>)
    requires Legal(s, run) && run != [] && run[0] == ByAgent(Record)
    requires forall k :: 0 < k < |run| && run[k].ByAgent? ==> !run[k].act.SetDelay? && !run[k].act.Record?
    ensures Exec(s, run).delay == s.global
  {
    var rest := run[1..];
    assert forall k :: 0 <= k < |rest| ==> rest[k] == run[k + 1];
    DelayStays(Apply(s, run[0]), rest);
  }

  lemma {:induction false} DelayStays(s: State, run: seq<Action>)
    requires Legal(s, run)
    requires forall k :: 0 <= k < |run| && run[k].ByAgent? ==> !run[k].act.SetDelay? && !run[k].act.Record?
    ensures Exec(s, run).delay == s.delay
    decreases |run|
  {
    if run == [] {
    } else {
      assert run[0].ByAgent? ==> !run[0].act.SetDelay? && !run[0].act.Record?;
      assert forall k :: 0 <= k < |run| - 1 ==> run[1..][k] == run[k + 1];
      DelayStays(Apply(s, run[0]), run[1..]);
    }
  }

  predicate CreditFits(s: State) {
    s.agent.Looping? || s.agent.Draining? ==> 0 <= s.delay <= 1000000
  }

  /** While an experiment runs, a credit is at most the signal period. */
  lemma {:induction false} CreditAlwaysFits(s: State, run: seq<Action>)
    requires CreditFits(s) && Legal(s, run)
    ensures CreditFits(Exec(s, run))
    decreases |run|
  {
    if run == [] {
    } else {
      CreditAlwaysFits(Apply(s, run[0]), run[1..]);
    }
  }

  /** The thread finishes its settlement in the run. */
  predicate Settles(run: seq<Action>, i: nat) {
    run != [] && (run[0] == ByThread(i, SettleWake) || run[0] == ByThread(i, SettleAdd)
                  || Settles(run[1..], MovedTo(run[0], i)))
  }

  predicate Stays(run: seq<Action>, i: nat) {
    run == [] || (run[0] != ByThread(i, Erase) && Stays(run[1..], MovedTo(run[0], i)))
  }

  /** No thread is taken off the list before it has settled. */
  lemma {:induction false} ErasedHasSettled(s: State, run: seq<Action>, i: nat)
    requires Legal(s, run) && i < |s.threads| && Stays(run, i) && !s.threads[i].stage.Leaving?
    requires Enabled(Exec(s, run), ByThread(Place(run, i), Erase))
    ensures Settles(run, i)
    decreases |run|
  {
    if run == [] {
    } else if run[0] != ByThread(i, SettleWake) && run[0] != ByThread(i, SettleAdd) {
      ErasedHasSettled(Apply(s, run[0]), run[1..], MovedTo(run[0], i));
    }
  }

  /** Nothing brings the agent back once it has abandoned an experiment. */
  lemma {:induction false} StoppedForEver(s: State, run: seq<Action>)
    requires s.agent.Draining? && Legal(s, run) && run != [] && run[0] == ByAgent(Abandon)
    ensures forall k :: 0 < k < |run| ==> !run[k].ByAgent?
  {
    NoAgentAfter(Apply(s, run[0]), run[1..]);
    assert forall k :: 0 < k < |run| ==> run[k] == run[1..][k - 1];
  }

  lemma {:induction false} NoAgentAfter(s: State, run: seq<Action>)
    requires s.agent.Stopped? && Legal(s, run)
    ensures forall k :: 0 <= k < |run| ==> !run[k].ByAgent?
    decreases |run|
  {
    if run == [] {
    } else {
      NoAgentAfter(Apply(s, run[0]), run[1..]);
      assert forall k :: 0 < k < |run| ==> run[k] == run[1..][k - 1];
    }
  }

  /** A synchronising thread reads the global delay, others run for as long as they like,
      and it finishes.  It ends at or above the value it read: exactly there if it was
      behind and slept just what it asked for, and then only behind the others by what
      they added meanwhile; if it was ahead, the global delay has grown by its whole lead. */
  lemma SyncReachesWhatWasRead(s: State, i: nat, run: seq<Action>, finish: ThreadStep)
    requires Ok(s) && i < |s.threads| && s.threads[i].phase.AtSync?
    requires Legal(Apply(s, ByThread(i, ReadGlobal)), run) && TakesNoStep(run, i) && NoReset(run)
    requires finish.Wake? || finish.Add?
    requires Enabled(Exec(Apply(s, ByThread(i, ReadGlobal)), run), ByThread(Place(run, i), finish))
    ensures var r := Apply(s, ByThread(i, ReadGlobal));
            var mid := Exec(r, run);
            var end := Apply(mid, ByThread(Place(run, i), finish));
            var t := end.threads[Place(run, i)];
            && t.signals == 0 && t.phase.Running?
            && (s.global - s.threads[i].local < Sleeping.TV_NSEC_LIMIT ==> t.local >= s.global)
            && (s.global > s.threads[i].local <==> finish.Wake?)
            && (finish.Wake? ==> t.local - s.global == finish.slept - (s.global - s.threads[i].local))
            && (finish.Add? ==> t.local == s.threads[i].local && end.global == mid.global + (t.local - s.global))
            && (finish.Add? ==> end.global >= t.local && (end.global == t.local <==> NobodyPushes(r, run)))
  {
    var r := Apply(s, ByThread(i, ReadGlobal));
    OthersLeaveItAlone(r, run, i);
    OkStep(s, ByThread(i, ReadGlobal));
    GlobalMonotone(r, run);
  }

  /** A synchronising thread is sure to reach what it read, however it is interleaved and however
      long it sleeps, if and only if it is less than a second behind. */
  lemma SyncSurelyReaches(s: State, i: nat, run: seq<Action>)
    requires Ok(s) && i < |s.threads| && s.threads[i].phase.AtSync?
    requires Legal(Apply(s, ByThread(i, ReadGlobal)), run) && TakesNoStep(run, i) && NoReset(run)
    ensures (forall finish: ThreadStep :: Finishes(s, i, run, finish) ==> LocalAfter(s, i, run, finish) >= s.global)
       <==> s.global - s.threads[i].local < Sleeping.TV_NSEC_LIMIT
  {
    var r := Apply(s, ByThread(i, ReadGlobal));
    OthersLeaveItAlone(r, run, i);
    if s.global - s.threads[i].local >= Sleeping.TV_NSEC_LIMIT {
      assert Finishes(s, i, run, Wake(0));
      assert LocalAfter(s, i, run, Wake(0)) == s.threads[i].local;
    } else {
      forall finish: ThreadStep | Finishes(s, i, run, finish) ensures LocalAfter(s, i, run, finish) >= s.global {
        SyncReachesWhatWasRead(s, i, run, finish);
      }
    }
  }

  predicate Finishes(s: State, i: nat, run: seq<Action>, finish: ThreadStep)
    requires i < |s.threads| && s.threads[i].phase.AtSync? && Legal(Apply(s, ByThread(i, ReadGlobal)), run)
  {
    (finish.Wake? || finish.Add?) && Enabled(Exec(Apply(s, ByThread(i, ReadGlobal)), run), ByThread(Place(run,
        i), finish))
  }

  function LocalAfter(s: State, i: nat, run: seq<Action>, finish: ThreadStep): int
    requires i < |s.threads| && s.threads[i].phase.AtSync? && Legal(Apply(s, ByThread(i, ReadGlobal)), run)
    requires Finishes(s, i, run, finish)
  {
    Apply(Exec(Apply(s, ByThread(i, ReadGlobal)), run), ByThread(Place(run, i), finish)).threads[Place(run, i)].local
  }

  /** The same for a thread that exits: its push meets the global delay exactly at its own
      local delay if and only if nobody pushed between its read and its add. */
  lemma SettlementReachesWhatWasRead(s: State, i: nat, run: seq<Action>, finish: ThreadStep)
    requires Ok(s) && i < |s.threads| && s.threads[i].stage.Live? && s.threads[i].phase.Running?
    requires Legal(Apply(s, ByThread(i, SettleRead)), run) && TakesNoStep(run, i) && NoReset(run)
    requires finish.SettleWake? || finish.SettleAdd?
    requires Enabled(Exec(Apply(s, ByThread(i, SettleRead)), run), ByThread(Place(run, i), finish))
    ensures var r := Apply(s, ByThread(i, SettleRead));
            var mid := Exec(r, run);
            var end := Apply(mid, ByThread(Place(run, i), finish));
            var local := s.threads[i].local;
            && end.threads[Place(run, i)].local == local && end.threads[Place(run, i)].stage.Leaving?
            && (finish.SettleWake? <==> s.global > local)
            && (finish.SettleWake? ==> r.threads[i].phase.request == s.global - local && end.global == mid.global)
            && (finish.SettleAdd? ==> end.global == mid.global + (local - s.global))
            && (finish.SettleAdd? ==> end.global >= local && (end.global == local <==> NobodyPushes(r, run)))
  {
    var r := Apply(s, ByThread(i, SettleRead));
    OthersLeaveItAlone(r, run, i);
    OkStep(s, ByThread(i, SettleRead));
    GlobalMonotone(r, run);
  }

  /** The pauses of one thread, over any run up to and including a synchronisation that others
      interleave with as they like.  What the thread has slept is the global delay, less the
      local delay it came with, less its own credits, less what the others pushed during the
      synchronisation, plus what it overslept in it. */
  lemma PausesAreTheDifference(s: State, run: seq<Action>, i: nat, others: seq<Action>, finish: ThreadStep)
    requires Ok(s) && Legal(s, run) && i < |s.threads| && Persists(run, i)
    requires Place(run, i) < |Exec(s, run).threads| && Exec(s, run).threads[Place(run, i)].phase.AtSync?
    requires var r := Apply(Exec(s, run), ByThread(Place(run, i), ReadGlobal));
             && Legal(r, others) && TakesNoStep(others, Place(run, i)) && NoReset(others)
             && (finish.Wake? || finish.Add?) && Enabled(Exec(r, others), ByThread(Place(others, Place(run,
                 i)), finish))
    ensures var j := Place(run, i);
            var r := Apply(Exec(s, run), ByThread(j, ReadGlobal));
            var end := Apply(Exec(r, others), ByThread(Place(others, j), finish));
            var pauses := SleptBy(run, i) + if finish.Wake? then finish.slept else 0;
            var overslept := if finish.Wake? then finish.slept - (Exec(s, run).global - Exec(s,
                run).threads[j].local) else 0;
            pauses == end.global - s.threads[i].local - CreditsOf(s, run, i) - Pushes(r, others) + overslept
  {
    LocalDelayLaw(s, run, i);
    OkRun(s, run);
    var j := Place(run, i);
    var r := Apply(Exec(s, run), ByThread(j, ReadGlobal));
    OkStep(Exec(s, run), ByThread(j, ReadGlobal));
    OthersLeaveItAlone(r, others, j);
    GlobalMonotone(r, others);
  }

  // ---- reaching states from the start of the program

  ghost predicate Reaches(s: State, s': State) {
    exists run :: Legal(s, run) && Exec(s, run) == s'
  }

  lemma {:induction false} ExecSnoc(s: State, run: seq<Action>, a: Action)
    requires Legal(s, run) && Enabled(Exec(s, run), a)
    ensures Legal(s, run + [a]) && Exec(s, run + [a]) == Apply(Exec(s, run), a)
    decreases |run|
  {
    if run == [] {
      assert (run + [a])[1..] == [];
    } else {
      ExecSnoc(Apply(s, run[0]), run[1..], a);
      assert (run + [a])[1..] == run[1..] + [a];
    }
  }

  lemma Origin(s: State)
    ensures Reaches(s, s)
  {
    assert Legal(s, []) && Exec(s, []) == s;
  }

  lemma Extend(s: State, m: State, a: Action) returns (m': State)
    requires Reaches(s, m) && Enabled(m, a)
    ensures m' == Apply(m, a) && Reaches(s, m')
  {
    var run :| Legal(s, run) && Exec(s, run) == m;
    ExecSnoc(s, run, a);
    m' := Apply(m, a);
  }

  lemma ExtendThread(s: State, m: State, i: nat, steps: seq<ThreadStep>) returns (m': State)
    requires Reaches(s, m) && |steps| == 2
    requires Enabled(m, ByThread(i, steps[0])) && Enabled(Apply(m, ByThread(i, steps[0])), ByThread(i, steps[1]))
    ensures m' == Apply(Apply(m, ByThread(i, steps[0])), ByThread(i, steps[1])) && Reaches(s, m')
  {
    var m1 := Extend(s, m, ByThread(i, steps[0]));
    m' := Extend(s, m1, ByThread(i, steps[1]));
  }

  /** A new thread, created and registered. */
  lemma Spawn(s: State, m: State) returns (m': State)
    requires Reaches(s, m)
    ensures m' == m.(threads := m.threads + [Thread(m.global, 0, Live, Running)]) && Reaches(s, m')
  {
    var m1 := Extend(s, m, Join);
    m' := Extend(s, m1, ByThread(|m.threads|, Insert));
  }

  lemma OneThreadLooping(d: int) returns (s: State)
    requires 0 <= d <= SIGNAL_FREQ
    ensures s == State(0, d, Looping, [Thread(0, 0, Live, Running)]) && Reaches(INITIAL, s)
  {
    Origin(INITIAL);
    s := Spawn(INITIAL, INITIAL);
    s := Extend(INITIAL, s, ByAgent(Start));
    s := Extend(INITIAL, s, ByAgent(SetDelay(d)));
  }

  /** The inaccuracy the documentation warns of.  A thread credited in one experiment
      misses every signal until the next one begins.  That next experiment has speedup
      zero and no delay in force, and yet one of its runs inserts delay. */
  lemma MissedGapSignals(d: int) returns (s: State)
    requires 0 < d <= SIGNAL_FREQ
    ensures Reaches(INITIAL, s) && s.agent.Looping? && Undisturbed(s) && !Clean(s)
    ensures exists run :: Legal(s, run) && Inside(run) && !Undisturbed(Exec(s, run))
  {
    s := OneThreadLooping(d);
    s := ExtendThread(INITIAL, s, 0, [Enter, Count(true)]);
    assert s.threads == [Thread(d, 1, Live, Running)];
    s := Extend(INITIAL, s, ByAgent(Finish));
    s := Extend(INITIAL, s, ByAgent(Record));
    s := Extend(INITIAL, s, ByAgent(Reset));
    s := Extend(INITIAL, s, ByAgent(Start));
    s := Extend(INITIAL, s, ByAgent(SetDelay(0)));
    assert !Level(s.threads[0]);
    assert Ok(s);
    ZeroSpeedupBaseline(s);
  }

  /** An experiment in which one thread is credited once and exits, pushing the global delay. */
  lemma ExperimentWithExit(d: int) returns (c: State)
    requires 0 < d <= SIGNAL_FREQ
    ensures Reaches(INITIAL, c) && c == State(0, d, Sampling, [])
  {
    c := CreditedAndGone(d);
    c := Extend(INITIAL, c, ByAgent(Finish));
    c := Extend(INITIAL, c, ByAgent(Record));
    c := Extend(INITIAL, c, ByAgent(Reset));
  }

  /** Missing a signal is not the only way.  The delay field still holds the total of the
      previous experiment while the next one is starting, so a handler that runs then
      credits that total: the program state is clean when the experiment starts and no
      longer clean when its delay is set. */
  lemma StaleCredit(d: int) returns (c: State, s: State)
    requires 0 < d <= SIGNAL_FREQ
    ensures Reaches(INITIAL, c) && c.agent.Sampling? && Clean(c)
    ensures Reaches(c, s) && s.agent.Looping? && Undisturbed(s) && !Clean(s)
    ensures |s.threads| == 1 && s.threads[0].local == d
  {
    c := ExperimentWithExit(d);
    Origin(c);
    s := Spawn(c, c);
    s := Extend(c, s, ByAgent(Start));
    s := ExtendThread(c, s, 0, [Enter, Count(true)]);
    s := Extend(c, s, ByAgent(SetDelay(0)));
    assert !Level(s.threads[0]);
  }

  /** What can happen from one experiment's reset until the next one's delay is set. */
  predicate Opens(run: seq<Action>) {
    && run != [] && run[|run| - 1].ByAgent? && run[|run| - 1].act.SetDelay?
    && forall k :: 0 <= k < |run| - 1 && run[k].ByAgent? ==> run[k].act.Start?
  }

  lemma {:induction false} OpensClean(c: State, run: seq<Action>)
    requires Ok(c) && Clean(c) && c.delay == 0 && Legal(c, run) && Opens(run)
    ensures Clean(Exec(c, run)) && Ok(Exec(c, run)) && Exec(c, run).InExperiment()
    decreases |run|
  {
    OkStep(c, run[0]);
    CleanStep(c, run[0]);
    if |run| == 1 {
      assert run[1..] == [];
    } else {
      assert run[1..][|run| - 2] == run[|run| - 1];
      assert forall k :: 0 <= k < |run| - 2 ==> run[1..][k] == run[k + 1];
      OpensClean(Apply(c, run[0]), run[1..]);
    }
  }

  /** A thread that joins and is found on the line of the experiment just recorded. */
  lemma StaleRun(c: State) returns (run: seq<Action>)
    requires Ok(c) && c.agent.Sampling? && c.delay > 0
    ensures Legal(c, run) && Opens(run) && !Clean(Exec(c, run)) && Exec(c, run).InExperiment()
    ensures Ok(Exec(c, run))
  {
    var n := |c.threads|;
    run := [];
    var m := c;
    run, m := Snoc(c, run, m, Join);
    run, m := Snoc(c, run, m, ByThread(n, Insert));
    run, m := Snoc(c, run, m, ByAgent(Start));
    run, m := Snoc(c, run, m, ByThread(n, Enter));
    run, m := Snoc(c, run, m, ByThread(n, Count(true)));
    assert m.threads[n].local == c.global + c.delay;
    run, m := Snoc(c, run, m, ByAgent(SetDelay(0)));
    assert !Level(m.threads[n]);
    OkRun(c, run);
  }

  lemma Snoc(c: State, run: seq<Action>, m: State, a: Action) returns (run': seq<Action>, m': State)
    requires Legal(c, run) && Exec(c, run) == m && Enabled(m, a)
    ensures run' == run + [a] && m' == Apply(m, a)
    ensures Legal(c, run') && Exec(c, run') == m'
  {
    ExecSnoc(c, run, a);
    run', m' := run + [a], Apply(m, a);
  }

  /** An experiment that starts unclean stays so until its delay is set, if nothing else happens. */
  lemma UncleanRun(c: State) returns (run: seq<Action>)
    requires Ok(c) && c.agent.Sampling? && !Clean(c)
    ensures Legal(c, run) && Opens(run) && !Clean(Exec(c, run)) && Exec(c, run).InExperiment()
    ensures Ok(Exec(c, run))
  {
    run := [];
    var m := c;
    run, m := Snoc(c, run, m, ByAgent(Start));
    run, m := Snoc(c, run, m, ByAgent(SetDelay(0)));
    assert m.global == c.global && m.threads == c.threads;
    OkRun(c, run);
  }

  /** When it goes wrong, for all states after a reset.  Every interleaving up to the moment the
      delay of the next experiment is set leaves that experiment clean, and so all its runs
      accounted for by their own credits, if and only if the state is clean and the delay field
      was left at zero, that is, if the experiment before inserted no delay. */
  lemma StaleCreditIsExact(c: State)
    requires Ok(c) && c.agent.Sampling?
    ensures (forall run :: Legal(c, run) && Opens(run) ==> Clean(Exec(c, run))) <==> Clean(c) && c.delay == 0
    ensures (forall run :: Legal(c, run) && Opens(run) ==> AccountedFor(Exec(c, run))) <==> Clean(c) && c.delay == 0
  {
    if Clean(c) && c.delay == 0 {
      forall run | Legal(c, run) && Opens(run) ensures Clean(Exec(c, run)) && AccountedFor(Exec(c, run)) {
        OpensClean(c, run);
        CleanStartIsExact(Exec(c, run));
      }
    } else {
      var run;
      if Clean(c) {
        run := StaleRun(c);
      } else {
        run := UncleanRun(c);
      }
      CleanStartIsExact(Exec(c, run));
    }
  }

  /** The other way to start unclean.  A thread that joins just before the reset inherits the total
      and, if it exits before it is signalled again, pushes it into the next experiment. */
  lemma LateExit(d: int) returns (s: State)
    requires 0 < d <= SIGNAL_FREQ
    ensures Reaches(INITIAL, s) && s == State(d, 0, Looping, []) && !Clean(s)
  {
    s := CreditedAndGone(d);
    s := Extend(INITIAL, s, ByAgent(Finish));
    s := Spawn(INITIAL, s);
    s := Extend(INITIAL, s, ByAgent(Record));
    s := Extend(INITIAL, s, ByAgent(Reset));
    assert s == State(0, d, Sampling, [Thread(d, 0, Live, Running)]);
    s := LateExitFrom(s, d);
  }

  /** One thread was credited once and exited. */
  lemma CreditedAndGone(d: int) returns (s: State)
    requires 0 < d <= SIGNAL_FREQ
    ensures Reaches(INITIAL, s) && s == State(d, d, Looping, [])
  {
    s := OneThreadLooping(d);
    s := ExtendThread(INITIAL, s, 0, [Enter, Count(true)]);
    s := ExtendThread(INITIAL, s, 0, [SettleRead, SettleAdd]);
    s := Extend(INITIAL, s, ByThread(0, Erase));
  }

  lemma LateExitFrom(m: State, d: int) returns (s: State)
    requires 0 < d && Reaches(INITIAL, m) && m == State(0, d, Sampling, [Thread(d, 0, Live, Running)])
    ensures Reaches(INITIAL, s) && s == State(d, 0, Looping, [])
  {
    s := ExtendThread(INITIAL, m, 0, [SettleRead, SettleAdd]);
    s := Extend(INITIAL, s, ByThread(0, Erase));
    s := Extend(INITIAL, s, ByAgent(Start));
    s := Extend(INITIAL, s, ByAgent(SetDelay(0)));
  }

  // ---- sleep requests

  /** No request exceeds the global delay it was computed from. */
  predicate RequestsBelow(s: State) {
    forall i :: 0 <= i < |s.threads| ==>
      match s.threads[i].phase
      case Sleeping(d) => d <= s.global
      case SettleSleeping(d) => d <= s.global
      case _ => true
  }

  lemma RequestsBelowStep(s: State, a: Action)
    requires Ok(s) && RequestsBelow(s) && Enabled(s, a) && a != ByAgent(Reset)
    ensures RequestsBelow(Apply(s, a))
  {
    var s' := Apply(s, a);
    if a.ByThread? {
      assert ThreadOk(s.threads[a.i]);
      if a.step.Erase? {
        assert forall k :: 0 <= k < |s'.threads| ==> s'.threads[k] == s.threads[if k < a.i then k else k + 1];
      }
    }
  }

  lemma {:induction false} RequestsBelowRun(s: State, run: seq<Action>)
    requires Ok(s) && RequestsBelow(s) && Legal(s, run) && NoReset(run)
    ensures RequestsBelow(Exec(s, run))
    decreases |run|
  {
    if run == [] {
    } else {
      assert run[0] != ByAgent(Reset);
      OkStep(s, run[0]);
      RequestsBelowStep(s, run[0]);
      RequestsBelowRun(Apply(s, run[0]), run[1..]);
    }
  }

  predicate Asks(t: Thread, request: int) {
    (t.phase.Sleeping? || t.phase.SettleSleeping?) && t.phase.request == request
  }

  /** Every request to sleep is covered by the credits and oversleeps so far. */
  ghost predicate RequestsCovered(s: State) {
    forall run, i, request | Legal(s, run) && NoReset(run) && 0 <= i < |Exec(s, run).threads|
                             && Asks(Exec(s, run).threads[i], request) ::
      request <= Credits(s, run) + Oversleeps(s, run)
  }

  /** From a clean start, an experiment that grants less than a second of credits never asks for a
      second of sleep: all requests are covered if and only if none is left over from an exit
      before the last reset. */
  lemma RequestsWithinCredits(s: State)
    requires Ok(s) && s.InExperiment() && Clean(s)
    ensures RequestsCovered(s) <==> RequestsBelow(s)
  {
    if RequestsBelow(s) {
      CleanStartIsExact(s);
      forall run, i, request | Legal(s, run) && NoReset(run) && 0 <= i < |Exec(s, run).threads|
                               && Asks(Exec(s, run).threads[i], request)
        ensures request <= Credits(s, run) + Oversleeps(s, run)
      {
        RequestsBelowRun(s, run);
      }
    } else {
      var i :| 0 <= i < |s.threads| && (s.threads[i].phase.Sleeping? || s.threads[i].phase.SettleSleeping?)
               && s.threads[i].phase.request > s.global;
      assert Legal(s, []) && NoReset([]) && Exec(s, []) == s && Credits(s, []) == Oversleeps(s, []) == 0;
      assert Asks(Exec(s, []).threads[i], s.threads[i].phase.request);
    }
  }

  /** `n` signals that find the first thread on the line. */
  lemma {:induction false} CreditTimes(o: State, m: State, n: nat) returns (m': State)
    requires Reaches(o, m) && m.agent.Looping? && m.threads != []
    requires m.threads[0].stage.Live? && m.threads[0].phase.Running? && m.threads[0].signals + n < SIGNALS_PER_SYNC
    ensures Reaches(o, m')
    ensures m' == With(m, 0, Thread(m.threads[0].local + n * m.delay, m.threads[0].signals + n, Live, Running))
    decreases n
  {
    if n == 0 {
      m' := m;
      assert With(m, 0, m.threads[0]) == m;
    } else {
      var m1 := ExtendThread(o, m, 0, [Enter, Count(true)]);
      m' := CreditTimes(o, m1, n - 1);
    }
  }

  /** Ten of them, and the synchronisation that pushes what they were worth. */
  lemma Lap(o: State, m: State, g: int, d: int, idle: Thread) returns (m': State)
    requires Reaches(o, m) && 0 <= d && m == State(g, d, Looping, [Thread(g, 0, Live, Running), idle])
    ensures Reaches(o, m') && m' == State(g + 10 * d, d, Looping, [Thread(g + 10 * d, 0, Live, Running), idle])
  {
    m' := CreditTimes(o, m, 9);
    assert m'.threads == [Thread(g + 9 * d, 9, Live, Running), idle];
    m' := TenthSignal(o, m', g, d, idle);
  }

  lemma TenthSignal(o: State, m: State, g: int, d: int, idle: Thread) returns (m': State)
    requires Reaches(o, m) && 0 <= d && m == State(g, d, Looping, [Thread(g + 9 * d, 9, Live, Running), idle])
    ensures Reaches(o, m') && m' == State(g + 10 * d, d, Looping, [Thread(g + 10 * d, 0, Live, Running), idle])
  {
    m' := ExtendThread(o, m, 0, [Enter, Count(true)]);
    m' := ExtendThread(o, m', 0, [ReadGlobal, ThreadStep.Add]);
    assert m'.threads == [Thread(g + 10 * d, 0, Live, Running), idle];
  }

  lemma {:induction false} Laps(o: State, m: State, k: nat, g: int, d: int, idle: Thread) returns (m': State)
    requires Reaches(o, m) && 0 <= d && m == State(g, d, Looping, [Thread(g, 0, Live, Running), idle])
    ensures Reaches(o, m')
    ensures m' == State(g + k * (10 * d), d, Looping, [Thread(g + k * (10 * d), 0, Live, Running), idle])
    decreases k
  {
    if k == 0 {
      m' := m;
    } else {
      var m1 := Lap(o, m, g, d, idle);
      m' := Laps(o, m1, k - 1, g + 10 * d, d, idle);
      assert k * (10 * d) == 10 * d + (k - 1) * (10 * d);
    }
  }

  /** The requests are unbounded.  One thread runs and is credited for `k` synchronisations while
      another takes no step at all; when that one exits, it asks to sleep for all of it. */
  lemma LongRequest(d: int, k: nat) returns (c: State, s: State)
    requires 0 < d <= SIGNAL_FREQ && k > 0
    ensures Reaches(INITIAL, c) && c.agent.Looping? && c.delay == d && Clean(c) && RequestsBelow(c)
    ensures Reaches(c, s) && |s.threads| == 2 && s.threads[1].phase == SettleSleeping(k * (10 * d))
  {
    c := OneThreadLooping(d);
    c := Spawn(INITIAL, c);
    var idle := Thread(0, 0, Live, Running);
    assert c.threads == [Thread(0, 0, Live, Running), idle];
    Origin(c);
    s := Laps(c, c, k, 0, d, idle);
    s := Extend(c, s, ByThread(1, SettleRead));
  }

  lemma {:induction false} ExecConcat(s: State, r1: seq<Action>, r2: seq<Action>)
    requires Legal(s, r1) && Legal(Exec(s, r1), r2)
    ensures Legal(s, r1 + r2) && Exec(s, r1 + r2) == Exec(Exec(s, r1), r2)
    decreases |r1|
  {
    if r1 == [] {
      assert r1 + r2 == r2;
    } else {
      ExecConcat(Apply(s, r1[0]), r1[1..], r2);
      assert (r1 + r2)[1..] == r1[1..] + r2;
    }
  }

  lemma QuietlyOn(s: State, m: State, m': State)
    requires Reaches(s, m) && QuietlyReaches(m, m')
    ensures Reaches(s, m')
  {
    var r1 :| Legal(s, r1) && Exec(s, r1) == m;
    var r2 :| QuietRun(m, r2, m');
    QuietRunIsFree(m, r2, m');
    ExecConcat(s, r1, r2);
  }

  /** It can also happen in a handler: after its tenth signal a thread finds itself a second behind,
      returns at once from its sleep, and goes on as if it had caught up. */
  lemma SyncWithoutSleep() returns (c: State, s: State)
    ensures Reaches(INITIAL, c) && Clean(c) && Reaches(c, s)
    ensures s.global == Sleeping.TV_NSEC_LIMIT && |s.threads| == 2
    ensures s.threads[1] == Thread(0, 0, Live, Running)
    ensures exists m :: Reaches(c, m) && |m.threads| == 2 && m.threads[1].phase == Sleeping(Sleeping.TV_NSEC_LIMIT)
                     && Enabled(m, ByThread(1, Wake(0))) && Apply(m, ByThread(1, Wake(0))) == s
  {
    c := OneThreadLooping(SIGNAL_FREQ);
    c := Spawn(INITIAL, c);
    var idle := Thread(0, 0, Live, Running);
    assert c.threads == [Thread(0, 0, Live, Running), idle];
    Origin(c);
    s := Laps(c, c, 100, 0, SIGNAL_FREQ, idle);
    var ready := With(s, 1, idle.(signals := SIGNALS_PER_SYNC, phase := AtSync));
    SignalToSync(s, 1);
    QuietlyOn(c, s, ready);
    var m := Extend(c, ready, ByThread(1, ReadGlobal));
    s := Extend(c, m, ByThread(1, Wake(0)));
  }

  /** So a request that nanosleep rejects can be made, once the credits of one experiment reach
      a second: the thread may then return from its sleep long before it has slept enough. */
  lemma RejectedRequest() returns (c: State, s: State)
    ensures Reaches(INITIAL, c) && Clean(c) && Reaches(c, s)
    ensures |s.threads| == 2 && s.threads[1].phase == SettleSleeping(Sleeping.TV_NSEC_LIMIT)
    ensures exists calls :: Sleeping.Retries(s.threads[1].phase.request, calls)
                         && Sleeping.Elapsed(calls) < s.threads[1].phase.request
  {
    c, s := LongRequest(SIGNAL_FREQ, 100);
    Sleeping.SleepsLongEnough(s.threads[1].phase.request);
  }

  /** Two threads that read before either adds both push their whole lead: after one
      credit each the global delay is twice what either thread was credited, so no bound
      by the largest individual credit holds between the read and the add. */
  lemma TwoThreadsOvercount(d: int) returns (c: State, s: State)
    requires 0 < d <= SIGNAL_FREQ
    ensures Reaches(INITIAL, c) && Clean(c) && c.agent.Looping? && c.delay == d && |c.threads| == 2
    ensures Reaches(c, s) && s.global == 2 * d
    ensures forall i :: 0 <= i < 2 ==> |s.threads| == 2 && s.threads[i].local == d && s.threads[i].signals == 1
  {
    c := OneThreadLooping(d);
    c := Spawn(INITIAL, c);
    assert c.threads == [Thread(0, 0, Live, Running), Thread(0, 0, Live, Running)];
    Origin(c);
    s := ExtendThread(c, c, 0, [Enter, Count(true)]);
    s := ExtendThread(c, s, 1, [Enter, Count(true)]);
    s := Extend(c, s, ByThread(0, SettleRead));
    s := Extend(c, s, ByThread(1, SettleRead));
    s := Extend(c, s, ByThread(0, SettleAdd));
    s := Extend(c, s, ByThread(1, SettleAdd));
  }
}
