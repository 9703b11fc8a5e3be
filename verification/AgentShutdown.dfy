/** Stopping the agent.  The control points of the agent thread, every loop one iteration per
    step, while another thread may clear the running flag at any moment. */
module AgentShutdown {
  import InterleavedDelay
  import SampleBuffer

  const SIGNAL_FREQ := InterleavedDelay.SIGNAL_FREQ
  const NEEDED := 30 * SIGNAL_FREQ
  const NUM_STATIC_CALL_FRAMES := SampleBuffer.NUM_STATIC_CALL_FRAMES

  datatype Phase =
    | OuterTest                             // the loop test of the agent
    | Sampling(accrued: nat)                // sleeping and signalling
    | Draining(i: nat)                      // copying the shared frames
    | Choosing(i: nat, frames: nat)         // looking for a frame with a line table
    | Starting                              // ranges compiled, experiment about to begin
    | ExperimentTest | ExperimentBody       // the experiment loop
    | Ending                                // last wait, flag down, signals
    | StopTest                              // stopping? then leave without recording
    | Recording                             // delay and hits taken
    | Clearing                              // frames cleared and wiped
    | Done                                  // profile_done

  datatype State = State(running: bool, phase: Phase, rows: nat)

  /** The outcome of whatever a step leaves open. */
  datatype Step =
    | Test | Sample(sleep: nat) | SampledEnough
    | Copy | Copied(unique: nat) | NoTable | Table | GiveUp
    | Begin | Iterate | Leave | Body | End | Check | WriteRow | NoSignature | Clear

  predicate Enabled(s: State, a: Step) {
    match s.phase
    case OuterTest => a.Test?
    case Sampling(t) =>
      if t < NEEDED then a.Sample? && SIGNAL_FREQ < a.sleep <= 2 * SIGNAL_FREQ else a.SampledEnough?
    case Draining(i) => (a.Copy? && i < NUM_STATIC_CALL_FRAMES) || (a.Copied? && a.unique <= i && (i > 0
        ==> a.unique > 0))
    case Choosing(i, n) => if i < n then a.NoTable? || a.Table? else a.GiveUp?
    case Starting => a.Begin?
    case ExperimentTest => a.Leave? || (a.Iterate? && s.running)
    case ExperimentBody => a.Body?
    case Ending => a.End?
    case StopTest => a.Check?
    case Recording => a.WriteRow? || a.NoSignature?
    case Clearing => a.Clear?
    case Done => false
  }

  function Apply(s: State, a: Step): State
    requires Enabled(s, a)
  {
    match s.phase
    case OuterTest => s.(phase := if s.running then Sampling(0) else Done)
    case Sampling(t) => s.(phase := if a.Sample? then Sampling(t + a.sleep) else Draining(0))
    case Draining(i) =>
      s.(phase := if a.Copy? then Draining(i + 1) else if a.unique > 0 then Choosing(0, a.unique) else OuterTest)
    case Choosing(i, n) =>
      s.(phase := if a.NoTable? then Choosing(i + 1, n) else if a.Table? then Starting else OuterTest)
    case Starting => s.(phase := ExperimentTest)
    case ExperimentTest => s.(phase := if a.Iterate? then ExperimentBody else Ending)
    case ExperimentBody => s.(phase := ExperimentTest)
    case Ending => s.(phase := StopTest)
    case StopTest => s.(phase := if s.running then Recording else Clearing)
    case Recording => s.(phase := Clearing, rows := if a.WriteRow? then s.rows + 1 else s.rows)
    case Clearing => s.(phase := OuterTest)
    case Done => s
  }

  /** At most all slots are drained, and making the frames unique only removes some. */
  predicate Ok(s: State) {
    match s.phase
    case Draining(i) => i <= NUM_STATIC_CALL_FRAMES
    case Choosing(i, n) => i <= n <= NUM_STATIC_CALL_FRAMES
    case _ => true
  }

  predicate Legal(s: State, run: seq<Step>)
    decreases |run|
  {
    run == [] || (Enabled(s, run[0]) && Legal(Apply(s, run[0]), run[1..]))
  }

  function Exec(s: State, run: seq<Step>): State
    requires Legal(s, run)
    decreases |run|
  {
    if run == [] then s else Exec(Apply(s, run[0]), run[1..])
  }

  const INITIAL := State(true, OuterTest, 0)

  /** What stopping does to the agent: the flag goes down, wherever the agent is. */
  function Stop(s: State): State {
    s.(running := false)
  }

  /** Sampling iterations that can still follow. */
  function SamplesLeft(accrued: nat): nat {
    if accrued >= NEEDED then 0 else (NEEDED - accrued + SIGNAL_FREQ) / (SIGNAL_FREQ + 1)
  }

  /** Steps left at most, once the flag is down. */
  function Rank(s: State): nat
    requires Ok(s)
  {
    match s.phase
    case Done => 0
    case OuterTest => 1
    case Clearing => 2
    case Recording => 3
    case StopTest => 4
    case Ending => 5
    case ExperimentTest => 6
    case ExperimentBody => 7
    case Starting => 7
    case Choosing(i, n) => 8 + (n - i)
    case Draining(i) => 9 + NUM_STATIC_CALL_FRAMES + (NUM_STATIC_CALL_FRAMES - i)
    case Sampling(t) => 10 + 2 * NUM_STATIC_CALL_FRAMES + SamplesLeft(t)
  }

  /** No loop of the agent outlives the flag: every step brings the end nearer, and there is
      always a step to take until the agent is done. */
  lemma StepsDescend(s: State, a: Step)
    requires Ok(s) && !s.running && Enabled(s, a)
    ensures Ok(Apply(s, a)) && !Apply(s, a).running && Rank(Apply(s, a)) < Rank(s)
  {
    if s.phase.Sampling? && a.Sample? {
      SampleDescends(s.phase.accrued, a.sleep);
    }
  }

  lemma SampleDescends(accrued: nat, sleep: nat)
    requires accrued < NEEDED && sleep > SIGNAL_FREQ
    ensures SamplesLeft(accrued + sleep) < SamplesLeft(accrued)
  {
  }

  lemma OkStep(s: State, a: Step)
    requires Ok(s) && Enabled(s, a)
    ensures Ok(Apply(s, a))
  {
  }

  lemma NeverStuck(s: State) returns (a: Step)
    requires Ok(s) && !s.phase.Done?
    ensures Enabled(s, a)
  {
    match s.phase
    case OuterTest => a := Test;
    case Sampling(t) => a := if t < NEEDED then Sample(2 * SIGNAL_FREQ) else SampledEnough;
    case Draining(i) => a := Copied(i);
    case Choosing(i, n) => a := if i < n then Table else GiveUp;
    case Starting => a := Begin;
    case ExperimentTest => a := Leave;
    case ExperimentBody => a := Body;
    case Ending => a := End;
    case StopTest => a := Check;
    case Recording => a := WriteRow;
    case Clearing => a := Clear;
  }

  /** Once the flag is down the agent takes a bounded number of further steps, whatever they
      turn out to be, and cannot stop stepping short of being done. */
  lemma {:induction false} StoppedRunEnds(s: State, run: seq<Step>)
    requires Ok(s) && !s.running && Legal(s, run)
    ensures |run| <= Rank(s) <= 10 + 2 * NUM_STATIC_CALL_FRAMES + 30
    ensures (forall a :: !Enabled(Exec(s, run), a)) <==> Exec(s, run).phase.Done?
    ensures s.rows <= Exec(s, run).rows <= s.rows + if s.phase.Recording? then 1 else 0
    decreases |run|
  {
    RankBound(s);
    if run == [] {
      if !s.phase.Done? {
        var a := NeverStuck(s);
      }
    } else {
      StepsDescend(s, run[0]);
      StoppedRunEnds(Apply(s, run[0]), run[1..]);
    }
  }

  lemma {:induction false} OkRun(s: State, run: seq<Step>)
    requires Ok(s) && Legal(s, run)
    ensures Ok(Exec(s, run))
    decreases |run|
  {
    if run == [] {
    } else {
      OkStep(s, run[0]);
      OkRun(Apply(s, run[0]), run[1..]);
    }
  }

  /** From its start, the agent takes any steps at all, then the flag goes down, then it takes any
      steps again: at most a fixed number of them.  It cannot get stuck before it is done, and
      it writes no further row unless it had already passed its last test of the flag, and
      then one. */
  lemma ShutdownTerminates(before: seq<Step>, after: seq<Step>)
    requires Legal(INITIAL, before) && Legal(Stop(Exec(INITIAL, before)), after)
    ensures var s := Stop(Exec(INITIAL, before));
            var e := Exec(s, after);
            && |after| <= 10 + 2 * NUM_STATIC_CALL_FRAMES + 30
            && ((forall a :: !Enabled(e, a)) <==> e.phase.Done?)
            && s.rows <= e.rows <= s.rows + if s.phase.Recording? then 1 else 0
  {
    OkRun(INITIAL, before);
    StoppedRunEnds(Stop(Exec(INITIAL, before)), after);
  }

  lemma RankBound(s: State)
    requires Ok(s)
    ensures Rank(s) <= 10 + 2 * NUM_STATIC_CALL_FRAMES + 30
  {
    if s.phase.Sampling? {
      SamplesBound(s.phase.accrued);
    }
  }

  lemma SamplesBound(accrued: nat)
    ensures SamplesLeft(accrued) <= 30
  {
  }

  // ---- while the flag is up

  /** An experiment is recorded if and only if the flag is still up at its last test. */
  lemma RunningAgentRecords(s: State, a: Step)
    requires s.phase.StopTest? && Enabled(s, a)
    ensures s.running <==> Apply(s, a).phase.Recording?
    ensures !s.running <==> Apply(s, a).phase.Clearing?
    ensures Apply(s, a).running == s.running && Apply(s, a).rows == s.rows
  {
  }

  /** An experiment starts if and only if a frame with a line table was found; and the agent goes back to its
      first test when it drained nothing, when no frame had a table, and after an experiment. */
  lemma OnlyTablesStart(s: State, a: Step)
    requires Enabled(s, a)
    ensures Apply(s, a).phase.Starting? <==> a.Table?
    ensures Apply(s, a).phase.OuterTest? <==> a.GiveUp? || a.Clear? || (a.Copied? && a.unique == 0)
    ensures a.NoTable? ==> Apply(s, a).phase == Choosing(s.phase.i + 1, s.phase.frames)
    ensures a.Copied? && a.unique > 0 ==> Apply(s, a).phase == Choosing(0, a.unique)
    ensures a.GiveUp? ==> s.phase.Choosing? && s.phase.i >= s.phase.frames
  {
  }

  /** The rows written are the experiments that found the class of their method. */
  function RowsWritten(run: seq<Step>): nat {
    if run == [] then 0 else (if run[0].WriteRow? then 1 else 0) + RowsWritten(run[1..])
  }

  lemma {:induction false} RowsAreWritten(s: State, run: seq<Step>)
    requires Legal(s, run)
    ensures Exec(s, run).rows == s.rows + RowsWritten(run) && Exec(s, run).running == s.running
    decreases |run|
  {
    if run == [] {
    } else {
      RowsAreWritten(Apply(s, run[0]), run[1..]);
    }
  }

  /** An agent that keeps running never ends, and comes back to its first test. */
  lemma RunningAgentGoesOn(s: State, a: Step)
    requires s.running && Enabled(s, a)
    ensures !Apply(s, a).phase.Done?
  {
  }

  ghost predicate Reaches(s: State, s': State) {
    exists run :: Legal(s, run) && Exec(s, run) == s'
  }

  lemma {:induction false} ExecSnoc(s: State, run: seq<Step>, a: Step)
    requires Legal(s, run) && Enabled(Exec(s, run), a)
    ensures Legal(s, run + [a]) && Exec(s, run + [a]) == Apply(Exec(s, run), a)
    decreases |run|
  {
    if run == [] {
      assert (run + [a])[1..] == [];
    } else {
      ExecSnoc(Apply(s, run[0]), run[1..], a);
      assert (run + [a])[1..] == run[1..] + [a];
    }
  }

  lemma Extend(s: State, m: State, a: Step) returns (m': State)
    requires Reaches(s, m) && Enabled(m, a)
    ensures m' == Apply(m, a) && Reaches(s, m')
  {
    var run :| Legal(s, run) && Exec(s, run) == m;
    ExecSnoc(s, run, a);
    m' := Apply(m, a);
  }

  lemma {:induction false} Samples(s: State, m: State, n: nat) returns (m': State)
    requires n <= 15 && Reaches(s, m) && m.phase == Sampling((15 - n) * (2 * SIGNAL_FREQ))
    ensures Reaches(s, m') && m' == m.(phase := Sampling(NEEDED))
    decreases n
  {
    if n == 0 {
      m' := m;
    } else {
      var m1 := Extend(s, m, Sample(2 * SIGNAL_FREQ));
      m' := Samples(s, m1, n - 1);
    }
  }

  /** One whole cycle: the agent samples, drains a frame, runs an experiment of one round, and
      writes a row. */
  lemma OneCycle(rows: nat) returns (s': State)
    ensures Reaches(State(true, OuterTest, rows), s') && s' == State(true, OuterTest, rows + 1)
  {
    var s := State(true, OuterTest, rows);
    assert Legal(s, []) && Exec(s, []) == s;
    s' := Extend(s, s, Test);
    s' := Samples(s, s', 15);
    s' := Extend(s, s', SampledEnough);
    s' := Extend(s, s', Copy);
    s' := Extend(s, s', Copied(1));
    s' := Extend(s, s', Table);
    s' := RunAndRecord(s, s');
  }

  lemma RunAndRecord(s: State, m: State) returns (m': State)
    requires Reaches(s, m) && m.running && m.phase.Starting?
    ensures Reaches(s, m') && m' == State(true, OuterTest, m.rows + 1)
  {
    m' := Extend(s, m, Begin);
    m' := Extend(s, m', Iterate);
    m' := Extend(s, m', Body);
    m' := Extend(s, m', Leave);
    m' := Extend(s, m', End);
    m' := Extend(s, m', Check);
    m' := Extend(s, m', WriteRow);
    m' := Extend(s, m', Clear);
  }

  /** After that many iterations of the sampling loop. */
  predicate Accrued(iterations: int, totalAccruedTime: int) {
    && iterations * (SIGNAL_FREQ + 1) <= totalAccruedTime <= iterations * (2 * SIGNAL_FREQ)
    && totalAccruedTime < NEEDED + 2 * SIGNAL_FREQ
    && (totalAccruedTime < NEEDED ==> iterations < 30)
    && iterations <= 30
  }

  lemma AccruedMore(iterations: int, totalAccruedTime: int, currSleep: int)
    requires Accrued(iterations, totalAccruedTime) && totalAccruedTime < NEEDED
    requires SIGNAL_FREQ < currSleep <= 2 * SIGNAL_FREQ
    ensures Accrued(iterations + 1, totalAccruedTime + currSleep)
  {
  }

  lemma AccruedAll(iterations: int, totalAccruedTime: int)
    requires Accrued(iterations, totalAccruedTime) && totalAccruedTime >= NEEDED
    ensures 15 <= iterations <= 30
  {
  }

  /** The sampling loop, for any random draws: between 15 and 30 iterations. */
  method SamplingLoop() returns (iterations: nat, totalAccruedTime: nat)
    ensures 15 <= iterations <= 30
    ensures NEEDED <= totalAccruedTime < NEEDED + 2 * SIGNAL_FREQ
  {
    totalAccruedTime, iterations := 0, 0;
    while totalAccruedTime < NEEDED
      invariant Accrued(iterations, totalAccruedTime)
      decreases NEEDED - totalAccruedTime
    {
      var draw: nat :| draw < SIGNAL_FREQ;
      var currSleep := 2 * SIGNAL_FREQ - draw;
      totalAccruedTime := totalAccruedTime + currSleep;
      iterations := iterations + 1;
    }
  }
}
