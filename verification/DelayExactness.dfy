/** How exact the conservation bound is: the opening potential is always reachable,
    so a run is accounted for by its own credits exactly when it starts clean. */
module DelayExactness {
  import opened Sums
  import opened InterleavedDelay

  // ---- runs that grant no credit and oversleep nothing

  predicate Quiet(s: State, a: Action)
    requires Enabled(s, a)
  {
    a.ByThread? && a.step != Count(true) && Oversleep(s, a) == 0
  }

  predicate QuietRun(s: State, run: seq<Action>, s': State)
    decreases |run|
  {
    if run == [] then s == s'
    else Enabled(s, run[0]) && Quiet(s, run[0]) && QuietRun(Apply(s, run[0]), run[1..], s')
  }

  ghost predicate QuietlyReaches(s: State, s': State) {
    exists run :: QuietRun(s, run, s')
  }

  lemma {:induction false} QuietRunIsFree(s: State, run: seq<Action>, s': State)
    requires QuietRun(s, run, s')
    ensures Legal(s, run) && Exec(s, run) == s' && NoReset(run)
    ensures Credits(s, run) == 0 && Oversleeps(s, run) == 0
    ensures forall k :: 0 <= k < |run| ==> run[k].ByThread?
    decreases |run|
  {
    if run == [] {
    } else {
      QuietRunIsFree(Apply(s, run[0]), run[1..], s');
      assert forall k :: 0 < k < |run| ==> run[k] == run[1..][k - 1];
    }
  }

  lemma {:induction false} QuietConcat(s: State, r1: seq<Action>, m: State, r2: seq<Action>, s': State)
    requires QuietRun(s, r1, m) && QuietRun(m, r2, s')
    ensures QuietRun(s, r1 + r2, s')
    decreases |r1|
  {
    if r1 == [] {
      assert r1 + r2 == r2;
    } else {
      QuietConcat(Apply(s, r1[0]), r1[1..], m, r2, s');
      assert (r1 + r2)[1..] == r1[1..] + r2;
    }
  }

  lemma Then(s: State, m: State, s': State)
    requires QuietlyReaches(s, m) && QuietlyReaches(m, s')
    ensures QuietlyReaches(s, s')
  {
    var r1 :| QuietRun(s, r1, m);
    var r2 :| QuietRun(m, r2, s');
    QuietConcat(s, r1, m, r2, s');
  }

  lemma Stay(s: State)
    ensures QuietlyReaches(s, s)
  {
    assert QuietRun(s, [], s);
  }

  lemma Step(s: State, i: nat, step: ThreadStep) returns (s': State)
    requires Enabled(s, ByThread(i, step)) && Quiet(s, ByThread(i, step))
    ensures s' == Apply(s, ByThread(i, step)) && QuietlyReaches(s, s')
  {
    var a := ByThread(i, step);
    s' := Apply(s, a);
    assert [a][1..] == [];
    assert QuietRun(s', [], s');
    assert QuietRun(s, [a], s');
  }

  function With(s: State, i: nat, t: Thread): State
    requires i < |s.threads|
  {
    s.(threads := s.threads[i := t])
  }

  // ---- one thread can be driven to the point of adding all it leads by

  /** A registered thread, signalled often enough off the selected line, reaches its sync. */
  lemma {:induction false} SignalToSync(s: State, i: nat)
    requires s.InExperiment() && i < |s.threads|
    requires s.threads[i].phase.Running? && !s.threads[i].stage.Joining?
    requires s.threads[i].signals < SIGNALS_PER_SYNC
    ensures QuietlyReaches(s, With(s, i, s.threads[i].(signals := SIGNALS_PER_SYNC, phase := AtSync)))
    decreases SIGNALS_PER_SYNC - s.threads[i].signals
  {
    var s1 := Step(s, i, Enter);
    var s2 := Step(s1, i, Count(false));
    Then(s, s1, s2);
    var goal := With(s, i, s.threads[i].(signals := SIGNALS_PER_SYNC, phase := AtSync));
    if s2.threads[i].phase.AtSync? {
      assert s2 == goal;
    } else {
      SignalToSync(s2, i);
      assert With(s2, i, s2.threads[i].(signals := SIGNALS_PER_SYNC, phase := AtSync)) == goal;
      Then(s, s2, goal);
    }
  }

  /** From Running, all the way to having read the global delay. */
  lemma ArmRunning(s: State, i: nat) returns (t: Thread)
    requires Ok(s) && s.InExperiment() && i < |s.threads|
    requires s.threads[i].phase.Running? && s.threads[i].local > s.global
    ensures t.phase == Adding(s.threads[i].local - s.global) && t.local == s.threads[i].local
    ensures t.signals == SIGNALS_PER_SYNC && !t.stage.Joining?
    ensures QuietlyReaches(s, With(s, i, t))
  {
    var m := s;
    Stay(s);
    assert ThreadOk(s.threads[i]);
    if s.threads[i].stage.Joining? {
      m := Step(s, i, Insert);
    }
    t := ArmRegistered(m, i);
    Then(s, m, With(m, i, t));
    assert With(m, i, t) == With(s, i, t);
  }

  lemma ArmRegistered(s: State, i: nat) returns (t: Thread)
    requires s.InExperiment() && i < |s.threads| && s.threads[i].phase.Running? && !s.threads[i].stage.Joining?
    requires s.threads[i].local > s.global && s.threads[i].signals < SIGNALS_PER_SYNC
    ensures t.phase == Adding(s.threads[i].local - s.global) && t.local == s.threads[i].local
    ensures t.signals == SIGNALS_PER_SYNC && !t.stage.Joining?
    ensures QuietlyReaches(s, With(s, i, t))
  {
    SignalToSync(s, i);
    var m := With(s, i, s.threads[i].(signals := SIGNALS_PER_SYNC, phase := AtSync));
    var m' := Step(m, i, ReadGlobal);
    Then(s, m, m');
    t := m'.threads[i];
    assert m' == With(s, i, t);
  }

  predicate IsAdding(t: Thread) {
    t.phase.Adding? || t.phase.SettleAdding?
  }

  function Push(t: Thread): ThreadStep {
    if t.phase.Adding? then ThreadStep.Add else SettleAdd
  }

  lemma OkReached(s: State, m: State, i: nat)
    requires Ok(s) && i < |s.threads| && |m.threads| == |s.threads|
    requires m == With(s, i, m.threads[i]) && ThreadOk(m.threads[i])
    ensures Ok(m)
  {
  }

  /** A thread in the middle of something finishes it, keeping what it has due. */
  lemma Settle(s: State, i: nat) returns (t: Thread)
    requires Ok(s) && i < |s.threads|
    requires Due(s.threads[i], s.global) > 0 && !IsAdding(s.threads[i])
    ensures t.phase.Running? || t.phase.AtSync?
    ensures ThreadOk(t) && t.local == s.global + Due(s.threads[i], s.global)
    ensures QuietlyReaches(s, With(s, i, t))
  {
    var u := s.threads[i];
    assert ThreadOk(u);
    if u.phase.Running? || u.phase.AtSync? {
      t := u;
      Stay(s);
      assert With(s, i, u) == s;
    } else {
      var step := if u.phase.InExperiment? then Count(false)
                  else if u.phase.Sleeping? then Wake(u.phase.request) else SettleWake;
      var m := Step(s, i, step);
      t := m.threads[i];
      assert m == With(s, i, t);
    }
  }

  /** Any thread with something due, wherever it is, reaches the point of adding just that. */
  lemma Arm(s: State, i: nat) returns (t: Thread)
    requires Ok(s) && s.InExperiment() && i < |s.threads|
    requires Due(s.threads[i], s.global) > 0 && !IsAdding(s.threads[i])
    ensures t.phase == Adding(Due(s.threads[i], s.global)) && t.local == s.global + t.phase.amount
    ensures ThreadOk(t)
    ensures QuietlyReaches(s, With(s, i, t))
  {
    var u := Settle(s, i);
    var m := With(s, i, u);
    OkReached(s, m, i);
    if u.phase.AtSync? {
      var m2 := Step(m, i, ReadGlobal);
      t := m2.threads[i];
      assert m2 == With(m, i, t);
    } else {
      t := ArmRunning(m, i);
    }
    Then(s, m, With(m, i, t));
    assert With(m, i, t) == With(s, i, t);
  }

  // ---- all of them at once: every pending amount is read before any is added

  /** The thread does not lead by more than the amount it is about to add; only a reset
      breaks this. */
  predicate CoherentAt(s: State, i: nat)
    requires i < |s.threads|
  {
    IsAdding(s.threads[i]) ==> s.threads[i].local <= s.global + s.threads[i].phase.amount
  }

  predicate Armed(s: State, i: nat)
    requires i < |s.threads|
  {
    Due(s.threads[i], s.global) > 0 ==> IsAdding(s.threads[i])
  }

  /** A thread that a reset caught between reading and adding: it adds something, and leads by
      more than that. */
  predicate Stray(s: State, i: nat)
    requires i < |s.threads|
  {
    IsAdding(s.threads[i]) && 0 < s.threads[i].phase.amount
        && s.threads[i].local > s.global + s.threads[i].phase.amount
  }

  predicate Coherent(s: State) {
    forall i :: 0 <= i < |s.threads| ==> CoherentAt(s, i)
  }

  /** One thread made ready to add all it has due, unless it is a stray. */
  lemma ArmOne(s: State, j: nat) returns (t: Thread)
    requires Ok(s) && s.InExperiment() && j < |s.threads| && !Stray(s, j)
    ensures QuietlyReaches(s, With(s, j, t)) && ThreadOk(t)
    ensures Due(t, s.global) == Due(s.threads[j], s.global)
    ensures Armed(With(s, j, t), j) && CoherentAt(With(s, j, t), j)
  {
    var u := s.threads[j];
    assert ThreadOk(u);
    if Due(u, s.global) <= 0 || (IsAdding(u) && CoherentAt(s, j)) {
      t := u;
      Stay(s);
      assert With(s, j, u) == s;
    } else if IsAdding(u) {
      var m := Step(s, j, Push(u));
      OkStep(s, ByThread(j, Push(u)));
      assert m == With(s, j, m.threads[j]);
      t := Arm(m, j);
      Then(s, m, With(m, j, t));
      assert With(m, j, t) == With(s, j, t);
    } else {
      t := Arm(s, j);
    }
  }

  /** What arming leaves: ready, or a stray untouched. */
  predicate Primed(s: State, s': State, i: nat)
    requires i < |s.threads| == |s'.threads|
  {
    Armed(s', i) && if Stray(s, i) then s'.threads[i] == s.threads[i] else CoherentAt(s', i)
  }

  lemma {:induction false} ArmAll(s: State, j: nat) returns (s': State)
    requires Ok(s) && s.InExperiment() && j <= |s.threads|
    requires forall i :: 0 <= i < j ==> Primed(s, s, i)
    ensures QuietlyReaches(s, s') && Ok(s') && s'.InExperiment()
    ensures s'.global == s.global && |s'.threads| == |s.threads| && Dues(s') == Dues(s)
    ensures forall i :: 0 <= i < |s'.threads| ==> Primed(s, s', i)
    decreases |s.threads| - j
  {
    if j == |s.threads| {
      Stay(s);
      s' := s;
    } else if Stray(s, j) {
      s' := ArmAll(s, j + 1);
    } else {
      var t := ArmOne(s, j);
      var m := With(s, j, t);
      OkReached(s, m, j);
      assert Dues(m) == Dues(s);
      assert forall i :: 0 <= i < |s.threads| ==> Stray(m, i) == Stray(s, i);
      forall i | 0 <= i < j + 1 ensures Primed(m, m, i) {
        assert i < j ==> Primed(s, s, i);
      }
      s' := ArmAll(m, j + 1);
      Then(s, m, s');
      forall i | 0 <= i < |s.threads| ensures Primed(s, s', i) {
        assert Primed(m, s', i);
      }
    }
  }

  lemma DueIsSticky(t: Thread, global: int, p: int)
    requires ThreadOk(t) && p >= 0 && 0 <= global
    requires Due(t, global) > 0 ==> IsAdding(t)
    requires IsAdding(t) ==> t.local <= global + t.phase.amount
    ensures Due(t, global + p) == Due(t, global)
  {
  }

  /** Adding one pending amount takes it off that thread's due and leaves every other due, and
      so the potential, as it was. */
  lemma FireOne(s: State, m: State, j: nat)
    requires Ok(s) && j < |s.threads| && IsAdding(s.threads[j])
    requires forall i :: 0 <= i < |s.threads| && i != j ==> Armed(s, i) && CoherentAt(s, i)
    requires m == Apply(s, ByThread(j, Push(s.threads[j])))
    ensures Dues(m) == Dues(s)[j := Dues(s)[j] - s.threads[j].phase.amount] && Potential(m) == Potential(s)
    ensures Coherent(m) && forall i :: 0 <= i < |m.threads| && i != j ==> Armed(m, i)
  {
    var p := s.threads[j].phase.amount;
    FiredSelf(s, m, j);
    forall i | 0 <= i < |s.threads| && i != j
      ensures Due(m.threads[i], m.global) == Due(s.threads[i], s.global) && Armed(m, i) && CoherentAt(m, i)
    {
      FiredOther(s, m, i, p);
    }
    hide Due, Armed, CoherentAt, Push;
    SumUpdate(Dues(s), j, Dues(s)[j] - p);
    assert Dues(m) == Dues(s)[j := Dues(s)[j] - p];
  }

  lemma FiredSelf(s: State, m: State, j: nat)
    requires Ok(s) && j < |s.threads| && IsAdding(s.threads[j]) && m == Apply(s, ByThread(j, Push(s.threads[j])))
    ensures |m.threads| == |s.threads| && m.global == s.global + s.threads[j].phase.amount
    ensures Due(m.threads[j], m.global) == Due(s.threads[j], s.global) - s.threads[j].phase.amount
    ensures CoherentAt(m, j)
  {
    assert ThreadOk(s.threads[j]);
  }

  lemma FiredOther(s: State, m: State, i: nat, p: int)
    requires Ok(s) && i < |s.threads| == |m.threads| && Armed(s, i) && CoherentAt(s, i)
    requires m.threads[i] == s.threads[i] && m.global == s.global + p && p >= 0
    ensures Due(m.threads[i], m.global) == Due(s.threads[i], s.global) && Armed(m, i) && CoherentAt(m, i)
  {
    assert ThreadOk(s.threads[i]);
    DueIsSticky(s.threads[i], s.global, p);
  }

  lemma {:induction false} FireAll(s: State, j: nat) returns (s': State)
    requires Ok(s) && Coherent(s) && j <= |s.threads|
    requires forall i :: 0 <= i < |s.threads| ==> Armed(s, i)
    requires forall i :: 0 <= i < j ==> Due(s.threads[i], s.global) == 0
    ensures QuietlyReaches(s, s') && s'.global == Potential(s)
    decreases |s.threads| - j
  {
    if j == |s.threads| {
      Stay(s);
      s' := s;
      SumZero(Dues(s));
    } else {
      var t := s.threads[j];
      assert ThreadOk(t) && Armed(s, j) && CoherentAt(s, j);
      DuesOk(s);
      if Due(t, s.global) == 0 {
        s' := FireAll(s, j + 1);
      } else {
        var m := Step(s, j, Push(t));
        OkStep(s, ByThread(j, Push(t)));
        FireOne(s, m, j);
        assert Dues(m)[j] == 0;
        s' := FireAll(m, j + 1);
        Then(s, m, s');
      }
    }
  }

  /** A lone stray adds once; after that no thread is one. */
  lemma LoseStray(s: State) returns (s': State)
    requires Ok(s) && s.InExperiment() && !TwoStrays(s)
    ensures QuietlyReaches(s, s') && Ok(s') && Coherent(s') && s'.InExperiment()
    ensures Potential(s') == Potential(s)
  {
    var m := ArmAll(s, 0);
    if i :| 0 <= i < |s.threads| && Stray(s, i) {
      forall k | 0 <= k < |s.threads| && k != i ensures Armed(m, k) && CoherentAt(m, k) {
        assert Primed(s, m, k);
        assert !Stray(s, k);
      }
      assert Primed(s, m, i);
      s' := Step(m, i, Push(m.threads[i]));
      OkStep(m, ByThread(i, Push(m.threads[i])));
      FireOne(m, s', i);
      Then(s, m, s');
    } else {
      s' := m;
      forall k | 0 <= k < |s.threads| ensures CoherentAt(m, k) {
        assert Primed(s, m, k);
      }
    }
  }

  // ---- and two strays are one too many

  predicate TwoStrays(s: State) {
    exists i, j :: 0 <= i < j < |s.threads| && Stray(s, i) && Stray(s, j)
  }

  /** Whatever somebody else pushes comes off a stray's due as well. */
  lemma PushBesideStray(s: State, x: nat, step: ThreadStep, y: nat)
    requires Ok(s) && Enabled(s, ByThread(x, step)) && !step.Erase? && Pushed(s.threads[x], step) > 0
    requires y < |s.threads| && y != x && Stray(s, y)
    ensures var a := ByThread(x, step); Potential(Apply(s, a)) < Potential(s) + Credit(s, a) + Oversleep(s, a)
  {
    var a := ByThread(x, step);
    var s' := Apply(s, a);
    var p := Pushed(s.threads[x], step);
    DueStep(s, x, step);
    StrayLoses(s, s', y, p);
    forall k | 0 <= k < |s.threads| && k != x ensures Dues(s')[k] <= Dues(s)[k] {
      OthersLoseLead(s.threads[k], s.global, p);
    }
    hide Due, Stray, StepThread, Pushed, Credit, Oversleep;
    SumBelow(Dues(s), Dues(s'), x, Due(s.threads[x], s.global) - p + Credit(s, a) + Oversleep(s, a), y);
  }

  lemma StrayLoses(s: State, s': State, y: nat, p: int)
    requires y < |s.threads| == |s'.threads| && Stray(s, y) && s'.threads[y] == s.threads[y]
    requires s'.global == s.global + p && p > 0
    ensures Due(s'.threads[y], s'.global) <= Due(s.threads[y], s.global) - 1
  {
  }

  lemma OthersLoseLead(t: Thread, global: int, p: int)
    requires p >= 0
    ensures Due(t, global + p) <= Due(t, global)
  {
  }

  /** Every step of a run keeps both strays, or wastes some of the potential. */
  lemma StrayStep(s: State, a: Action)
    requires Ok(s) && TwoStrays(s) && Enabled(s, a) && a != ByAgent(Reset)
    ensures TwoStrays(Apply(s, a)) || Potential(Apply(s, a)) < Potential(s) + Credit(s, a) + Oversleep(s, a)
  {
    var i, j :| 0 <= i < j < |s.threads| && Stray(s, i) && Stray(s, j);
    if a.ByThread? && !a.step.Erase? && Pushed(s.threads[a.i], a.step) != 0 {
      assert ThreadOk(s.threads[a.i]);
      PushBesideStray(s, a.i, a.step, if a.i == i then j else i);
    } else {
      hide Potential, Credit, Oversleep;
      StrayStays(s, a, i);
      StrayStays(s, a, j);
      assert TwoStrays(Apply(s, a));
    }
  }

  /** Erasing an earlier record moves the later ones down. */
  function MovedTo(a: Action, i: nat): nat {
    if a.ByThread? && a.step.Erase? && a.i < i then i - 1 else i
  }

  /** A stray can only add; while nobody pushes, it stays one. */
  lemma StrayStays(s: State, a: Action, i: nat)
    requires Ok(s) && Enabled(s, a) && a != ByAgent(Reset) && i < |s.threads| && Stray(s, i)
    requires a.ByThread? && !a.step.Erase? ==> Pushed(s.threads[a.i], a.step) == 0
    ensures MovedTo(a, i) < |Apply(s, a).threads| && Stray(Apply(s, a), MovedTo(a, i))
    ensures a != ByThread(i, Erase)
  {
    assert ThreadOk(s.threads[i]);
    assert Apply(s, a).threads[MovedTo(a, i)] == s.threads[i];
  }

  lemma {:induction false} StraysWaste(s: State, run: seq<Action>)
    requires Ok(s) && TwoStrays(s) && Legal(s, run) && NoReset(run)
    ensures Exec(s, run).global < Potential(s) + Credits(s, run) + Oversleeps(s, run)
    decreases |run|
  {
    if run == [] {
      DuesOk(s);
      var i, j :| 0 <= i < j < |s.threads| && Stray(s, i) && Stray(s, j);
      assert Dues(s)[i] > 0;
      SumZero(Dues(s));
    } else {
      assert run[0] != ByAgent(Reset);
      OkStep(s, run[0]);
      PotentialStep(s, run[0]);
      StrayStep(s, run[0]);
      if TwoStrays(Apply(s, run[0])) {
        StraysWaste(Apply(s, run[0]), run[1..]);
      } else {
        Conservation(Apply(s, run[0]), run[1..]);
      }
    }
  }

  ghost predicate Attained(s: State) {
    exists run :: Legal(s, run) && NoReset(run) && Credits(s, run) == 0
               && Oversleeps(s, run) == 0 && Exec(s, run).global == Potential(s)
  }

  /** The conservation bound is exact: some run of the experiment grants no credit, oversleeps
      nothing, and still ends with the global delay equal to the opening potential, if and
      only if the last reset caught at most one thread between its read and its add. */
  lemma PotentialIsAttained(s: State)
    requires Ok(s) && s.InExperiment()
    ensures Attained(s) <==> !TwoStrays(s)
  {
    if TwoStrays(s) {
      forall run | Legal(s, run) && NoReset(run)
        ensures Exec(s, run).global < Potential(s) + Credits(s, run) + Oversleeps(s, run)
      {
        StraysWaste(s, run);
      }
    } else {
      var c := LoseStray(s);
      var m := ArmAll(c, 0);
      forall i | 0 <= i < |m.threads| ensures Armed(m, i) && CoherentAt(m, i) {
        assert Primed(c, m, i) && CoherentAt(c, i);
      }
      var s' := FireAll(m, 0);
      Then(c, m, s');
      Then(s, c, s');
      var run :| QuietRun(s, run, s');
      QuietRunIsFree(s, run, s');
    }
  }

  // ---- clean starts

  predicate Level(t: Thread) {
    match t.phase
    case InGap => true
    case Sleeping(_) => false
    case Adding(p) => t.local == 0 && p == 0
    case SettleAdding(p) => t.local == 0 && p == 0
    case _ => t.local == 0
  }

  /** Nothing left over from before: no global delay, no local delay except one the
      gap handler is about to clear, no amount in flight. */
  predicate Clean(s: State) {
    s.global == 0 && forall i :: 0 <= i < |s.threads| ==> Level(s.threads[i])
  }

  lemma CleanIffNoPotential(s: State)
    requires Ok(s)
    ensures Clean(s) <==> Potential(s) == 0
  {
    DuesOk(s);
    SumZero(Dues(s));
    forall i | 0 <= i < |s.threads|
      ensures s.global == 0 ==> (Level(s.threads[i]) <==> Dues(s)[i] == 0)
    {
      assert ThreadOk(s.threads[i]);
    }
  }

  /** Any leftover at all can be turned into global delay that no credit accounts for. */
  lemma Escape(s: State) returns (s': State)
    requires Ok(s) && s.InExperiment() && !Clean(s)
    ensures QuietlyReaches(s, s') && s'.global > 0
  {
    Stay(s);
    s' := s;
    if s.global == 0 {
      CleanIffNoPotential(s);
      DuesOk(s);
      SumZero(Dues(s));
      var i :| 0 <= i < |s.threads| && Dues(s)[i] > 0;
      assert ThreadOk(s.threads[i]);
      if IsAdding(s.threads[i]) {
        var step := Push(s.threads[i]);
        s' := Step(s, i, step);
        OkStep(s, ByThread(i, step));
      }
      if s'.global == 0 {
        var t := Arm(s', i);
        var m := With(s', i, t);
        Then(s, s', m);
        s' := Step(m, i, Add);
        Then(s, m, s');
      }
    }
  }

  ghost predicate AccountedFor(s: State) {
    forall run :: Legal(s, run) && NoReset(run) ==>
      Exec(s, run).global <= Credits(s, run) + Oversleeps(s, run)
  }

  /** Every run of the experiment is accounted for by its own credits and oversleeps
      if and only if it starts clean. */
  lemma CleanStartIsExact(s: State)
    requires Ok(s) && s.InExperiment()
    ensures AccountedFor(s) <==> Clean(s)
  {
    if Clean(s) {
      CleanIffNoPotential(s);
      forall run | Legal(s, run) && NoReset(run)
        ensures Exec(s, run).global <= Credits(s, run) + Oversleeps(s, run)
      {
        Conservation(s, run);
      }
    } else {
      var s' := Escape(s);
      var run :| QuietRun(s, run, s');
      QuietRunIsFree(s, run, s');
      assert !(Exec(s, run).global <= Credits(s, run) + Oversleeps(s, run));
    }
  }

  // ---- the zero-speedup baseline

  /** The rest of one experiment: the agent may finish it, record it or give up. */
  predicate Inside(run: seq<Action>) {
    forall k :: 0 <= k < |run| && run[k].ByAgent? ==> run[k].act.Finish? || run[k].act.Record? || run[k].act.Abandon?
  }

  /** No delay has been inserted and no thread is being made to sleep. */
  predicate Undisturbed(s: State) {
    && s.global == 0 && s.delay == 0
    && forall i :: 0 <= i < |s.threads| ==> !s.threads[i].phase.Sleeping? && !s.threads[i].phase.SettleSleeping?
  }

  /** While no credit is worth anything, only a reset can disturb a clean state. */
  lemma CleanStep(s: State, a: Action)
    requires Ok(s) && Clean(s) && s.delay == 0 && Enabled(s, a) && a != ByAgent(Reset)
    ensures Clean(Apply(s, a))
  {
    var s' := Apply(s, a);
    if a.ByThread? {
      assert ThreadOk(s.threads[a.i]) && Level(s.threads[a.i]);
      if a.step.Erase? {
        assert forall k :: 0 <= k < |s'.threads| ==> s'.threads[k] == s.threads[if k < a.i then k else k + 1];
      }
    }
  }

  lemma UndisturbedStep(s: State, a: Action)
    requires Ok(s) && Clean(s) && Undisturbed(s) && Enabled(s, a) && Inside([a])
    ensures Undisturbed(Apply(s, a))
  {
    var s' := Apply(s, a);
    assert [a][0] == a;
    if a.ByThread? {
      assert ThreadOk(s.threads[a.i]) && Level(s.threads[a.i]);
      if a.step.Erase? {
        assert forall k :: 0 <= k < |s'.threads| ==> s'.threads[k] == s.threads[if k < a.i then k else k + 1];
      }
    }
  }

  lemma {:induction false} CleanZeroRun(s: State, run: seq<Action>)
    requires Ok(s) && Clean(s) && Undisturbed(s) && Legal(s, run) && Inside(run)
    ensures Clean(Exec(s, run)) && Undisturbed(Exec(s, run))
    decreases |run|
  {
    if run == [] {
    } else {
      OkStep(s, run[0]);
      assert forall k :: 0 <= k < |[run[0]]| ==> [run[0]][k] == run[k];
      CleanStep(s, run[0]);
      UndisturbedStep(s, run[0]);
      CleanZeroRun(Apply(s, run[0]), run[1..]);
    }
  }

  /** With speedup zero: the experiment inserts no delay, records none, and puts no
      thread to sleep under any interleaving, if and only if it starts clean. */
  lemma ZeroSpeedupBaseline(s: State)
    requires Ok(s) && s.agent.Looping? && Undisturbed(s)
    ensures (forall run :: Legal(s, run) && Inside(run) ==> Undisturbed(Exec(s, run))) <==> Clean(s)
  {
    if Clean(s) {
      forall run | Legal(s, run) && Inside(run) ensures Undisturbed(Exec(s, run)) {
        CleanZeroRun(s, run);
      }
    } else {
      var s' := Escape(s);
      var run :| QuietRun(s, run, s');
      QuietRunIsFree(s, run, s');
      assert Legal(s, run) && Inside(run) && !Undisturbed(Exec(s, run));
    }
  }
}
