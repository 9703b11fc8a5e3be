/** The profiler object in the round model: its threads, its signals, one whole experiment, and
    the agent's loop of sampling and experiments.  Between any two steps of the agent, and
    between any two handlers, any number of threads may start and end. */
module Experiment {
  import opened Sums
  import InterleavedDelay
  import opened RoundDelay
  import Sleeping
  import AgentShutdown

  class UserThread {
    var localDelay: int
    var signals: nat
    var pending: bool

    constructor (globalDelay: int)
      ensures localDelay == globalDelay && signals == 0 && !pending
    {
      localDelay, signals, pending := globalDelay, 0, false;
    }

    function View(): Member
      reads this
    {
      Member(localDelay, signals, pending)
    }
  }

  /** A data row: duration minus effective duration is the delay that was inserted. */
  datatype Row = Row(draw: nat, duration: int, effectiveDuration: int)

  /** An experiment is abandoned when the profiler is stopping, and its result is
      discarded when the class of its method cannot be named. */
  datatype Outcome = Abandoned | Discarded | Recorded(row: Row)

  /** What a reader of the output relies on, up to the handlers' oversleep: no negative
      effective duration, and no more delay inserted than speedup times duration. */
  predicate Credible(row: Row, slack: nat) {
    && row.draw < 25 && row.duration >= 0
    && row.effectiveDuration + slack >= 0
    && 0 <= row.duration - row.effectiveDuration
    && 20 * (row.duration - row.effectiveDuration - slack) <= Twentieths(row.draw) * row.duration
  }

  function Members(users: seq<UserThread>): (ms: seq<Member>)
    reads users
    ensures |ms| == |users|
    ensures forall i :: 0 <= i < |users| ==> ms[i] == users[i].View()
  {
    seq(|users|, i requires 0 <= i < |users| reads users => users[i].View())
  }

  /** How many threads have a signal they have not handled. */
  function PendingCount(ms: seq<Member>): int {
    Sum(Pendings(ms))
  }

  function Pendings(ms: seq<Member>): (p: seq<int>)
    ensures |p| == |ms| && forall i :: 0 <= i < |p| ==> p[i] == if ms[i].pending then 1 else 0
  {
    seq(|ms|, i requires 0 <= i < |ms| => if ms[i].pending then 1 else 0)
  }

  lemma NonePending(ms: seq<Member>)
    ensures PendingCount(ms) >= 0
    ensures PendingCount(ms) == 0 <==> forall i :: 0 <= i < |ms| ==> !ms[i].pending
  {
    SumZero(Pendings(ms));
    if PendingCount(ms) == 0 {
      forall i | 0 <= i < |ms| ensures !ms[i].pending {
        assert Pendings(ms)[i] == 0;
      }
    }
  }

  lemma PendingAfter(s: Rounds, e: Event)
    requires Can(s, e)
    ensures e.Handle? ==> PendingCount(After(s, e).members) == PendingCount(s.members) - 1
    ensures e.Arrive? || e.Depart? ==> PendingCount(After(s, e).members) <= PendingCount(s.members)
  {
    match e {
      case Signal =>
      case Handle(i, _, _) =>
        assert Pendings(After(s, e).members) == Pendings(s.members)[i := 0];
        SumUpdate(Pendings(s.members), i, 0);
      case Arrive =>
        assert Pendings(After(s, e).members) == Pendings(s.members) + [0];
        SumAppend(Pendings(s.members), 0);
      case Depart(i) =>
        assert Pendings(After(s, e).members) == Pendings(s.members)[..i] + Pendings(s.members)[i + 1..];
        SumRemove(Pendings(s.members), i);
    }
  }

  lemma PendingDrop(ms: seq<Member>, i: nat, m: Member)
    requires i < |ms| && ms[i].pending && !m.pending
    ensures 0 <= PendingCount(ms[i := m]) == PendingCount(ms) - 1
  {
    assert Pendings(ms[i := m]) == Pendings(ms)[i := 0];
    SumUpdate(Pendings(ms), i, 0);
    NonePending(ms[i := m]);
  }

  /** What holds at any time. */
  predicate Sane(s: Rounds) {
    && 0 <= s.sh.global
    && forall i :: 0 <= i < |s.members| ==>
         0 <= s.members[i].local && s.members[i].signals < InterleavedDelay.SIGNALS_PER_SYNC
  }

  /** From the end of an experiment to the reset, the size of the delays matters as well. */
  predicate GapInv(s: Rounds) {
    && SharedInv(s.sh)
    && forall i :: 0 <= i < |s.members| ==> 0 <= s.members[i].local <= s.sh.rounds * s.sh.delay + s.sh.overslept
                                            && s.members[i].signals < InterleavedDelay.SIGNALS_PER_SYNC
  }

  lemma InvImpliesGapInv(s: Rounds)
    requires Inv(s)
    ensures GapInv(s) && Sane(s)
  {
    forall i | 0 <= i < |s.members|
      ensures 0 <= s.members[i].local <= s.sh.rounds * s.sh.delay + s.sh.overslept
              && s.members[i].signals < InterleavedDelay.SIGNALS_PER_SYNC
    {
      assert MemberInv(s.sh, s.members[i]);
      Times(s.sh.rounds - 1 + Turn(s.members[i]), s.sh.rounds, s.sh.delay);
    }
  }

  lemma SaneSignal(s: Rounds)
    requires Sane(s) && Can(s, Signal)
    ensures Sane(After(s, Signal)) && (Zero(s) ==> Zero(After(s, Signal)))
  {
  }

  /** No delay anywhere. */
  predicate Zero(s: Rounds) {
    s.sh.global == 0 && forall i :: 0 <= i < |s.members| ==> s.members[i].local == 0
  }

  /** During an experiment: the round invariant holds if it started clean. */
  predicate Fine(clean: bool, s: Rounds) {
    Sane(s) && (clean ==> Inv(s))
  }

  predicate GapFine(clean: bool, s: Rounds) {
    Sane(s) && (clean ==> GapInv(s))
  }

  lemma FineIsGapFine(clean: bool, s: Rounds)
    requires Fine(clean, s)
    ensures GapFine(clean, s) && Sane(s)
  {
    if clean { InvImpliesGapInv(s); }
  }

  lemma GapFineIsSane(clean: bool, s: Rounds)
    requires GapFine(clean, s)
    ensures Sane(s)
  {
  }

  lemma SaneUpdate(s: Rounds, s': Rounds, i: nat, m: Member)
    requires Sane(s) && i < |s.members| && s'.members == s.members[i := m] && 0 <= s'.sh.global
    requires 0 <= m.local && m.signals < InterleavedDelay.SIGNALS_PER_SYNC
    ensures Sane(s')
  {
  }

  /** How far behind the global delay the thread is once it has counted its signal. */
  function Behind(s: Rounds, i: nat, onLine: bool): int
    requires i < |s.members|
  {
    s.sh.global - Credited(s.sh, s.members[i], onLine)
  }

  lemma FineIsLegal(clean: bool, s: Rounds, i: nat, onLine: bool, slack: nat)
    requires Fine(clean, s) && i < |s.members| && 0 <= s.sh.delay <= InterleavedDelay.SIGNAL_FREQ
    requires s.sh.overslept <= slack < Sleeping.TV_NSEC_LIMIT - 20 * InterleavedDelay.SIGNAL_FREQ
    ensures Sane(s) && (clean ==> Behind(s, i, onLine) < Sleeping.TV_NSEC_LIMIT)
  {
    if clean {
      assert MemberInv(s.sh, s.members[i]);
      MemberSkew(s.sh, s.members[i]);
    }
  }

  lemma FineSignal(clean: bool, s: Rounds)
    requires Fine(clean, s) && Can(s, Signal)
    ensures Fine(clean, After(s, Signal))
  {
    SaneSignal(s);
    if clean { SignalInv(s); }
  }

  /** What any number of arrivals and departures keep. */
  predicate KeptFrom(s0: Rounds, s: Rounds) {
    && Sane(s)
    && (GapInv(s0) ==> GapInv(s)) && (Inv(s0) ==> Inv(s)) && (Zero(s0) ==> Zero(s))
    && PendingCount(s.members) <= PendingCount(s0.members)
    && s0.sh.global <= s.sh.global
  }

  /** Threads that start or end outside any handler keep all that matters. */
  lemma Bystander(s0: Rounds, s: Rounds, e: Event)
    requires KeptFrom(s0, s) && Can(s, e) && (e.Arrive? || e.Depart?)
    ensures KeptFrom(s0, After(s, e))
  {
    hide PendingCount;
    PendingAfter(s, e);
    BystanderGap(s, e);
    hide Sane, GapInv, Zero;
    if Inv(s) { EventInv(s, e); }
    hide Inv;
  }

  lemma BystanderGap(s: Rounds, e: Event)
    requires Sane(s) && Can(s, e) && (e.Arrive? || e.Depart?)
    ensures Sane(After(s, e)) && (GapInv(s) ==> GapInv(After(s, e))) && (Zero(s) ==> Zero(After(s, e)))
  {
    var s' := After(s, e);
    if e.Depart? {
      assert GapInv(s) ==> s.members[e.i].local <= s.sh.rounds * s.sh.delay + s.sh.overslept;
      assert forall k :: 0 <= k < |s'.members| ==> s'.members[k] == s.members[if k < e.i then k else k + 1];
    }
  }

  lemma KeptItself(s: Rounds)
    requires Sane(s)
    ensures KeptFrom(s, s)
  {
  }

  lemma KeptIsSane(s0: Rounds, s: Rounds)
    requires KeptFrom(s0, s)
    ensures Sane(s) && (Inv(s0) ==> Inv(s)) && (GapInv(s0) ==> GapInv(s)) && (Zero(s0) ==> Zero(s))
  {
  }

  lemma KeptFine(clean: bool, s0: Rounds, s: Rounds)
    requires KeptFrom(s0, s)
    ensures Fine(clean, s0) ==> Fine(clean, s)
    ensures GapFine(clean, s0) ==> GapFine(clean, s)
  {
    hide Sane, Inv, GapInv, Zero, PendingCount;
  }

  lemma KeptOn(s0: Rounds, s1: Rounds, s2: Rounds)
    requires KeptFrom(s0, s1) && KeptFrom(s1, s2)
    ensures KeptFrom(s0, s2)
  {
    hide Sane, GapInv, Inv, Zero, PendingCount;
  }

  /** A gap handler on values. */
  function GapHandled(s: Rounds, i: nat): Rounds
    requires i < |s.members|
  {
    s.(members := s.members[i := Member(0, s.members[i].signals, false)])
  }

  /** What handlers in the gap keep, too. */
  predicate KeptInGap(s0: Rounds, s: Rounds) {
    Sane(s) && (GapInv(s0) ==> GapInv(s)) && (Zero(s0) ==> Zero(s)) && s0.sh.global <= s.sh.global
  }

  lemma KeptInGapToo(s0: Rounds, s: Rounds)
    requires KeptFrom(s0, s)
    ensures KeptInGap(s0, s)
  {
    hide Sane, GapInv, Inv, Zero, PendingCount;
  }

  lemma KeptInGapOn(s0: Rounds, s1: Rounds, s2: Rounds)
    requires KeptInGap(s0, s1) && KeptInGap(s1, s2)
    ensures KeptInGap(s0, s2)
  {
    hide Sane, GapInv, Zero;
  }

  lemma KeptInGapFine(clean: bool, s0: Rounds, s: Rounds)
    requires KeptInGap(s0, s) && GapFine(clean, s0)
    ensures GapFine(clean, s)
  {
    hide Sane, GapInv, Zero;
  }

  lemma KeptInGapItself(s: Rounds)
    requires Sane(s)
    ensures KeptInGap(s, s)
  {
  }

  lemma KeptInGapIsSane(s0: Rounds, s: Rounds)
    requires KeptInGap(s0, s)
    ensures Sane(s)
  {
  }

  lemma GapHandledKeeps(s0: Rounds, s: Rounds, i: nat)
    requires KeptFrom(s0, s) && i < |s.members| && s.members[i].pending
    ensures KeptInGap(s0, GapHandled(s, i))
    ensures 0 <= PendingCount(GapHandled(s, i).members) == PendingCount(s.members) - 1
  {
    var s' := GapHandled(s, i);
    assert Pendings(s'.members) == Pendings(s.members)[i := 0];
    SumUpdate(Pendings(s.members), i, 0);
    NonePending(s'.members);
    assert GapInv(s) ==> 0 <= s.members[i].local <= s.sh.rounds * s.sh.delay + s.sh.overslept;
  }

  class Profiler {
    var globalDelay: int
    var delay: int              // of the current experiment: per hit, then in total
    var inExperiment: bool
    var running: bool
    var clock: int
    var experimentTime: nat
    var users: seq<UserThread>
    var rows: seq<Row>
    ghost var rounds: nat
    ghost var leftover: set<UserThread>  // had a local delay when the global one was last reset
    var overslept: int          // total so far; bookkeeping of the model, like slack
    ghost var clean: bool       // the current experiment started without any delay
    ghost var startedAt: int    // and at this global delay
    ghost var starts: seq<int>  // the same for the experiment of each row
    const endToEnd: bool
    const slack: nat            // bound on what all handler sleeps of an experiment exceed their requests by

    constructor (experimentTime: nat, endToEnd: bool, slack: nat)
      requires slack < Sleeping.TV_NSEC_LIMIT - 20 * InterleavedDelay.SIGNAL_FREQ
      ensures Valid() && Ready() && rows == [] && users == [] && !inExperiment && running
      ensures this.experimentTime == experimentTime && this.endToEnd == endToEnd && this.slack == slack
    {
      globalDelay, delay, inExperiment, running, clock := 0, 0, false, true, 0;
      this.experimentTime, this.endToEnd, this.slack := experimentTime, endToEnd, slack;
      clean, startedAt, starts := true, 0, [];
      users, rows, rounds, overslept, leftover := [], [], 0, 0, {};
    }

    ghost predicate Valid()
      reads this
    {
      && (forall i, j :: 0 <= i < j < |users| ==> users[i] != users[j])
      && slack < Sleeping.TV_NSEC_LIMIT - 20 * InterleavedDelay.SIGNAL_FREQ && |starts| == |rows|
    }

    ghost function View(): Rounds
      reads this, users
    {
      Rounds(Shared(globalDelay, delay, rounds, overslept), Members(users))
    }

    /** A SIGPROF handler that finds an experiment in progress.  It does what the round model says
        unless it asks for a second of sleep, and in an experiment that started clean it does not. */
    method Handle(i: nat, onLine: bool) returns (extra: int)
      requires Valid() && inExperiment && i < |users| && users[i].pending
      requires Fine(clean, View()) && 0 <= delay <= InterleavedDelay.SIGNAL_FREQ && overslept <= slack
      modifies this`globalDelay, this`overslept, users[i]
      ensures extra >= 0 && overslept <= slack
      ensures Behind(old(View()), i, onLine) < Sleeping.TV_NSEC_LIMIT ==>
        View() == After(old(View()), RoundDelay.Handle(i, onLine, extra))
      ensures clean ==> Behind(old(View()), i, onLine) < Sleeping.TV_NSEC_LIMIT
      ensures Sane(View()) && Valid()
      ensures View().members == old(View()).members[i := users[i].View()] && !users[i].pending
    {
      ghost var s0 := View();
      assert users[i].View() == s0.members[i];
      FineIsLegal(clean, s0, i, onLine, slack);
      assert globalDelay >= 0 && users[i].localDelay >= 0 && users[i].signals < InterleavedDelay.SIGNALS_PER_SYNC;
      hide Fine, Inv, Sane, HandledMember, HandledShared;
      extra := HandleThread(users[i], onLine);
      assert View().members == s0.members[i := users[i].View()];
      SaneUpdate(s0, View(), i, users[i].View());
    }

    ghost function SharedView(): Shared
      reads this
    {
      Shared(globalDelay, delay, rounds, overslept)
    }

    /** The part of the handler that concerns its own thread and the shared delay. */
    method HandleThread(ut: UserThread, onLine: bool) returns (extra: int)
      requires globalDelay >= 0 && ut.localDelay >= 0 && ut.signals < InterleavedDelay.SIGNALS_PER_SYNC
      requires delay >= 0 && overslept <= slack
      modifies this`globalDelay, this`overslept, ut
      ensures extra >= 0 && overslept <= slack && globalDelay >= 0 && !ut.pending
      ensures ut.localDelay >= 0 && ut.signals < InterleavedDelay.SIGNALS_PER_SYNC
      ensures old(globalDelay) - Credited(old(SharedView()), old(ut.View()), onLine) < Sleeping.TV_NSEC_LIMIT ==>
        && ut.View() == HandledMember(old(SharedView()), old(ut.View()), onLine, extra)
        && SharedView() == HandledShared(old(SharedView()), old(ut.View()), onLine, extra)
    {
      extra := 0;
      ut.signals := ut.signals + 1;
      if onLine {
        ut.localDelay := ut.localDelay + delay;
      }
      if ut.signals == InterleavedDelay.SIGNALS_PER_SYNC {
        extra := Synchronise(ut);
      }
      ut.pending := false;
    }

    /** Catches up with the global delay, or pushes it.  A request of a second or more, which does
        not come up in an experiment that started clean, may end at any time. */
    method Synchronise(ut: UserThread) returns (extra: int)
      requires ut.localDelay >= 0 && overslept <= slack
      modifies this`globalDelay, this`overslept, ut
      ensures extra >= 0 && overslept <= slack && ut.signals == 0 && ut.pending == old(ut.pending)
      ensures ut.localDelay >= 0 && globalDelay >= old(globalDelay)
      ensures var diff := old(globalDelay) - old(ut.localDelay);
              if diff <= 0
              then globalDelay == old(ut.localDelay) == ut.localDelay && overslept == old(overslept)
              else globalDelay == old(globalDelay)
                   && (Sleeping.Accepted(diff) ==>
                         ut.localDelay == old(globalDelay) + extra && overslept == old(overslept) + extra)
    {
      extra := 0;
      var sleepDiff := globalDelay - ut.localDelay;
      if sleepDiff > 0 {
        var interruptions: nat := *;
        var slept, _ := Sleeping.JcozSleep(sleepDiff, interruptions, slack - overslept);
        ut.localDelay := ut.localDelay + slept;
        if Sleeping.Accepted(sleepDiff) {
          extra := slept - sleepDiff;
          overslept := overslept + extra;
        }
      } else {
        globalDelay := globalDelay + (-sleepDiff);
      }
      ut.signals := 0;
    }

    /** Between two experiments: a local delay is one left over from before the reset, and the
        global delay has been pushed only if a thread with such a delay has exited. */
    ghost predicate Tracked()
      reads this, users
    {
      && (globalDelay == 0 ==> forall u :: u in users && u.localDelay != 0 ==> u in leftover)
      && (globalDelay != 0 ==> SpoiledByExit())
    }

    ghost predicate SpoiledByExit()
      reads this
    {
      exists u :: u in leftover && u !in users
    }

    /** A SIGPROF handler that finds no experiment: the local delay is cleared. */
    method HandleInGap(i: nat)
      requires Valid() && !inExperiment && i < |users| && users[i].pending
      modifies users[i]
      ensures users[i].View() == Member(0, old(users[i].signals), false)
      ensures View() == GapHandled(old(View()), i)
      ensures old(Tracked()) ==> Tracked()
    {
      users[i].localDelay := 0;
      users[i].pending := false;
    }

    /** Signals every registered thread. */
    method SignalUserThreads()
      requires Valid() && Can(View(), Signal)
      modifies this`rounds, users
      ensures View() == After(old(View()), Signal)
      ensures forall u :: u in users ==> u.pending && u.localDelay == old(u.localDelay)
      ensures old(Tracked()) ==> Tracked()
    {
      rounds := rounds + 1;
      for i := 0 to |users|
        invariant rounds == old(rounds) + 1
        invariant forall k :: 0 <= k < |users| ==>
          users[k].View() == if k < i then old(users[k].View()).(pending := true) else old(users[k].View())
      {
        users[i].pending := true;
      }
      assert Members(users) == After(old(View()), Signal).members;
    }

    method AddUserThread()
      requires Valid()
      modifies this`users
      ensures Valid() && |users| == |old(users)| + 1 && users[..|old(users)|] == old(users)
      ensures var ut := users[|old(users)|];
              fresh(ut) && ut.View() == Member(globalDelay, 0, false)
      ensures View() == After(old(View()), Arrive)
      ensures old(Tracked()) ==> Tracked()
    {
      var ut := new UserThread(globalDelay);
      users := users + [ut];
      assert users[..|users| - 1] == old(users);
      assert ut !in leftover;
    }

    method RemoveUserThread(i: nat)
      requires Valid() && i < |users|
      modifies this`users, this`globalDelay
      ensures Valid() && users == old(users)[..i] + old(users)[i + 1..]
      ensures View() == After(old(View()), Depart(i))
    {
      var sleepTime := globalDelay - users[i].localDelay;
      if sleepTime > 0 {
        var interruptions: nat, slop: nat := *, *;
        var _, _ := Sleeping.JcozSleep(sleepTime, interruptions, slop);
      } else {
        globalDelay := globalDelay + (-sleepTime);
      }
      users := users[..i] + users[i + 1..];
      assert Members(users) == old(Members(users))[..i] + old(Members(users))[i + 1..];
    }

    /** An exit keeps track of what it spoils. */
    twostate lemma ExitIsTracked(i: nat)
      requires old(Valid()) && old(Tracked()) && i < |old(users)| && leftover == old(leftover)
      requires users == old(users)[..i] + old(users)[i + 1..]
      requires forall u :: u in users ==> u.localDelay == old(u.localDelay)
      requires globalDelay == InterleavedDelay.Max(old(globalDelay), old(users[i].localDelay))
      requires old(globalDelay) >= 0 && old(users[i].localDelay) >= 0
      ensures Tracked()
    {
      var gone := old(users)[i];
      assert gone in old(users) && gone !in users;
      if old(globalDelay) == 0 && globalDelay != 0 {
        assert gone in leftover;
      }
    }

    /** One thread starts. */
    method Arrival(ghost s0: Rounds)
      requires Valid() && KeptFrom(s0, View())
      modifies this`users
      ensures Valid() && KeptFrom(s0, View()) && (old(Tracked()) ==> Tracked())
      ensures forall u :: u in users ==> u in old(users) || (fresh(u) && Newcomer(u))
    {
      ghost var before := View();
      hide KeptFrom, Tracked;
      AddUserThread();
      Bystander(s0, before, Arrive);
    }

    /** One thread ends. */
    method Departure(ghost s0: Rounds, i: nat)
      requires Valid() && KeptFrom(s0, View()) && i < |users|
      modifies this`users, this`globalDelay
      ensures Valid() && KeptFrom(s0, View()) && (old(Tracked()) ==> Tracked())
      ensures globalDelay >= old(globalDelay) && forall u :: u in users ==> u in old(users)
    {
      ghost var before := View();
      assert before.members[i].local >= 0;
      hide KeptFrom, Tracked;
      RemoveUserThread(i);
      Bystander(s0, before, Depart(i));
      if old(Tracked()) { ExitIsTracked(i); }
    }

    /** One thread starts or ends. */
    method OtherThread(ghost s0: Rounds) returns (arrived: bool)
      requires Valid() && KeptFrom(s0, View())
      modifies this`users, this`globalDelay
      ensures Valid() && KeptFrom(s0, View())
      ensures globalDelay >= old(globalDelay) && (old(Tracked()) ==> Tracked())
      ensures forall u :: u in users ==> u in old(users) || (arrived && fresh(u) && Newcomer(u))
    {
      hide KeptFrom, Tracked;
      arrived := *;
      if arrived || |users| == 0 {
        arrived := true;
        Arrival(s0);
      } else {
        var i: nat :| i < |users|;
        Departure(s0, i);
      }
    }

    /** It has no more delay than the profiler, and no signal. */
    predicate Newcomer(u: UserThread)
      reads this, u
    {
      u.localDelay <= globalDelay && !u.pending
    }

    /** Any number of threads start and end. */
    method OtherThreads() returns (arrived: bool)
      requires Valid() && Sane(View())
      modifies this`users, this`globalDelay
      ensures Valid() && KeptFrom(old(View()), View())
      ensures globalDelay >= old(globalDelay) && (old(Tracked()) ==> Tracked())
      ensures forall u :: u in users ==> u in old(users) || (arrived && fresh(u) && Newcomer(u))
      ensures old(NoneWaiting()) ==> NoneWaiting()
    {
      arrived := false;
      var n: nat := *;
      KeptItself(View());
      hide KeptFrom, Tracked;
      while n > 0
        invariant Valid() && KeptFrom(old(View()), View())
        invariant globalDelay >= old(globalDelay) && (old(Tracked()) ==> Tracked())
        invariant forall u :: u in users ==> u in old(users) || (arrived && fresh(u) && Newcomer(u))
      {
        var more := OtherThread(old(View()));
        arrived, n := arrived || more, n - 1;
      }
    }

    ghost predicate NoneWaiting()
      reads this, users
    {
      forall u :: u in users ==> !u.pending
    }

    /** Some thread with an unhandled signal, if there is one. */
    method PickWaiting() returns (found: bool, i: nat)
      requires Valid()
      ensures found ==> i < |users| && users[i].pending && PendingCount(View().members) > 0
      ensures !found ==> NoneWaiting() && PendingCount(View().members) == 0
    {
      NonePending(View().members);
      i := 0;
      found := exists k :: 0 <= k < |users| && users[k].pending;
      if found {
        i :| 0 <= i < |users| && users[i].pending;
        assert View().members[i].pending;
      } else {
        assert forall k :: 0 <= k < |users| ==> !View().members[k].pending;
      }
    }

    /** Others come and go, then some waiting thread runs its handler. */
    method DeliverOne()
      requires Valid() && inExperiment && Fine(clean, View()) && PendingCount(View().members) > 0
      requires 0 <= delay <= InterleavedDelay.SIGNAL_FREQ && overslept <= slack
      modifies this`globalDelay, this`overslept, this`users, users
      ensures Valid() && Fine(clean, View()) && overslept <= slack
      ensures forall u :: u in users ==> u in old(users) || fresh(u)
      ensures 0 <= PendingCount(View().members) < old(PendingCount(View().members))
    {
      ghost var s0 := View();
      FineIsGapFine(clean, s0);
      hide Inv, GapInv, Sane, Zero, Tracked, Fine, GapFine;
      var _ := OtherThreads();
      KeptFine(clean, s0, View());
      var found, i := PickWaiting();
      if found {
        assert users[i] in users;
        HandleOne(i);
      }
    }

    method HandleOne(i: nat)
      requires Valid() && inExperiment && i < |users| && users[i].pending
      requires Fine(clean, View()) && 0 <= delay <= InterleavedDelay.SIGNAL_FREQ && overslept <= slack
      modifies this`globalDelay, this`overslept, users[i]
      ensures Valid() && Fine(clean, View()) && overslept <= slack
      ensures 0 <= PendingCount(View().members) == old(PendingCount(View().members)) - 1
    {
      ghost var s1 := View();
      var onLine: bool := *;
      var extra := Handle(i, onLine);
      if clean { HandleInv(s1, i, onLine, extra); }
      PendingDrop(s1.members, i, users[i].View());
    }

    /** The handlers run in any order. */
    method HandleSignals()
      requires Valid() && inExperiment && Fine(clean, View())
      requires 0 <= delay <= InterleavedDelay.SIGNAL_FREQ && overslept <= slack
      modifies this`globalDelay, this`overslept, this`users, users
      ensures Valid() && Fine(clean, View()) && overslept <= slack && NoneWaiting()
      ensures forall u :: u in users ==> u in old(users) || fresh(u)
    {
      hide Fine;
      var waiting, next := PickWaiting();
      while waiting
        invariant Valid() && Fine(clean, View()) && overslept <= slack
        invariant forall u :: u in users ==> u in old(users) || fresh(u)
        invariant if waiting then PendingCount(View().members) > 0 else NoneWaiting()
        decreases waiting, PendingCount(View().members)
      {
        assert forall k :: 0 <= k < |users| ==> users[k] in old(users) || fresh(users[k]);
        DeliverOne();
        waiting, next := PickWaiting();
      }
    }

    /** Every signalled thread runs its handler, in any order, while others come and go before,
        between and after them. */
    method DeliverSignals()
      requires Valid() && inExperiment && Fine(clean, View())
      requires 0 <= delay <= InterleavedDelay.SIGNAL_FREQ && overslept <= slack
      modifies this`globalDelay, this`overslept, this`users, users
      ensures Valid() && Fine(clean, View()) && overslept <= slack && NoneWaiting()
      ensures forall u :: u in users ==> u in old(users) || fresh(u)
    {
      hide Fine, GapFine, Sane, Tracked, KeptFrom;
      HandleSignals();
      ghost var s1 := View();
      FineIsGapFine(clean, s1);
      var _ := OtherThreads();
      KeptFine(clean, s1, View());
    }

    /** Whoever has no signal left to handle has no local delay, unless it came meanwhile: then it
        has at most what it inherited. */
    ghost predicate Cleared(arrived: bool)
      reads this, users
    {
      forall u :: u in users ==> u.pending || u.localDelay == 0 || (arrived && u.localDelay <= globalDelay)
    }

    /** The gap counterpart of DeliverOne: the handler clears the local delay. */
    method DeliverOneInGap(ghost s0: Rounds, before: bool) returns (arrived: bool)
      requires Valid() && !inExperiment && KeptInGap(s0, View()) && PendingCount(View().members) > 0
      modifies this`globalDelay, this`users, users
      ensures Valid() && KeptInGap(s0, View()) && globalDelay >= old(globalDelay)
      ensures (old(Tracked()) ==> Tracked()) && (before ==> arrived) && (old(Cleared(before)) ==> Cleared(arrived))
      ensures forall u :: u in users ==> u in old(users) || (arrived && fresh(u))
      ensures 0 <= PendingCount(View().members) < old(PendingCount(View().members))
    {
      ghost var s1 := View();
      hide Sane, GapInv, Inv, Zero, PendingCount, KeptInGap, KeptFrom, Tracked;
      KeptInGapIsSane(s0, s1);
      arrived := OtherThreads();
      arrived := arrived || before;
      assert old(Cleared(before)) ==> Cleared(arrived);
      KeptInGapToo(s1, View());
      KeptInGapOn(s0, s1, View());
      var found, i := PickWaiting();
      if found {
        assert users[i] in users;
        OneInGap(s0, s1, i, arrived);
      }
    }

    method OneInGap(ghost s0: Rounds, ghost s1: Rounds, i: nat, ghost arrived: bool)
      requires Valid() && !inExperiment && KeptInGap(s0, s1) && KeptFrom(s1, View())
      requires i < |users| && users[i].pending
      modifies users[i]
      ensures KeptInGap(s0, View()) && (old(Tracked()) ==> Tracked()) && (old(Cleared(arrived)) ==> Cleared(arrived))
      ensures 0 <= PendingCount(View().members) < PendingCount(s1.members)
    {
      GapHandledKeeps(s1, View(), i);
      hide Sane, GapInv, Inv, Zero, PendingCount, KeptInGap, Tracked;
      HandleInGap(i);
      KeptInGapOn(s0, s1, View());
    }

    /** The handlers run in any order. */
    method HandleGapSignals() returns (arrived: bool)
      requires Valid() && !inExperiment && Sane(View())
      modifies this`globalDelay, this`users, users
      ensures Valid() && KeptInGap(old(View()), View()) && NoneWaiting() && globalDelay >= old(globalDelay)
      ensures (old(Tracked()) ==> Tracked()) && (old(Cleared(false)) ==> Cleared(arrived))
      ensures forall u :: u in users ==> u in old(users) || (arrived && fresh(u))
    {
      arrived := false;
      ghost var s0 := View();
      hide Sane, GapInv, Zero, PendingCount, Tracked, Cleared, KeptInGap, KeptFrom;
      KeptInGapItself(s0);
      var waiting, next := PickWaiting();
      while waiting
        invariant Valid() && KeptInGap(s0, View()) && globalDelay >= old(globalDelay)
        invariant (old(Tracked()) ==> Tracked()) && (old(Cleared(false)) ==> Cleared(arrived))
        invariant forall u :: u in users ==> u in old(users) || (arrived && fresh(u))
        invariant if waiting then PendingCount(View().members) > 0 else NoneWaiting()
        decreases waiting, PendingCount(View().members)
      {
        assert forall k :: 0 <= k < |users| ==> users[k] in old(users) || fresh(users[k]);
        arrived := DeliverOneInGap(s0, arrived);
        waiting, next := PickWaiting();
      }
    }

    /** A thread that was signalled is left without local delay, one that has come since with at
        most what it inherited. */
    method DeliverGapSignals() returns (arrived: bool)
      requires Valid() && !inExperiment && Sane(View())
      modifies this`globalDelay, this`users, users
      ensures Valid() && KeptInGap(old(View()), View()) && NoneWaiting() && globalDelay >= old(globalDelay)
      ensures old(Tracked()) ==> Tracked()
      ensures forall u :: u in users ==> u in old(users) || (arrived && fresh(u))
      ensures old(forall u :: u in users ==> u.pending) ==>
        forall u :: u in users ==> u.localDelay == 0 || (arrived && u.localDelay <= globalDelay)
    {
      ghost var s0 := View();
      hide Sane, GapInv, Zero, PendingCount, Tracked, KeptInGap, KeptFrom;
      arrived := HandleGapSignals();
      ghost var s1 := View();
      KeptInGapIsSane(s0, s1);
      var more := OtherThreads();
      KeptInGapToo(s1, View());
      KeptInGapOn(s0, s1, View());
      arrived := arrived || more;
    }

    /** The agent sleeps; threads start and end meanwhile. */
    method Sleep(nanoseconds: int) returns (arrived: bool)
      requires Valid() && Sane(View()) && Sleeping.Accepted(nanoseconds)
      modifies this`clock, this`users, this`globalDelay
      ensures clock >= old(clock) + nanoseconds
      ensures Valid() && KeptFrom(old(View()), View())
      ensures globalDelay >= old(globalDelay) && (old(Tracked()) ==> Tracked())
      ensures forall u :: u in users ==> u in old(users) || (arrived && fresh(u))
      ensures old(NoneWaiting()) ==> NoneWaiting()
    {
      ghost var s0 := View();
      hide Sane, KeptFrom, Tracked;
      arrived := OtherThreads();
      ghost var s1 := View();
      KeptIsSane(s0, s1);
      Nap(nanoseconds);
      var more := OtherThreads();
      arrived := arrived || more;
      KeptOn(s0, s1, View());
    }

    method Nap(nanoseconds: int)
      requires Sleeping.Accepted(nanoseconds)
      modifies this`clock
      ensures clock >= old(clock) + nanoseconds
      ensures View() == old(View()) && (old(Tracked()) ==> Tracked())
    {
      var interruptions: nat, slop: nat := *, *;
      var slept, _ := Sleeping.JcozSleep(nanoseconds, interruptions, slop);
      clock := clock + slept;
    }

    /** A clean start for the next experiment. */
    ghost predicate Ready()
      reads this, users
    {
      Zero(View()) && NoneWaiting() && Sane(View())
    }

    lemma ReadyIsTracked()
      requires Ready()
      ensures Tracked()
    {
      forall u | u in users ensures u.localDelay == 0 {
        var i :| 0 <= i < |users| && users[i] == u;
        assert View().members[i].local == 0;
      }
    }

    lemma CanSignal()
      requires NoneWaiting()
      ensures Can(View(), Signal)
    {
      forall i | 0 <= i < |users| ensures !View().members[i].pending {
        assert users[i] in users;
      }
    }

    method SleepInExperiment()
      requires Valid() && Fine(clean, View()) && NoneWaiting()
      modifies this`clock, this`users, this`globalDelay
      ensures Valid() && Fine(clean, View()) && NoneWaiting() && clock >= old(clock) + InterleavedDelay.SIGNAL_FREQ
      ensures forall u :: u in users ==> u in old(users) || fresh(u)
    {
      ghost var s0 := View();
      FineIsGapFine(clean, s0);
      hide Fine, GapFine, Sane, Tracked, KeptFrom;
      var _ := Sleep(InterleavedDelay.SIGNAL_FREQ);
      KeptFine(clean, s0, View());
    }

    /** One pass of the experiment loop: sleep, then signal everyone and let them handle it. */
    method Round()
      requires Valid() && inExperiment && Fine(clean, View()) && NoneWaiting()
      requires 0 <= delay <= InterleavedDelay.SIGNAL_FREQ && overslept <= slack
      modifies this`globalDelay, this`overslept, this`users, this`rounds, this`clock, users
      ensures Valid() && Fine(clean, View()) && overslept <= slack && NoneWaiting()
      ensures forall u :: u in users ==> u in old(users) || fresh(u)
      ensures rounds == old(rounds) + 1 && clock >= old(clock) + InterleavedDelay.SIGNAL_FREQ
    {
      hide Fine;
      SleepInExperiment();
      assert forall k :: 0 <= k < |users| ==> users[k] in old(users) || fresh(users[k]);
      SignalRound();
    }

    method SignalRound()
      requires Valid() && inExperiment && Fine(clean, View()) && NoneWaiting()
      requires 0 <= delay <= InterleavedDelay.SIGNAL_FREQ && overslept <= slack
      modifies this`globalDelay, this`overslept, this`users, this`rounds, users
      ensures Valid() && Fine(clean, View()) && overslept <= slack && NoneWaiting()
      ensures forall u :: u in users ==> u in old(users) || fresh(u)
      ensures rounds == old(rounds) + 1
    {
      hide Fine, Tracked;
      CanSignal();
      FineSignal(clean, View());
      SignalUserThreads();
      DeliverSignals();
    }

    /** The signal that tells everyone the experiment is over. */
    method SignalTheEnd() returns (arrived: bool)
      requires Valid() && inExperiment && Fine(clean, View()) && NoneWaiting()
      modifies this`globalDelay, this`users, this`rounds, this`inExperiment, users
      ensures Valid() && GapFine(clean, View()) && NoneWaiting() && !inExperiment
      ensures rounds == old(rounds) + 1
      ensures forall u :: u in users ==> u in old(users) || fresh(u)
      ensures !arrived ==> forall u :: u in users ==> u.localDelay == 0
    {
      hide Fine, GapFine, Sane, Tracked, KeptInGap;
      CanSignal();
      FineSignal(clean, View());
      SignalUserThreads();
      ghost var s1 := View();
      FineIsGapFine(clean, s1);
      inExperiment := false;
      arrived := DeliverGapSignals();
      KeptInGapFine(clean, s1, View());
    }

    /** The waits around it, which the measured duration includes. */
    method EndSignals() returns (arrived: bool)
      requires Valid() && inExperiment && Fine(clean, View()) && NoneWaiting()
      modifies this`globalDelay, this`users, this`rounds, this`clock, this`inExperiment, users
      ensures Valid() && GapFine(clean, View()) && NoneWaiting() && !inExperiment
      ensures rounds == old(rounds) + 1 && clock >= old(clock) + 2 * InterleavedDelay.SIGNAL_FREQ
      ensures forall u :: u in users ==> u in old(users) || fresh(u)
      ensures !arrived ==> forall u :: u in users ==> u.localDelay == 0
    {
      hide Fine, GapFine, Sane, Tracked, KeptFrom;
      SleepInExperiment();
      assert forall k :: 0 <= k < |users| ==> users[k] in old(users) || fresh(users[k]);
      arrived := SignalTheEnd();
      ghost var s1 := View();
      GapFineIsSane(clean, s1);
      var more := Sleep(InterleavedDelay.SIGNAL_FREQ);
      KeptFine(clean, s1, View());
      arrived := arrived || more;
    }

    /** The experiment proper: rounds until the time is up, and in end-to-end mode a hit has been made
        (after `patience` rounds at the latest, whatever that is), or the profiler is stopped. */
    method RunRounds() returns (pointsHit: bool)
      requires Valid() && inExperiment && Fine(clean, View()) && NoneWaiting() && rounds == 0
      requires 0 <= delay <= InterleavedDelay.SIGNAL_FREQ && overslept <= slack
      modifies this`globalDelay, this`overslept, this`users, this`rounds, this`clock, this`running, users
      ensures Valid() && Fine(clean, View()) && overslept <= slack && NoneWaiting()
      ensures forall u :: u in users ==> u in old(users) || fresh(u)
      ensures clock >= old(clock) + rounds * InterleavedDelay.SIGNAL_FREQ
      ensures running ==> clock >= old(clock) + experimentTime && (endToEnd ==> pointsHit)
    {
      hide Fine;
      var end := clock + experimentTime;
      var patience: nat := *;
      pointsHit := false;
      while running && ((endToEnd && !pointsHit) || clock < end)
        invariant Valid() && Fine(clean, View()) && overslept <= slack && NoneWaiting()
        invariant clock >= old(clock) + rounds * InterleavedDelay.SIGNAL_FREQ
        invariant forall u :: u in users ==> u in old(users) || fresh(u)
        decreases running, if endToEnd && !pointsHit then 1 + patience else 0, end - clock
      {
        assert forall k :: 0 <= k < |users| ==> users[k] in old(users) || fresh(users[k]);
        Round();
        var stopping: bool, hit: bool := *, *;
        running, pointsHit := running && !stopping, pointsHit || hit || patience == 0;
        if patience > 0 { patience := patience - 1; }
      }
    }

    /** Closes the books: the inserted delay is read and reset, and a row written if and only if
        the class of the selected method can be named.  Threads start and end between the
        reading and the reset, and after it; `arrived` is about those before the reset. */
    method Record(draw: nat, duration: int, named: bool) returns (outcome: Outcome, arrived: bool)
      requires Valid() && GapFine(clean, View()) && NoneWaiting()
      requires draw < 25 && delay == DelayFor(draw) && overslept <= slack
      requires duration >= rounds * InterleavedDelay.SIGNAL_FREQ
      modifies this`delay, this`globalDelay, this`rows, this`starts, this`users, this`leftover
      ensures Valid() && Sane(View()) && NoneWaiting() && Tracked()
      ensures delay == old(globalDelay)
      ensures outcome == if named then Recorded(Row(draw, duration, duration - old(globalDelay))) else Discarded
      ensures rows == if named then old(rows) + [outcome.row] else old(rows)
      ensures starts == if named then old(starts) + [startedAt] else old(starts)
      ensures named && clean ==> Credible(outcome.row, slack)
      ensures forall u :: u in users ==> u in old(users) || fresh(u)
      ensures !arrived && old(forall u :: u in users ==> u.localDelay == 0) ==> Ready()
    {
      var row := TakeDelay(draw, duration);
      hide GapFine, Sane, Zero, Tracked, Credible;
      arrived := CloseBooks();
      if !named {
        return Discarded, arrived;
      }
      rows, starts := rows + [row], starts + [startedAt];
      outcome := Recorded(row);
    }

    method TakeDelay(draw: nat, duration: int) returns (row: Row)
      requires GapFine(clean, View())
      requires draw < 25 && delay == DelayFor(draw) && overslept <= slack
      requires duration >= rounds * InterleavedDelay.SIGNAL_FREQ
      modifies this`delay
      ensures delay == globalDelay && row == Row(draw, duration, duration - globalDelay)
      ensures Sane(View()) && (clean ==> Credible(row, slack))
    {
      if clean { DelayWithinDuration(View().sh, draw, duration); }
      delay := globalDelay;
      row := Row(draw, duration, duration - delay);
    }

    /** The reset, with threads that come and go before and after it. */
    method CloseBooks() returns (arrived: bool)
      requires Valid() && Sane(View()) && NoneWaiting()
      modifies this`globalDelay, this`users, this`leftover
      ensures Valid() && Sane(View()) && NoneWaiting() && Tracked()
      ensures forall u :: u in users ==> u in old(users) || fresh(u)
      ensures !arrived && old(forall u :: u in users ==> u.localDelay == 0) ==> Ready()
    {
      hide GapInv, Inv, Sane, Zero, Tracked, KeptFrom;
      ghost var s0 := View();
      arrived := OtherThreads();
      KeptIsSane(s0, View());
      assert !arrived ==> forall u :: u in users ==> u in old(users);
      ResetThenOthers();
    }

    method ResetThenOthers()
      requires Valid() && Sane(View()) && NoneWaiting()
      modifies this`globalDelay, this`users, this`leftover
      ensures Valid() && Sane(View()) && NoneWaiting() && Tracked()
      ensures forall u :: u in users ==> u in old(users) || fresh(u)
      ensures old(forall u :: u in users ==> u.localDelay == 0) ==> Zero(View())
    {
      hide GapInv, Inv, Sane, Zero, Tracked, KeptFrom;
      Reset();
      ghost var s1 := View();
      var _ := OtherThreads();
      KeptIsSane(s1, View());
    }

    /** Whoever has a local delay now is remembered; everyone else is level with the profiler. */
    method Reset()
      requires Sane(View())
      modifies this`globalDelay, this`leftover
      ensures globalDelay == 0 && Tracked() && Sane(View())
      ensures (forall u :: u in users ==> u.localDelay == 0) ==> Zero(View())
    {
      globalDelay := 0;
      leftover := set u | u in users && u.localDelay != 0;
      forall i | 0 <= i < |users|
        ensures View().members[i] == old(View().members[i]) && users[i] in users
      {
      }
    }

    method Begin(draw: nat)
      requires Valid() && draw < 25 && Sane(View()) && NoneWaiting()
      modifies this`inExperiment, this`delay, this`rounds, this`overslept, this`clean, this`startedAt
      ensures Valid() && inExperiment && delay == DelayFor(draw) && rounds == 0 && overslept == 0
      ensures Fine(clean, View()) && clean == old(Zero(View())) && startedAt == globalDelay
    {
      clean, startedAt := Zero(View()), globalDelay;
      inExperiment := true;
      delay := DelayFor(draw);
      rounds, overslept := 0, 0;
      forall i | 0 <= i < |users| ensures View().members[i] == old(View().members[i]) && !users[i].pending {
        assert users[i] in users;
      }
      if clean { OpeningInv(View()); }
    }

    /** The experiment from its first signal to its last, and how long it took. */
    method Conduct(draw: nat) returns (duration: int, arrived: bool)
      requires Valid() && draw < 25 && Sane(View()) && NoneWaiting()
      modifies this`inExperiment, this`delay, this`rounds, this`overslept, this`globalDelay, this`clean,
        this`startedAt, this`users, this`clock, this`running, users
      ensures Valid() && GapFine(clean, View()) && NoneWaiting() && !inExperiment
      ensures delay == DelayFor(draw) && overslept <= slack
      ensures duration == clock - old(clock) && duration >= rounds * InterleavedDelay.SIGNAL_FREQ
      ensures duration >= 2 * InterleavedDelay.SIGNAL_FREQ
      ensures running ==> duration >= experimentTime + 2 * InterleavedDelay.SIGNAL_FREQ
      ensures forall u :: u in users ==> u in old(users) || fresh(u)
      ensures !arrived ==> forall u :: u in users ==> u.localDelay == 0
      ensures clean == old(Zero(View())) && startedAt == old(globalDelay)
    {
      hide Fine, GapFine, Sane, Zero;
      Begin(draw);
      var start := clock;
      var _ := RunRounds();
      assert forall k :: 0 <= k < |users| ==> users[k] in old(users) || fresh(users[k]);
      arrived := EndSignals();
      duration := clock - start;
    }

    /** One whole experiment.  Whatever the threads, the clock and the scheduler do in
        it, a row is credible if the experiment started clean; and the next one starts
        clean unless a thread arrived between the last signal and the reset.  `named` says
        whether the class of the selected method has a signature. */
    method RunExperiment(draw: nat, named: bool) returns (outcome: Outcome, arrived: bool)
      requires Valid() && draw < 25 && Sane(View()) && NoneWaiting()
      modifies this, users
      ensures Valid() && !inExperiment
      ensures outcome.Abandoned? <==> !running
      ensures !outcome.Abandoned? ==> (outcome.Recorded? <==> named)
      ensures outcome.Recorded? ==> rows == old(rows) + [outcome.row] && starts == old(starts) + [old(globalDelay)]
      ensures outcome.Recorded? && old(Ready()) ==> Credible(outcome.row, slack)
      ensures !outcome.Recorded? ==> rows == old(rows) && starts == old(starts)
      ensures outcome.Recorded? ==> outcome.row.draw == draw
                                    && outcome.row.duration - outcome.row.effectiveDuration == delay
                                    && outcome.row.duration == clock - old(clock)
                                    && outcome.row.duration >= experimentTime + 2 * InterleavedDelay.SIGNAL_FREQ
      ensures !outcome.Abandoned? ==> NoneWaiting() && Sane(View()) && Tracked() && (!arrived ==> Ready())
      ensures forall u :: u in users ==> u in old(users) || fresh(u)
    {
      hide Credible, Sane, Zero, GapFine, Tracked;
      var duration;
      duration, arrived := Conduct(draw);
      if !running {
        return Abandoned, arrived;
      }
      var more;
      outcome, more := Record(draw, duration, named);
      arrived := arrived || more;
    }

    lemma AllCleared()
      requires Sane(View()) && forall u :: u in users ==> u.localDelay == 0 || u.localDelay <= globalDelay
      ensures globalDelay == 0 ==> Zero(View())
    {
      forall i | 0 <= i < |users| ensures globalDelay == 0 ==> View().members[i].local == 0 {
        assert users[i] in users;
        assert View().members[i].local >= 0;
      }
    }

    /** One signal of the sampling loop. */
    method SampleOnce(currSleep: int)
      requires Valid() && !inExperiment && Sane(View()) && NoneWaiting() && Tracked()
      requires 0 <= currSleep <= 2 * InterleavedDelay.SIGNAL_FREQ
      modifies this`globalDelay, this`users, this`rounds, this`clock, users
      ensures Valid() && Sane(View()) && NoneWaiting() && Tracked()
      ensures forall u :: u in users ==> u in old(users) || fresh(u)
      ensures globalDelay == 0 ==> Zero(View())
      ensures rounds == old(rounds) + 1 && clock >= old(clock) + currSleep
    {
      hide Inv, GapInv, Zero, Tracked, KeptFrom, Sane;
      ghost var s0 := View();
      var _ := Sleep(currSleep);
      KeptIsSane(s0, View());
      assert forall k :: 0 <= k < |users| ==> users[k] in old(users) || fresh(users[k]);
      SampleSignal();
    }

    method SampleSignal()
      requires Valid() && !inExperiment && Sane(View()) && NoneWaiting() && Tracked()
      modifies this`globalDelay, this`users, this`rounds, users
      ensures Valid() && Sane(View()) && NoneWaiting() && Tracked()
      ensures forall u :: u in users ==> u in old(users) || fresh(u)
      ensures globalDelay == 0 ==> Zero(View())
      ensures rounds == old(rounds) + 1
    {
      hide Inv, GapInv, Zero, Tracked, KeptInGap, Sane;
      CanSignal();
      SaneSignal(View());
      SignalUserThreads();
      ghost var s1 := View();
      var arrived := DeliverGapSignals();
      KeptInGapIsSane(s1, View());
      AllCleared();
    }

    lemma ReadyOrSpoiled()
      requires Tracked()
      ensures Ready() ==> globalDelay == 0
      ensures globalDelay != 0 ==> SpoiledByExit()
    {
    }

    /** One iteration of the sampling loop, for a random draw. */
    method SampleStep(ghost r0: nat, ghost c0: int, accrued: int) returns (totalAccruedTime: int)
      requires Valid() && !inExperiment && Sane(View()) && NoneWaiting() && Tracked()
      requires 0 <= accrued < AgentShutdown.NEEDED && clock >= c0 + accrued
      requires AgentShutdown.Accrued(rounds - r0, accrued)
      modifies this`globalDelay, this`users, this`rounds, this`clock, users
      ensures Valid() && Sane(View()) && NoneWaiting() && Tracked()
      ensures forall u :: u in users ==> u in old(users) || fresh(u)
      ensures globalDelay == 0 ==> Zero(View())
      ensures AgentShutdown.Accrued(rounds - r0, totalAccruedTime) && clock >= c0 + totalAccruedTime
      ensures accrued < totalAccruedTime
    {
      hide Sane, Zero, Tracked, AgentShutdown.Accrued;
      var draw: nat :| draw < InterleavedDelay.SIGNAL_FREQ;
      var currSleep := 2 * InterleavedDelay.SIGNAL_FREQ - draw;
      AgentShutdown.AccruedMore(rounds - r0, accrued, currSleep);
      SampleOnce(currSleep);
      totalAccruedTime := accrued + currSleep;
    }

    /** The sampling loop: it clears all that is left over, so the next experiment starts clean
        if and only if no delay was pushed since the reset, which only a thread does that
        had joined before the reset and exits before it is signalled. */
    method Sample()
      requires Valid() && !inExperiment && Sane(View()) && NoneWaiting() && Tracked()
      modifies this`globalDelay, this`users, this`rounds, this`clock, users
      ensures Valid() && Sane(View()) && NoneWaiting() && Tracked()
      ensures forall u :: u in users ==> u in old(users) || fresh(u)
      ensures Ready() <==> globalDelay == 0
      ensures !Ready() ==> SpoiledByExit()
      ensures old(rounds) + 15 <= rounds <= old(rounds) + 30
      ensures clock >= old(clock) + AgentShutdown.NEEDED
    {
      assert AgentShutdown.Accrued(0, 0);
      hide Inv, GapInv, Sane, Zero, Tracked, SpoiledByExit, AgentShutdown.Accrued;
      var totalAccruedTime := 0;
      while totalAccruedTime < AgentShutdown.NEEDED
        invariant Valid() && Sane(View()) && NoneWaiting() && Tracked()
        invariant totalAccruedTime >= 0 && (totalAccruedTime > 0 && globalDelay == 0 ==> Zero(View()))
        invariant AgentShutdown.Accrued(rounds - old(rounds), totalAccruedTime)
        invariant clock >= old(clock) + totalAccruedTime
        invariant forall u :: u in users ==> u in old(users) || fresh(u)
      {
        assert forall k :: 0 <= k < |users| ==> users[k] in old(users) || fresh(users[k]);
        totalAccruedTime := SampleStep(old(rounds), old(clock), totalAccruedTime);
      }
      AgentShutdown.AccruedAll(rounds - old(rounds), totalAccruedTime);
      ReadyOrSpoiled();
    }

    /** The agent: sampling and experiments in turn, for as long as it runs.  Every row is credible
        whose experiment started when no delay had been pushed since the reset. */
    method RunAgent()
      requires Valid() && Ready() && !inExperiment
      modifies this, users
      ensures old(rows) <= rows && |starts| == |rows|
      ensures forall i :: |old(rows)| <= i < |rows| && starts[i] == 0 ==> Credible(rows[i], slack)
    {
      ReadyIsTracked();
      hide Inv, GapInv, Sane, Zero, Credible, Tracked;
      var cycles: nat := *;
      while running && cycles > 0
        invariant Valid() && !inExperiment && (running ==> Sane(View()) && NoneWaiting() && Tracked())
        invariant forall u :: u in users ==> u in old(users) || fresh(u)
        invariant old(rows) <= rows
        invariant forall i :: |old(rows)| <= i < |rows| && starts[i] == 0 ==> Credible(rows[i], slack)
        decreases cycles
      {
        assert forall k :: 0 <= k < |users| ==> users[k] in old(users) || fresh(users[k]);
        Sample();
        var found: bool, draw: nat, named: bool := *, *, *;
        if found {
          assert forall k :: 0 <= k < |users| ==> users[k] in old(users) || fresh(users[k]);
          var _, _ := RunExperiment(draw % 25, named);
        }
        cycles := cycles - 1;
      }
    }
  }
}
