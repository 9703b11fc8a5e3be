/** The delay protocol in rounds: the agent signals every registered thread once, and each
    of them runs its whole handler before the next round.  Handlers, arrivals and exits of
    one round come in any order, and a handler may oversleep. */
module RoundDelay {
  import opened InterleavedDelay
  import Sleeping

  /** `pending`: signalled in this round, handler not yet run. */
  datatype Member = Member(local: int, signals: nat, pending: bool)

  /** `overslept` totals the time handlers slept beyond their requests. */
  datatype Shared = Shared(global: int, delay: int, rounds: nat, overslept: int)

  datatype Rounds = Rounds(sh: Shared, members: seq<Member>)

  datatype Event = Signal | Handle(i: nat, onLine: bool, extra: int) | Arrive | Depart(i: nat)

  predicate Can(s: Rounds, e: Event) {
    match e
    case Signal => forall i :: 0 <= i < |s.members| ==> !s.members[i].pending
    case Handle(i, _, extra) => i < |s.members| && s.members[i].pending && extra >= 0
    case Arrive => true
    case Depart(i) => i < |s.members|
  }

  function Credited(sh: Shared, m: Member, onLine: bool): int {
    if onLine then m.local + sh.delay else m.local
  }

  predicate Syncs(m: Member) {
    m.signals + 1 == SIGNALS_PER_SYNC
  }

  /** The thread after one whole handler call inside an experiment. */
  function HandledMember(sh: Shared, m: Member, onLine: bool, extra: int): Member {
    var local := Credited(sh, m, onLine);
    if !Syncs(m) then Member(local, m.signals + 1, false)
    else if sh.global - local > 0 then Member(sh.global + extra, 0, false)
    else Member(local, 0, false)
  }

  /** What that call does to the shared delay, and to the total oversleep. */
  function HandledShared(sh: Shared, m: Member, onLine: bool, extra: int): Shared {
    var local := Credited(sh, m, onLine);
    if !Syncs(m) then sh
    else if sh.global - local > 0 then sh.(overslept := sh.overslept + extra)
    else sh.(global := local)
  }

  /** What a thread that exits does to the shared delay. */
  function SettledShared(sh: Shared, m: Member): Shared {
    sh.(global := Max(sh.global, m.local))
  }

  function After(s: Rounds, e: Event): Rounds
    requires Can(s, e)
  {
    match e
    case Signal =>
      Rounds(s.sh.(rounds := s.sh.rounds + 1),
             seq(|s.members|, i requires 0 <= i < |s.members| => s.members[i].(pending := true)))
    case Handle(i, onLine, extra) =>
      Rounds(HandledShared(s.sh, s.members[i], onLine, extra),
             s.members[i := HandledMember(s.sh, s.members[i], onLine, extra)])
    case Arrive => s.(members := s.members + [Member(s.sh.global, 0, false)])
    case Depart(i) => Rounds(SettledShared(s.sh, s.members[i]), s.members[..i] + s.members[i + 1..])
  }

  predicate Possible(s: Rounds, run: seq<Event>)
    decreases |run|
  {
    run == [] || (Can(s, run[0]) && Possible(After(s, run[0]), run[1..]))
  }

  function AfterAll(s: Rounds, run: seq<Event>): Rounds
    requires Possible(s, run)
    decreases |run|
  {
    if run == [] then s else AfterAll(After(s, run[0]), run[1..])
  }

  /** A clean start.  The signal counts are not reset between experiments. */
  predicate Opening(s: Rounds) {
    && s.sh.global == 0 && s.sh.rounds == 0 && s.sh.overslept == 0 && 0 <= s.sh.delay
    && forall i :: 0 <= i < |s.members| ==>
         s.members[i].local == 0 && s.members[i].signals < SIGNALS_PER_SYNC && !s.members[i].pending
  }

  // ---- the invariant

  /** One when the thread has had its turn in the current round. */
  function Turn(m: Member): int {
    if m.pending then 0 else 1
  }

  /** A thread leads the global delay only by what it was credited since its last sync,
      and trails it by what the others can have been credited meanwhile. */
  predicate MemberInv(sh: Shared, t: Member) {
    && 0 <= t.local && t.signals < SIGNALS_PER_SYNC
    && (t.pending ==> sh.rounds >= 1)
    && t.local <= sh.global + t.signals * sh.delay + sh.overslept
    && t.local <= (sh.rounds - 1 + Turn(t)) * sh.delay + sh.overslept
    && sh.global <= t.local + (11 + t.signals - Turn(t)) * sh.delay + sh.overslept
  }

  predicate PairInv(sh: Shared, u: Member, t: Member) {
    u.local <= t.local + (10 + t.signals + Turn(u) - Turn(t)) * sh.delay + sh.overslept
  }

  predicate SharedInv(sh: Shared) {
    && 0 <= sh.delay && 0 <= sh.overslept
    && 0 <= sh.global <= sh.rounds * sh.delay + sh.overslept
  }

  predicate Inv(s: Rounds) {
    && SharedInv(s.sh)
    && (forall i :: 0 <= i < |s.members| ==> MemberInv(s.sh, s.members[i]))
    && (forall i, j :: 0 <= i < |s.members| && 0 <= j < |s.members| ==> PairInv(s.sh, s.members[i], s.members[j]))
  }

  lemma Times(a: int, b: int, d: int)
    requires a <= b && 0 <= d
    ensures a * d <= b * d
  {
  }

  /** Distributes the delay over a signal count. */
  lemma Spread(n: int, d: int)
    ensures (11 + n) * d == 11 * d + n * d && (10 + n) * d == 10 * d + n * d
    ensures (9 + n) * d == 9 * d + n * d && (n + 1) * d == n * d + d && (n - 1) * d == n * d - d
  {
  }

  // Each event, seen by one thread or by a pair of threads.

  lemma SignalMember(sh: Shared, t: Member, u: Member)
    requires 0 <= sh.delay && MemberInv(sh, t) && PairInv(sh, u, t) && !t.pending && !u.pending
    ensures MemberInv(sh.(rounds := sh.rounds + 1), t.(pending := true))
    ensures PairInv(sh.(rounds := sh.rounds + 1), u.(pending := true), t.(pending := true))
  {
    Spread(t.signals, sh.delay);
  }

  lemma ArriveMember(sh: Shared, t: Member)
    requires SharedInv(sh) && MemberInv(sh, t)
    ensures var m := Member(sh.global, 0, false);
            MemberInv(sh, m) && PairInv(sh, t, m) && PairInv(sh, m, t) && PairInv(sh, m, m)
  {
    Spread(t.signals, sh.delay);
    Times(t.signals, 9, sh.delay);
  }

  lemma DepartMember(sh: Shared, t: Member, u: Member)
    requires SharedInv(sh) && MemberInv(sh, t) && MemberInv(sh, u) && PairInv(sh, t, u)
    ensures SharedInv(SettledShared(sh, t)) && MemberInv(SettledShared(sh, t), u)
  {
    Spread(u.signals, sh.delay);
    Times(sh.rounds - 1 + Turn(t), sh.rounds, sh.delay);
  }

  lemma HandleSelf(sh: Shared, t: Member, onLine: bool, extra: int)
    requires SharedInv(sh) && 0 <= extra && t.pending && MemberInv(sh, t)
    ensures var sh' := HandledShared(sh, t, onLine, extra);
            var t' := HandledMember(sh, t, onLine, extra);
            SharedInv(sh') && MemberInv(sh', t') && PairInv(sh', t', t')
  {
    Spread(t.signals, sh.delay);
    Spread(sh.rounds, sh.delay);
    Times(0, t.signals, sh.delay);
    Times(0, 10 + t.signals, sh.delay);
  }

  /** What the handler of `t` does to another thread `u`, when `t` does not synchronise ... */
  lemma HandleOtherCount(sh: Shared, t: Member, u: Member, onLine: bool, extra: int)
    requires 0 <= sh.delay && t.pending && !Syncs(t)
    requires MemberInv(sh, t) && PairInv(sh, u, t) && PairInv(sh, t, u)
    ensures var t' := HandledMember(sh, t, onLine, extra);
            PairInv(sh, u, t') && PairInv(sh, t', u)
  {
    Spread(t.signals, sh.delay);
    Spread(u.signals, sh.delay);
    Spread(10 + u.signals - Turn(u), sh.delay);
  }

  /** ... and when it does: it ends at or above the new global delay. */
  lemma HandleOtherSync(sh: Shared, t: Member, u: Member, onLine: bool, extra: int)
    requires 0 <= sh.delay && 0 <= extra && t.pending && Syncs(t)
    requires MemberInv(sh, t) && MemberInv(sh, u) && PairInv(sh, t, u)
    ensures var sh' := HandledShared(sh, t, onLine, extra);
            var t' := HandledMember(sh, t, onLine, extra);
            MemberInv(sh', u) && PairInv(sh', u, t') && PairInv(sh', t', u)
  {
    Spread(u.signals, sh.delay);
    Spread(10 + u.signals - Turn(u), sh.delay);
    Times(u.signals, 9, sh.delay);
    var sh' := HandledShared(sh, t, onLine, extra);
    assert sh.global <= sh'.global && sh.overslept <= sh'.overslept;
    assert sh'.global <= t.local + sh.delay || sh'.global == sh.global;
  }

  // The invariant is kept by every event.

  lemma OpeningInv(s: Rounds)
    requires Opening(s)
    ensures Inv(s)
  {
    forall i, j | 0 <= i < |s.members| && 0 <= j < |s.members|
      ensures MemberInv(s.sh, s.members[i]) && PairInv(s.sh, s.members[i], s.members[j])
    {
      Times(0, s.members[i].signals, s.sh.delay);
      Times(0, 10 + s.members[j].signals, s.sh.delay);
    }
  }

  lemma SignalInv(s: Rounds)
    requires Inv(s) && Can(s, Signal)
    ensures Inv(After(s, Signal))
  {
    var s' := After(s, Signal);
    forall i, j | 0 <= i < |s.members| && 0 <= j < |s.members|
      ensures MemberInv(s'.sh, s'.members[i]) && PairInv(s'.sh, s'.members[j], s'.members[i])
    {
      SignalMember(s.sh, s.members[i], s.members[j]);
    }
    Spread(s.sh.rounds, s.sh.delay);
  }

  lemma ArriveInv(s: Rounds)
    requires Inv(s)
    ensures Inv(After(s, Arrive))
  {
    var s' := After(s, Arrive);
    var n := |s.members|;
    forall i, j | 0 <= i <= n && 0 <= j <= n
      ensures MemberInv(s'.sh, s'.members[i]) && PairInv(s'.sh, s'.members[i], s'.members[j])
    {
      if i < n {
        ArriveMember(s.sh, s.members[i]);
        assert j < n ==> PairInv(s.sh, s.members[i], s.members[j]);
      } else if j < n {
        ArriveMember(s.sh, s.members[j]);
      } else {
        Times(s.sh.rounds, s.sh.rounds, s.sh.delay);
      }
    }
  }

  lemma DepartInv(s: Rounds, i: nat)
    requires Inv(s) && i < |s.members|
    ensures Inv(After(s, Depart(i)))
  {
    var s' := After(s, Depart(i));
    DepartMember(s.sh, s.members[i], s.members[i]);
    forall j, l | 0 <= j < |s'.members| && 0 <= l < |s'.members|
      ensures MemberInv(s'.sh, s'.members[j]) && PairInv(s'.sh, s'.members[j], s'.members[l])
    {
      var kj := if j < i then j else j + 1;
      var kl := if l < i then l else l + 1;
      assert s'.members[j] == s.members[kj] && s'.members[l] == s.members[kl];
      assert PairInv(s.sh, s.members[kj], s.members[kl]);
      DepartMember(s.sh, s.members[i], s.members[kj]);
    }
  }

  lemma HandleInv(s: Rounds, i: nat, onLine: bool, extra: int)
    requires Inv(s) && Can(s, Handle(i, onLine, extra))
    ensures Inv(After(s, Handle(i, onLine, extra)))
  {
    var s' := After(s, Handle(i, onLine, extra));
    HandleSelf(s.sh, s.members[i], onLine, extra);
    forall j | 0 <= j < |s.members| && j != i
      ensures MemberInv(s'.sh, s'.members[j])
      ensures PairInv(s'.sh, s'.members[j], s'.members[i]) && PairInv(s'.sh, s'.members[i], s'.members[j])
    {
      assert PairInv(s.sh, s.members[i], s.members[j]) && PairInv(s.sh, s.members[j], s.members[i]);
      if Syncs(s.members[i]) {
        HandleOtherSync(s.sh, s.members[i], s.members[j], onLine, extra);
      } else {
        HandleOtherCount(s.sh, s.members[i], s.members[j], onLine, extra);
      }
    }
    forall j, l | 0 <= j < |s.members| && 0 <= l < |s.members|
      ensures PairInv(s'.sh, s'.members[j], s'.members[l])
    {
      if j != i && l != i { assert PairInv(s.sh, s.members[j], s.members[l]); }
    }
  }

  lemma EventInv(s: Rounds, e: Event)
    requires Inv(s) && Can(s, e)
    ensures Inv(After(s, e))
  {
    match e {
      case Signal => SignalInv(s);
      case Handle(i, onLine, extra) => HandleInv(s, i, onLine, extra);
      case Arrive => ArriveInv(s);
      case Depart(i) => DepartInv(s, i);
    }
  }

  lemma {:induction false} RunInv(s: Rounds, run: seq<Event>)
    requires Inv(s) && Possible(s, run)
    ensures Inv(AfterAll(s, run))
    decreases |run|
  {
    if run == [] {
    } else {
      EventInv(s, run[0]);
      RunInv(After(s, run[0]), run[1..]);
    }
  }

  // ---- what holds in every reachable state

  /** The delay credited per hit, for a random draw in 0..24: nothing for the five lowest,
      otherwise 5% of the signal period per step. */
  function DelayFor(draw: nat): int {
    Twentieths(draw) * (SIGNAL_FREQ / 20)
  }

  /** The speedup of the draw, in twentieths. */
  function Twentieths(draw: nat): int {
    if draw < 5 then 0 else draw - 4
  }

  /** One in five experiments has no speedup, and every other multiple of 5% up to 100% is drawn with the
      same probability: of the 25 draws exactly the lowest five give none, and for each
      of the 20 multiples there is exactly one draw, which gives that part of the signal period. */
  lemma DrawsAreFair(k: nat, draw: nat)
    requires 1 <= k <= 20 && draw < 25
    ensures DelayFor(draw) == 0 <==> draw < 5
    ensures 20 * DelayFor(k + 4) == k * SIGNAL_FREQ && Twentieths(k + 4) == k
    ensures 20 * DelayFor(draw) == k * SIGNAL_FREQ <==> draw == k + 4
  {
  }

  /** In every reachable state a thread leads the global delay by no more than its unsynchronised
      signals allow, and a thread about to synchronise or to exit asks to sleep for no more
      than twenty credits.  Hence every request is one that nanosleep accepts. */
  lemma BoundedSkew(s: Rounds, run: seq<Event>, i: nat, onLine: bool)
    requires Opening(s) && Possible(s, run) && i < |AfterAll(s, run).members|
    ensures var e := AfterAll(s, run);
            var t := e.members[i];
            && t.local - e.sh.global <= t.signals * e.sh.delay + e.sh.overslept
            && e.sh.global - t.local <= 20 * e.sh.delay + e.sh.overslept
            && (e.sh.delay <= SIGNAL_FREQ && e.sh.overslept < Sleeping.TV_NSEC_LIMIT - 20 * SIGNAL_FREQ ==>
                e.sh.global - t.local < Sleeping.TV_NSEC_LIMIT
                && e.sh.global - Credited(e.sh, t, onLine) < Sleeping.TV_NSEC_LIMIT)
  {
    OpeningInv(s);
    RunInv(s, run);
    RunKeepsDelay(s, run);
    MemberSkew(AfterAll(s, run).sh, AfterAll(s, run).members[i]);
  }

  lemma MemberSkew(sh: Shared, t: Member)
    requires SharedInv(sh) && MemberInv(sh, t)
    ensures sh.global - t.local <= 20 * sh.delay + sh.overslept
  {
    Spread(t.signals, sh.delay);
    Times(11 + t.signals - Turn(t), 20, sh.delay);
  }

  lemma {:induction false} RunKeepsDelay(s: Rounds, run: seq<Event>)
    requires Possible(s, run)
    ensures AfterAll(s, run).sh.delay == s.sh.delay
    decreases |run|
  {
    if run == [] {
    } else {
      RunKeepsDelay(After(s, run[0]), run[1..]);
    }
  }

  /** The claim of the whole tool.  Every round takes at least the signal period, so after any
      run from a clean start the recorded duration covers the delay inserted up to the
      handlers' oversleep, and that delay is at most the speedup times the duration. */
  lemma EffectiveDurationIsNotNegative(s: Rounds, run: seq<Event>, draw: nat, duration: int)
    requires Opening(s) && Possible(s, run)
    requires draw < 25 && s.sh.delay == DelayFor(draw)
    requires duration >= AfterAll(s, run).sh.rounds * SIGNAL_FREQ
    ensures var e := AfterAll(s, run).sh;
            && duration - e.global >= -e.overslept
            && 20 * (e.global - e.overslept) <= Twentieths(draw) * duration
  {
    OpeningInv(s);
    RunInv(s, run);
    RunKeepsDelay(s, run);
    DelayWithinDuration(AfterAll(s, run).sh, draw, duration);
  }

  lemma DelayWithinDuration(e: Shared, draw: nat, duration: int)
    requires SharedInv(e) && draw < 25 && e.delay == DelayFor(draw) && duration >= e.rounds * SIGNAL_FREQ
    ensures duration - e.global >= -e.overslept
    ensures 20 * (e.global - e.overslept) <= Twentieths(draw) * duration
  {
    var w := Twentieths(draw);
    assert e.rounds * e.delay * 20 == w * (e.rounds * SIGNAL_FREQ);
    Times(e.rounds * SIGNAL_FREQ, duration, w);
    Times(w, 20, e.rounds * SIGNAL_FREQ);
  }

  /** A synchronisation that is atomic and does not oversleep leaves the thread exactly at
      the global delay, which is the larger of the two values before it. */
  lemma AtomicSyncIsExact(s: Rounds, i: nat, onLine: bool, extra: int)
    requires Can(s, Handle(i, onLine, extra)) && Syncs(s.members[i])
    ensures var s' := After(s, Handle(i, onLine, extra));
            && s'.sh.global == Max(s.sh.global, Credited(s.sh, s.members[i], onLine))
            && s'.members[i].local - s'.sh.global == s'.sh.overslept - s.sh.overslept
            && s'.members[i].signals == 0
  {
  }
}
