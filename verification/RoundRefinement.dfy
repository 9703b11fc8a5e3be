/** The round model is one schedule of the interleaved protocol: each of its events is a run of
    single steps that grants the same credits and oversleeps as much, so whatever is proved
    of every interleaving holds of the rounds. */
module RoundRefinement {
  import InterleavedDelay
  import DelayRuns
  import DelayExactness
  import opened RoundDelay

  function Embed(s: Rounds): InterleavedDelay.State {
    InterleavedDelay.State(s.sh.global, s.sh.delay, InterleavedDelay.Looping,
      seq(|s.members|, i requires 0 <= i < |s.members| => EmbedMember(s.members[i])))
  }

  function EmbedMember(m: Member): InterleavedDelay.Thread {
    InterleavedDelay.Thread(m.local, m.signals, InterleavedDelay.Live, InterleavedDelay.Running)
  }

  /** Some run without a reset leads there, grants so much credit and oversleeps so much. */
  ghost predicate Costs(o: InterleavedDelay.State, m: InterleavedDelay.State, credits: int, oversleeps: int) {
    exists run ::
      && InterleavedDelay.Legal(o, run) && InterleavedDelay.NoReset(run) && InterleavedDelay.Exec(o, run) == m
      && InterleavedDelay.Credits(o, run) == credits && InterleavedDelay.Oversleeps(o, run) == oversleeps
  }

  lemma {:induction false} CostsSnoc(o: InterleavedDelay.State, run: seq<InterleavedDelay.Action>,
      a: InterleavedDelay.Action)
    requires InterleavedDelay.Legal(o, run) && InterleavedDelay.Enabled(InterleavedDelay.Exec(o, run), a)
    ensures InterleavedDelay.Legal(o, run + [a])
    ensures InterleavedDelay.Credits(o, run + [a])
         == InterleavedDelay.Credits(o, run) + InterleavedDelay.Credit(InterleavedDelay.Exec(o, run), a)
    ensures InterleavedDelay.Oversleeps(o, run + [a])
         == InterleavedDelay.Oversleeps(o, run) + InterleavedDelay.Oversleep(InterleavedDelay.Exec(o, run), a)
    decreases |run|
  {
    DelayRuns.ExecSnoc(o, run, a);
    if run == [] {
      assert (run + [a])[1..] == [];
    } else {
      CostsSnoc(InterleavedDelay.Apply(o, run[0]), run[1..], a);
      assert (run + [a])[1..] == run[1..] + [a];
    }
  }

  /** One more step of one thread. */
  lemma Extend(o: InterleavedDelay.State, m: InterleavedDelay.State, c: int, v: int, a: InterleavedDelay.Action)
    returns (m': InterleavedDelay.State)
    requires Costs(o, m, c, v) && InterleavedDelay.Enabled(m, a) && !a.ByAgent?
    ensures m' == InterleavedDelay.Apply(m, a)
    ensures Costs(o, m', c + InterleavedDelay.Credit(m, a), v + InterleavedDelay.Oversleep(m, a))
  {
    var run :| InterleavedDelay.Legal(o, run) && InterleavedDelay.NoReset(run) && InterleavedDelay.Exec(o, run) == m
            && InterleavedDelay.Credits(o, run) == c && InterleavedDelay.Oversleeps(o, run) == v;
    DelayRuns.ExecSnoc(o, run, a);
    CostsSnoc(o, run, a);
    m' := InterleavedDelay.Apply(m, a);
    assert InterleavedDelay.NoReset(run + [a]);
  }

  /** What the event credits, and by how much it oversleeps. */
  function CreditOf(s: Rounds, e: Event): int {
    if e.Handle? && e.onLine then s.sh.delay else 0
  }

  function OversleptIn(s: Rounds, e: Event): int
    requires Can(s, e)
  {
    After(s, e).sh.overslept - s.sh.overslept
  }

  function CreditsOfRounds(s: Rounds, run: seq<Event>): int
    requires Possible(s, run)
    decreases |run|
  {
    if run == [] then 0 else CreditOf(s, run[0]) + CreditsOfRounds(After(s, run[0]), run[1..])
  }

  lemma EventIsARun(o: InterleavedDelay.State, s: Rounds, e: Event, c: int, v: int)
    requires Costs(o, Embed(s), c, v) && Inv(s) && Can(s, e)
    ensures Costs(o, Embed(After(s, e)), c + CreditOf(s, e), v + OversleptIn(s, e))
  {
    match e {
      case Signal =>
        assert Embed(After(s, e)) == Embed(s);
      case Arrive =>
        ArriveIsARun(o, s, c, v);
      case Handle(i, onLine, extra) =>
        HandleIsARun(o, s, i, onLine, extra, c, v);
      case Depart(i) =>
        DepartIsARun(o, s, i, c, v);
    }
  }

  lemma ArriveIsARun(o: InterleavedDelay.State, s: Rounds, c: int, v: int)
    requires Costs(o, Embed(s), c, v)
    ensures Costs(o, Embed(After(s, Arrive)), c, v)
  {
    var m := Extend(o, Embed(s), c, v, InterleavedDelay.Join);
    m := Extend(o, m, c, v, InterleavedDelay.ByThread(|s.members|, InterleavedDelay.Insert));
    assert m == Embed(After(s, Arrive));
  }

  /** After the part every handler call starts with. */
  function Counted(s: Rounds, i: nat, onLine: bool): InterleavedDelay.State
    requires i < |s.members|
  {
    Embed(s).(threads := Embed(s).threads[i :=
      InterleavedDelay.Thread(Credited(s.sh, s.members[i], onLine), s.members[i].signals + 1, InterleavedDelay.Live,
        if Syncs(s.members[i]) then InterleavedDelay.AtSync else InterleavedDelay.Running)])
  }

  lemma CountIsARun(o: InterleavedDelay.State, s: Rounds, i: nat, onLine: bool, c: int, v: int)
    returns (m: InterleavedDelay.State)
    requires Costs(o, Embed(s), c, v) && i < |s.members| && s.members[i].signals < InterleavedDelay.SIGNALS_PER_SYNC
    ensures Costs(o, m, c + CreditOf(s, Handle(i, onLine, 0)), v)
    ensures m == Counted(s, i, onLine)
  {
    m := Extend(o, Embed(s), c, v, InterleavedDelay.ByThread(i, InterleavedDelay.Enter));
    m := Extend(o, m, c, v, InterleavedDelay.ByThread(i, InterleavedDelay.Count(onLine)));
  }

  lemma HandleIsARun(o: InterleavedDelay.State, s: Rounds, i: nat, onLine: bool, extra: int, c: int, v: int)
    requires Costs(o, Embed(s), c, v) && Inv(s) && Can(s, Handle(i, onLine, extra))
    ensures Costs(o, Embed(After(s, Handle(i, onLine, extra))),
                  c + CreditOf(s, Handle(i, onLine, extra)), v + OversleptIn(s, Handle(i, onLine, extra)))
  {
    assert MemberInv(s.sh, s.members[i]);
    var m := CountIsARun(o, s, i, onLine, c, v);
    hide Inv, MemberInv, Costs;
    if Syncs(s.members[i]) {
      SyncIsARun(o, s, i, onLine, extra, c + CreditOf(s, Handle(i, onLine, 0)), v);
    } else {
      assert m == Embed(After(s, Handle(i, onLine, extra)));
    }
  }

  lemma SyncIsARun(o: InterleavedDelay.State, s: Rounds, i: nat, onLine: bool, extra: int, c: int, v: int)
    requires Can(s, Handle(i, onLine, extra)) && Syncs(s.members[i])
    requires Costs(o, Counted(s, i, onLine), c, v)
    ensures Costs(o, Embed(After(s, Handle(i, onLine, extra))), c, v + OversleptIn(s, Handle(i, onLine, extra)))
  {
    hide Costs;
    var behind := s.sh.global - Credited(s.sh, s.members[i], onLine);
    var m := Extend(o, Counted(s, i, onLine), c, v, InterleavedDelay.ByThread(i, InterleavedDelay.ReadGlobal));
    m := Extend(o, m, c, v, InterleavedDelay.ByThread(i,
           if behind > 0 then InterleavedDelay.Wake(behind + extra) else InterleavedDelay.Add));
    assert m == Embed(After(s, Handle(i, onLine, extra)));
  }

  lemma DepartIsARun(o: InterleavedDelay.State, s: Rounds, i: nat, c: int, v: int)
    requires Costs(o, Embed(s), c, v) && i < |s.members|
    ensures Costs(o, Embed(After(s, Depart(i))), c, v)
  {
    var m := SettleIsARun(o, s, i, c, v);
    hide Costs;
    m := Extend(o, m, c, v, InterleavedDelay.ByThread(i, InterleavedDelay.Erase));
    assert m == Embed(After(s, Depart(i)));
  }

  lemma SettleIsARun(o: InterleavedDelay.State, s: Rounds, i: nat, c: int, v: int) returns (m: InterleavedDelay.State)
    requires Costs(o, Embed(s), c, v) && i < |s.members|
    ensures Costs(o, m, c, v)
    ensures m.global == SettledShared(s.sh, s.members[i]).global
    ensures |m.threads| == |s.members| && m == Embed(s).(global := m.global,
        threads := Embed(s).threads[i := m.threads[i]])
    ensures m.threads[i].stage.Leaving? && m.threads[i].phase.Running?
  {
    var finish := if s.sh.global - s.members[i].local > 0 then InterleavedDelay.SettleWake
        else InterleavedDelay.SettleAdd;
    m := Extend(o, Embed(s), c, v, InterleavedDelay.ByThread(i, InterleavedDelay.SettleRead));
    m := Extend(o, m, c, v, InterleavedDelay.ByThread(i, finish));
  }

  lemma {:induction false} RoundsRefineInterleaving(o: InterleavedDelay.State, s: Rounds, run: seq<Event>,
      c: int, v: int)
    requires Costs(o, Embed(s), c, v) && Inv(s) && Possible(s, run)
    ensures Costs(o, Embed(AfterAll(s, run)), c + CreditsOfRounds(s, run), v + AfterAll(s,
        run).sh.overslept - s.sh.overslept)
    decreases |run|
  {
    if run == [] {
    } else {
      EventIsARun(o, s, run[0], c, v);
      EventInv(s, run[0]);
      hide Costs, Inv;
      RoundsRefineInterleaving(o, After(s, run[0]), run[1..], c + CreditOf(s, run[0]), v + OversleptIn(s, run[0]));
    }
  }

  lemma OpeningIsClean(s: Rounds)
    requires Opening(s)
    ensures InterleavedDelay.Ok(Embed(s)) && DelayExactness.Clean(Embed(s))
  {
    forall i | 0 <= i < |s.members|
      ensures InterleavedDelay.ThreadOk(Embed(s).threads[i]) && DelayExactness.Level(Embed(s).threads[i])
    {
      assert Embed(s).threads[i] == EmbedMember(s.members[i]);
    }
  }

  /** Conservation, carried over to the rounds: from a clean start the global delay is at most
      the credits granted in them plus the time overslept. */
  lemma RoundsConserve(s: Rounds, run: seq<Event>)
    requires Opening(s) && Possible(s, run)
    ensures AfterAll(s, run).sh.global <= CreditsOfRounds(s, run) + AfterAll(s, run).sh.overslept
  {
    var o := Embed(s);
    OpeningInv(s);
    OpeningIsClean(s);
    assert InterleavedDelay.Legal(o, []) && InterleavedDelay.NoReset([]) && InterleavedDelay.Exec(o, []) == o;
    assert Costs(o, o, 0, 0);
    RoundsRefineInterleaving(o, s, run, 0, 0);
    DelayExactness.CleanStartIsExact(o);
  }
}
