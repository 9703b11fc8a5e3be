/** Which hits the counters count.  The counters of ProgressHits are numbers; here every single hit
    is followed through the same runs: where it is counted, once or twice, and when it was
    flushed.  A row counts exactly the flushes made while its own experiment was counting. */
module HitAttribution {
  import opened ProgressHits
  import opened Wrappers

  datatype Place =
    | Pocket(i: nat)           // a thread's own counter
    | Echo(i: nat)             // still in that counter although the exit of the thread has added it
    | Shared                   // the shared counter
    | InHand                   // read by the agent
    | InRow(k: nat)
    | LostAtZeroing | LostAtStart | LostUnnamed
    | Nowhere

  /** The experiment during which a flush happened, and the window of it. */
  datatype Moment = Moment(experiment: nat, window: Window)

  /** One count of a hit: where it is by now, and when it was flushed. */
  datatype Token = Token(place: Place, flush: Option<Moment>)

  /** `experiment` is the one during which the breakpoint was hit; `again` is its second count. */
  datatype Hit = Hit(experiment: nat, first: Token, again: Token)

  const UNUSED := Token(Nowhere, None)

  /** All hits so far, the experiments started, and the experiment of each row. */
  datatype Trace = Trace(hits: seq<Hit>, experiments: nat, rowOf: seq<nat>)

  const NOTHING := Trace([], 0, [])

  function MoveToken(tok: Token, p: Place, q: Place, flush: Option<Moment>): Token {
    if tok.place == p then Token(q, if flush.Some? then flush else tok.flush) else tok
  }

  /** All counts at `p` go to `q`; their flush is noted if this is one. */
  function MoveAll(hits: seq<Hit>, p: Place, q: Place, flush: Option<Moment>): (r: seq<Hit>)
    ensures |r| == |hits|
    ensures forall h :: 0 <= h < |hits| ==>
      r[h] == Hit(hits[h].experiment, MoveToken(hits[h].first, p, q, flush), MoveToken(hits[h].again, p, q, flush))
  {
    seq(|hits|, h requires 0 <= h < |hits| =>
      Hit(hits[h].experiment, MoveToken(hits[h].first, p, q, flush), MoveToken(hits[h].again, p, q, flush)))
  }

  function EchoHit(x: Hit, i: nat): Hit {
    if x.first.place == Pocket(i) then x.(again := Token(Echo(i), None)) else x
  }

  /** The hits of thread `i` are about to be added and still there. */
  function EchoAll(hits: seq<Hit>, i: nat): (r: seq<Hit>)
    ensures |r| == |hits| && forall h :: 0 <= h < |hits| ==> r[h] == EchoHit(hits[h], i)
  {
    seq(|hits|, h requires 0 <= h < |hits| => EchoHit(hits[h], i))
  }

  /** Erasing the record of thread `i` moves the later ones down. */
  function Shifted(p: Place, i: nat): Place {
    match p
    case Pocket(j) => if j > i then Pocket(j - 1) else p
    case Echo(j) => if j > i then Echo(j - 1) else p
    case _ => p
  }

  function ShiftHit(x: Hit, i: nat): Hit {
    Hit(x.experiment, x.first.(place := Shifted(x.first.place, i)), x.again.(place := Shifted(x.again.place, i)))
  }

  function ShiftAll(hits: seq<Hit>, i: nat): (r: seq<Hit>)
    ensures |r| == |hits| && forall h :: 0 <= h < |hits| ==> r[h] == ShiftHit(hits[h], i)
  {
    seq(|hits|, h requires 0 <= h < |hits| => ShiftHit(hits[h], i))
  }

  function FollowAgent(s: State, t: Trace, act: AgentStep): Trace
    requires AgentEnabled(s, act)
  {
    match act
    case Start => t.(experiments := t.experiments + 1)
    case ClearHits => t.(hits := MoveAll(t.hits, Shared, LostAtStart, None))
    case Finish => t
    case Abandon => t
    case ReadHits => t.(hits := MoveAll(t.hits, Shared, InHand, None))
    case ZeroHits => t.(hits := MoveAll(t.hits, Shared, LostAtZeroing, None))
    case WriteRow => t.(hits := MoveAll(t.hits, InHand, InRow(|s.rows|), None), rowOf := t.rowOf + [t.experiments])
    case Discard => t.(hits := MoveAll(t.hits, InHand, LostUnnamed, None))
  }

  function Now(s: State, t: Trace): Option<Moment> {
    Some(Moment(t.experiments, WindowOf(s.agent)))
  }

  function FollowThread(s: State, t: Trace, i: nat, step: ThreadStep): Trace
    requires i < |s.threads|
  {
    match step
    case Breakpoint =>
      if s.InExperiment() then t.(hits := t.hits + [Hit(t.experiments, Token(Pocket(i), None), UNUSED)]) else t
    case Add =>
      t.(hits := MoveAll(t.hits, if Doubles(s.threads[i], step) then Echo(i) else Pocket(i), Shared, Now(s, t)))
    case ExitAdd => t.(hits := MoveAll(EchoAll(t.hits, i), Pocket(i), Shared, Now(s, t)))
    case Zero => t.(hits := MoveAll(t.hits, Echo(i), Nowhere, None))
    case ExitZero => t.(hits := MoveAll(t.hits, Echo(i), Nowhere, None))
    case Enter => t
  }

  function Follow(s: State, t: Trace, a: Action): Trace
    requires Enabled(s, a)
  {
    match a
    case Spawn => t
    case Erase(i) => t.(hits := ShiftAll(t.hits, i))
    case ByThread(i, step) => FollowThread(s, t, i, step)
    case ByAgent(act) => FollowAgent(s, t, act)
  }

  function FollowAll(s: State, t: Trace, run: seq<Action>): Trace
    requires Legal(s, run)
    decreases |run|
  {
    if run == [] then t else FollowAll(Apply(s, run[0]), Follow(s, t, run[0]), run[1..])
  }

  // ---- counting

  function At(tok: Token, p: Place): nat {
    if tok.place == p then 1 else 0
  }

  function Count(hits: seq<Hit>, p: Place): nat {
    if hits == [] then 0
    else Count(hits[..|hits| - 1], p) + At(hits[|hits| - 1].first, p) + At(hits[|hits| - 1].again, p)
  }

  /** The counts at `q` are those that were at `p`. */
  lemma {:induction false} CountCarried(hits: seq<Hit>, hits': seq<Hit>, p: Place, q: Place)
    requires |hits'| == |hits|
    requires forall h :: 0 <= h < |hits| ==>
      At(hits'[h].first, q) == At(hits[h].first, p) && At(hits'[h].again, q) == At(hits[h].again, p)
    ensures Count(hits', q) == Count(hits, p)
  {
    if hits == [] {
    } else {
      CountCarried(hits[..|hits| - 1], hits'[..|hits| - 1], p, q);
    }
  }

  /** The counts at `q` are those that were at `p` or at `q`. */
  lemma {:induction false} CountMerged(hits: seq<Hit>, hits': seq<Hit>, p: Place, q: Place)
    requires |hits'| == |hits|
    requires forall h :: 0 <= h < |hits| ==>
      && At(hits'[h].first, q) == At(hits[h].first, p) + At(hits[h].first, q)
      && At(hits'[h].again, q) == At(hits[h].again, p) + At(hits[h].again, q)
    ensures Count(hits', q) == Count(hits, p) + Count(hits, q)
  {
    if hits == [] {
    } else {
      CountMerged(hits[..|hits| - 1], hits'[..|hits| - 1], p, q);
    }
  }

  lemma {:induction false} CountNone(hits: seq<Hit>, p: Place)
    ensures Count(hits, p) == 0
       <==> forall h :: 0 <= h < |hits| ==> hits[h].first.place != p && hits[h].again.place != p
  {
    if hits == [] {
    } else {
      var n := |hits| - 1;
      CountNone(hits[..n], p);
      assert forall h :: 0 <= h < n ==> hits[..n][h] == hits[h];
      if Count(hits, p) == 0 {
        forall h | 0 <= h < |hits| ensures hits[h].first.place != p && hits[h].again.place != p {
          assert h < n ==> hits[..n][h].first.place != p && hits[..n][h].again.place != p;
        }
      }
    }
  }

  lemma CountSnoc(hits: seq<Hit>, x: Hit, p: Place)
    ensures Count(hits + [x], p) == Count(hits, p) + At(x.first, p) + At(x.again, p)
  {
    assert (hits + [x])[..|hits|] == hits;
  }

  lemma MovedToken(tok: Token, p: Place, q: Place, flush: Option<Moment>, r: Place)
    requires p != q
    ensures At(MoveToken(tok, p, q, flush), r)
         == if r == p then 0 else if r == q then At(tok, p) + At(tok, q) else At(tok, r)
  {
  }

  lemma MovedAway(hits: seq<Hit>, p: Place, q: Place, flush: Option<Moment>)
    requires p != q
    ensures Count(MoveAll(hits, p, q, flush), p) == 0
  {
    var moved := MoveAll(hits, p, q, flush);
    hide Count;
    forall h | 0 <= h < |moved| ensures moved[h].first.place != p && moved[h].again.place != p {
      assert moved[h].first == MoveToken(hits[h].first, p, q, flush);
      assert moved[h].again == MoveToken(hits[h].again, p, q, flush);
    }
    hide MoveAll, MoveToken;
    CountNone(moved, p);
  }

  lemma MovedIn(hits: seq<Hit>, p: Place, q: Place, flush: Option<Moment>)
    requires p != q
    ensures Count(MoveAll(hits, p, q, flush), q) == Count(hits, p) + Count(hits, q)
  {
    var moved := MoveAll(hits, p, q, flush);
    hide Count, At, MoveToken;
    forall h | 0 <= h < |hits|
      ensures At(moved[h].first, q) == At(hits[h].first, p) + At(hits[h].first, q)
      ensures At(moved[h].again, q) == At(hits[h].again, p) + At(hits[h].again, q)
    {
      MovedToken(hits[h].first, p, q, flush, q);
      MovedToken(hits[h].again, p, q, flush, q);
    }
    CountMerged(hits, moved, p, q);
  }

  lemma MovedPast(hits: seq<Hit>, p: Place, q: Place, flush: Option<Moment>, r: Place)
    requires p != q && r != p && r != q
    ensures Count(MoveAll(hits, p, q, flush), r) == Count(hits, r)
  {
    var moved := MoveAll(hits, p, q, flush);
    hide Count, At, MoveToken;
    forall h | 0 <= h < |hits|
      ensures At(moved[h].first, r) == At(hits[h].first, r) && At(moved[h].again, r) == At(hits[h].again, r)
    {
      MovedToken(hits[h].first, p, q, flush, r);
      MovedToken(hits[h].again, p, q, flush, r);
    }
    CountCarried(hits, moved, r, r);
  }

  lemma MovedCount(hits: seq<Hit>, p: Place, q: Place, flush: Option<Moment>, r: Place)
    requires p != q
    ensures Count(MoveAll(hits, p, q, flush), r)
         == if r == p then 0 else if r == q then Count(hits, p) + Count(hits, q) else Count(hits, r)
  {
    hide Count, MoveAll;
    if r == p {
      MovedAway(hits, p, q, flush);
    } else if r == q {
      MovedIn(hits, p, q, flush);
    } else {
      MovedPast(hits, p, q, flush, r);
    }
  }

  /** A hit that has not been flushed has one count only. */
  predicate Single(x: Hit) {
    && !x.again.place.Pocket? && !x.first.place.Echo? && !x.first.place.Nowhere?
    && (x.first.place.Pocket? ==> x.again == UNUSED)
    && (x.again.place.Echo? || x.again.place.Nowhere? ==> x.again.flush.None?)
  }

  predicate AllSingle(hits: seq<Hit>) {
    forall h :: 0 <= h < |hits| ==> Single(hits[h])
  }

  lemma {:induction false} EchoedCount(hits: seq<Hit>, i: nat)
    requires AllSingle(hits)
    ensures Count(EchoAll(hits, i), Echo(i)) == Count(hits, Echo(i)) + Count(hits, Pocket(i))
  {
    if hits == [] {
    } else {
      var n := |hits| - 1;
      assert EchoAll(hits, i)[..n] == EchoAll(hits[..n], i);
      EchoedCount(hits[..n], i);
      assert Single(hits[n]);
    }
  }

  lemma EchoedElsewhere(hits: seq<Hit>, i: nat, r: Place)
    requires AllSingle(hits) && r != Echo(i) && !r.Nowhere?
    ensures Count(EchoAll(hits, i), r) == Count(hits, r)
  {
    forall h | 0 <= h < |hits| ensures At(EchoHit(hits[h], i).again, r) == At(hits[h].again, r) {
      assert Single(hits[h]);
    }
    CountCarried(hits, EchoAll(hits, i), r, r);
  }

  // ---- the counters count what the hits say

  /** What the counter that stands for the place shows. */
  function Counter(s: State, p: Place): int {
    match p
    case Pocket(i) => if i < |s.threads| then Unflushed(s.threads[i]) else 0
    case Echo(i) => if i < |s.threads| then Echoed(s.threads[i]) else 0
    case Shared => if s.agent.Read? then s.pointsHit - s.inHand else s.pointsHit
    case InHand => if s.agent.Read? || s.agent.Zeroed? then s.inHand else 0
    case InRow(k) => if k < |s.rows| then s.rows[k] else 0
    case LostAtZeroing => s.lost.atZeroing
    case LostAtStart => s.lost.atStart
    case LostUnnamed => s.lost.unnamed
    case Nowhere => 0
  }

  /** Hits that a handler would add again. */
  function Echoed(t: Thread): nat {
    if t.base.ExitFlushed? && !t.handler.Flushed? then t.hits else 0
  }

  /** How many hits are counted twice. */
  function Doubled(hits: seq<Hit>): nat {
    if hits == [] then 0
    else Doubled(hits[..|hits| - 1]) + if hits[|hits| - 1].again.flush.Some? then 1 else 0
  }

  ghost predicate CountsAgree(s: State, hits: seq<Hit>) {
    forall p: Place :: !p.Nowhere? ==> Count(hits, p) == Counter(s, p)
  }

  ghost predicate Counted(s: State, t: Trace) {
    && |t.hits| == s.breakpoints && |t.rowOf| == |s.rows| && Doubled(t.hits) == s.duplicated && AllSingle(t.hits)
    && CountsAgree(s, t.hits)
  }

  /** If the counts at `p` go to `q` and the counters say so too, all still agree. */
  lemma MovedAgrees(s: State, hits: seq<Hit>, s': State, p: Place, q: Place, flush: Option<Moment>)
    requires CountsAgree(s, hits) && p != q && !p.Nowhere?
    requires !q.Nowhere? ==> Counter(s', q) == Counter(s, p) + Counter(s, q)
    requires Counter(s', p) == 0
    requires forall r :: r != p && r != q ==> Counter(s', r) == Counter(s, r)
    ensures CountsAgree(s', MoveAll(hits, p, q, flush))
  {
    hide Count, Counter;
    assert Count(hits, p) == Counter(s, p) && (!q.Nowhere? ==> Count(hits, q) == Counter(s, q));
    forall r: Place | !r.Nowhere? ensures Count(MoveAll(hits, p, q, flush), r) == Counter(s', r) {
      MovedCount(hits, p, q, flush, r);
      assert Count(hits, r) == Counter(s, r);
    }
  }

  lemma {:induction false} DoubledSame(hits: seq<Hit>, hits': seq<Hit>)
    requires |hits'| == |hits|
    requires forall h :: 0 <= h < |hits| ==> (hits'[h].again.flush.Some? <==> hits[h].again.flush.Some?)
    ensures Doubled(hits') == Doubled(hits)
  {
    if hits == [] {
    } else {
      DoubledSame(hits[..|hits| - 1], hits'[..|hits| - 1]);
    }
  }

  /** Hits counted twice are those whose echo was flushed. */
  lemma {:induction false} DoubledMore(hits: seq<Hit>, i: nat, m: Moment)
    requires AllSingle(hits)
    ensures Doubled(MoveAll(hits, Echo(i), Shared, Some(m))) == Doubled(hits) + Count(hits, Echo(i))
  {
    if hits == [] {
    } else {
      var n := |hits| - 1;
      assert MoveAll(hits, Echo(i), Shared, Some(m))[..n] == MoveAll(hits[..n], Echo(i), Shared, Some(m));
      DoubledMore(hits[..n], i, m);
      assert Single(hits[n]);
    }
  }

  lemma {:induction false} DoubledNone(hits: seq<Hit>)
    ensures Doubled(hits) == 0 <==> forall h :: 0 <= h < |hits| ==> hits[h].again.flush.None?
  {
    if hits == [] {
    } else {
      var n := |hits| - 1;
      DoubledNone(hits[..n]);
      assert forall h :: 0 <= h < n ==> hits[..n][h] == hits[h];
      if Doubled(hits) == 0 {
        forall h | 0 <= h < |hits| ensures hits[h].again.flush.None? {
          assert h < n ==> hits[..n][h].again.flush.None?;
        }
      }
    }
  }

  /** Moving keeps hits single; only the flush of an echo doubles one. */
  lemma MovedKeeps(hits: seq<Hit>, p: Place, q: Place, flush: Option<Moment>)
    requires AllSingle(hits) && !p.Nowhere? && !q.Pocket? && !q.Echo?
    requires q.Nowhere? ==> p.Echo? && flush.None?
    ensures AllSingle(MoveAll(hits, p, q, flush))
    ensures p.Pocket? || flush.None? ==> Doubled(MoveAll(hits, p, q, flush)) == Doubled(hits)
  {
    var moved := MoveAll(hits, p, q, flush);
    hide Doubled;
    forall h | 0 <= h < |hits|
      ensures Single(moved[h])
      ensures p.Pocket? || flush.None? ==> (moved[h].again.flush.Some? <==> hits[h].again.flush.Some?)
    {
      assert Single(hits[h]);
    }
    if p.Pocket? || flush.None? { DoubledSame(hits, moved); }
  }

  lemma ExitKeeps(hits: seq<Hit>, i: nat, flush: Option<Moment>)
    requires AllSingle(hits) && flush.Some?
    ensures AllSingle(MoveAll(EchoAll(hits, i), Pocket(i), Shared, flush))
    ensures Doubled(MoveAll(EchoAll(hits, i), Pocket(i), Shared, flush)) == Doubled(hits)
  {
    var moved := MoveAll(EchoAll(hits, i), Pocket(i), Shared, flush);
    hide Doubled;
    forall h | 0 <= h < |hits| ensures Single(moved[h]) && (moved[h].again.flush.Some?
        <==> hits[h].again.flush.Some?) {
      assert Single(hits[h]);
    }
    DoubledSame(hits, moved);
  }

  lemma CountedAdd(s: State, t: Trace, i: nat)
    requires Inv(s) && Counted(s, t) && Enabled(s, ByThread(i, Add))
    ensures Counted(Apply(s, ByThread(i, Add)), FollowThread(s, t, i, Add))
  {
    var s' := Apply(s, ByThread(i, Add));
    var p := if Doubles(s.threads[i], Add) then Echo(i) else Pocket(i);
    assert Counter(s', Shared) == Counter(s, p) + Counter(s, Shared) && Counter(s', p) == 0;
    assert forall r :: r != p && r != Shared ==> Counter(s', r) == Counter(s, r);
    assert Doubles(s.threads[i], Add) ==> Counter(s, p) == s.threads[i].hits;
    hide Inv, Count, Counter, Doubled, AllSingle, MoveAll;
    MovedKeeps(t.hits, p, Shared, Now(s, t));
    MovedAgrees(s, t.hits, s', p, Shared, Now(s, t));
    if Doubles(s.threads[i], Add) {
      DoubledMore(t.hits, i, Now(s, t).value);
      assert Count(t.hits, p) == Counter(s, p);
    }
  }

  lemma CountedExitAdd(s: State, t: Trace, i: nat)
    requires Counted(s, t) && Enabled(s, ByThread(i, ExitAdd))
    ensures Counted(Apply(s, ByThread(i, ExitAdd)), FollowThread(s, t, i, ExitAdd))
  {
    var s' := Apply(s, ByThread(i, ExitAdd));
    var hits' := FollowThread(s, t, i, ExitAdd).hits;
    assert Counter(s', Shared) == Counter(s, Pocket(i)) + Counter(s, Shared);
    assert Counter(s', Pocket(i)) == 0 && Counter(s', Echo(i)) == Counter(s, Echo(i)) + Counter(s, Pocket(i));
    assert forall r :: r != Pocket(i) && r != Echo(i) && r != Shared ==> Counter(s', r) == Counter(s, r);
    hide Count, Counter, Doubled, MoveAll, EchoAll, AllSingle;
    ExitKeeps(t.hits, i, Now(s, t));
    forall r: Place | !r.Nowhere? ensures Count(hits', r) == Counter(s', r) {
      ExitCount(t.hits, i, Now(s, t), r);
      assert Count(t.hits, r) == Counter(s, r) && Count(t.hits, Pocket(i)) == Counter(s, Pocket(i));
    }
  }

  lemma ExitCount(hits: seq<Hit>, i: nat, flush: Option<Moment>, r: Place)
    requires AllSingle(hits) && !r.Nowhere?
    ensures Count(MoveAll(EchoAll(hits, i), Pocket(i), Shared, flush), r)
         == if r == Pocket(i) then 0 else if r == Shared || r == Echo(i)
             then Count(hits, Pocket(i)) + Count(hits, r) else Count(hits, r)
  {
    hide Count, MoveAll, EchoAll, AllSingle;
    MovedCount(EchoAll(hits, i), Pocket(i), Shared, flush, r);
    EchoedCount(hits, i);
    EchoedElsewhere(hits, i, Pocket(i));
    if r != Echo(i) { EchoedElsewhere(hits, i, r); }
  }

  lemma CountedZero(s: State, t: Trace, i: nat, step: ThreadStep)
    requires Counted(s, t) && (step.Zero? || step.ExitZero?) && Enabled(s, ByThread(i, step))
    ensures Counted(Apply(s, ByThread(i, step)), FollowThread(s, t, i, step))
  {
    var s' := Apply(s, ByThread(i, step));
    assert Counter(s', Echo(i)) == 0;
    assert forall r :: r != Echo(i) && r != Nowhere ==> Counter(s', r) == Counter(s, r);
    hide Count, Counter, Doubled, MoveAll, AllSingle;
    MovedKeeps(t.hits, Echo(i), Nowhere, None);
    MovedAgrees(s, t.hits, s', Echo(i), Nowhere, None);
  }

  lemma CountedBreakpoint(s: State, t: Trace, i: nat)
    requires Counted(s, t) && s.InExperiment() && Enabled(s, ByThread(i, Breakpoint))
    ensures Counted(Apply(s, ByThread(i, Breakpoint)), FollowThread(s, t, i, Breakpoint))
  {
    var x := Hit(t.experiments, Token(Pocket(i), None), UNUSED);
    assert (t.hits + [x])[..|t.hits|] == t.hits;
    forall p: Place | !p.Nowhere? ensures Count(t.hits + [x], p) == Counter(Apply(s, ByThread(i, Breakpoint)), p) {
      CountSnoc(t.hits, x, p);
      assert Count(t.hits, p) == Counter(s, p);
    }
  }

  lemma CountedThread(s: State, t: Trace, i: nat, step: ThreadStep)
    requires Inv(s) && Counted(s, t) && Enabled(s, ByThread(i, step))
    ensures Counted(Apply(s, ByThread(i, step)), FollowThread(s, t, i, step))
  {
    var s' := Apply(s, ByThread(i, step));
    if step.Add? {
      CountedAdd(s, t, i);
    } else if step.ExitAdd? {
      CountedExitAdd(s, t, i);
    } else if step.Zero? || step.ExitZero? {
      CountedZero(s, t, i, step);
    } else if step.Breakpoint? && s.InExperiment() {
      CountedBreakpoint(s, t, i);
    } else {
      forall p: Place | !p.Nowhere? ensures Count(t.hits, p) == Counter(s', p) {
        assert Count(t.hits, p) == Counter(s, p);
      }
    }
  }

  /** What the agent moves, and where to. */
  lemma CountedMove(s: State, t: Trace, s': State, p: Place, q: Place, rowOf: seq<nat>)
    requires Counted(s, t) && p != q && (p.Shared? || p.InHand?) && !q.Nowhere? && !q.Pocket? && !q.Echo?
    requires Counter(s', q) == Counter(s, p) + Counter(s, q) && Counter(s', p) == 0
    requires forall r :: r != p && r != q ==> Counter(s', r) == Counter(s, r)
    requires s'.breakpoints == s.breakpoints && s'.duplicated == s.duplicated && |rowOf| == |s'.rows|
    ensures Counted(s', t.(hits := MoveAll(t.hits, p, q, None), rowOf := rowOf))
  {
    hide Count, Doubled, Counter, MoveAll, AllSingle;
    MovedKeeps(t.hits, p, q, None);
    MovedAgrees(s, t.hits, s', p, q, None);
  }

  predicate AgentMoves(s: State, act: AgentStep, p: Place, q: Place) {
    match act
    case ClearHits => p == Shared && q == LostAtStart
    case ReadHits => p == Shared && q == InHand
    case ZeroHits => p == Shared && q == LostAtZeroing
    case WriteRow => p == InHand && q == InRow(|s.rows|)
    case Discard => p == InHand && q == LostUnnamed
    case _ => false
  }

  lemma AgentCounters(s: State, act: AgentStep, p: Place, q: Place)
    requires AgentEnabled(s, act) && AgentMoves(s, act, p, q)
    ensures var s' := ApplyAgent(s, act);
            && Counter(s', q) == Counter(s, p) + Counter(s, q) && Counter(s', p) == 0
            && forall r :: r != p && r != q ==> Counter(s', r) == Counter(s, r)
  {
  }

  lemma AgentMovesAll(s: State, t: Trace, act: AgentStep, p: Place, q: Place)
    requires Counted(s, t) && AgentEnabled(s, act) && AgentMoves(s, act, p, q)
    ensures Counted(ApplyAgent(s, act), FollowAgent(s, t, act))
  {
    AgentCounters(s, act, p, q);
    hide Counter, Counted;
    CountedMove(s, t, ApplyAgent(s, act), p, q, FollowAgent(s, t, act).rowOf);
  }

  lemma CountedAgent(s: State, t: Trace, act: AgentStep)
    requires Counted(s, t) && AgentEnabled(s, act)
    ensures Counted(ApplyAgent(s, act), FollowAgent(s, t, act))
  {
    if p, q :| AgentMoves(s, act, p, q) {
      AgentMovesAll(s, t, act, p, q);
    } else {
      assert !AgentMoves(s, act, Shared, LostAtStart) && !AgentMoves(s, act, Shared, InHand);
      assert !AgentMoves(s, act, Shared, LostAtZeroing) && !AgentMoves(s, act, InHand, InRow(|s.rows|));
      assert !AgentMoves(s, act, InHand, LostUnnamed);
      forall p: Place | !p.Nowhere? ensures Count(t.hits, p) == Counter(ApplyAgent(s, act), p) {
        assert Count(t.hits, p) == Counter(s, p);
      }
    }
  }

  lemma CountedErase(s: State, t: Trace, i: nat)
    requires Inv(s) && Counted(s, t) && Enabled(s, Erase(i))
    ensures Counted(Apply(s, Erase(i)), Follow(s, t, Erase(i)))
  {
    var hits' := ShiftAll(t.hits, i);
    assert Count(t.hits, Pocket(i)) == Counter(s, Pocket(i)) == 0;
    assert Count(t.hits, Echo(i)) == Counter(s, Echo(i)) == 0;
    hide Count, Counter, Doubled, Inv;
    CountNone(t.hits, Pocket(i));
    CountNone(t.hits, Echo(i));
    assert forall h :: 0 <= h < |t.hits| ==> Single(t.hits[h]) && Single(hits'[h]);
    DoubledSame(t.hits, hits');
    forall p: Place | !p.Nowhere? ensures Count(hits', p) == Counter(Apply(s, Erase(i)), p) {
      ShiftedCount(t.hits, i, p);
      ShiftedCounter(s, i, p);
      assert Count(t.hits, Before(p, i)) == Counter(s, Before(p, i));
    }
  }

  /** Where the counts at `p` were before the erasing. */
  function Before(p: Place, i: nat): Place {
    match p
    case Pocket(j) => if j >= i then Pocket(j + 1) else p
    case Echo(j) => if j >= i then Echo(j + 1) else p
    case _ => p
  }

  lemma ShiftedCount(hits: seq<Hit>, i: nat, p: Place)
    requires forall h :: 0 <= h < |hits| ==> hits[h].first.place != Pocket(i) && hits[h].again.place != Pocket(i)
    requires forall h :: 0 <= h < |hits| ==> hits[h].first.place != Echo(i) && hits[h].again.place != Echo(i)
    ensures Count(ShiftAll(hits, i), p) == Count(hits, Before(p, i))
  {
    hide Count;
    CountCarried(hits, ShiftAll(hits, i), Before(p, i), p);
  }

  lemma ShiftedCounter(s: State, i: nat, p: Place)
    requires Enabled(s, Erase(i))
    ensures Counter(Apply(s, Erase(i)), p) == Counter(s, Before(p, i))
  {
  }

  lemma CountedStep(s: State, t: Trace, a: Action)
    requires Inv(s) && Counted(s, t) && Enabled(s, a)
    ensures Counted(Apply(s, a), Follow(s, t, a))
  {
    match a {
      case Spawn =>
        forall p: Place | !p.Nowhere? ensures Count(t.hits, p) == Counter(Apply(s, a), p) {
          assert Count(t.hits, p) == Counter(s, p);
        }
      case Erase(i) => CountedErase(s, t, i);
      case ByThread(i, step) => CountedThread(s, t, i, step);
      case ByAgent(act) => CountedAgent(s, t, act);
    }
  }

  // ---- where a hit is counted follows from when it was flushed

  /** The experiment has written no row. */
  predicate NoRow(t: Trace, experiment: nat) {
    forall k :: 0 <= k < |t.rowOf| ==> t.rowOf[k] != experiment
  }

  /** While an experiment is under way it has no row yet. */
  predicate RowsInOrder(s: State, t: Trace) {
    && |t.rowOf| == |s.rows|
    && (forall k, l :: 0 <= k < l < |t.rowOf| ==> t.rowOf[k] < t.rowOf[l])
    && (forall k :: 0 <= k < |t.rowOf| ==>
          t.rowOf[k] <= t.experiments && (!s.agent.Sampling? ==> t.rowOf[k] < t.experiments))
  }

  predicate TokenInPlace(s: State, t: Trace, experiment: nat, tok: Token) {
    && (tok.flush.Some? ==> experiment <= tok.flush.value.experiment <= t.experiments)
    && match tok.place
       case Pocket(_) => tok.flush.None?
       case Echo(_) => tok.flush.None?
       case Nowhere => tok.flush.None?
       case Shared =>
         && tok.flush.Some?
         && (tok.flush.value.window == WindowOf(s.agent) || (s.agent.Stopped? && tok.flush.value.window == Own))
         && (tok.flush.value.window == Own ==> tok.flush.value.experiment == t.experiments)
       case InHand => (s.agent.Read? || s.agent.Zeroed?) && tok.flush == Some(Moment(t.experiments, Own))
       case InRow(k) => k < |t.rowOf| && tok.flush == Some(Moment(t.rowOf[k], Own))
       case LostAtZeroing => tok.flush.Some? && tok.flush.value.window == Late
       case LostAtStart => tok.flush.Some? && tok.flush.value.window == Gap
       case LostUnnamed =>
         && tok.flush.Some? && tok.flush.value.window == Own
         && (!s.agent.Sampling? ==> tok.flush.value.experiment < t.experiments)
         && NoRow(t, tok.flush.value.experiment)
  }

  predicate InPlace(s: State, t: Trace, x: Hit) {
    x.experiment <= t.experiments && TokenInPlace(s, t, x.experiment, x.first)
        && TokenInPlace(s, t, x.experiment, x.again)
  }

  predicate AllInPlace(s: State, t: Trace) {
    RowsInOrder(s, t) && forall h :: 0 <= h < |t.hits| ==> InPlace(s, t, t.hits[h])
  }

  lemma InPlaceAgent(s: State, t: Trace, act: AgentStep)
    requires AllInPlace(s, t) && AgentEnabled(s, act)
    ensures AllInPlace(ApplyAgent(s, act), FollowAgent(s, t, act))
  {
    var s', t' := ApplyAgent(s, act), FollowAgent(s, t, act);
    forall h | 0 <= h < |t'.hits| ensures InPlace(s', t', t'.hits[h]) {
      assert InPlace(s, t, t.hits[h]);
      TokenAgent(s, t, act, t.hits[h].experiment, t.hits[h].first);
      TokenAgent(s, t, act, t.hits[h].experiment, t.hits[h].again);
    }
  }

  /** What an agent step does to one count of a hit. */
  function TokenAfter(s: State, act: AgentStep, tok: Token): Token {
    match act
    case ClearHits => MoveToken(tok, Shared, LostAtStart, None)
    case ReadHits => MoveToken(tok, Shared, InHand, None)
    case ZeroHits => MoveToken(tok, Shared, LostAtZeroing, None)
    case WriteRow => MoveToken(tok, InHand, InRow(|s.rows|), None)
    case Discard => MoveToken(tok, InHand, LostUnnamed, None)
    case _ => tok
  }

  lemma TokenAgent(s: State, t: Trace, act: AgentStep, experiment: nat, tok: Token)
    requires RowsInOrder(s, t) && experiment <= t.experiments && TokenInPlace(s, t, experiment, tok)
        && AgentEnabled(s, act)
    ensures TokenInPlace(ApplyAgent(s, act), FollowAgent(s, t, act), experiment, TokenAfter(s, act, tok))
  {
  }

  lemma InPlaceThread(s: State, t: Trace, i: nat, step: ThreadStep)
    requires AllInPlace(s, t) && AllSingle(t.hits) && Enabled(s, ByThread(i, step))
    ensures AllInPlace(Apply(s, ByThread(i, step)), FollowThread(s, t, i, step))
  {
    var s', t' := Apply(s, ByThread(i, step)), FollowThread(s, t, i, step);
    forall h | 0 <= h < |t'.hits| ensures InPlace(s', t', t'.hits[h]) {
      if h < |t.hits| {
        assert InPlace(s, t, t.hits[h]) && Single(t.hits[h]);
        InPlaceHit(s, t, i, step, t.hits[h], t'.hits[h]);
      }
    }
  }

  /** What a thread step does to one hit. */
  function HitAfter(s: State, t: Trace, i: nat, step: ThreadStep, x: Hit): Hit
    requires i < |s.threads|
  {
    match step
    case Add =>
      var p := if Doubles(s.threads[i], step) then Echo(i) else Pocket(i);
      Hit(x.experiment, MoveToken(x.first, p, Shared, Now(s, t)), MoveToken(x.again, p, Shared, Now(s, t)))
    case ExitAdd =>
      var y := EchoHit(x, i);
      Hit(x.experiment, MoveToken(y.first, Pocket(i), Shared, Now(s, t)), MoveToken(y.again, Pocket(i), Shared,
          Now(s, t)))
    case Zero => Hit(x.experiment, MoveToken(x.first, Echo(i), Nowhere, None), MoveToken(x.again, Echo(i),
        Nowhere, None))
    case ExitZero => Hit(x.experiment, MoveToken(x.first, Echo(i), Nowhere, None), MoveToken(x.again, Echo(i),
        Nowhere, None))
    case _ => x
  }

  lemma InPlaceHit(s: State, t: Trace, i: nat, step: ThreadStep, x: Hit, x': Hit)
    requires RowsInOrder(s, t) && InPlace(s, t, x) && Enabled(s, ByThread(i, step))
        && x' == HitAfter(s, t, i, step, x)
    ensures InPlace(Apply(s, ByThread(i, step)), FollowThread(s, t, i, step), x')
  {
  }

  lemma InPlaceStep(s: State, t: Trace, a: Action)
    requires AllInPlace(s, t) && AllSingle(t.hits) && Enabled(s, a)
    ensures AllInPlace(Apply(s, a), Follow(s, t, a))
  {
    match a {
      case Spawn =>
        forall h | 0 <= h < |t.hits| ensures InPlace(Apply(s, a), t, t.hits[h]) {
          assert InPlace(s, t, t.hits[h]);
        }
      case Erase(i) =>
        forall h | 0 <= h < |t.hits| ensures InPlace(Apply(s, a), Follow(s, t, a), Follow(s, t, a).hits[h]) {
          assert InPlace(s, t, t.hits[h]);
        }
      case ByThread(i, step) => InPlaceThread(s, t, i, step);
      case ByAgent(act) => InPlaceAgent(s, t, act);
    }
  }

  lemma {:induction false} TraceRun(s: State, t: Trace, run: seq<Action>)
    requires Inv(s) && Counted(s, t) && AllInPlace(s, t) && Legal(s, run)
    ensures Counted(Exec(s, run), FollowAll(s, t, run)) && AllInPlace(Exec(s, run), FollowAll(s, t, run))
    decreases |run|
  {
    if run == [] {
    } else {
      StepInv(s, run[0]);
      CountedStep(s, t, run[0]);
      InPlaceStep(s, t, run[0]);
      hide Inv, Counted, AllInPlace;
      TraceRun(Apply(s, run[0]), Follow(s, t, run[0]), run[1..]);
    }
  }

  lemma NothingYet(s: State)
    requires s == INITIAL
    ensures Counted(s, NOTHING) && AllInPlace(s, NOTHING)
  {
  }

  /** A count is in the row exactly when it was flushed while the experiment of that row was
      counting, and lost exactly when it was flushed at a wrong time or its experiment's row
      was never written. */
  predicate Attributed(s: State, t: Trace, experiment: nat, tok: Token) {
    && (forall k :: 0 <= k < |t.rowOf| ==> (tok.place == InRow(k) <==> tok.flush == Some(Moment(t.rowOf[k], Own))))
    && (tok.place.InRow? ==> tok.place.k < |t.rowOf| && experiment <= t.rowOf[tok.place.k])
    && (!s.agent.Read? ==> (tok.place.LostAtZeroing? <==> tok.flush.Some? && tok.flush.value.window == Late))
    && (WindowOf(s.agent) != Gap ==> (tok.place.LostAtStart? <==> tok.flush.Some? && tok.flush.value.window == Gap))
    && (s.agent.Sampling? ==>
          (tok.place.LostUnnamed? <==>
             tok.flush.Some? && tok.flush.value.window == Own && NoRow(t, tok.flush.value.experiment)))
    && (tok.place.Pocket? || tok.place.Echo? || tok.place.Nowhere? <==> tok.flush.None?)
  }

  lemma PlacesAreMoments(s: State, t: Trace, experiment: nat, tok: Token)
    requires RowsInOrder(s, t) && TokenInPlace(s, t, experiment, tok)
    ensures Attributed(s, t, experiment, tok)
  {
    forall k | 0 <= k < |t.rowOf| && tok.flush == Some(Moment(t.rowOf[k], Own)) ensures tok.place == InRow(k) {
      if tok.place.InRow? {
        assert t.rowOf[tok.place.k] == t.rowOf[k];
        assert !(tok.place.k < k) && !(k < tok.place.k);
      }
    }
  }

  /** Each row is the number of counts that were flushed between the clearing and the reading of the
      counter in that row's own experiment, no count is in a row of an experiment before its
      hit, and every other counter is a number of counts as well.  A hit has one count, and a
      second one only if it was doubled. */
  ghost predicate RowsAreOwnFlushes(s: State, t: Trace) {
    && |t.hits| == s.breakpoints && |t.rowOf| == |s.rows| && Doubled(t.hits) == s.duplicated
    && CountsAgree(s, t.hits)
    && (forall k, l :: 0 <= k < l < |t.rowOf| ==> t.rowOf[k] < t.rowOf[l])
    && (forall h :: 0 <= h < |t.hits| ==>
          && Attributed(s, t, t.hits[h].experiment, t.hits[h].first)
          && Attributed(s, t, t.hits[h].experiment, t.hits[h].again)
          && !t.hits[h].first.place.Echo? && !t.hits[h].first.place.Nowhere? && !t.hits[h].again.place.Pocket?)
  }

  lemma CountedInPlace(s: State, t: Trace)
    requires Counted(s, t) && AllInPlace(s, t)
    ensures RowsAreOwnFlushes(s, t)
  {
    hide Count, Counter, Doubled, Attributed;
    forall h | 0 <= h < |t.hits|
      ensures Attributed(s, t, t.hits[h].experiment, t.hits[h].first)
      ensures Attributed(s, t, t.hits[h].experiment, t.hits[h].again)
      ensures Single(t.hits[h])
    {
      assert InPlace(s, t, t.hits[h]);
      PlacesAreMoments(s, t, t.hits[h].experiment, t.hits[h].first);
      PlacesAreMoments(s, t, t.hits[h].experiment, t.hits[h].again);
    }
  }

  ghost predicate AllAttributed(s: State, t: Trace, run: seq<Action>)
    requires Legal(s, run)
  {
    var t' := FollowAll(s, t, run);
    && RowsAreOwnFlushes(Exec(s, run), t')
    && ((forall h :: 0 <= h < |t'.hits| ==> t'.hits[h].again.flush.None?) <==> NoneDoubled(s, run))
  }

  lemma AttributedFrom(s: State, t: Trace, run: seq<Action>)
    requires Inv(s) && Counted(s, t) && AllInPlace(s, t) && s.duplicated == 0 && Legal(s, run)
    ensures AllAttributed(s, t, run)
  {
    hide Inv, AllInPlace, NoneDoubled, Counted, RowsAreOwnFlushes;
    TraceRun(s, t, run);
    CountedInPlace(Exec(s, run), FollowAll(s, t, run));
    CountedDoubles(Exec(s, run), FollowAll(s, t, run));
    DuplicatesAreExact(s, run);
    DoubledNone(FollowAll(s, t, run).hits);
  }

  /** Over every run of the program; and every hit is counted just once if and only if no handler
      doubles the exit of its thread. */
  lemma EveryHitIsAttributed(s: State, run: seq<Action>)
    requires s == INITIAL && Legal(s, run)
    ensures AllAttributed(s, NOTHING, run)
  {
    hide NoLosses, Inv, AllInPlace, Legal, Counted, AllAttributed;
    InitialNoLosses(s);
    NothingYet(s);
    NoDuplicatesYet(s);
    AttributedFrom(s, NOTHING, run);
  }

  lemma NoDuplicatesYet(s: State)
    requires s == INITIAL
    ensures s.duplicated == 0
  {
  }

  lemma CountedDoubles(s: State, t: Trace)
    requires Counted(s, t)
    ensures Doubled(t.hits) == s.duplicated
  {
  }
}
