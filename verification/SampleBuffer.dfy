/** The shared sample buffer.  Handlers publish one in-scope frame each into a bounded
    array under the frame lock; the agent drains it and wipes it under the same lock,
    but resets the index without it, even while a handler holds the lock. */
module SampleBuffer {
  import opened Wrappers

  const NUM_STATIC_CALL_FRAMES := 200

  datatype Frame = Frame(methodId: int, bci: int)

  const ZERO := Frame(0, 0)

  /** A fixed array: an update at any other index is not an update of it. */
  type Slots = fs: seq<Frame> | |fs| == NUM_STATIC_CALL_FRAMES
    witness seq(NUM_STATIC_CALL_FRAMES, _ => ZERO)

  /** A handler on its way through the frame lock. */
  datatype Handler =
    | Idle
    | Wanting(frame: Frame)                // found in scope, spinning on the lock
    | Locked(frame: Frame)
    | Drawn(frame: Frame, index: nat)      // has its index, has not written yet
    | Written

  datatype Agent =
    | Sampling
    | Draining(next: nat)                  // holds the lock, about to look at slot `next`
    | Found                                // drained something, lock released
    | Choosing                             // first reset done
    | Experimenting                        // second reset done
    | Cleared                              // about to wipe
    | Wiping                               // holds the lock
    | Wiped                                // holds the lock

  datatype Lock = Free | HeldBy(i: nat) | HeldByAgent

  /** `log` and `wiped` are bookkeeping: the frames drawn an index since the last
      reset, in order of index, and how many of them were drawn before the last wipe. */
  datatype State = State(callIndex: nat, slots: Slots, lock: Lock, handlers: seq<Handler>,
                         agent: Agent, callFrames: seq<Frame>, scope: set<int>,
                         log: seq<Frame>, wiped: nat)

  datatype HandlerStep = See(frame: Frame) | Acquire | Draw | Write | Release

  datatype AgentStep =
    | StartDrain | DrainOne | EndDrain | FirstReset | GiveUp | SecondReset
    | ClearFrames | StartWipe | Wipe | EndWipe

  datatype Action = ByHandler(i: nat, step: HandlerStep) | ByAgent(act: AgentStep) | Spawn | AddScope(methodId: int)

  function Empty(): (slots: Slots)
    ensures forall k :: 0 <= k < |slots| ==> slots[k] == ZERO
  {
    seq(NUM_STATIC_CALL_FRAMES, _ => ZERO)
  }

  function Initial(): State {
    State(0, Empty(), Free, [], Sampling, [], {}, [], 0)
  }

  predicate MoreToDrain(s: State, next: nat) {
    next < s.callIndex && next < NUM_STATIC_CALL_FRAMES
  }

  predicate HandlerEnabled(s: State, h: Handler, step: HandlerStep) {
    match step
    case See(frame) => h.Idle? && frame.methodId in s.scope
    case Acquire => h.Wanting? && s.lock.Free?
    case Draw => h.Locked?
    case Write => h.Drawn?
    case Release => h.Written?
  }

  predicate AgentEnabled(s: State, act: AgentStep) {
    match act
    case StartDrain => s.agent.Sampling? && s.lock.Free?
    case DrainOne => s.agent.Draining? && MoreToDrain(s, s.agent.next)
    case EndDrain => s.agent.Draining? && !MoreToDrain(s, s.agent.next)
    case FirstReset => s.agent.Found?
    case GiveUp => s.agent.Choosing?
    case SecondReset => s.agent.Choosing?
    case ClearFrames => s.agent.Experimenting?
    case StartWipe => s.agent.Cleared? && s.lock.Free?
    case Wipe => s.agent.Wiping?
    case EndWipe => s.agent.Wiped?
  }

  predicate Enabled(s: State, a: Action) {
    match a
    case ByHandler(i, step) => i < |s.handlers| && HandlerEnabled(s, s.handlers[i], step)
    case ByAgent(act) => AgentEnabled(s, act)
    case Spawn => true
    case AddScope(_) => true
  }

  /** A frame drawn beyond the last slot is not stored. */
  function Store(slots: Slots, index: nat, frame: Frame): Slots {
    if index < NUM_STATIC_CALL_FRAMES then slots[index := frame] else slots
  }

  function ApplyHandler(s: State, i: nat, step: HandlerStep): State
    requires i < |s.handlers| && HandlerEnabled(s, s.handlers[i], step)
  {
    var h := s.handlers[i];
    match step
    case See(frame) => s.(handlers := s.handlers[i := Wanting(frame)])
    case Acquire => s.(lock := HeldBy(i), handlers := s.handlers[i := Locked(h.frame)])
    case Draw =>
      s.(callIndex := s.callIndex + 1, log := s.log + [h.frame],
         handlers := s.handlers[i := Drawn(h.frame, s.callIndex)])
    case Write => s.(slots := Store(s.slots, h.index, h.frame), handlers := s.handlers[i := Written])
    case Release => s.(lock := Free, handlers := s.handlers[i := Idle])
  }

  function ApplyAgent(s: State, act: AgentStep): State
    requires AgentEnabled(s, act)
  {
    match act
    case StartDrain => s.(agent := Draining(0), lock := HeldByAgent)
    case DrainOne => s.(agent := Draining(s.agent.next + 1), callFrames := s.callFrames + [s.slots[s.agent.next]])
    case EndDrain => s.(agent := if s.callFrames == [] then Sampling else Found, lock := Free)
    case FirstReset => s.(agent := Choosing, callIndex := 0, log := [], wiped := 0)
    case GiveUp => s.(agent := Sampling, callFrames := [])
    case SecondReset => s.(agent := Experimenting, callIndex := 0, log := [], wiped := 0)
    case ClearFrames => s.(agent := Cleared, callFrames := [])
    case StartWipe => s.(agent := Wiping, lock := HeldByAgent)
    case Wipe => s.(agent := Wiped, slots := Empty(), wiped := |s.log|)
    case EndWipe => s.(agent := Sampling, lock := Free)
  }

  function Apply(s: State, a: Action): State
    requires Enabled(s, a)
  {
    match a
    case ByHandler(i, step) => ApplyHandler(s, i, step)
    case ByAgent(act) => ApplyAgent(s, act)
    case Spawn => s.(handlers := s.handlers + [Idle])
    case AddScope(m) => s.(scope := s.scope + {m})
  }

  predicate Legal(s: State, run: seq<Action>)
    decreases |run|
  {
    run == [] || (Enabled(s, run[0]) && Legal(Apply(s, run[0]), run[1..]))
  }

  function Exec(s: State, run: seq<Action>): State
    requires Legal(s, run)
    decreases |run|
  {
    if run == [] then s else Exec(Apply(s, run[0]), run[1..])
  }

  // ---- the invariant

  /** What slot `k` ought to hold. */
  function Expected(s: State, k: nat): Frame
    requires k < |s.log|
  {
    if k < s.wiped then ZERO else s.log[k]
  }

  /** The slots in use. */
  function Used(s: State): nat {
    if s.callIndex < NUM_STATIC_CALL_FRAMES then s.callIndex else NUM_STATIC_CALL_FRAMES
  }

  predicate Critical(h: Handler) {
    h.Locked? || h.Drawn? || h.Written?
  }

  predicate AgentCritical(a: Agent) {
    a.Draining? || a.Wiping? || a.Wiped?
  }

  /** The holder of the lock has drawn index `k` and not written it yet. */
  predicate InFlight(s: State, k: nat) {
    s.lock.HeldBy? && s.lock.i < |s.handlers| && s.handlers[s.lock.i].Drawn? && s.handlers[s.lock.i].index == k
  }

  predicate LockInv(s: State) {
    && (AgentCritical(s.agent) <==> s.lock.HeldByAgent?)
    && (s.lock.HeldBy? ==> s.lock.i < |s.handlers|)
    && forall i :: 0 <= i < |s.handlers| ==> (Critical(s.handlers[i]) <==> s.lock == HeldBy(i))
  }

  /** A drawn index is the latest one, unless a reset came in between: then none has been
      drawn since, because its holder still has the lock. */
  predicate DrawnInv(s: State, h: Handler) {
    h.Drawn? && s.callIndex != 0 ==>
      h.index == s.callIndex - 1 && h.index < |s.log| && s.log[h.index] == h.frame && s.wiped <= h.index
  }

  predicate HasFrame(h: Handler) {
    h.Wanting? || h.Locked? || h.Drawn?
  }

  predicate InScope(s: State) {
    && (forall k :: 0 <= k < |s.log| ==> s.log[k].methodId in s.scope)
    && (forall i :: 0 <= i < |s.handlers| && HasFrame(s.handlers[i]) ==> s.handlers[i].frame.methodId in s.scope)
  }

  predicate Inv(s: State) {
    && |s.log| == s.callIndex && s.wiped <= |s.log|
    && LockInv(s) && InScope(s)
    && (forall i :: 0 <= i < |s.handlers| ==> DrawnInv(s, s.handlers[i]))
    && (forall k :: 0 <= k < Used(s) && !InFlight(s, k) ==> s.slots[k] == Expected(s, k))
    && (s.agent.Draining? ==>
          && s.agent.next <= Used(s) && |s.callFrames| == s.agent.next
          && forall k :: 0 <= k < s.agent.next ==> s.callFrames[k] == Expected(s, k))
    && (s.agent.Sampling? || s.agent.Cleared? || s.agent.Wiping? || s.agent.Wiped? ==> s.callFrames == [])
  }

  lemma DrawKeeps(s: State, i: nat)
    requires Inv(s) && Enabled(s, ByHandler(i, Draw))
    ensures Inv(Apply(s, ByHandler(i, Draw)))
  {
    var s' := Apply(s, ByHandler(i, Draw));
    forall k | 0 <= k < Used(s') && !InFlight(s', k) ensures s'.slots[k] == Expected(s', k) {
      assert k < Used(s) && !InFlight(s, k);
    }
  }

  lemma WriteKeeps(s: State, i: nat)
    requires Inv(s) && Enabled(s, ByHandler(i, Write))
    ensures Inv(Apply(s, ByHandler(i, Write)))
  {
    var s' := Apply(s, ByHandler(i, Write));
    assert DrawnInv(s, s.handlers[i]) && s.lock == HeldBy(i);
    forall k | 0 <= k < Used(s') && !InFlight(s', k) ensures s'.slots[k] == Expected(s', k) {
      assert k != s.handlers[i].index ==> !InFlight(s, k);
    }
  }

  lemma StepInv(s: State, a: Action)
    requires Inv(s) && Enabled(s, a)
    ensures Inv(Apply(s, a))
  {
    match a
    case ByHandler(i, step) =>
      if step.Draw? { DrawKeeps(s, i); }
      else if step.Write? { WriteKeeps(s, i); }
      else { OtherHandlerKeeps(s, i, step); }
    case ByAgent(act) => AgentKeeps(s, act);
    case Spawn =>
      var s' := Apply(s, a);
      forall k | 0 <= k < Used(s') && !InFlight(s', k) ensures s'.slots[k] == Expected(s', k) {
        assert !InFlight(s, k);
      }
    case AddScope(_) =>
      var s' := Apply(s, a);
      forall k | 0 <= k < Used(s') && !InFlight(s', k) ensures s'.slots[k] == Expected(s', k) {
        assert !InFlight(s, k);
      }
  }

  lemma OtherHandlerKeeps(s: State, i: nat, step: HandlerStep)
    requires Inv(s) && Enabled(s, ByHandler(i, step)) && !step.Draw? && !step.Write?
    ensures Inv(Apply(s, ByHandler(i, step)))
  {
    var s' := Apply(s, ByHandler(i, step));
    forall k | 0 <= k < Used(s') && !InFlight(s', k) ensures s'.slots[k] == Expected(s', k) {
      assert !InFlight(s, k);
    }
  }

  lemma AgentKeeps(s: State, act: AgentStep)
    requires Inv(s) && AgentEnabled(s, act)
    ensures Inv(ApplyAgent(s, act))
  {
    var s' := ApplyAgent(s, act);
    forall k | 0 <= k < Used(s') && !InFlight(s', k) ensures s'.slots[k] == Expected(s', k) {
      assert s.lock.HeldByAgent? ==> !InFlight(s, k);
    }
  }

  lemma {:induction false} RunInv(s: State, run: seq<Action>)
    requires Inv(s) && Legal(s, run)
    ensures Inv(Exec(s, run))
    decreases |run|
  {
    if run == [] {
    } else {
      StepInv(s, run[0]);
      RunInv(Apply(s, run[0]), run[1..]);
    }
  }

  lemma InitialInv()
    ensures Inv(Initial())
  {
  }

  // ---- the order of the agent's steps

  /** After a drain that found nothing the agent samples again; the two resets are unlocked. */
  predicate Follows(act: AgentStep, next: AgentStep) {
    match act
    case StartDrain => next.DrainOne? || next.EndDrain?
    case DrainOne => next.DrainOne? || next.EndDrain?
    case EndDrain => next.FirstReset? || next.StartDrain?
    case FirstReset => next.GiveUp? || next.SecondReset?
    case GiveUp => next.StartDrain?
    case SecondReset => next.ClearFrames?
    case ClearFrames => next.StartWipe?
    case StartWipe => next.Wipe?
    case Wipe => next.EndWipe?
    case EndWipe => next.StartDrain?
  }

  /** The agent keeps to the order of its program, however the handlers interleave. */
  lemma {:induction false} AgentOrder(s: State, run: seq<Action>, k: nat)
    requires Legal(s, run) && 0 < k < |run| && run[0].ByAgent? && run[k].ByAgent?
    requires forall j :: 0 < j < k ==> !run[j].ByAgent?
    ensures Follows(run[0].act, run[k].act)
  {
    NextAgentStep(Apply(s, run[0]), run[1..], k - 1);
  }

  lemma {:induction false} NextAgentStep(s: State, run: seq<Action>, k: nat)
    requires Legal(s, run) && k < |run| && run[k].ByAgent? && forall j :: 0 <= j < k ==> !run[j].ByAgent?
    ensures exists s': State :: s'.agent == s.agent && AgentEnabled(s', run[k].act)
    decreases k
  {
    if k == 0 {
    } else {
      assert !run[0].ByAgent?;
      assert forall j :: 0 <= j < k - 1 ==> run[1..][j] == run[j + 1];
      NextAgentStep(Apply(s, run[0]), run[1..], k - 1);
    }
  }

  // ---- the same told by the steps of the run

  predicate IsReset(a: Action) {
    a == ByAgent(FirstReset) || a == ByAgent(SecondReset)
  }

  /** The frames drawn an index since the last reset, in order. */
  function DrawnFrames(s: State, run: seq<Action>, before: seq<Frame>): seq<Frame>
    requires Legal(s, run)
    decreases |run|
  {
    if run == [] then before
    else
      var a := run[0];
      DrawnFrames(Apply(s, a), run[1..],
        if IsReset(a) then []
        else if a.ByHandler? && a.step.Draw? then before + [s.handlers[a.i].frame]
        else before)
  }

  /** How many of them the last wipe caught. */
  function Caught(run: seq<Action>, drawn: nat, before: nat): nat {
    if run == [] then before
    else
      var a := run[0];
      if IsReset(a) then Caught(run[1..], 0, 0)
      else if a.ByHandler? && a.step.Draw? then Caught(run[1..], drawn + 1, before)
      else if a == ByAgent(Wipe) then Caught(run[1..], drawn, drawn)
      else Caught(run[1..], drawn, before)
  }

  lemma {:induction false} LogIsDrawn(s: State, run: seq<Action>)
    requires Legal(s, run) && s.callIndex == |s.log|
    ensures Exec(s, run).log == DrawnFrames(s, run, s.log)
    ensures Exec(s, run).callIndex == |Exec(s, run).log|
    ensures Exec(s, run).wiped == Caught(run, |s.log|, s.wiped)
    decreases |run|
  {
    if run == [] {
    } else {
      LogIsDrawn(Apply(s, run[0]), run[1..]);
    }
  }

  /** The frame a handler carries is the one it saw when it last looked. */
  function LastSeen(run: seq<Action>, i: nat, before: Option<Frame>): Option<Frame> {
    if run == [] then before
    else LastSeen(run[1..], i,
      if run[0].ByHandler? && run[0].i == i && run[0].step.See? then Some(run[0].step.frame) else before)
  }

  lemma {:induction false} CarriesWhatItSaw(s: State, run: seq<Action>, i: nat, before: Option<Frame>)
    requires Legal(s, run)
    requires i < |s.handlers| && HasFrame(s.handlers[i]) ==> before == Some(s.handlers[i].frame)
    ensures i < |Exec(s, run).handlers| && HasFrame(Exec(s, run).handlers[i]) ==>
      LastSeen(run, i, before) == Some(Exec(s, run).handlers[i].frame)
    decreases |run|
  {
    if run == [] {
    } else {
      CarriesWhatItSaw(Apply(s, run[0]), run[1..], i,
        if run[0].ByHandler? && run[0].i == i && run[0].step.See? then Some(run[0].step.frame) else before);
    }
  }

  lemma CarriesFromStart(run: seq<Action>, i: nat)
    requires Legal(Initial(), run)
    ensures var s := Exec(Initial(), run);
            i < |s.handlers| && HasFrame(s.handlers[i]) ==> LastSeen(run, i, None) == Some(s.handlers[i].frame)
  {
    CarriesWhatItSaw(Initial(), run, i, None);
  }

  /** Whatever the interleaving, including resets made while a handler is between drawing
      its index and writing its frame: when the agent has drained, it has read exactly the
      first slots in use, and slot `k` is the in-scope frame of the handler that drew `k`
      since the last reset, or the zero frame if that handler drew it before the last wipe. */
  lemma DrainIsExact(run: seq<Action>)
    requires Legal(Initial(), run)
    requires Enabled(Exec(Initial(), run), ByAgent(EndDrain))
    ensures var s := Exec(Initial(), run);
            var drawn := DrawnFrames(Initial(), run, []);
            var caught := Caught(run, 0, 0);
            && s.callIndex == |drawn| && caught <= |drawn|
            && |s.callFrames| == (if |drawn| < 200 then |drawn| else 200)
            && forall k :: 0 <= k < |s.callFrames| ==>
                 if k < caught then s.callFrames[k] == ZERO
                 else s.callFrames[k] == drawn[k] && s.callFrames[k].methodId in s.scope
  {
    InitialInv();
    RunInv(Initial(), run);
    LogIsDrawn(Initial(), run);
    var s := Exec(Initial(), run);
    assert s.agent.next == Used(s);
    forall k | 0 <= k < Used(s)
      ensures if k < s.wiped then s.callFrames[k] == ZERO
              else s.callFrames[k] == s.log[k] && s.callFrames[k].methodId in s.scope
    {
      assert s.callFrames[k] == Expected(s, k);
    }
  }

  /** The agent goes on with what it drained if and only if it drained something, and that is if and
      only if some handler drew an index since the last reset. */
  lemma DrainFindsSomething(run: seq<Action>)
    requires Legal(Initial(), run)
    requires Enabled(Exec(Initial(), run), ByAgent(EndDrain))
    ensures var s := Apply(Exec(Initial(), run), ByAgent(EndDrain));
            && (s.agent.Found? <==> DrawnFrames(Initial(), run, []) != [])
            && (s.agent.Sampling? <==> DrawnFrames(Initial(), run, []) == [])
            && s.lock.Free? && s.callFrames == Exec(Initial(), run).callFrames
  {
    DrainIsExact(run);
  }

  // ---- the buffer itself, each critical section run to its end

  class StaticCallFrames {
    var callIndex: nat
    const slots: array<Frame>
    var callFrames: seq<Frame>

    constructor ()
      ensures slots.Length == NUM_STATIC_CALL_FRAMES && fresh(slots)
      ensures callIndex == 0 && callFrames == [] && slots[..] == Empty()
    {
      callIndex, callFrames := 0, [];
      slots := new Frame[NUM_STATIC_CALL_FRAMES](_ => ZERO);
      new;
      assert slots[..] == Empty();
    }

    method Publish(frame: Frame)
      requires slots.Length == NUM_STATIC_CALL_FRAMES
      modifies this`callIndex, slots
      ensures callIndex == old(callIndex) + 1 && slots[..] == Store(old(slots[..]), old(callIndex), frame)
    {
      var index := callIndex;
      callIndex := callIndex + 1;
      if index < NUM_STATIC_CALL_FRAMES {
        slots[index] := frame;
      }
    }

    /** Copies the slots in use, once each and in order. */
    method Drain()
      requires slots.Length == NUM_STATIC_CALL_FRAMES
      modifies this`callFrames
      ensures callFrames == old(callFrames)
                + slots[..if callIndex < NUM_STATIC_CALL_FRAMES then callIndex else NUM_STATIC_CALL_FRAMES]
    {
      var i := 0;
      while i < callIndex && i < NUM_STATIC_CALL_FRAMES
        invariant i <= callIndex && i <= NUM_STATIC_CALL_FRAMES
        invariant callFrames == old(callFrames) + slots[..i]
      {
        assert slots[..i + 1] == slots[..i] + [slots[i]];
        callFrames := callFrames + [slots[i]];
        i := i + 1;
      }
    }

    method Wipe()
      requires slots.Length == NUM_STATIC_CALL_FRAMES
      modifies slots
      ensures slots[..] == Empty()
    {
      for i := 0 to NUM_STATIC_CALL_FRAMES
        invariant forall k :: 0 <= k < i ==> slots[k] == ZERO
      {
        slots[i] := ZERO;
      }
    }
  }

  // ---- a sample that is wiped but still counted

  ghost predicate Reaches(s: State, s': State) {
    exists run :: Legal(s, run) && Exec(s, run) == s'
  }

  lemma {:induction false} ExecSnoc(s: State, run: seq<Action>, a: Action)
    requires Legal(s, run) && Enabled(Exec(s, run), a)
    ensures Legal(s, run + [a]) && Exec(s, run + [a]) == Apply(Exec(s, run), a)
    decreases |run|
  {
    if run == [] {
      assert (run + [a])[1..] == [];
    } else {
      ExecSnoc(Apply(s, run[0]), run[1..], a);
      assert (run + [a])[1..] == run[1..] + [a];
    }
  }

  lemma Extend(s: State, m: State, a: Action) returns (m': State)
    requires Reaches(s, m) && Enabled(m, a)
    ensures m' == Apply(m, a) && Reaches(s, m')
  {
    var run :| Legal(s, run) && Exec(s, run) == m;
    ExecSnoc(s, run, a);
    m' := Apply(m, a);
  }

  /** One idle handler publishes `frame`. */
  lemma Publish(s: State, m: State, frame: Frame) returns (m': State)
    requires Reaches(s, m) && |m.handlers| == 1 && m.handlers[0].Idle? && m.lock.Free? && frame.methodId in m.scope
    ensures Reaches(s, m')
    ensures m' == m.(callIndex := m.callIndex + 1, log := m.log + [frame],
                     slots := Store(m.slots, m.callIndex, frame))
  {
    m' := Extend(s, m, ByHandler(0, See(frame)));
    m' := Extend(s, m', ByHandler(0, Acquire));
    m' := Extend(s, m', ByHandler(0, Draw));
    m' := Extend(s, m', ByHandler(0, Write));
    m' := Extend(s, m', ByHandler(0, Release));
    assert m'.handlers == m.handlers;
  }

  /** One sample, drained, and the experiment made from it up to its end. */
  lemma ExperimentAfterSample(frame: Frame) returns (s: State)
    ensures Reaches(Initial(), s)
    ensures s.agent.Experimenting? && s.lock.Free? && s.handlers == [Idle] && s.scope == {frame.methodId}
    ensures s.callIndex == 0 && s.log == [] && s.wiped == 0
  {
    var o := Initial();
    s := OneSampleDrained(frame);
    s := Extend(o, s, ByAgent(FirstReset));
    s := Extend(o, s, ByAgent(SecondReset));
  }

  lemma OneSampleDrained(frame: Frame) returns (s: State)
    ensures Reaches(Initial(), s)
    ensures s.agent.Found? && s.lock.Free? && s.handlers == [Idle] && s.scope == {frame.methodId}
    ensures s.callIndex == 1 && s.callFrames == [frame] && s.log == [frame] && s.wiped == 0
  {
    var o := Initial();
    assert Legal(o, []) && Exec(o, []) == o;
    s := Extend(o, o, Spawn);
    s := Extend(o, s, AddScope(frame.methodId));
    s := Publish(o, s, frame);
    s := Extend(o, s, ByAgent(StartDrain));
    s := Extend(o, s, ByAgent(DrainOne));
    s := Extend(o, s, ByAgent(EndDrain));
  }

  /** A sample taken after an experiment's last signal and before the wipe keeps its index:
      the next drain delivers a frame that no handler found. */
  lemma WipedSampleIsDelivered(frame: Frame) returns (s: State)
    ensures Reaches(Initial(), s) && Enabled(s, ByAgent(EndDrain))
    ensures s.callIndex == 1 && s.log == [frame] && s.callFrames == [ZERO]
  {
    var o := Initial();
    s := ExperimentAfterSample(frame);
    s := Publish(o, s, frame);
    s := Extend(o, s, ByAgent(ClearFrames));
    s := Extend(o, s, ByAgent(StartWipe));
    s := Extend(o, s, ByAgent(Wipe));
    s := Extend(o, s, ByAgent(EndWipe));
    s := Extend(o, s, ByAgent(StartDrain));
    s := Extend(o, s, ByAgent(DrainOne));
  }

  /** The resets wait for nobody: a handler that has drawn its index before them, and holds the lock,
      writes its frame after them, into a slot that is not in use any more. */
  lemma ResetsDoNotWait(frame: Frame) returns (drawn: State, s: State)
    ensures Reaches(Initial(), drawn) && drawn.lock == HeldBy(0) && drawn.handlers == [Drawn(frame, 1)]
    ensures drawn.callIndex == 2 && drawn.agent.Found?
    ensures Reaches(drawn, s) && s.agent.Experimenting? && s.callIndex == 0 && s.lock.Free?
    ensures s.slots[1] == frame
  {
    drawn := DrawnBeforeReset(frame);
    assert Legal(drawn, []) && Exec(drawn, []) == drawn;
    s := Extend(drawn, drawn, ByAgent(FirstReset));
    s := Extend(drawn, s, ByAgent(SecondReset));
    s := Extend(drawn, s, ByHandler(0, Write));
    s := Extend(drawn, s, ByHandler(0, Release));
  }

  lemma DrawnBeforeReset(frame: Frame) returns (s: State)
    ensures Reaches(Initial(), s) && s.lock == HeldBy(0) && s.handlers == [Drawn(frame, 1)]
    ensures s.callIndex == 2 && s.agent.Found?
  {
    var o := Initial();
    s := OneSampleDrained(frame);
    s := Extend(o, s, ByHandler(0, See(frame)));
    s := Extend(o, s, ByHandler(0, Acquire));
    s := Extend(o, s, ByHandler(0, Draw));
  }
}
