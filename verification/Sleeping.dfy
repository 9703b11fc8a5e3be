/** Sleeping through interruptions: a retry loop around nanosleep, whose request is
    rejected outright when it is negative or does not fit the tv_nsec field. */
module Sleeping {

  const TV_NSEC_LIMIT := 1000000000

  /** One nanosleep call: what it was asked, whether it returned -1, what its remaining-time
      argument holds afterwards, and how long it took. */
  datatype Call = Call(request: int, failed: bool, remaining: int, elapsed: int)

  predicate Accepted(request: int) {
    0 <= request < TV_NSEC_LIMIT
  }

  /** The POSIX contract of nanosleep; `before` is what the remaining-time argument
      held before the call, which a rejected call leaves in place. */
  predicate Posix(c: Call, before: int) {
    if Accepted(c.request) then
      if c.failed then 0 <= c.remaining <= c.request && 0 <= c.elapsed && c.elapsed + c.remaining >= c.request
      else c.elapsed >= c.request
    else c.failed && c.remaining == before && c.elapsed == 0
  }

  /** Time a call took beyond what it was still needed for. */
  function Excess(c: Call): int {
    if !Accepted(c.request) then 0
    else if c.failed then c.elapsed + c.remaining - c.request
    else c.elapsed - c.request
  }

  /** All calls so far failed, each retrying what the one before it reported
      remaining, and the next is to be asked for `next`. */
  predicate Failing(request: int, calls: seq<Call>, next: int)
    decreases |calls|
  {
    if calls == [] then next == request
    else
      var n := |calls| - 1;
      var c := calls[n];
      && c.failed && next == c.remaining
      && Posix(c, if n == 0 then 0 else c.request)
      && Failing(request, calls[..n], c.request)
  }

  /** The calls of one complete sleep. */
  predicate Retries(request: int, calls: seq<Call>) {
    && calls != []
    && (var n := |calls| - 1;
        && !calls[n].failed
        && Posix(calls[n], if n == 0 then 0 else calls[n].request)
        && Failing(request, calls[..n], calls[n].request))
  }

  function Elapsed(calls: seq<Call>): int {
    if calls == [] then 0 else Elapsed(calls[..|calls| - 1]) + calls[|calls| - 1].elapsed
  }

  function Excesses(calls: seq<Call>): int {
    if calls == [] then 0 else Excesses(calls[..|calls| - 1]) + Excess(calls[|calls| - 1])
  }

  /** Nothing of an accepted request gets lost over any number of interruptions. */
  lemma {:induction false} FailingAccounts(request: int, calls: seq<Call>, next: int)
    requires Failing(request, calls, next)
    ensures Elapsed(calls) >= 0
    ensures Accepted(request) ==>
      Accepted(next) && Elapsed(calls) + next == request + Excesses(calls) && Excesses(calls) >= 0
    decreases |calls|
  {
    if calls == [] {
    } else {
      FailingAccounts(request, calls[..|calls| - 1], calls[|calls| - 1].request);
    }
  }

  lemma RetriesAccount(request: int, calls: seq<Call>)
    requires Retries(request, calls)
    ensures Elapsed(calls) >= 0
    ensures Accepted(request) ==> Elapsed(calls) == request + Excesses(calls) && Excesses(calls) >= 0
  {
    FailingAccounts(request, calls[..|calls| - 1], calls[|calls| - 1].request);
  }

  /** However often it is interrupted, the loop sleeps at least as long as asked -- exactly
      when the request is below the tv_nsec limit.  A longer request is rejected, its
      remaining time was never set, and the retry sleeps for nothing. */
  lemma SleepsLongEnough(request: int)
    ensures (forall calls :: Retries(request, calls) ==> Elapsed(calls) >= request) <==> request < TV_NSEC_LIMIT
  {
    if request >= TV_NSEC_LIMIT {
      var calls := [Call(request, true, 0, 0), Call(0, false, 0, 0)];
      assert calls[..1] == [Call(request, true, 0, 0)];
      assert calls[..1][..0] == [];
      assert Failing(request, calls[..1], 0);
      assert Retries(request, calls);
      assert Elapsed(calls) == Elapsed(calls[..1]) == 0;
    } else {
      forall calls | Retries(request, calls) ensures Elapsed(calls) >= request {
        RetriesAccount(request, calls);
      }
    }
  }

  /** The operating system: interrupts at most `left` more calls and adds at most `slop`. */
  method Nanosleep(request: int, before: int, left: nat, slop: nat)
    returns (c: Call, left': nat, slop': nat)
    ensures c.request == request && Posix(c, before)
    ensures slop' <= slop && Excess(c) == slop - slop'
    ensures left' == if Accepted(request) && c.failed then left - 1 else left
    ensures Accepted(request) && c.failed ==> left > 0
  {
    left', slop' := left, slop;
    if !Accepted(request) {
      return Call(request, true, before, 0), left, slop;
    }
    var e: nat :| e <= slop;
    slop' := slop - e;
    var interrupted: bool := *;
    if interrupted && left > 0 {
      left' := left - 1;
      var remaining: nat :| remaining <= request;
      c := Call(request, true, remaining, request - remaining + e);
    } else {
      c := Call(request, false, before, request + e);
    }
  }

  /** Sleeps for `nanoseconds` and returns the time that took. */
  method JcozSleep(nanoseconds: int, interruptions: nat, slop: nat) returns (total: int, ghost calls: seq<Call>)
    ensures nanoseconds == 0 ==> total == 0
    ensures nanoseconds != 0 ==> Retries(nanoseconds, calls) && total == Elapsed(calls)
    ensures total >= 0
    ensures Accepted(nanoseconds) ==> nanoseconds <= total <= nanoseconds + slop
  {
    calls := [];
    if nanoseconds == 0 {
      return 0, [];
    }
    var request, rem, left, extra := nanoseconds, 0, interruptions, slop;
    total := 0;
    var failed := true;
    while failed
      invariant total == Elapsed(calls)
      invariant Excesses(calls) == slop - extra
      invariant failed ==> Failing(nanoseconds, calls, request)
      invariant failed ==> rem == if calls == [] then 0 else request
      invariant failed && calls != [] ==> Accepted(request)
      invariant !failed ==> Retries(nanoseconds, calls)
      decreases failed, !Accepted(request), left
    {
      var c: Call;
      c, left, extra := Nanosleep(request, rem, left, extra);
      failed := c.failed;
      total := total + c.elapsed;
      rem := c.remaining;
      assert (calls + [c])[..|calls|] == calls;
      calls := calls + [c];
      request := rem;
    }
    RetriesAccount(nanoseconds, calls);
  }
}
