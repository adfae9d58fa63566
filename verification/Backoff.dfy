/**
 The retry policy: delays that grow by half plus the base delay up to twenty times the base, computed
 step by step and directly, and the retrier that runs a function under such a policy.

 Durations are nanoseconds and unbounded; `x / 2` on them is the arithmetic shift by one, which rounds
 down also below zero.
 */
module Backoff {
  import opened Common

  const COEFF: int := 20

  datatype Policy = Policy(attempts: int, backoff: int, timeout: int)

  /** Zero stands for "not configured"; anything negative counts as no time at all. */
  function Or(d: int, default: int): int {
    if d == 0 then default else if d < 0 then 0 else d
  }

  function WithDefaults(p: Policy): Policy {
    Policy(if p.attempts == 0 then 8 else p.attempts, Or(p.backoff, 150_000_000), Or(p.timeout, 30_000_000_000))
  }

  /** Eight retries, 150 milliseconds and 30 seconds, unless configured; a negative number of attempts means that
      there is no limit. */
  lemma DefaultsAre(p: Policy)
    ensures var q := WithDefaults(p);
      && (p.attempts == 0 ==> q.attempts == 8) && (p.attempts != 0 ==> q.attempts == p.attempts)
      && (p.backoff == 0 ==> q.backoff == 150_000_000) && (p.backoff != 0 ==> q.backoff == Max(p.backoff, 0))
      && (p.timeout == 0 ==> q.timeout == 30_000_000_000) && (p.timeout != 0 ==> q.timeout == Max(p.timeout, 0))
      && (p.backoff >= 0 && p.timeout >= 0 ==> WithDefaults(q) == q)
  {
  }

  function MaxDelay(p: Policy): int {
    p.backoff * COEFF
  }

  // ----- one delay after the other ----------------------------------------------------------------

  function Grow(b: int, d: int): int {
    d + b + (d + b) / 2
  }

  datatype Progress = Progress(step: int, delay: int, exceeded: bool)

  function Step(p: Policy, step: int, delay: int): Progress {
    if p.attempts > 0 && step >= p.attempts then Progress(step + 1, delay, true)
    else Progress(step + 1, if step == 0 then p.backoff else Min(Grow(p.backoff, delay), MaxDelay(p)), false)
  }

  /** The state after n steps of a fresh retrier. */
  function Steps(p: Policy, n: nat): (r: Progress)
    ensures r.step == n
  {
    if n == 0 then Progress(0, 0, false)
    else
      var r := Steps(p, n - 1);
      Step(p, r.step, r.delay)
  }

  /** The n-th delay of a policy whose attempts are not exhausted. */
  function Delay(b: int, n: nat): int {
    if n == 0 then b else Min(Grow(b, Delay(b, n - 1)), b * COEFF)
  }

  lemma {:induction false} StepsGiveDelay(p: Policy, n: nat)
    requires p.attempts > 0 ==> n < p.attempts
    ensures Steps(p, n + 1) == Progress(n + 1, Delay(p.backoff, n), false)
  {
    if n > 0 {
      StepsGiveDelay(p, n - 1);
    }
  }

  /** At the maximum the delay stays. */
  lemma {:induction false} Saturated(b: int, m: nat, n: nat)
    requires 0 <= b && m <= n && Delay(b, m) == b * COEFF
    ensures Delay(b, n) == b * COEFF
    decreases n - m
  {
    if m < n {
      Saturated(b, m + 1, n);
    }
  }

  /** With a negative base the stepwise delays keep falling below twenty times the base. */
  lemma NegativeKeepsFalling(b: int, n: nat)
    requires b < 0 && 2 <= n
    ensures Delay(b, n) < b * COEFF
  {
  }

  // ----- the direct form ----------------------------------------------------------------------------

  datatype Answer = Answer(delay: int, exceeded: bool)

  /** The direct form reports what the (n + 1)-th step reports.  It also gives that step's delay, exactly
      when the base delay is not negative or no second growth happens; else it stays at the maximum. */
  method StepN(p: Policy, n: int) returns (a: Answer)
    ensures a.exceeded <==> 0 < p.attempts <= n
    ensures a.exceeded ==> a.delay == 0
    ensures n < 0 ==> a == Answer(p.backoff, false)
    ensures 0 <= n ==> a.exceeded == Steps(p, n + 1).exceeded
    ensures 0 <= n && !a.exceeded ==> (a.delay == Steps(p, n + 1).delay <==> p.backoff >= 0 || n <= 1)
    ensures 0 < n && !a.exceeded && p.backoff < 0 ==> a.delay == 20 * p.backoff
  {
    if p.attempts > 0 && n >= p.attempts {
      return Answer(0, true);
    }
    var delay := p.backoff;
    var k := n;
    while k > 0
      invariant n < 0 ==> k == n && delay == p.backoff
      invariant 0 <= n ==> 0 <= k <= n && delay == Delay(p.backoff, n - k)
      invariant p.backoff < 0 ==> k == n
    {
      delay := delay + p.backoff;
      delay := delay + delay / 2;
      if delay > MaxDelay(p) {
        StepsGiveDelay(p, n);
        if p.backoff >= 0 {
          Saturated(p.backoff, n - k + 1, n);
        } else if n >= 2 {
          NegativeKeepsFalling(p.backoff, n);
        }
        return Answer(MaxDelay(p), false);
      }
      k := k - 1;
    }
    if n >= 0 {
      StepsGiveDelay(p, n);
    }
    return Answer(delay, false);
  }

  // ----- bounds ----------------------------------------------------------------------------------------

  lemma {:induction false} DelaysGrow(b: int, n: nat)
    requires 0 <= b
    ensures b <= Delay(b, n) <= Delay(b, n + 1) <= 20 * b
  {
    if n > 0 {
      DelaysGrow(b, n - 1);
    }
  }

  /** The maximum is reached with the sixth delay, not before. */
  lemma MaximumIff(b: int, n: nat)
    requires 0 < b
    ensures Delay(b, n) == 20 * b <==> 5 <= n
  {
    FirstDelays(b);
    if 5 <= n {
      Saturated(b, 5, n);
    } else {
      assert n == 0 || n == 1 || n == 2 || n == 3 || n == 4;
    }
  }

  lemma FirstDelays(b: int)
    requires 0 < b
    ensures Delay(b, 0) == b && Delay(b, 1) == 3 * b && Delay(b, 2) == 6 * b
    ensures Delay(b, 3) == 7 * b + 7 * b / 2
    ensures Delay(b, 4) == Delay(b, 3) + b + (Delay(b, 3) + b) / 2 < 20 * b
    ensures Delay(b, 5) == 20 * b
  {
  }

  // ----- running under a policy ---------------------------------------------------------------------

  datatype Result =
    | Success
    | Pending                 // the rounds given do not decide the run
    | NotRetryable
    | AttemptsExceeded
    | ContextDone
    | DeadlineExceeded

  /** One call of the function and what the retrier then sees: whether the error can be retried, whether
      the context is done, the clock, and whether the context ends while the retrier sleeps. */
  datatype Round = Round(ok: bool, retryable: bool, done: bool, now: int, cancelled: bool)

  /** The time a retrier sleeps when its delay is `delay` and `left` remain, if it sleeps. */
  predicate Sleeps(delay: int, left: int, timeout: int) {
    delay <= left || timeout < left
  }

  function SleepTime(delay: int, left: int): int {
    if left < delay then left / 2 else delay
  }

  /** `sleeps` says how long the retrier slept between the calls. */
  datatype Report = Report(calls: nat, result: Result, sleeps: seq<int>)

  /** In the i-th round the retrier slept, as long as the delay of its step says or half of what was left
      where that exceeds the timeout, and not past the deadline. */
  predicate Slept(r: Round, slept: int, p: Policy, deadline: int, i: nat) {
    && !r.ok && r.retryable && !r.done && !r.cancelled
    && Sleeps(Delay(p.backoff, i), deadline - r.now, p.timeout)
    && slept == SleepTime(Delay(p.backoff, i), deadline - r.now)
    && r.now + slept <= deadline
  }

  class Retrier {
    const policy: Policy
    const deadline: int
    var step: int
    var delay: int

    /** `limit` is the deadline of the context, if it has one. */
    constructor (p: Policy, now: int, hasLimit: bool, limit: int)
      ensures policy == WithDefaults(p) && step == 0 && delay == 0
      ensures deadline == if hasLimit && limit < now + policy.timeout then limit else now + policy.timeout
    {
      policy := WithDefaults(p);
      step, delay := 0, 0;
      var own := now + WithDefaults(p).timeout;
      deadline := if hasLimit && limit < own then limit else own;
    }

    method NextDelay() returns (d: int, exceeded: bool)
      modifies this
      ensures Progress(step, delay, exceeded) == Step(policy, old(step), old(delay))
      ensures !exceeded ==> d == delay
    {
      var n := step;
      step := n + 1;
      if policy.attempts > 0 && n >= policy.attempts {
        return 0, true;
      }
      if n == 0 {
        delay := policy.backoff;
      } else {
        delay := delay + policy.backoff;
        delay := delay + delay / 2;
        delay := Min(delay, MaxDelay(policy));
      }
      return delay, false;
    }

    /** Sleeps before the next attempt, or says why there is none. */
    method ConsumeAny(r: Round) returns (result: Result, slept: int)
      modifies this
      ensures Progress(step, delay, result.AttemptsExceeded?) == Step(policy, old(step), old(delay))
      ensures result == if 0 < policy.attempts <= old(step) then AttemptsExceeded
                        else if r.done then ContextDone
                        else if deadline - r.now < delay && deadline - r.now <= policy.timeout then DeadlineExceeded
                        else if r.cancelled then ContextDone
                        else Pending
      ensures result.Pending? ==> slept == if deadline - r.now < delay then (deadline - r.now) / 2 else delay
    {
      slept := 0;
      var d, exceeded := NextDelay();
      if exceeded {
        return AttemptsExceeded, slept;
      }
      if r.done {
        return ContextDone, slept;
      }
      var left := deadline - r.now;
      if left < d {
        if left > policy.timeout {
          d := left / 2;
        } else {
          return DeadlineExceeded, slept;
        }
      }
      if r.cancelled {
        return ContextDone, slept;
      }
      return Pending, d;
    }

    /** Runs the function until it succeeds or the policy gives up. */
    method Run(rounds: seq<Round>) returns (r: Report)
      requires step == 0 && delay == 0 && policy.timeout >= 0
      modifies this
      ensures r.calls <= |rounds| && (r.result.Pending? ==> r.calls == |rounds|)
      ensures |r.sleeps| == if r.result.Pending? then r.calls else r.calls - 1
      ensures forall i :: 0 <= i < |r.sleeps| ==> Slept(rounds[i], r.sleeps[i], policy, deadline, i)
      ensures !r.result.Pending? ==> r.result == Verdict(rounds[r.calls - 1], policy, deadline, r.calls - 1)
      // one call more than the policy allows retries
      ensures 0 < policy.attempts ==> r.calls <= policy.attempts + 1
    {
      var calls: nat, sleeps := 0, [];
      while calls < |rounds|
        invariant calls <= |rounds| && step == calls == |sleeps|
        invariant Steps(policy, calls) == Progress(step, delay, false)
        invariant forall i :: 0 <= i < calls ==> Slept(rounds[i], sleeps[i], policy, deadline, i)
        invariant 0 < policy.attempts ==> calls <= policy.attempts
      {
        var round := rounds[calls];
        if round.ok {
          return Report(calls + 1, Success, sleeps);
        }
        if !round.retryable {
          return Report(calls + 1, NotRetryable, sleeps);
        }
        if !(0 < policy.attempts <= calls) {
          StepsGiveDelay(policy, calls);
        }
        var result, slept := ConsumeAny(round);
        if !result.Pending? {
          return Report(calls + 1, result, sleeps);
        }
        calls, sleeps := calls + 1, sleeps + [slept];
      }
      return Report(calls, Pending, sleeps);
    }
  }

  /** Why a run ends in its i-th round. */
  function Verdict(r: Round, p: Policy, deadline: int, i: nat): Result {
    if r.ok then Success
    else if !r.retryable then NotRetryable
    else if 0 < p.attempts <= i then AttemptsExceeded
    else if r.done then ContextDone
    else if !Sleeps(Delay(p.backoff, i), deadline - r.now, p.timeout) then DeadlineExceeded
    else if r.cancelled then ContextDone
    else Pending
  }

  // ----- how long a run can last -------------------------------------------------------------------

  /** What the first n delays add up to. */
  function TotalDelay(b: int, n: nat): int {
    if n == 0 then 0 else TotalDelay(b, n - 1) + Delay(b, n - 1)
  }

  /** The clock never runs backwards: a sleep takes at least its time. */
  ghost predicate ClockRuns(rounds: seq<Round>, sleeps: seq<int>, start: int)
    requires |sleeps| <= |rounds|
  {
    forall i :: 0 <= i < |sleeps| ==>
      rounds[i].now >= if i == 0 then start else rounds[i - 1].now + sleeps[i - 1]
  }

  lemma {:induction false} TimePasses(
    rounds: seq<Round>, sleeps: seq<int>, p: Policy, start: int, deadline: int, n: nat)
    requires |sleeps| <= |rounds| && ClockRuns(rounds, sleeps, start)
    requires deadline <= start + p.timeout && p.backoff >= 0
    requires forall i :: 0 <= i < |sleeps| ==> Slept(rounds[i], sleeps[i], p, deadline, i)
    requires n < |sleeps|
    ensures start + TotalDelay(p.backoff, n) <= rounds[n].now && sleeps[n] == Delay(p.backoff, n)
    ensures TotalDelay(p.backoff, n) >= 0
  {
    DelaysGrow(p.backoff, n);
    assert Slept(rounds[n], sleeps[n], p, deadline, n);
    assert rounds[n].now >= if n == 0 then start else rounds[n - 1].now + sleeps[n - 1];
    if n > 0 {
      TimePasses(rounds, sleeps, p, start, deadline, n - 1);
      DelaysGrow(p.backoff, n - 1);
    }
  }

  /** All the delays a run sleeps through fit into the timeout of its policy; each is the delay of its
      step in full. */
  lemma DelaysFitTimeout(rounds: seq<Round>, sleeps: seq<int>, p: Policy, start: int, deadline: int)
    requires |sleeps| <= |rounds| && ClockRuns(rounds, sleeps, start)
    requires deadline <= start + p.timeout && p.backoff >= 0 && p.timeout >= 0
    requires forall i :: 0 <= i < |sleeps| ==> Slept(rounds[i], sleeps[i], p, deadline, i)
    ensures TotalDelay(p.backoff, |sleeps|) <= p.timeout
    ensures forall i :: 0 <= i < |sleeps| ==> sleeps[i] == Delay(p.backoff, i)
  {
    forall i | 0 <= i < |sleeps| ensures sleeps[i] == Delay(p.backoff, i) {
      TimePasses(rounds, sleeps, p, start, deadline, i);
    }
    if sleeps != [] {
      TimePasses(rounds, sleeps, p, start, deadline, |sleeps| - 1);
    }
  }

  lemma {:induction false} LongRunsAreSlow(b: int, n: nat)
    requires 0 < b
    ensures (n - 5) * (b * COEFF) <= TotalDelay(b, n)
  {
    if n <= 5 {
      FirstDelays(b);
      assert (5 - n) * (b * COEFF) >= 0;
      PositiveTotal(b, n);
    } else {
      LongRunsAreSlow(b, n - 1);
      MaximumIff(b, n - 1);
    }
  }

  lemma {:induction false} PositiveTotal(b: int, n: nat)
    requires 0 <= b
    ensures 0 <= TotalDelay(b, n)
  {
    if n > 0 {
      PositiveTotal(b, n - 1);
      DelaysGrow(b, n - 1);
    }
  }

  /** A policy with unlimited attempts still gives up: all but the first five sleeps cost twenty times the
      base delay out of the timeout. */
  lemma UnlimitedAttemptsEnd(rounds: seq<Round>, sleeps: seq<int>, p: Policy, start: int, deadline: int)
    requires |sleeps| <= |rounds| && ClockRuns(rounds, sleeps, start)
    requires deadline <= start + p.timeout && p.backoff > 0 && p.timeout >= 0
    requires forall i :: 0 <= i < |sleeps| ==> Slept(rounds[i], sleeps[i], p, deadline, i)
    ensures (|sleeps| - 5) * (20 * p.backoff) <= p.timeout
  {
    DelaysFitTimeout(rounds, sleeps, p, start, deadline);
    LongRunsAreSlow(p.backoff, |sleeps|);
  }
}
