/**
 Termination of a service process: any number of callers ask for it, each with its own deadline, and
 share one atomic deadline, one flag for the signal, and the process itself.

 Clock readings are nanoseconds since 1970; the shared deadline is stored in whole milliseconds, with 0
 for "not terminating" and 1 for "timed out".  Every event below is one atomic access.
 */
module Deadline {
  import opened Common

  const MS: int := 1_000_000

  // ----- one call as if it were alone ------------------------------------------------------------

  datatype Outcome = Outcome(deadline: int, timeout: bool)

  /** A caller whose clock shows `now` wants the process gone by `want`; the stop timeout is `stop`. */
  function Bump(d: int, now: int, want: int, stop: int): Outcome {
    if want < now then Outcome(1, true)
    else
      var into := Min(want, now + stop);
      if d != 0 && d * MS <= into then Outcome(d, d * MS < now)
      else Outcome(into / MS, false)
  }

  /** A deadline that is set stays set and is never postponed. */
  lemma BumpNeverPostpones(d: int, now: int, want: int, stop: int)
    requires 0 <= d && MS <= now && 0 <= stop
    ensures 0 < Bump(d, now, want, stop).deadline
    ensures d != 0 ==> Bump(d, now, want, stop).deadline <= d
    ensures Bump(d, now, want, stop).deadline != d ==> Bump(d, now, want, stop).deadline * MS <= now + stop
  {
  }

  /** A caller is told that time is up exactly when the deadline it wants or the one that is set has passed.
      Otherwise the earlier of the two stays, in whole milliseconds, and never more than the stop timeout ahead. */
  lemma EarlierDeadlineWins(d: int, now: int, want: int, stop: int)
    requires 0 <= d && MS <= now && 0 <= stop
    ensures Bump(d, now, want, stop).timeout <==> want < now || (d != 0 && d * 1_000_000 < now)
    ensures now <= want ==>
      var own := Min(want, now + stop) / 1_000_000;
      Bump(d, now, want, stop).deadline == if d == 0 then own else Min(d, own)
  {
  }

  // ----- interleaving ------------------------------------------------------------------------------

  datatype Pc =
    | Idle
    | AtStore(now: int)                        // the wanted deadline is in the past
    | AtLoad(now: int, into: int)
    | AtCas(now: int, into: int, prev: int)
    | AtClock                                  // no deadline yet and none given by the context
    | AtCompare(prev: int)
    | AtSwap                                   // not timed out

  datatype Verdict = Verdict(thread: nat, now: int, timeout: bool)

  datatype State = State(
    deadline: int,
    threads: map<nat, Pc>,
    dead: bool,
    signalSent: bool,
    requests: nat,
    log: seq<Verdict>)

  datatype Event =
    | Call(thread: nat, want: int, now: int)      // tryTerminate with a deadline in its context
    | Watch(thread: nat)                          // tryTerminate without one
    | Clocks(thread: nat, first: int, now: int)
    | Compare(thread: nat, now: int)
    | Store(thread: nat)
    | Load(thread: nat)
    | Cas(thread: nat)
    | Swap(thread: nat)
    | Exit                                        // the process dies by itself

  function At(s: State, t: nat): Pc {
    if t in s.threads then s.threads[t] else Idle
  }

  function Goto(s: State, t: nat, pc: Pc): State {
    s.(threads := s.threads[t := pc])
  }

  function StartBump(s: State, t: nat, want: int, now: int, stop: int): State {
    if want < now then Goto(s, t, AtStore(now)) else Goto(s, t, AtLoad(now, Min(want, now + stop)))
  }

  /** A timed-out caller kills the process; any other goes on to the signal. */
  function Decide(s: State, t: nat, now: int, timeout: bool): State {
    Goto(s, t, if timeout then Idle else AtSwap).(
      dead := s.dead || timeout, log := s.log + [Verdict(t, now, timeout)])
  }

  function Step(s: State, e: Event, stop: int): State {
    match e
    case Exit => s.(dead := true)
    case Call(t, want, now) =>
      if At(s, t).Idle? && !s.dead then StartBump(s, t, want, now, stop) else s
    case Watch(t) =>
      if !At(s, t).Idle? || s.dead then s
      else if s.deadline == 0 then Goto(s, t, AtClock) else Goto(s, t, AtCompare(s.deadline))
    case Clocks(t, first, now) =>
      if At(s, t).AtClock? then StartBump(s, t, first + stop, now, stop) else s
    case Compare(t, now) =>
      if At(s, t).AtCompare? then Decide(s, t, now, At(s, t).prev < now / MS) else s
    case Store(t) =>
      if At(s, t).AtStore? then Decide(s.(deadline := 1), t, At(s, t).now, true) else s
    case Load(t) => LoadStep(s, t)
    case Cas(t) => CasStep(s, t)
    case Swap(t) =>
      if !At(s, t).AtSwap? then s
      else if s.signalSent then Goto(s, t, Idle)
      else Goto(s, t, Idle).(signalSent := true, requests := s.requests + 1)
  }

  function LoadStep(s: State, t: nat): State {
    match At(s, t)
    case AtLoad(now, into) =>
      if s.deadline != 0 && s.deadline * MS <= into then Decide(s, t, now, s.deadline * MS < now)
      else Goto(s, t, AtCas(now, into, s.deadline))
    case _ => s
  }

  function CasStep(s: State, t: nat): State {
    match At(s, t)
    case AtCas(now, into, prev) =>
      if s.deadline == prev then Decide(s.(deadline := into / MS), t, now, false)
      else Goto(s, t, AtLoad(now, into))
    case _ => s
  }

  function Run(s: State, es: seq<Event>, stop: int): State
    decreases |es|
  {
    if es == [] then s else Run(Step(s, es[0], stop), es[1..], stop)
  }

  const START := State(0, map[], false, false, 0, [])

  // ----- invariants --------------------------------------------------------------------------------

  predicate PcOk(pc: Pc, stop: int) {
    match pc
    case AtLoad(now, into) => MS <= now <= into <= now + stop
    case AtCas(now, into, prev) => MS <= now <= into <= now + stop && (prev == 0 || into < prev * MS)
    case _ => true
  }

  predicate TimedOut(log: seq<Verdict>) {
    exists i :: 0 <= i < |log| && log[i].timeout
  }

  ghost predicate Inv(s: State, stop: int) {
    && 0 <= s.deadline
    && s.requests == (if s.signalSent then 1 else 0)
    && (TimedOut(s.log) ==> s.dead)
    && forall t: nat :: PcOk(At(s, t), stop)
  }

  /** The clock is at least a millisecond past 1970. */
  predicate ClockOk(e: Event) {
    match e
    case Call(_, _, now) => MS <= now
    case Clocks(_, _, now) => MS <= now
    case _ => true
  }

  ghost predicate ClocksOk(es: seq<Event>) {
    forall i :: 0 <= i < |es| ==> ClockOk(es[i])
  }

  /** A step that decides a bump has the effect and the verdict that the caller would have had alone, with
      the deadline as it was at that step; every other step leaves the deadline alone. */
  lemma StepBumps(s: State, e: Event, stop: int)
    requires Inv(s, stop) && 0 <= stop
    ensures (e.Load? && At(s, e.thread).AtLoad?) || (e.Cas? && At(s, e.thread).AtCas?) ==>
      Step(s, e, stop).log == s.log || Outcome(Step(s, e, stop).deadline, Step(s, e, stop).log[|s.log|].timeout)
                                       == Bump(s.deadline, At(s, e.thread).now, At(s, e.thread).into, stop)
    ensures e.Store? && At(s, e.thread).AtStore? ==>
      forall want :: want < At(s, e.thread).now ==>
        Outcome(Step(s, e, stop).deadline, Step(s, e, stop).log[|s.log|].timeout)
        == Bump(s.deadline, At(s, e.thread).now, want, stop)
    ensures Step(s, e, stop).deadline != s.deadline ==>
      |Step(s, e, stop).log| == |s.log| + 1 && (e.Store? || (e.Cas? && At(s, e.thread).AtCas?))
  {
    if e.Load? || e.Cas? {
      assert PcOk(At(s, e.thread), stop);
    }
  }

  lemma StepMoves(s: State, e: Event, stop: int, t: nat)
    requires PcOk(At(s, t), stop) && 0 <= stop && ClockOk(e)
    ensures PcOk(At(Step(s, e, stop), t), stop)
  {
  }

  /** A call that is told that time is up kills the process, and nothing brings it back. */
  lemma StepKills(s: State, e: Event, stop: int)
    ensures s.dead ==> Step(s, e, stop).dead
    ensures (TimedOut(s.log) ==> s.dead) ==> TimedOut(Step(s, e, stop).log) ==> Step(s, e, stop).dead
  {
  }

  lemma StepKeepsInv(s: State, e: Event, stop: int)
    requires Inv(s, stop) && 0 <= stop && ClockOk(e)
    ensures Inv(Step(s, e, stop), stop)
    ensures s.deadline != 0 ==> 0 < Step(s, e, stop).deadline <= s.deadline
  {
    hide TimedOut;
    var s' := Step(s, e, stop);
    forall t: nat ensures PcOk(At(s', t), stop) {
      StepMoves(s, e, stop, t);
    }
    StepBumps(s, e, stop);
    StepKills(s, e, stop);
    if e.Cas? && At(s, e.thread).AtCas? {
      assert PcOk(At(s, e.thread), stop);
      BumpNeverPostpones(s.deadline, At(s, e.thread).now, At(s, e.thread).into, stop);
    }
  }

  lemma StartIsOk(stop: int)
    ensures Inv(START, stop)
  {
  }

  lemma {:induction false} RunKeepsInv(s: State, es: seq<Event>, stop: int)
    requires Inv(s, stop) && 0 <= stop && ClocksOk(es)
    ensures Inv(Run(s, es, stop), stop)
    ensures s.deadline != 0 ==> 0 < Run(s, es, stop).deadline <= s.deadline
    ensures s.dead ==> Run(s, es, stop).dead
    decreases |es|
  {
    if es != [] {
      assert ClockOk(es[0]);
      StepKills(s, es[0], stop);
      StepKeepsInv(s, es[0], stop);
      RunKeepsInv(Step(s, es[0], stop), es[1..], stop);
    }
  }

  /** In every run, once termination has begun it stays begun and its deadline never moves away; the signal is
      requested at most once, and exactly when the flag says so. */
  lemma NeverPostponed(before: seq<Event>, after: seq<Event>, stop: int)
    requires 0 <= stop && ClocksOk(before) && ClocksOk(after)
    ensures
      var s := Run(START, before, stop);
      var s' := Run(s, after, stop);
      && (s.deadline != 0 ==> 0 < s'.deadline <= s.deadline)
      && s'.requests == (if s'.signalSent then 1 else 0)
  {
    StartIsOk(stop);
    RunKeepsInv(START, before, stop);
    RunKeepsInv(Run(START, before, stop), after, stop);
  }

  /** In every run, once a caller was told that time is up the process is dead, and it stays dead. */
  lemma TimeoutKills(before: seq<Event>, after: seq<Event>, stop: int)
    requires 0 <= stop && ClocksOk(before) && ClocksOk(after)
    ensures
      var s := Run(START, before, stop);
      var s' := Run(s, after, stop);
      (TimedOut(s.log) ==> s.dead) && (s.dead ==> s'.dead)
  {
    StartIsOk(stop);
    RunKeepsInv(START, before, stop);
    RunKeepsInv(Run(START, before, stop), after, stop);
  }

  // ----- callers that nobody disturbs ----------------------------------------------------------------

  /** The accesses of a call with a deadline of its own; those it does not come to change nothing. */
  function LoneCall(t: nat, want: int, now: int): seq<Event> {
    [Call(t, want, now), Store(t), Load(t), Cas(t), Swap(t)]
  }

  lemma RunThree(s: State, a: Event, b: Event, c: Event, stop: int)
    ensures Run(s, [a, b, c], stop) == Step(Step(Step(s, a, stop), b, stop), c, stop)
  {
    hide Step;
    var s1 := Step(s, a, stop);
    assert [a, b, c][1..] == [b, c];
    assert [b, c][1..] == [c];
    assert Run(s1, [b, c], stop) == Run(Step(s1, b, stop), [c], stop);
    assert [c][1..] == [];
  }

  lemma RunFive(s: State, a: Event, b: Event, c: Event, d: Event, e: Event, stop: int)
    ensures Run(s, [a, b, c, d, e], stop)
            == Step(Step(Step(Step(Step(s, a, stop), b, stop), c, stop), d, stop), e, stop)
  {
    hide Step;
    var s1 := Step(s, a, stop);
    var s2 := Step(s1, b, stop);
    assert [a, b, c, d, e][1..] == [b, c, d, e];
    assert [b, c, d, e][1..] == [c, d, e];
    assert Run(s1, [b, c, d, e], stop) == Run(s2, [c, d, e], stop);
    RunThree(s2, c, d, e, stop);
  }

  /** In every run, a call of a process that lives leaves the deadline a caller on its own would leave; if that
      caller is told that time is up the process is dead, and else the signal has been requested once. */
  lemma LoneCallTerminates(before: seq<Event>, t: nat, want: int, now: int, stop: int)
    requires 0 <= stop && ClocksOk(before) && MS <= now
    requires At(Run(START, before, stop), t).Idle? && !Run(START, before, stop).dead
    ensures
      var s := Run(START, before, stop);
      var s' := Run(s, LoneCall(t, want, now), stop);
      var (deadline, timeout) := var o := Bump(s.deadline, now, want, stop); (o.deadline, o.timeout);
      && s'.deadline == deadline && s'.dead == timeout && s'.log == s.log + [Verdict(t, now, timeout)]
      && s'.requests == (if timeout then s.requests else 1) && At(s', t).Idle?
  {
    var s := Run(START, before, stop);
    StartIsOk(stop);
    RunKeepsInv(START, before, stop);
    hide Run;
    RunFive(s, Call(t, want, now), Store(t), Load(t), Cas(t), Swap(t), stop);
    var s1 := Step(Step(s, Call(t, want, now), stop), Store(t), stop);
    CallStarts(s, t, want, now, stop);
    if now <= want {
      LoopDecides(s1, t, now, Min(want, now + stop), stop);
    }
    SwapSignals(Step(Step(s1, Load(t), stop), Cas(t), stop), t, stop);
  }

  /** What a caller does first: with a wanted deadline in the past it decides at once. */
  lemma CallStarts(s: State, t: nat, want: int, now: int, stop: int)
    requires At(s, t).Idle? && !s.dead
    ensures
      var s' := Step(Step(s, Call(t, want, now), stop), Store(t), stop);
      if want < now then
        && Step(Step(s', Load(t), stop), Cas(t), stop) == s'
        && s' == Goto(Goto(s, t, AtStore(now)), t, Idle).(
             deadline := 1, dead := true, log := s.log + [Verdict(t, now, true)])
      else s' == Goto(s, t, AtLoad(now, Min(want, now + stop)))
  {
  }

  lemma LoopDecides(s: State, t: nat, now: int, into: int, stop: int)
    requires At(s, t) == AtLoad(now, into) && MS <= now <= into <= now + stop && !s.dead && 0 <= s.deadline
    ensures
      var s' := Step(Step(s, Load(t), stop), Cas(t), stop);
      var o := Bump(s.deadline, now, into, stop);
      && s'.deadline == o.deadline && s'.dead == o.timeout && s'.log == s.log + [Verdict(t, now, o.timeout)]
      && s'.requests == s.requests && s'.signalSent == s.signalSent
      && At(s', t) == if o.timeout then Idle else AtSwap
  {
  }

  lemma SwapSignals(s: State, t: nat, stop: int)
    ensures
      var s' := Step(s, Swap(t), stop);
      && s'.deadline == s.deadline && s'.dead == s.dead && s'.log == s.log
      && (At(s, t).Idle? ==> s' == s)
      && (At(s, t).AtSwap? ==> At(s', t).Idle? && s'.requests == if s.signalSent then s.requests else s.requests + 1)
  {
  }

  /** The accesses of a call without a deadline of its own. */
  function LoneWatch(t: nat, first: int, now: int): seq<Event> {
    [Watch(t), Clocks(t, first, now), Compare(t, now)]
  }

  /** Without a deadline of its own, a call on a process that is terminating kills it exactly when its deadline has
      passed, in whole milliseconds; on any other process it goes on to set the stop timeout from its first clock
      reading. */
  lemma LoneWatchKillsIff(before: seq<Event>, t: nat, first: int, now: int, stop: int)
    requires 0 <= stop && ClocksOk(before) && MS <= first <= now
    requires At(Run(START, before, stop), t).Idle? && !Run(START, before, stop).dead
    ensures
      var s := Run(START, before, stop);
      var s' := Run(s, LoneWatch(t, first, now), stop);
      var timeout := s.deadline < now / 1_000_000;
      && s'.deadline == s.deadline
      && (s.deadline != 0 ==>
            && s'.dead == timeout && s'.log == s.log + [Verdict(t, now, timeout)]
            && At(s', t) == if timeout then Idle else AtSwap)
      && (s.deadline == 0 ==>
            && s'.log == s.log && !s'.dead
            && At(s', t) == if first + stop < now then AtStore(now) else AtLoad(now, Min(first + stop, now + stop)))
  {
    RunThree(Run(START, before, stop), Watch(t), Clocks(t, first, now), Compare(t, now), stop);
  }

  // ----- late callers ------------------------------------------------------------------------------

  /** How a caller that began once the deadline was at most `d` stands: nothing it has read is older. */
  predicate Fresh(pc: Pc, d: int) {
    match pc
    case AtClock => false
    case AtCompare(prev) => prev <= d
    case _ => true
  }

  /** The callers of thread t that read a clock past the deadline `d` were all told it has passed. */
  ghost predicate LateAreKilled(log: seq<Verdict>, from: nat, t: nat, d: int) {
    forall i :: from <= i < |log| && log[i].thread == t && (d + 1) * MS <= log[i].now ==> log[i].timeout
  }

  predicate Waiting(s: State, t: nat, d: int) {
    0 < s.deadline <= d && Fresh(At(s, t), d)
  }

  /** The verdicts a step adds: none, or one. */
  lemma StepLogs(s: State, e: Event, stop: int)
    ensures Step(s, e, stop).log == s.log
            || (|Step(s, e, stop).log| == |s.log| + 1 && Step(s, e, stop).log[..|s.log|] == s.log)
  {
  }

  lemma LateCallIsKilled(s: State, e: Event, stop: int, t: nat, d: int)
    requires PcOk(At(s, t), stop) && Waiting(s, t, d)
    requires |Step(s, e, stop).log| == |s.log| + 1
    requires Step(s, e, stop).log[|s.log|].thread == t && (d + 1) * MS <= Step(s, e, stop).log[|s.log|].now
    ensures Step(s, e, stop).log[|s.log|].timeout
  {
  }

  lemma StepStaysFresh(s: State, e: Event, stop: int, t: nat, d: int)
    requires Waiting(s, t, d)
    ensures Fresh(At(Step(s, e, stop), t), d)
  {
  }

  lemma {:induction false} WaitingCallsKill(s: State, es: seq<Event>, stop: int, t: nat, d: int, from: nat)
    requires Inv(s, stop) && 0 <= stop && ClocksOk(es) && Waiting(s, t, d)
    requires from <= |s.log| && LateAreKilled(s.log, from, t, d)
    ensures LateAreKilled(Run(s, es, stop).log, from, t, d)
    decreases |es|
  {
    if es != [] {
      var s' := Step(s, es[0], stop);
      assert ClockOk(es[0]);
      StepKeepsInv(s, es[0], stop);
      StepStaysFresh(s, es[0], stop, t, d);
      StepLogs(s, es[0], stop);
      if |s'.log| == |s.log| + 1 && s'.log[|s.log|].thread == t && (d + 1) * MS <= s'.log[|s.log|].now {
        LateCallIsKilled(s, es[0], stop, t, d);
      }
      assert forall i :: 0 <= i < |s.log| ==> s'.log[i] == s.log[i];
      WaitingCallsKill(s', es[1..], stop, t, d, from);
    }
  }

  /** In every run, every call that begins after a deadline was set, and whose clock then shows a time past that
      deadline, kills the process, whatever the other callers do. */
  lemma LateCallsKill(before: seq<Event>, after: seq<Event>, stop: int, t: nat)
    requires 0 <= stop && ClocksOk(before) && ClocksOk(after)
    requires Run(START, before, stop).deadline != 0 && At(Run(START, before, stop), t).Idle?
    ensures
      var s := Run(START, before, stop);
      var s' := Run(s, after, stop);
      forall i :: |s.log| <= i < |s'.log| && s'.log[i].thread == t && (s.deadline + 1) * 1_000_000 <= s'.log[i].now
                  ==> s'.log[i].timeout && s'.dead
  {
    var s := Run(START, before, stop);
    StartIsOk(stop);
    RunKeepsInv(START, before, stop);
    RunKeepsInv(s, after, stop);
    WaitingCallsKill(s, after, stop, t, s.deadline, |s.log|);
  }

  /** In every run, once a caller has set the deadline at the time `now`, any call that begins later and reads
      a clock more than the stop timeout (and a millisecond) past `now` kills the process. */
  lemma TerminationIsBounded(before: seq<Event>, u: nat, after: seq<Event>, stop: int, t: nat)
    requires 0 <= stop && ClocksOk(before) && ClocksOk(after)
    requires
      var s := Run(START, before, stop);
      At(s, u).AtCas? && s.deadline == At(s, u).prev && (t == u || At(s, t).Idle?)
    ensures
      var s := Run(START, before, stop);
      var s' := Run(CasStep(s, u), after, stop);
      forall i :: |s.log| < i < |s'.log| && s'.log[i].thread == t && At(s, u).now + stop + 1_000_000 <= s'.log[i].now
                  ==> s'.log[i].timeout && s'.dead
  {
    var s := Run(START, before, stop);
    StartIsOk(stop);
    RunKeepsInv(START, before, stop);
    var s' := CasStep(s, u);
    assert s' == Step(s, Cas(u), stop);
    assert PcOk(At(s, u), stop);
    StepKeepsInv(s, Cas(u), stop);
    var d := s'.deadline;
    assert d * MS <= At(s, u).now + stop;
    RunKeepsInv(s', after, stop);
    WaitingCallsKill(s', after, stop, t, d, |s'.log|);
  }

  // ----- the retry loop ----------------------------------------------------------------------------

  class Process {
    const stop: int
    var deadline: int

    constructor (stop: int)
      ensures this.stop == stop && deadline == 0
    {
      this.stop, deadline := stop, 0;
    }

    /** `others` are the deadlines other callers leave before the successive compare-and-swaps.  The
        call takes effect on `seen`, the deadline at one instant of the call. */
    method BumpDeadline(want: int, now: int, others: seq<int>) returns (timeout: bool, ghost seen: int)
      modifies this`deadline
      ensures Outcome(deadline, timeout) == Bump(seen, now, want, stop)
      ensures seen == old(deadline) || seen in others
    {
      if want < now {
        seen := deadline;
        deadline := 1;
        return true, seen;
      }
      var into := Min(want, now + stop);
      var k := 0;
      while true
        invariant k <= |others|
        invariant deadline == old(deadline) || deadline in others
        decreases |others| - k
      {
        var prev := deadline;
        if prev != 0 && prev * MS <= into {
          return prev * MS < now, prev;
        }
        if k < |others| {
          deadline, k := others[k], k + 1;
        }
        if deadline == prev {
          deadline := into / MS;
          return false, prev;
        }
      }
    }
  }
}
