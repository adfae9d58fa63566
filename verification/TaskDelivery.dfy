/**
 How a queued task is settled.  The queue delivers a message again and again until it learns that the
 message was acknowledged or terminated.  Each delivery runs the task, decides by the retry policy what
 becomes of the message, writes to the result bucket where that is due, and only then tells the queue.

 The node of a delivery can die at any point, a write can take effect without being reported, and what the
 queue is told can get lost.  Deliveries may overlap.
 */
module TaskDelivery {
  import B = Backoff
  import opened Common

  /** What the task returned: data of some size, or an error. */
  datatype TaskResult = Done(size: nat) | Failed(retryable: bool)

  datatype Action = Ack | Term | Nak | NakWithDelay(delay: int)

  datatype Record = Result | Error

  datatype PutOutcome = Written | WrittenUnreported | Refused

  predicate Settles(a: Action) {
    a.Ack? || a.Term?
  }

  // ----- one delivery -----------------------------------------------------------------------------

  /** What the n-th delivery (from 0) is to write and to tell, under a policy with its defaults filled in. */
  function Plan(p: B.Policy, deadLetters: bool, n: nat, r: TaskResult): (Option<Record>, Action) {
    match r
    case Done(size) => (if size == 0 then None else Some(Result), Ack)
    case Failed(retryable) =>
      if retryable && !(0 < p.attempts <= n) then (None, NakWithDelay(B.Delay(p.backoff, n)))
      else (if deadLetters then Some(Error) else None, Term)
  }

  /** A remote operation of a delivery. */
  datatype Operation = Put(record: Record, outcome: PutOutcome) | Tell(action: Action)

  /** The operations of a delivery whose node stays alive; a write that is reported as failed turns what is
      told into a refusal. */
  function Operations(plan: (Option<Record>, Action), put: PutOutcome): seq<Operation> {
    if plan.0.None? then [Tell(plan.1)]
    else [Put(plan.0.value, put), Tell(if put.Written? then plan.1 else Nak)]
  }

  function Take<T>(s: seq<T>, n: nat): seq<T> {
    if n < |s| then s[..n] else s
  }

  class Runner {
    const policy: B.Policy
    const noDeadLetter: bool
    var operations: seq<Operation>    // what was done to the bucket and the queue
    var alive: nat                    // how many operations the node still completes

    constructor (policy: B.Policy, noDeadLetter: bool, alive: nat)
      ensures this.policy == policy && this.noDeadLetter == noDeadLetter && operations == [] && this.alive == alive
    {
      this.policy, this.noDeadLetter, operations, this.alive := policy, noDeadLetter, [], alive;
    }

    /** An operation of a dead node has no effect. */
    method Do(op: Operation)
      modifies this
      ensures operations == if old(alive) > 0 then old(operations) + [op] else old(operations)
      ensures alive == if old(alive) > 0 then old(alive) - 1 else 0
    {
      if alive > 0 {
        operations, alive := operations + [op], alive - 1;
      }
    }

    /** `delivered` counts this delivery too. */
    method ServeJetstream(delivered: nat, result: TaskResult, put: PutOutcome)
      requires 1 <= delivered
      modifies this
      ensures
        var plan := Plan(B.WithDefaults(policy), !noDeadLetter, delivered - 1, result);
        operations == old(operations) + Take(Operations(plan, put), old(alive))
    {
      hide B.Steps, B.Delay;
      if result.Failed? {
        if result.retryable {
          var p := B.WithDefaults(policy);
          var answer := B.StepN(p, delivered - 1);
          if !answer.exceeded {
            B.StepsGiveDelay(p, delivered - 1);
            Do(Tell(NakWithDelay(answer.delay)));
            return;
          }
        }
        if !noDeadLetter {
          Do(Put(Error, put));
          if !put.Written? {
            Do(Tell(Nak));
            return;
          }
        }
        Do(Tell(Term));
      } else {
        if result.size != 0 {
          Do(Put(Result, put));
          if !put.Written? {
            Do(Tell(Nak));
            return;
          }
        }
        Do(Tell(Ack));
      }
    }
  }

  // ----- all deliveries of a message ----------------------------------------------------------------

  /** Where a delivery stands.  `due` says that a record was to be written, `wrote` that it was; `taken`
      that this delivery settled the message. */
  datatype Phase =
    | Running
    | Putting(record: Record, action: Action)
    | Telling(action: Action, due: bool, wrote: bool)
    | Over(action: Action, due: bool, wrote: bool, taken: bool)
    | Dead(wrote: bool)

  /** `settled` is what the queue knows; `writes` is every write to the bucket. */
  datatype Message = Message(settled: bool, deliveries: seq<Phase>, writes: seq<Record>)

  datatype Event =
    | Deliver
    | Return(n: nat, result: TaskResult)
    | PutEnds(n: nat, outcome: PutOutcome)
    | Tells(n: nat, reached: bool)
    | Dies(n: nat)

  const NEW := Message(false, [], [])

  function Goto(m: Message, n: nat, phase: Phase): Message
    requires n < |m.deliveries|
  {
    m.(deliveries := m.deliveries[n := phase])
  }

  function Step(p: B.Policy, deadLetters: bool, m: Message, e: Event): Message {
    if e.Deliver? then
      if m.settled then m else m.(deliveries := m.deliveries + [Running])
    else if e.n >= |m.deliveries| then m
    else
      match e
      case Return(n, r) =>
        if !m.deliveries[n].Running? then m
        else
          var (record, action) := Plan(p, deadLetters, n, r);
          Goto(m, n, if record.Some? then Putting(record.value, action) else Telling(action, false, false))
      case PutEnds(n, outcome) => PutStep(m, n, outcome)
      case Tells(n, reached) => TellStep(m, n, reached)
      case Dies(n) =>
        match m.deliveries[n]
        case Over(_, _, _, _) => m
        case Dead(_) => m
        case Telling(_, _, wrote) => Goto(m, n, Dead(wrote))
        case _ => Goto(m, n, Dead(false))
  }

  function PutStep(m: Message, n: nat, outcome: PutOutcome): Message
    requires n < |m.deliveries|
  {
    match m.deliveries[n]
    case Putting(record, action) =>
      var told := if outcome.Written? then action else Nak;
      var m' := Goto(m, n, Telling(told, true, !outcome.Refused?));
      if outcome.Refused? then m' else m'.(writes := m.writes + [record])
    case _ => m
  }

  /** The first settlement that reaches the queue is taken; the message is not delivered after it. */
  function TellStep(m: Message, n: nat, reached: bool): Message
    requires n < |m.deliveries|
  {
    match m.deliveries[n]
    case Telling(action, due, wrote) =>
      var taken := reached && Settles(action) && !m.settled;
      Goto(m, n, Over(action, due, wrote, taken)).(settled := m.settled || taken)
    case _ => m
  }

  function Run(p: B.Policy, deadLetters: bool, es: seq<Event>): Message {
    if es == [] then NEW
    else Step(p, deadLetters, Run(p, deadLetters, es[..|es| - 1]), es[|es| - 1])
  }

  /** An undisturbed delivery performs the operations of the runner. */
  lemma DeliveryPerformsOperations(p: B.Policy, deadLetters: bool, m: Message, n: nat, r: TaskResult, put: PutOutcome)
    requires n < |m.deliveries| && m.deliveries[n].Running?
    ensures
      var plan := Plan(p, deadLetters, n, r);
      var ops := Operations(plan, put);
      var m' := Step(p, deadLetters, Step(p, deadLetters, Step(p, deadLetters, m, Return(n, r)),
                                          PutEnds(n, put)), Tells(n, true));
      && m'.deliveries[n].Over? && ops[|ops| - 1] == Tell(m'.deliveries[n].action)
      && m'.writes == (if |ops| == 2 && !put.Refused? then m.writes + [ops[0].record] else m.writes)
  {
  }

  /** Whether the policy lets a task be tried again after its n-th delivery (from 0) failed. */
  predicate MayRetry(p: B.Policy, n: nat, r: TaskResult) {
    r.Failed? && r.retryable && (p.attempts <= 0 || n < p.attempts)
  }

  /** What an undisturbed delivery of an unsettled message achieves.  A task that returned is acknowledged, and its
      result written if there is any; one that failed is delivered again after its delay, or else terminated, with
      its error written if dead letters are kept.  A record that cannot be written leaves the message unsettled. */
  lemma UndisturbedDelivery(p: B.Policy, deadLetters: bool, m: Message, n: nat, r: TaskResult, put: PutOutcome)
    requires n < |m.deliveries| && m.deliveries[n].Running? && !m.settled
    ensures
      var m' := Step(p, deadLetters, Step(p, deadLetters, Step(p, deadLetters, m, Return(n, r)),
                                          PutEnds(n, put)), Tells(n, true));
      var due := (r.Done? && 0 < r.size) || (r.Failed? && !MayRetry(p, n, r) && deadLetters);
      var record := if r.Done? then Result else Error;
      && m'.deliveries[n].Over?
      && m'.writes == (if due && !put.Refused? then m.writes + [record] else m.writes)
      && (m'.settled <==> !MayRetry(p, n, r) && (due ==> put.Written?))
      && (forall k :: 0 <= k < |m.deliveries| && k != n ==> m'.deliveries[k] == m.deliveries[k])
      && m'.deliveries[n].action == if MayRetry(p, n, r) then NakWithDelay(B.Delay(p.backoff, n))
                                    else if due && !put.Written? then Nak
                                    else if r.Done? then Ack
                                    else Term
  {
    hide B.Delay;
  }

  /** A settled message is not delivered again, and an unsettled one always can be. */
  lemma DeliveredIff(p: B.Policy, deadLetters: bool, m: Message)
    ensures |Step(p, deadLetters, m, Deliver).deliveries| == |m.deliveries| + (if m.settled then 0 else 1)
    ensures !m.settled ==> Step(p, deadLetters, m, Deliver).deliveries[|m.deliveries|].Running?
  {
  }

  // ----- counting deliveries --------------------------------------------------------------------------

  function Count(ds: seq<Phase>, f: Phase -> bool): (n: nat)
    ensures n <= |ds|
  {
    if ds == [] then 0 else Count(ds[..|ds| - 1], f) + if f(ds[|ds| - 1]) then 1 else 0
  }

  lemma {:induction false} CountUpdate(ds: seq<Phase>, n: nat, phase: Phase, f: Phase -> bool)
    requires n < |ds|
    ensures Count(ds[n := phase], f) + (if f(ds[n]) then 1 else 0) == Count(ds, f) + if f(phase) then 1 else 0
  {
    var last := |ds| - 1;
    if n == last {
      assert ds[n := phase][..last] == ds[..last];
    } else {
      CountUpdate(ds[..last], n, phase, f);
      assert ds[n := phase][..last] == ds[..last][n := phase];
    }
  }

  lemma {:induction false} CountAppend(ds: seq<Phase>, tail: seq<Phase>, f: Phase -> bool)
    ensures Count(ds + tail, f) == Count(ds, f) + Count(tail, f)
  {
    if tail == [] {
      assert ds + tail == ds;
    } else {
      var last := |tail| - 1;
      CountAppend(ds, tail[..last], f);
      assert (ds + tail)[..|ds + tail| - 1] == ds + tail[..last];
    }
  }

  /** A count that is not zero has a witness. */
  lemma {:induction false} CountPositive(ds: seq<Phase>, f: Phase -> bool)
    ensures 0 < Count(ds, f) <==> exists n :: 0 <= n < |ds| && f(ds[n])
  {
    if ds != [] {
      var last := |ds| - 1;
      CountPositive(ds[..last], f);
      if n :| 0 <= n < |ds| && f(ds[n]) {
        assert n < last ==> ds[..last][n] == ds[n];
      }
    }
  }

  predicate Wrote(d: Phase) {
    match d
    case Telling(_, _, wrote) => wrote
    case Over(_, _, wrote, _) => wrote
    case Dead(wrote) => wrote
    case _ => false
  }

  predicate Taken(d: Phase) {
    d.Over? && d.taken
  }

  predicate TakenAfterWrite(d: Phase) {
    Taken(d) && Wrote(d)
  }

  /** The delivery wrote its record in vain: its node died, it has not told the queue yet, the write was not
      reported and it asked for another delivery, or its settlement was lost or came too late. */
  predicate Wasted(d: Phase) {
    match d
    case Dead(wrote) => wrote
    case Telling(_, _, wrote) => wrote
    case Over(action, _, wrote, taken) => wrote && (action.Nak? || (Settles(action) && !taken))
    case _ => false
  }

  // ----- invariant ----------------------------------------------------------------------------------------

  predicate ActionOk(p: B.Policy, n: nat, a: Action, due: bool) {
    a.NakWithDelay? ==> a.delay == B.Delay(p.backoff, n) && !(0 < p.attempts <= n) && !due
  }

  predicate PhaseOk(p: B.Policy, n: nat, d: Phase) {
    match d
    case Putting(_, action) => Settles(action)
    case Telling(action, due, wrote) =>
      ActionOk(p, n, action, due) && (Settles(action) && due ==> wrote) && (wrote ==> due)
    case Over(action, due, wrote, taken) =>
      && ActionOk(p, n, action, due) && (Settles(action) && due ==> wrote) && (wrote ==> due)
      && (taken ==> Settles(action))
    case _ => true
  }

  predicate PhasesOk(p: B.Policy, m: Message) {
    forall n :: 0 <= n < |m.deliveries| ==> PhaseOk(p, n, m.deliveries[n])
  }

  predicate CountsOk(m: Message) {
    && Count(m.deliveries, Taken) == (if m.settled then 1 else 0)
    && Count(m.deliveries, Wrote) == |m.writes|
  }

  lemma StepKeepsPhases(p: B.Policy, deadLetters: bool, m: Message, e: Event)
    requires PhasesOk(p, m)
    ensures PhasesOk(p, Step(p, deadLetters, m, e))
  {
    if !e.Deliver? && e.n < |m.deliveries| {
      assert PhaseOk(p, e.n, m.deliveries[e.n]);
    }
  }

  /** A step moves one delivery; it writes when that delivery becomes one that wrote, and settles when it
      becomes one that was taken. */
  lemma StepMoves(p: B.Policy, deadLetters: bool, m: Message, e: Event)
    requires !e.Deliver? && e.n < |m.deliveries|
    ensures
      var m' := Step(p, deadLetters, m, e);
      var d, d' := m.deliveries[e.n], m'.deliveries[e.n];
      && m'.deliveries == m.deliveries[e.n := d']
      && |m'.writes| == |m.writes| + (if Wrote(d') && !Wrote(d) then 1 else 0) && (Wrote(d) ==> Wrote(d'))
      && (Taken(d) ==> Taken(d'))
      && (if Taken(d') && !Taken(d) then !m.settled && m'.settled else m'.settled == m.settled)
  {
  }

  lemma StepKeepsCounts(p: B.Policy, deadLetters: bool, m: Message, e: Event)
    requires CountsOk(m)
    ensures CountsOk(Step(p, deadLetters, m, e))
  {
    if e.Deliver? {
      assert (m.deliveries + [Running])[..|m.deliveries|] == m.deliveries;
    } else if e.n < |m.deliveries| {
      hide Step, Wrote, Taken;
      var m' := Step(p, deadLetters, m, e);
      StepMoves(p, deadLetters, m, e);
      CountUpdate(m.deliveries, e.n, m'.deliveries[e.n], Taken);
      CountUpdate(m.deliveries, e.n, m'.deliveries[e.n], Wrote);
    }
  }

  lemma {:induction false} RunKeepsInv(p: B.Policy, deadLetters: bool, es: seq<Event>)
    ensures PhasesOk(p, Run(p, deadLetters, es)) && CountsOk(Run(p, deadLetters, es))
  {
    if es != [] {
      RunKeepsInv(p, deadLetters, es[..|es| - 1]);
      StepKeepsPhases(p, deadLetters, Run(p, deadLetters, es[..|es| - 1]), es[|es| - 1]);
      StepKeepsCounts(p, deadLetters, Run(p, deadLetters, es[..|es| - 1]), es[|es| - 1]);
    }
  }

  // ----- what is written -------------------------------------------------------------------------------

  /** The task of the n-th delivery returned, with a result by which this is what it is to write and to tell. */
  predicate Planned(p: B.Policy, deadLetters: bool, es: seq<Event>, n: nat, record: Option<Record>, action: Action) {
    exists i :: 0 <= i < |es| && PlannedAt(p, deadLetters, es[i], n, record, action)
  }

  predicate PlannedAt(p: B.Policy, deadLetters: bool, e: Event, n: nat, record: Option<Record>, action: Action) {
    e.Return? && e.n == n && Plan(p, deadLetters, n, e.result) == (record, action)
  }

  /** What the delivery tells is planned, and a record that is due with it has been written. */
  ghost predicate TellsAsPlanned(p: B.Policy, deadLetters: bool, es: seq<Event>, writes: seq<Record>, n: nat, d: Phase)
    requires d.Telling? || d.Over?
  {
    exists record :: Planned(p, deadLetters, es, n, record, d.action)
                     && d.due == record.Some? && (d.due ==> record.value in writes)
  }

  ghost predicate FollowsPlan(p: B.Policy, deadLetters: bool, es: seq<Event>, writes: seq<Record>, n: nat, d: Phase) {
    match d
    case Putting(record, action) => Planned(p, deadLetters, es, n, Some(record), action)
    case Telling(action, _, _) => action.Nak? || TellsAsPlanned(p, deadLetters, es, writes, n, d)
    case Over(action, _, _, _) => action.Nak? || TellsAsPlanned(p, deadLetters, es, writes, n, d)
    case _ => true
  }

  lemma StaysPlanned(p: B.Policy, deadLetters: bool, es: seq<Event>, e: Event,
                     n: nat, record: Option<Record>, a: Action)
    requires Planned(p, deadLetters, es, n, record, a)
    ensures Planned(p, deadLetters, es + [e], n, record, a)
  {
    hide PlannedAt;
    var i :| 0 <= i < |es| && PlannedAt(p, deadLetters, es[i], n, record, a);
    assert (es + [e])[i] == es[i];
  }

  lemma FollowsOn(p: B.Policy, deadLetters: bool, es: seq<Event>, e: Event, ws: seq<Record>, ws': seq<Record>,
                  n: nat, d: Phase)
    requires FollowsPlan(p, deadLetters, es, ws, n, d) && ws <= ws'
    ensures FollowsPlan(p, deadLetters, es + [e], ws', n, d)
  {
    hide Planned;
    if d.Putting? {
      StaysPlanned(p, deadLetters, es, e, n, Some(d.record), d.action);
    } else if (d.Telling? || d.Over?) && !d.action.Nak? {
      var record :| Planned(p, deadLetters, es, n, record, d.action)
                    && d.due == record.Some? && (d.due ==> record.value in ws);
      StaysPlanned(p, deadLetters, es, e, n, record, d.action);
    }
  }

  /** A step of the n-th delivery follows the plan. */
  lemma StepFollows(p: B.Policy, deadLetters: bool, es: seq<Event>, m: Message, e: Event)
    requires !e.Deliver? && e.n < |m.deliveries|
    requires FollowsPlan(p, deadLetters, es, m.writes, e.n, m.deliveries[e.n])
    ensures var m' := Step(p, deadLetters, m, e);
      FollowsPlan(p, deadLetters, es + [e], m'.writes, e.n, m'.deliveries[e.n])
  {
    hide Planned, Plan;
    var d, m' := m.deliveries[e.n], Step(p, deadLetters, m, e);
    var d' := m'.deliveries[e.n];
    FollowsOn(p, deadLetters, es, e, m.writes, m'.writes, e.n, d);
    if e.Return? && d.Running? {
      var (record, action) := Plan(p, deadLetters, e.n, e.result);
      PlannedNow(p, deadLetters, es, e);
    } else if e.PutEnds? && d.Putting? && !d'.action.Nak? {
      assert Planned(p, deadLetters, es + [e], e.n, Some(d.record), d'.action);
    } else if e.Tells? && d.Telling? && !d.action.Nak? {
      assert TellsAsPlanned(p, deadLetters, es + [e], m'.writes, e.n, d);
    }
  }

  lemma PlannedNow(p: B.Policy, deadLetters: bool, es: seq<Event>, e: Event)
    requires e.Return?
    ensures var (record, action) := Plan(p, deadLetters, e.n, e.result);
      Planned(p, deadLetters, es + [e], e.n, record, action)
  {
    assert PlannedAt(p, deadLetters, (es + [e])[|es|], e.n, Plan(p, deadLetters, e.n, e.result).0,
                     Plan(p, deadLetters, e.n, e.result).1);
  }

  lemma {:induction false} RunFollowsPlan(p: B.Policy, deadLetters: bool, es: seq<Event>, n: nat)
    requires n < |Run(p, deadLetters, es).deliveries|
    ensures FollowsPlan(p, deadLetters, es, Run(p, deadLetters, es).writes, n, Run(p, deadLetters, es).deliveries[n])
  {
    hide FollowsPlan, Plan;
    if es == [] {
      assert false;
    } else {
      var rest, e := es[..|es| - 1], es[|es| - 1];
      var m := Run(p, deadLetters, rest);
      assert es == rest + [e];
      if n < |m.deliveries| {
        RunFollowsPlan(p, deadLetters, rest, n);
        if !e.Deliver? && e.n == n {
          StepFollows(p, deadLetters, rest, m, e);
        } else {
          FollowsOn(p, deadLetters, rest, e, m.writes, Run(p, deadLetters, es).writes, n, m.deliveries[n]);
        }
      } else {
        NewFollows(p, deadLetters, es, m.writes, n);
      }
    }
  }

  lemma NewFollows(p: B.Policy, deadLetters: bool, es: seq<Event>, ws: seq<Record>, n: nat)
    ensures FollowsPlan(p, deadLetters, es, ws, n, Running)
  {
  }

  /** Whatever a settlement that the queue has learned of says is what the policy plans for the result the task
      returned in that delivery, and if a record is due for that result, that delivery has written it. */
  lemma SettledIsWritten(p: B.Policy, deadLetters: bool, es: seq<Event>, n: nat)
    requires n < |Run(p, deadLetters, es).deliveries|
    ensures var m := Run(p, deadLetters, es);
      var d := m.deliveries[n];
      Taken(d) ==> exists record :: Planned(p, deadLetters, es, n, record, d.action)
                                    && (record.Some? ==> Wrote(d) && record.value in m.writes)
  {
    hide Planned;
    RunKeepsInv(p, deadLetters, es);
    RunFollowsPlan(p, deadLetters, es, n);
    assert PhaseOk(p, n, Run(p, deadLetters, es).deliveries[n]);
  }

  /** The wasted deliveries are those that wrote without settling the message. */
  lemma WastedIs(p: B.Policy, n: nat, d: Phase)
    requires PhaseOk(p, n, d)
    ensures Wasted(d) <==> Wrote(d) && !Taken(d)
  {
  }

  lemma {:induction false} WroteSplits(p: B.Policy, ds: seq<Phase>)
    requires forall n :: 0 <= n < |ds| ==> PhaseOk(p, n, ds[n])
    ensures Count(ds, Wrote) == Count(ds, Wasted) + Count(ds, TakenAfterWrite)
    ensures Count(ds, TakenAfterWrite) <= Count(ds, Taken)
  {
    hide PhaseOk, Wasted, Wrote;
    if ds != [] {
      var last := |ds| - 1;
      WroteSplits(p, ds[..last]);
      WastedIs(p, last, ds[last]);
    }
  }

  /** A task writes at most one record more than deliveries were cut off after their write or told in vain,
      and exactly one more when the settlement that was taken followed a write. */
  lemma WritesAreAccountedFor(p: B.Policy, deadLetters: bool, es: seq<Event>)
    ensures var m := Run(p, deadLetters, es);
      |m.writes| <= 1 + Count(m.deliveries, Wasted)
    ensures var m := Run(p, deadLetters, es);
      |m.writes| == 1 + Count(m.deliveries, Wasted)
      <==> exists n :: 0 <= n < |m.deliveries| && TakenAfterWrite(m.deliveries[n])
  {
    var m := Run(p, deadLetters, es);
    RunKeepsInv(p, deadLetters, es);
    WroteSplits(p, m.deliveries);
    CountPositive(m.deliveries, TakenAfterWrite);
  }

  lemma RunUnfolds(p: B.Policy, deadLetters: bool, es: seq<Event>, e: Event)
    ensures Run(p, deadLetters, es + [e]) == Step(p, deadLetters, Run(p, deadLetters, es), e)
  {
  }

  lemma RunFour(p: B.Policy, deadLetters: bool, es: seq<Event>, a: Event, b: Event, c: Event, d: Event)
    ensures Run(p, deadLetters, es + [a, b, c, d])
            == Step(p, deadLetters, Step(p, deadLetters, Step(p, deadLetters,
                    Step(p, deadLetters, Run(p, deadLetters, es), a), b), c), d)
  {
    hide Step;
    RunUnfolds(p, deadLetters, es, a);
    RunUnfolds(p, deadLetters, es + [a], b);
    RunUnfolds(p, deadLetters, es + [a] + [b], c);
    RunUnfolds(p, deadLetters, es + [a] + [b] + [c], d);
    assert es + [a, b, c, d] == es + [a] + [b] + [c] + [d];
  }

  const CUT_OFF := Message(false, [Dead(true)], [Result])
  const REPEATED := Message(true, [Dead(true), Over(Ack, true, true, true)], [Result, Result])

  lemma DiesAfterWrite(p: B.Policy, deadLetters: bool)
    ensures Step(p, deadLetters, Step(p, deadLetters, Step(p, deadLetters, Step(p, deadLetters, NEW,
                 Deliver), Return(0, Done(1))), PutEnds(0, Written)), Dies(0)) == CUT_OFF
  {
  }

  lemma RunsAgain(p: B.Policy, deadLetters: bool)
    ensures Step(p, deadLetters, Step(p, deadLetters, Step(p, deadLetters, Step(p, deadLetters, CUT_OFF,
                 Deliver), Return(1, Done(1))), PutEnds(1, Written)), Tells(1, true)) == REPEATED
  {
  }

  /** A node that dies between the write and the acknowledgement: the result is written twice. */
  lemma WrittenTwice(p: B.Policy, deadLetters: bool) returns (es: seq<Event>)
    ensures Run(p, deadLetters, es) == REPEATED
  {
    hide Step;
    RunFour(p, deadLetters, [], Deliver, Return(0, Done(1)), PutEnds(0, Written), Dies(0));
    DiesAfterWrite(p, deadLetters);
    es := [] + [Deliver, Return(0, Done(1)), PutEnds(0, Written), Dies(0)];
    RunFour(p, deadLetters, es, Deliver, Return(1, Done(1)), PutEnds(1, Written), Tells(1, true));
    RunsAgain(p, deadLetters);
    es := es + [Deliver, Return(1, Done(1)), PutEnds(1, Written), Tells(1, true)];
  }

  // ----- how often a task runs ---------------------------------------------------------------------------

  lemma {:induction false} DelayOrder(b: int, i: nat, j: nat)
    requires 0 <= b && i <= j
    ensures b <= B.Delay(b, i) <= B.Delay(b, j) <= b * B.COEFF
    decreases j - i
  {
    B.DelaysGrow(b, j);
    if i < j {
      DelayOrder(b, i, j - 1);
      B.DelaysGrow(b, j - 1);
    } else {
      B.DelaysGrow(b, i);
    }
  }

  predicate Retries(d: Phase) {
    d.Over? && d.action.NakWithDelay?
  }

  /** Whatever dies or gets lost in between, the delays of later retries are never shorter, and none exceeds
      twenty times the base delay. */
  lemma RetriesSlowDown(policy: B.Policy, deadLetters: bool, es: seq<Event>, i: nat, j: nat)
    requires i <= j < |Run(B.WithDefaults(policy), deadLetters, es).deliveries|
    ensures var p := B.WithDefaults(policy);
      var ds := Run(p, deadLetters, es).deliveries;
      Retries(ds[i]) && Retries(ds[j])
      ==> p.backoff <= ds[i].action.delay <= ds[j].action.delay <= p.backoff * B.COEFF
  {
    var p := B.WithDefaults(policy);
    var ds := Run(p, deadLetters, es).deliveries;
    RunKeepsInv(p, deadLetters, es);
    if Retries(ds[i]) && Retries(ds[j]) {
      assert PhaseOk(p, i, ds[i]) && PhaseOk(p, j, ds[j]);
      DelayOrder(p.backoff, i, j);
    }
  }

  /** The first delay is the base, the second three times, the third six times, and from the sixth on it is twenty
      times the base. */
  lemma RetryDelays(policy: B.Policy, deadLetters: bool, es: seq<Event>, n: nat)
    requires n < |Run(B.WithDefaults(policy), deadLetters, es).deliveries|
    ensures var p := B.WithDefaults(policy);
      var d := Run(p, deadLetters, es).deliveries[n];
      Retries(d) && 0 < p.backoff ==>
        && (n == 0 <==> d.action.delay == p.backoff)
        && (n == 1 ==> d.action.delay == 3 * p.backoff)
        && (n == 2 ==> d.action.delay == 6 * p.backoff)
        && (5 <= n <==> d.action.delay == 20 * p.backoff)
  {
    var p := B.WithDefaults(policy);
    var d := Run(p, deadLetters, es).deliveries[n];
    RunKeepsInv(p, deadLetters, es);
    if Retries(d) && 0 < p.backoff {
      assert PhaseOk(p, n, d);
      hide B.Delay;
      B.FirstDelays(p.backoff);
      B.MaximumIff(p.backoff, n);
      DelayOrder(p.backoff, if n == 0 then 0 else 1, n);
    }
  }

  /** The delivery ended without a word from its node, is still under way, or told a settlement in vain. */
  predicate Disturbed(d: Phase) {
    !d.Over? || (Settles(d.action) && !d.taken)
  }

  /** The delivery could not write and asked for another one. */
  predicate Refusal(d: Phase) {
    d.Over? && d.action.Nak?
  }

  predicate Decided(d: Phase) {
    d.Over?
  }

  predicate InVain(d: Phase) {
    d.Over? && Settles(d.action) && !d.taken
  }

  lemma {:induction false} PhasesSplit(ds: seq<Phase>)
    requires forall n :: 0 <= n < |ds| && ds[n].Over? && ds[n].taken ==> Settles(ds[n].action)
    ensures |ds| == Count(ds, Retries) + Count(ds, Disturbed) + Count(ds, Refusal) + Count(ds, Taken)
    ensures Count(ds, Decided) == Count(ds, Retries) + Count(ds, InVain) + Count(ds, Refusal) + Count(ds, Taken)
  {
    if ds != [] {
      PhasesSplit(ds[..|ds| - 1]);
    }
  }

  /** The deliveries made once the attempts were used up. */
  function Late(p: B.Policy, m: Message): seq<Phase>
    requires 0 < p.attempts
  {
    if p.attempts <= |m.deliveries| then m.deliveries[p.attempts..] else []
  }

  lemma LateSplit(p: B.Policy, m: Message)
    requires 0 < p.attempts && PhasesOk(p, m) && CountsOk(m)
    ensures |Late(p, m)| == Count(Late(p, m), Disturbed) + Count(Late(p, m), Refusal) + Count(Late(p, m), Taken)
    ensures Count(Late(p, m), Decided)
            == Count(Late(p, m), InVain) + Count(Late(p, m), Refusal) + Count(Late(p, m), Taken)
    ensures Count(Late(p, m), Taken) <= Count(m.deliveries, Taken) <= 1
  {
    var late := Late(p, m);
    forall n | 0 <= n < |late|
      ensures !Retries(late[n]) && (late[n].Over? && late[n].taken ==> Settles(late[n].action))
    {
      assert PhaseOk(p, p.attempts + n, m.deliveries[p.attempts + n]);
    }
    PhasesSplit(late);
    CountPositive(late, Retries);
    if p.attempts <= |m.deliveries| {
      CountAppend(m.deliveries[..p.attempts], late, Taken);
      assert m.deliveries == m.deliveries[..p.attempts] + late;
    }
  }

  /** With limited attempts a task runs at most once more than the policy allows attempts and than later
      deliveries were disturbed or could not write; it runs exactly that often, beyond its attempts, when one
      of the later deliveries settled the message. */
  lemma ExecutionsAreAccountedFor(p: B.Policy, deadLetters: bool, es: seq<Event>)
    requires 0 < p.attempts
    ensures var m := Run(p, deadLetters, es);
      |m.deliveries| <= p.attempts + 1 + Count(Late(p, m), Disturbed) + Count(Late(p, m), Refusal)
    ensures var m := Run(p, deadLetters, es);
      |m.deliveries| == p.attempts + 1 + Count(Late(p, m), Disturbed) + Count(Late(p, m), Refusal)
      <==> exists n :: 0 <= n < |Late(p, m)| && Taken(Late(p, m)[n])
  {
    var m := Run(p, deadLetters, es);
    RunKeepsInv(p, deadLetters, es);
    LateSplit(p, m);
    CountPositive(Late(p, m), Taken);
  }

  /** The decisions about a task: at most one more than its attempts, than settlements told in vain and than
      writes refused after the attempts were used up. */
  lemma DecisionsAreAccountedFor(p: B.Policy, deadLetters: bool, es: seq<Event>)
    requires 0 < p.attempts
    ensures var m := Run(p, deadLetters, es);
      Count(m.deliveries, Decided)
      <= p.attempts + 1 + Count(Late(p, m), InVain) + Count(Late(p, m), Refusal)
    ensures var m := Run(p, deadLetters, es);
      Count(m.deliveries, Decided)
      == p.attempts + 1 + Count(Late(p, m), InVain) + Count(Late(p, m), Refusal)
      <==> (exists n :: 0 <= n < |Late(p, m)| && Taken(Late(p, m)[n]))
           && forall n :: 0 <= n < p.attempts && n < |m.deliveries| ==> Decided(m.deliveries[n])
  {
    hide Run, PhasesOk, CountsOk;
    var m := Run(p, deadLetters, es);
    RunKeepsInv(p, deadLetters, es);
    LateSplit(p, m);
    CountPositive(Late(p, m), Taken);
    EarlyDecisions(p, m);
  }

  lemma EarlyDecisions(p: B.Policy, m: Message)
    requires 0 < p.attempts
    ensures Count(m.deliveries, Decided) <= p.attempts + Count(Late(p, m), Decided)
    ensures Late(p, m) != [] ==>
      (Count(m.deliveries, Decided) == p.attempts + Count(Late(p, m), Decided)
       <==> forall n :: 0 <= n < p.attempts && n < |m.deliveries| ==> Decided(m.deliveries[n]))
    ensures Late(p, m) == [] ==> Count(m.deliveries, Decided) <= p.attempts
  {
    var early := if p.attempts <= |m.deliveries| then m.deliveries[..p.attempts] else m.deliveries;
    assert m.deliveries == early + Late(p, m);
    CountAppend(early, Late(p, m), Decided);
    CountFull(early, Decided);
    assert forall n :: 0 <= n < |early| ==> early[n] == m.deliveries[n];
  }

  lemma {:induction false} CountFull(ds: seq<Phase>, f: Phase -> bool)
    ensures Count(ds, f) == |ds| <==> forall n :: 0 <= n < |ds| ==> f(ds[n])
  {
    if ds != [] {
      var last := |ds| - 1;
      CountFull(ds[..last], f);
      assert forall n :: 0 <= n < last ==> ds[..last][n] == ds[n];
    }
  }

  // ----- tasks that keep failing --------------------------------------------------------------------------

  predicate AllFail(es: seq<Event>) {
    forall i :: 0 <= i < |es| && es[i].Return? ==> es[i].result.Failed?
  }

  /** In every run in which the task only fails, it runs at most `bound` times more than its deliveries are
      disturbed by dying nodes and lost messages. */
  ghost predicate Bounded(p: B.Policy, deadLetters: bool, bound: nat) {
    forall es :: AllFail(es) ==>
      |Run(p, deadLetters, es).deliveries| <= bound + Count(Run(p, deadLetters, es).deliveries, Disturbed)
  }

  predicate NoWrites(m: Message) {
    forall n :: 0 <= n < |m.deliveries| ==>
      match m.deliveries[n]
      case Putting(_, _) => false
      case Telling(action, _, _) => !action.Nak?
      case Over(action, _, _, _) => !action.Nak?
      case _ => true
  }

  lemma {:induction false} FailingRunWritesNothing(p: B.Policy, es: seq<Event>)
    requires AllFail(es)
    ensures NoWrites(Run(p, false, es))
  {
    if es != [] {
      var rest, e := es[..|es| - 1], es[|es| - 1];
      assert forall i :: 0 <= i < |rest| ==> rest[i] == es[i];
      FailingRunWritesNothing(p, rest);
      var m := Run(p, false, rest);
      assert !e.Deliver? && e.n < |m.deliveries| ==> !m.deliveries[e.n].Putting?;
    }
  }

  /** One undisturbed failure, with a bucket that refuses. */
  function Failure(n: nat, retryable: bool): seq<Event> {
    [Deliver, Return(n, Failed(retryable)), PutEnds(n, Refused), Tells(n, true)]
  }

  function Failures(retryable: bool, k: nat): (es: seq<Event>)
    ensures AllFail(es)
  {
    if k == 0 then [] else Failures(retryable, k - 1) + Failure(k - 1, retryable)
  }

  /** The message is not settled and every delivery asked for another one. */
  predicate AllAskAgain(m: Message, k: nat) {
    && !m.settled && |m.deliveries| == k
    && forall n :: 0 <= n < k ==> Retries(m.deliveries[n]) || Refusal(m.deliveries[n])
  }

  lemma FailureAsksAgain(p: B.Policy, deadLetters: bool, m: Message, k: nat, retryable: bool)
    requires (deadLetters && !retryable) || (retryable && p.attempts <= 0)
    requires AllAskAgain(m, k)
    ensures var es := Failure(k, retryable);
      AllAskAgain(Step(p, deadLetters, Step(p, deadLetters, Step(p, deadLetters,
                       Step(p, deadLetters, m, es[0]), es[1]), es[2]), es[3]), k + 1)
  {
  }

  lemma {:induction false} FailuresGoOn(p: B.Policy, deadLetters: bool, retryable: bool, k: nat)
    requires (deadLetters && !retryable) || (retryable && p.attempts <= 0)
    ensures AllAskAgain(Run(p, deadLetters, Failures(retryable, k)), k)
  {
    if k > 0 {
      FailuresGoOn(p, deadLetters, retryable, k - 1);
      var es, f := Failures(retryable, k - 1), Failure(k - 1, retryable);
      RunFour(p, deadLetters, es, f[0], f[1], f[2], f[3]);
      FailureAsksAgain(p, deadLetters, Run(p, deadLetters, es), k - 1, retryable);
    }
  }

  /** Apart from disturbed deliveries, the executions of a failing task are bounded over all runs exactly when
      the attempts are limited and no dead letters are kept: a bucket that refuses a dead letter makes the
      queue deliver again, without a delay, even a task whose error forbids a retry. */
  lemma FailuresAreBoundedIff(p: B.Policy, deadLetters: bool)
    ensures (exists bound :: Bounded(p, deadLetters, bound)) <==> 0 < p.attempts && !deadLetters
  {
    if 0 < p.attempts && !deadLetters {
      forall es | AllFail(es)
        ensures |Run(p, deadLetters, es).deliveries|
                <= p.attempts + 1 + Count(Run(p, deadLetters, es).deliveries, Disturbed)
      {
        FailingRunIsBounded(p, es);
      }
      assert Bounded(p, deadLetters, p.attempts + 1);
    } else {
      forall bound: nat ensures !Bounded(p, deadLetters, bound) {
        var es := Failures(!deadLetters, bound + 1);
        FailuresGoOn(p, deadLetters, !deadLetters, bound + 1);
        CountPositive(Run(p, deadLetters, es).deliveries, Disturbed);
      }
    }
  }

  lemma FailingRunIsBounded(p: B.Policy, es: seq<Event>)
    requires 0 < p.attempts && AllFail(es)
    ensures |Run(p, false, es).deliveries| <= p.attempts + 1 + Count(Run(p, false, es).deliveries, Disturbed)
  {
    hide Run;
    var m := Run(p, false, es);
    ExecutionsAreAccountedFor(p, false, es);
    FailingRunWritesNothing(p, es);
    var late := Late(p, m);
    forall n | 0 <= n < |late| ensures !Refusal(late[n]) {
      assert late[n] == m.deliveries[p.attempts + n];
    }
    CountPositive(late, Refusal);
    if p.attempts <= |m.deliveries| {
      CountAppend(m.deliveries[..p.attempts], late, Disturbed);
      assert m.deliveries == m.deliveries[..p.attempts] + late;
    }
  }
}
