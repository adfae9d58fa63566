/**
 Any number of nodes run the same scheduled task.  They coordinate through one key of a
 revisioned key-value bucket that holds the time of the next run: load it, move it forward with a
 revision-checked update (the claim), publish, and move it back if publishing failed (the rollback).

 A run is any interleaving of the atomic operations of all nodes, including crashes and writes to
 the other keys of the bucket.  Instants are nanoseconds; the key stores whole milliseconds.
 */
module Scheduler {

  const MILLI: int := 1_000_000

  /** What is left of an instant after a trip through the stored milliseconds. */
  function Stored(t: int): int {
    t / MILLI * MILLI
  }

  /** The stored value: the one-byte placeholder, read as its creation time, or a next-run time. */
  datatype Value = Placeholder(created: int) | NextRun(ms: int)

  function DueTime(v: Value): int {
    match v
    case Placeholder(created) => created
    case NextRun(ms) => ms * MILLI
  }

  datatype Kind = Created | Claim(now: int) | Rollback(now: int)

  /** One revision of the key. */
  datatype Write = Write(revision: nat, node: nat, kind: Kind, value: Value)

  /** `claim` is the position in the log of the node's own claim. */
  datatype Pc =
    | Idle
    | Due(revision: nat, now: int)
    | Claimed(revision: nat, now: int, claim: nat)
    | Failed(revision: nat, now: int, claim: nat)

  /** `lastSeq` is the last sequence number of the bucket's stream, shared by all its keys;
      `published` lists the messages that went out. */
  datatype State = State(log: seq<Write>, lastSeq: nat, nodes: map<nat, Pc>, published: seq<Publication>)

  /** A message sent by `node` on the strength of the claim at position `claim` of the log. */
  datatype Publication = Publication(node: nat, claim: nat)

  datatype Event =
    | OtherKeys(writes: nat)
    | Create(node: nat, created: int)
    | Load(node: nat, now: int)
    | TryClaim(node: nat, delivered: bool)
    | Publish(node: nat, ok: bool)
    | TryRollback(node: nat, delivered: bool)
    | Crash(node: nat)

  const INITIAL := State([], 0, map[], [])

  function At(s: State, n: nat): Pc {
    if n in s.nodes then s.nodes[n] else Idle
  }

  function Goto(s: State, n: nat, pc: Pc): State {
    s.(nodes := s.nodes[n := pc])
  }

  /** A revision-checked update: it takes the next sequence number of the stream. */
  function Append(s: State, n: nat, kind: Kind, value: Value): State {
    s.(log := s.log + [Write(s.lastSeq + 1, n, kind, value)], lastSeq := s.lastSeq + 1)
  }

  predicate Current(s: State, revision: nat) {
    s.log != [] && s.log[|s.log| - 1].revision == revision
  }

  function Step(interval: int, s: State, e: Event): State {
    match e
    case OtherKeys(writes) => s.(lastSeq := s.lastSeq + writes)
    case Create(n, created) =>
      if s.log == [] then Append(s, n, Created, Placeholder(created)) else s
    case Load(n, now) =>
      if At(s, n) != Idle || s.log == [] then s
      else
        var last := s.log[|s.log| - 1];
        if DueTime(last.value) < now then Goto(s, n, Due(last.revision, now)) else s
    case TryClaim(n, delivered) =>
      (match At(s, n)
       case Due(revision, now) =>
         if delivered && Current(s, revision)
         then Goto(Append(s, n, Claim(now), NextRun((now + interval) / MILLI)), n, Claimed(revision, now, |s.log|))
         else Goto(s, n, Idle)
       case _ => s)
    case Publish(n, ok) =>
      (match At(s, n)
       case Claimed(revision, now, claim) =>
         if ok then Goto(s.(published := s.published + [Publication(n, claim)]), n, Idle)
         else Goto(s, n, Failed(revision, now, claim))
       case _ => s)
    case TryRollback(n, delivered) =>
      (match At(s, n)
       case Failed(revision, now, claim) =>
         if delivered && Current(s, revision + 1)
         then Goto(Append(s, n, Rollback(now), NextRun(now / MILLI)), n, Idle)
         else Goto(s, n, Idle)
       case _ => s)
    case Crash(n) => Goto(s, n, Idle)
  }

  function Run(interval: int, es: seq<Event>): State {
    if es == [] then INITIAL
    else Step(interval, Run(interval, es[..|es| - 1]), es[|es| - 1])
  }

  // ----- invariant ---------------------------------------------------------------------------

  /** A claim that no rollback has undone. */
  predicate Standing(log: seq<Write>, k: nat) {
    k < |log| && log[k].kind.Claim? && !(k + 1 < |log| && log[k + 1].kind.Rollback?)
  }

  predicate Ordered(s: State) {
    && (forall k :: 0 <= k < |s.log| ==> s.log[k].revision <= s.lastSeq)
    && (forall j, k :: 0 <= j < k < |s.log| ==> s.log[j].revision < s.log[k].revision)
  }

  /** Every rollback undoes the write just before it, which is a claim of the same node. */
  predicate RollbacksAreOwn(log: seq<Write>) {
    forall k :: 0 <= k < |log| && log[k].kind.Rollback? ==>
      && 0 < k
      && log[k - 1].kind == Claim(log[k].kind.now)
      && log[k - 1].node == log[k].node
  }

  /** After a standing claim the stored time never drops below the end of its interval, and every
      later claim is made after that time. */
  predicate Spaced(interval: int, log: seq<Write>) {
    forall i, j :: 0 <= i < j < |log| && Standing(log, i) ==>
      && Stored(log[i].kind.now + interval) <= DueTime(log[j].value)
      && (log[j].kind.Claim? ==> Stored(log[i].kind.now + interval) < log[j].kind.now)
  }

  predicate ClaimValues(interval: int, log: seq<Write>) {
    forall k :: 0 <= k < |log| && log[k].kind.Claim? ==>
      log[k].value == NextRun((log[k].kind.now + interval) / MILLI)
  }

  predicate WasPublished(s: State, claim: nat) {
    exists p :: 0 <= p < |s.published| && s.published[p].claim == claim
  }

  /** A node past its claim owns a standing claim that directly follows the revision it loaded. */
  predicate Holds(s: State, n: nat, revision: nat, now: int, claim: nat) {
    && 0 < claim
    && Standing(s.log, claim)
    && s.log[claim].node == n
    && s.log[claim].kind.now == now
    && s.log[claim - 1].revision == revision
    && !WasPublished(s, claim)
  }

  predicate NodeOk(s: State, n: nat) {
    match At(s, n)
    case Idle => true
    case Due(revision, now) =>
      && revision <= s.lastSeq
      && forall k :: 0 <= k < |s.log| && s.log[k].revision == revision ==> DueTime(s.log[k].value) < now
    case Claimed(revision, now, claim) => Holds(s, n, revision, now, claim)
    case Failed(revision, now, claim) => Holds(s, n, revision, now, claim)
  }

  predicate PublishedOk(s: State) {
    && (forall p :: 0 <= p < |s.published| ==>
          Standing(s.log, s.published[p].claim) && s.log[s.published[p].claim].node == s.published[p].node)
    && (forall p, q :: 0 <= p < q < |s.published| ==> s.published[p].claim != s.published[q].claim)
  }

  predicate LogOk(interval: int, s: State) {
    && Ordered(s)
    && RollbacksAreOwn(s.log)
    && ClaimValues(interval, s.log)
    && Spaced(interval, s.log)
    && PublishedOk(s)
  }

  ghost predicate Inv(interval: int, s: State) {
    && LogOk(interval, s)
    && forall n: nat :: NodeOk(s, n)
  }

  // ----- preservation ------------------------------------------------------------------------

  lemma StoredBounds(t: int)
    ensures t - 1_000_000 < Stored(t) <= t && Stored(t) % 1_000_000 == 0
  {
  }

  /** Rounding down cannot cross a stored instant. */
  lemma StoredAbove(x: int, t: int)
    requires Stored(x) < t
    ensures Stored(x) <= Stored(t)
  {
  }

  /** A claim made after the current due time comes after the interval of every standing claim. */
  lemma NewClaimIsLater(interval: int, log: seq<Write>, w: Write, i: nat)
    requires 0 < interval
    requires Spaced(interval, log) && ClaimValues(interval, log) && Standing(log, i)
    requires w.kind.Claim? && DueTime(log[|log| - 1].value) < w.kind.now
    requires w.value == NextRun((w.kind.now + interval) / MILLI)
    ensures Stored(log[i].kind.now + interval) <= DueTime(w.value)
    ensures Stored(log[i].kind.now + interval) < w.kind.now
  {
    assert Stored(log[i].kind.now + interval) <= DueTime(log[|log| - 1].value);
    StoredAbove(log[i].kind.now + interval, w.kind.now + interval);
  }

  /** Appending a claim made after the current due time keeps the log spaced. */
  lemma ClaimKeepsSpacing(interval: int, log: seq<Write>, w: Write)
    requires 0 < interval
    requires Spaced(interval, log) && ClaimValues(interval, log) && log != []
    requires w.kind.Claim? && DueTime(log[|log| - 1].value) < w.kind.now
    requires w.value == NextRun((w.kind.now + interval) / MILLI)
    ensures Spaced(interval, log + [w])
  {
    hide Stored, DueTime, ClaimValues;
    var log' := log + [w];
    forall i, j | 0 <= i < j < |log'| && Standing(log', i)
      ensures Stored(log'[i].kind.now + interval) <= DueTime(log'[j].value)
      ensures log'[j].kind.Claim? ==> Stored(log'[i].kind.now + interval) < log'[j].kind.now
    {
      assert Standing(log, i);
      if j == |log| {
        NewClaimIsLater(interval, log, w, i);
      }
    }
  }

  /** Undoing the last claim cannot reopen the interval of an earlier standing claim. */
  lemma RollbackKeepsSpacing(interval: int, log: seq<Write>, w: Write)
    requires Spaced(interval, log) && log != []
    requires w.kind.Rollback? && log[|log| - 1].kind == Claim(w.kind.now)
    requires w.value == NextRun(w.kind.now / MILLI)
    ensures Spaced(interval, log + [w])
  {
    hide Stored, DueTime;
    var log' := log + [w];
    forall i, j | 0 <= i < j < |log'| && Standing(log', i)
      ensures Stored(log'[i].kind.now + interval) <= DueTime(log'[j].value)
      ensures log'[j].kind.Claim? ==> Stored(log'[i].kind.now + interval) < log'[j].kind.now
    {
      StandingBefore(log, w, i);
      if j == |log| {
        UndoneClaimIsLater(interval, log, w, i);
      }
    }
  }

  lemma StandingBefore(log: seq<Write>, w: Write, i: nat)
    requires w.kind.Rollback? && i < |log| && Standing(log + [w], i)
    ensures i < |log| - 1 && Standing(log, i) && log[i].kind.Claim?
  {
    assert (log + [w])[|log|].kind.Rollback?;
  }

  /** Nor does the time an undone claim leaves in the key come before it. */
  lemma UndoneClaimIsLater(interval: int, log: seq<Write>, w: Write, i: nat)
    requires Spaced(interval, log) && i < |log| - 1 && Standing(log, i)
    requires w.kind.Rollback? && log[|log| - 1].kind == Claim(w.kind.now)
    requires w.value == NextRun(w.kind.now / MILLI)
    ensures Stored(log[i].kind.now + interval) <= DueTime(w.value)
  {
    assert Stored(log[i].kind.now + interval) < w.kind.now;
    StoredAbove(log[i].kind.now + interval, w.kind.now);
  }

  lemma AppendKeepsOrder(s: State, n: nat, kind: Kind, value: Value)
    requires Ordered(s)
    ensures Ordered(Append(s, n, kind, value))
  {
  }

  lemma AppendClaimKeepsLog(interval: int, s: State, n: nat, now: int)
    requires RollbacksAreOwn(s.log) && ClaimValues(interval, s.log) && PublishedOk(s)
    ensures
      var s' := Append(s, n, Claim(now), NextRun((now + interval) / MILLI));
      RollbacksAreOwn(s'.log) && ClaimValues(interval, s'.log) && PublishedOk(s')
  {
  }

  /** The heart of rollback safety: the only write that can carry the revision after the loaded one
      is the node's own claim. */
  lemma NextRevisionIsOwnClaim(s: State, n: nat, revision: nat, now: int, claim: nat)
    requires Ordered(s) && Holds(s, n, revision, now, claim) && Current(s, revision + 1)
    ensures claim == |s.log| - 1
  {
  }

  lemma ClaimKeepsNode(interval: int, s: State, n: nat, m: nat)
    requires Ordered(s) && PublishedOk(s) && NodeOk(s, m)
    requires At(s, n).Due? && Current(s, At(s, n).revision)
    ensures NodeOk(Step(interval, s, TryClaim(n, true)), m)
  {
  }

  lemma ClaimKeepsLog(interval: int, s: State, n: nat)
    requires 0 < interval && LogOk(interval, s) && NodeOk(s, n)
    requires At(s, n).Due? && Current(s, At(s, n).revision)
    ensures LogOk(interval, Step(interval, s, TryClaim(n, true)))
  {
    hide Spaced, ClaimValues, RollbacksAreOwn, PublishedOk, Ordered;
    var now := At(s, n).now;
    var value := NextRun((now + interval) / MILLI);
    ClaimKeepsSpacing(interval, s.log, Write(s.lastSeq + 1, n, Claim(now), value));
    AppendKeepsOrder(s, n, Claim(now), value);
    AppendClaimKeepsLog(interval, s, n, now);
    LogOkIgnoresNodes(interval, Append(s, n, Claim(now), value), Step(interval, s, TryClaim(n, true)));
  }

  lemma LogOkIgnoresNodes(interval: int, s: State, s': State)
    requires LogOk(interval, s) && s' == s.(nodes := s'.nodes)
    ensures LogOk(interval, s')
  {
  }

  lemma ClaimStep(interval: int, s: State, n: nat)
    requires 0 < interval && Inv(interval, s)
    requires At(s, n).Due? && Current(s, At(s, n).revision)
    ensures Inv(interval, Step(interval, s, TryClaim(n, true)))
  {
    ClaimKeepsLog(interval, s, n);
    forall m: nat ensures NodeOk(Step(interval, s, TryClaim(n, true)), m) {
      ClaimKeepsNode(interval, s, n, m);
    }
  }

  lemma RollbackKeepsNode(interval: int, s: State, n: nat, m: nat)
    requires Ordered(s) && NodeOk(s, n) && NodeOk(s, m)
    requires At(s, n).Failed? && Current(s, At(s, n).revision + 1)
    requires At(s, n).claim == |s.log| - 1
    ensures NodeOk(Step(interval, s, TryRollback(n, true)), m)
  {
  }

  lemma AppendRollbackKeepsLog(interval: int, s: State, n: nat, now: int)
    requires RollbacksAreOwn(s.log) && ClaimValues(interval, s.log) && PublishedOk(s)
    requires s.log != [] && s.log[|s.log| - 1].kind == Claim(now) && s.log[|s.log| - 1].node == n
    requires !WasPublished(s, |s.log| - 1)
    ensures
      var s' := Append(s, n, Rollback(now), NextRun(now / MILLI));
      RollbacksAreOwn(s'.log) && ClaimValues(interval, s'.log) && PublishedOk(s')
  {
  }

  lemma RollbackKeepsLog(interval: int, s: State, n: nat)
    requires LogOk(interval, s) && NodeOk(s, n)
    requires At(s, n).Failed? && Current(s, At(s, n).revision + 1)
    requires At(s, n).claim == |s.log| - 1
    ensures LogOk(interval, Step(interval, s, TryRollback(n, true)))
  {
    hide Spaced, ClaimValues, Ordered;
    var now := At(s, n).now;
    RollbackKeepsSpacing(interval, s.log, Write(s.lastSeq + 1, n, Rollback(now), NextRun(now / MILLI)));
    AppendKeepsOrder(s, n, Rollback(now), NextRun(now / MILLI));
    AppendRollbackKeepsLog(interval, s, n, now);
    LogOkIgnoresNodes(interval, Append(s, n, Rollback(now), NextRun(now / MILLI)),
                      Step(interval, s, TryRollback(n, true)));
  }

  lemma RollbackStep(interval: int, s: State, n: nat)
    requires Inv(interval, s)
    requires At(s, n).Failed? && Current(s, At(s, n).revision + 1)
    ensures Inv(interval, Step(interval, s, TryRollback(n, true)))
  {
    assert NodeOk(s, n);
    NextRevisionIsOwnClaim(s, n, At(s, n).revision, At(s, n).now, At(s, n).claim);
    RollbackKeepsLog(interval, s, n);
    forall m: nat ensures NodeOk(Step(interval, s, TryRollback(n, true)), m) {
      RollbackKeepsNode(interval, s, n, m);
    }
  }

  lemma CreateStep(interval: int, s: State, n: nat, created: int)
    requires Inv(interval, s) && s.log == []
    ensures Inv(interval, Step(interval, s, Create(n, created)))
  {
    var s' := Step(interval, s, Create(n, created));
    forall m: nat ensures NodeOk(s', m) {
      assert NodeOk(s, m);
    }
  }

  lemma PublishKeepsNode(interval: int, s: State, n: nat, ok: bool, m: nat)
    requires NodeOk(s, n) && NodeOk(s, m)
    ensures NodeOk(Step(interval, s, Publish(n, ok)), m)
  {
  }

  lemma PublishStep(interval: int, s: State, n: nat, ok: bool)
    requires Inv(interval, s)
    ensures Inv(interval, Step(interval, s, Publish(n, ok)))
  {
    hide RollbacksAreOwn, ClaimValues, Spaced;
    var s' := Step(interval, s, Publish(n, ok));
    assert NodeOk(s, n);
    forall m: nat ensures NodeOk(s', m) {
      PublishKeepsNode(interval, s, n, ok, m);
    }
    assert PublishedOk(s');
  }

  lemma LocalKeepsNode(interval: int, s: State, e: Event, m: nat)
    requires Ordered(s) && NodeOk(s, m)
    requires Step(interval, s, e).log == s.log && !e.Publish?
    ensures NodeOk(Step(interval, s, e), m)
  {
  }

  lemma LocalStep(interval: int, s: State, e: Event)
    requires Inv(interval, s)
    requires Step(interval, s, e).log == s.log && !e.Publish?
    ensures Inv(interval, Step(interval, s, e))
  {
    var s' := Step(interval, s, e);
    forall m: nat ensures NodeOk(s', m) {
      LocalKeepsNode(interval, s, e, m);
    }
    assert s'.published == s.published && s'.lastSeq >= s.lastSeq;
  }

  lemma StepKeepsInv(interval: int, s: State, e: Event)
    requires 0 < interval && Inv(interval, s)
    ensures Inv(interval, Step(interval, s, e))
  {
    if Step(interval, s, e).log == s.log && !e.Publish? {
      LocalStep(interval, s, e);
    } else {
      match e
      case Create(n, created) => CreateStep(interval, s, n, created);
      case TryClaim(n, _) => ClaimStep(interval, s, n);
      case Publish(n, ok) => PublishStep(interval, s, n, ok);
      case TryRollback(n, _) => RollbackStep(interval, s, n);
    }
  }

  lemma {:induction false} RunKeepsInv(interval: int, es: seq<Event>)
    requires 0 < interval
    ensures Inv(interval, Run(interval, es))
  {
    if es != [] {
      RunKeepsInv(interval, es[..|es| - 1]);
      StepKeepsInv(interval, Run(interval, es[..|es| - 1]), es[|es| - 1]);
    }
  }

  // ----- main results ------------------------------------------------------------------------

  /** Of any two runs that were published, by whichever nodes and whatever their clocks read, the
      later one was claimed more than an interval after the earlier, up to one millisecond of
      rounding.  Each claim is
      published at most once, and only by the node that made it. */
  lemma PublishedRunsAreSpaced(interval: int, es: seq<Event>, p: nat, q: nat)
    requires 0 < interval
    requires p < |Run(interval, es).published| && q < |Run(interval, es).published| && p != q
    ensures
      var s := Run(interval, es);
      var i, j := s.published[p].claim, s.published[q].claim;
      && i != j
      && i < |s.log| && j < |s.log| && s.log[i].kind.Claim? && s.log[j].kind.Claim?
      && s.published[p].node == s.log[i].node && s.published[q].node == s.log[j].node
      && (i < j ==> s.log[i].kind.now + interval - 1_000_000 < s.log[j].kind.now)
  {
    RunKeepsInv(interval, es);
    var s := Run(interval, es);
    var i, j := s.published[p].claim, s.published[q].claim;
    assert Standing(s.log, i) && Standing(s.log, j);
    if i < j {
      assert Stored(s.log[i].kind.now + interval) < s.log[j].kind.now;
      StoredBounds(s.log[i].kind.now + interval);
    }
  }

  /** In every run a rollback only ever replaces the claim of the node that rolls back, and that
      claim was never published. */
  lemma RollbackIsSafe(interval: int, es: seq<Event>, k: nat)
    requires 0 < interval
    requires k < |Run(interval, es).log| && Run(interval, es).log[k].kind.Rollback?
    ensures
      var s := Run(interval, es);
      && 0 < k
      && s.log[k - 1].kind == Claim(s.log[k].kind.now)
      && s.log[k - 1].node == s.log[k].node
      && !WasPublished(s, k - 1)
  {
    RunKeepsInv(interval, es);
    var s := Run(interval, es);
    assert !Standing(s.log, k - 1);
  }

  /** After a failed publish the rollback takes effect exactly when the node's claim is still the
      newest revision and its revision directly follows the loaded one. */
  lemma RollbackTakesEffectIff(interval: int, es: seq<Event>, n: nat)
    requires 0 < interval && At(Run(interval, es), n).Failed?
    ensures
      var s := Run(interval, es);
      var Failed(revision, now, claim) := At(s, n);
      && claim < |s.log|
      && (Step(interval, s, TryRollback(n, true)).log != s.log
          <==> claim == |s.log| - 1 && s.log[claim].revision == revision + 1)
  {
    RunKeepsInv(interval, es);
    var s := Run(interval, es);
    var Failed(revision, now, claim) := At(s, n);
    assert NodeOk(s, n);
    if Current(s, revision + 1) {
      NextRevisionIsOwnClaim(s, n, revision, now, claim);
    }
  }

  // ----- what a round achieves ---------------------------------------------------------------

  /** When the key says the next run is due. */
  function NextDue(s: State): int
    requires s.log != []
  {
    DueTime(s.log[|s.log| - 1].value)
  }

  /** A rollback that takes effect makes the run due again at the clock reading of the claim, cut to the
      millisecond: every idle node whose clock is past that finds it due. */
  lemma RollbackMakesDueAgain(interval: int, es: seq<Event>, n: nat, m: nat, later: int)
    requires 0 < interval && At(Run(interval, es), n).Failed?
    requires
      var s := Run(interval, es);
      var Failed(revision, now, claim) := At(s, n);
      claim == |s.log| - 1 && s.log[claim].revision == revision + 1
    ensures
      var s := Run(interval, es);
      var now := At(s, n).now;
      var s' := Step(interval, s, TryRollback(n, true));
      && s'.log != [] && NextDue(s') == Stored(now) && now - 1_000_000 < NextDue(s') <= now
      && At(s', n) == Idle && s'.published == s.published
      && (At(s', m) == Idle ==> (At(Step(interval, s', Load(m, later)), m).Due? <==> Stored(now) < later))
  {
    StoredBounds(At(Run(interval, es), n).now);
  }

  lemma RunUnfolds(interval: int, es: seq<Event>, e: Event)
    ensures Run(interval, es + [e]) == Step(interval, Run(interval, es), e)
  {
  }

  lemma RunThree(interval: int, es: seq<Event>, a: Event, b: Event, c: Event)
    ensures Run(interval, es + [a, b, c])
            == Step(interval, Step(interval, Step(interval, Run(interval, es), a), b), c)
  {
    hide Step;
    RunUnfolds(interval, es, a);
    RunUnfolds(interval, es + [a], b);
    RunUnfolds(interval, es + [a] + [b], c);
    assert es + [a, b, c] == es + [a] + [b] + [c];
  }

  /** One round of a node that nobody disturbs and whose publish succeeds or not. */
  function Round(n: nat, now: int, ok: bool): seq<Event> {
    [Load(n, now), TryClaim(n, true), Publish(n, ok)]
  }

  lemma LoadAndClaim(interval: int, s: State, n: nat, now: int)
    requires At(s, n) == Idle && s.log != []
    ensures
      var s' := Step(interval, Step(interval, s, Load(n, now)), TryClaim(n, true));
      && (NextDue(s) >= now ==> s' == s)
      && (NextDue(s) < now ==>
            && |s'.log| == |s.log| + 1 && s'.log[..|s.log|] == s.log && s'.published == s.published
            && s'.log[|s.log|].revision == s.lastSeq + 1 && NextDue(s') == Stored(now + interval)
            && At(s', n) == Claimed(s.log[|s.log| - 1].revision, now, |s.log|))
  {
  }

  lemma PublishIs(interval: int, s: State, n: nat, ok: bool)
    ensures At(s, n) == Idle ==> Step(interval, s, Publish(n, ok)) == s
    ensures At(s, n).Claimed? ==>
      var Claimed(revision, now, claim) := At(s, n);
      var s' := Step(interval, s, Publish(n, ok));
      && s'.log == s.log && At(s', n) == (if ok then Idle else Failed(revision, now, claim))
      && s'.published == if ok then s.published + [Publication(n, claim)] else s.published
  {
  }

  lemma RoundIs(interval: int, es: seq<Event>, n: nat, now: int, ok: bool)
    requires At(Run(interval, es), n) == Idle && Run(interval, es).log != []
    ensures
      var s, s' := Run(interval, es), Run(interval, es + Round(n, now, ok));
      && s'.log != []
      && (NextDue(s) >= now ==> s' == s)
      && (NextDue(s) < now ==>
            && |s'.log| == |s.log| + 1 && s'.log[|s.log|].revision == s.lastSeq + 1
            && NextDue(s') == Stored(now + interval)
            && s'.published == (if ok then s.published + [Publication(n, |s.log|)] else s.published)
            && At(s', n) == if ok then Idle else Failed(s.log[|s.log| - 1].revision, now, |s.log|))
  {
    hide Step, Run, Stored;
    RunThree(interval, es, Load(n, now), TryClaim(n, true), Publish(n, ok));
    var s := Run(interval, es);
    LoadAndClaim(interval, s, n, now);
    PublishIs(interval, Step(interval, Step(interval, s, Load(n, now)), TryClaim(n, true)), n, ok);
  }

  /** A round that nobody disturbs publishes exactly when the stored time has passed.  It then leaves the run due an
      interval later if the publish succeeds, and due at once if it fails and the rollback goes through, which it
      does unless another key of the bucket was written since the newest revision. */
  lemma RoundPublishesIff(interval: int, es: seq<Event>, n: nat, now: int, ok: bool)
    requires 0 < interval && At(Run(interval, es), n) == Idle && Run(interval, es).log != []
    ensures
      var s := Run(interval, es);
      var s' := Run(interval, es + Round(n, now, ok));
      && s'.log != [] && (s'.published != s.published <==> ok && NextDue(s) < now)
      && (s'.published != s.published ==>
            && s'.published == s.published + [Publication(n, |s.log|)]
            && now + interval - 1_000_000 < NextDue(s') <= now + interval && NextDue(s') % 1_000_000 == 0)
    ensures
      var s := Run(interval, es);
      var s' := Step(interval, Run(interval, es + Round(n, now, false)), TryRollback(n, true));
      NextDue(s) < now ==>
        && s'.log != [] && s'.published == s.published
        && NextDue(s') == if s.lastSeq == s.log[|s.log| - 1].revision then Stored(now) else Stored(now + interval)
  {
    hide Step, Run, Stored;
    StoredBounds(now + interval);
    RoundIs(interval, es, n, now, ok);
    RoundIs(interval, es, n, now, false);
    if NextDue(Run(interval, es)) < now {
      LoneRollback(interval, es + Round(n, now, false), n);
    }
  }

  /** The rollback after a failed publish either makes the run due again or changes nothing in the key. */
  lemma LoneRollback(interval: int, es: seq<Event>, n: nat)
    requires 0 < interval && At(Run(interval, es), n).Failed?
    requires At(Run(interval, es), n).claim == |Run(interval, es).log| - 1
    ensures
      var s := Run(interval, es);
      var Failed(revision, now, claim) := At(s, n);
      var s' := Step(interval, s, TryRollback(n, true));
      && s'.log != [] && s.log != [] && s'.published == s.published && At(s', n) == Idle
      && NextDue(s') == if s.log[claim].revision == revision + 1 then Stored(now) else NextDue(s)
  {
    var s := Run(interval, es);
    RunKeepsInv(interval, es);
    assert NodeOk(s, n);
    RollbackTakesEffectIff(interval, es, n);
    if s.log[At(s, n).claim].revision == At(s, n).revision + 1 {
      RollbackMakesDueAgain(interval, es, n, n, 0);
    }
  }

  /** Of all nodes that have loaded the same revision exactly the first to claim gets it. */
  lemma FirstClaimWins(interval: int, es: seq<Event>, n: nat, m: nat)
    requires 0 < interval && n != m
    requires
      var s := Run(interval, es);
      At(s, n).Due? && At(s, m).Due? && At(s, n).revision == At(s, m).revision && Current(s, At(s, n).revision)
    ensures
      var s := Run(interval, es);
      var first := Step(interval, s, TryClaim(n, true));
      var second := Step(interval, first, TryClaim(m, true));
      && At(first, n) == Claimed(At(s, n).revision, At(s, n).now, |s.log|) && |first.log| == |s.log| + 1
      && second.log == first.log && At(second, m) == Idle
  {
    RunKeepsInv(interval, es);
    assert NodeOk(Run(interval, es), n);
  }

  /** The key's first value makes the run due at once. */
  lemma FirstRound(interval: int, n: nat, created: int, now: int)
    requires 0 < interval
    ensures Run(interval, [Create(n, created)] + Round(n, now, true)).published
            == if created < now then [Publication(n, 1)] else []
  {
    hide Run;
    RunNothing(interval);
    RunUnfolds(interval, [], Create(n, created));
    assert [] + [Create(n, created)] == [Create(n, created)];
    RoundIs(interval, [Create(n, created)], n, now, true);
  }

  // ----- which events decide over a rollback -------------------------------------------------

  /** How many writes went to the other keys of the bucket. */
  function OtherWrites(es: seq<Event>): nat {
    if es == [] then 0
    else
      var last := es[|es| - 1];
      OtherWrites(es[..|es| - 1]) + if last.OtherKeys? then last.writes else 0
  }

  /** An event that writes to no other key. */
  predicate Quiet(e: Event) {
    e.OtherKeys? ==> e.writes == 0
  }

  /** Event t of the run wrote position k of the log. */
  predicate WrittenBy(interval: int, es: seq<Event>, t: nat, k: nat) {
    t < |es| && |Run(interval, es[..t]).log| == k && |Run(interval, es[..t + 1]).log| == k + 1
  }

  lemma StepAppends(interval: int, s: State, e: Event)
    ensures
      var s' := Step(interval, s, e);
      s'.log == s.log || (|s'.log| == |s.log| + 1 && s'.log[..|s.log|] == s.log
                          && s'.log[|s.log|].revision == s.lastSeq + 1)
    ensures Step(interval, s, e).lastSeq
            == s.lastSeq + |Step(interval, s, e).log| - |s.log| + if e.OtherKeys? then e.writes else 0
  {
  }

  lemma {:induction false} SequenceIs(interval: int, es: seq<Event>)
    ensures Run(interval, es).lastSeq == OtherWrites(es) + |Run(interval, es).log|
  {
    if es != [] {
      SequenceIs(interval, es[..|es| - 1]);
      StepAppends(interval, Run(interval, es[..|es| - 1]), es[|es| - 1]);
    }
  }

  lemma {:induction false} LogIsPrefix(interval: int, es: seq<Event>, t: nat)
    requires t <= |es|
    ensures Run(interval, es[..t]).log <= Run(interval, es).log
  {
    if t == |es| {
      assert es[..t] == es;
    } else {
      var rest := es[..|es| - 1];
      LogIsPrefix(interval, rest, t);
      assert rest[..t] == es[..t];
      StepAppends(interval, Run(interval, rest), es[|es| - 1]);
    }
  }

  lemma {:induction false} Writer(interval: int, es: seq<Event>, k: nat) returns (t: nat)
    requires k < |Run(interval, es).log|
    ensures WrittenBy(interval, es, t, k)
  {
    var rest := es[..|es| - 1];
    StepAppends(interval, Run(interval, rest), es[|es| - 1]);
    if k < |Run(interval, rest).log| {
      t := Writer(interval, rest, k);
      assert rest[..t] == es[..t] && rest[..t + 1] == es[..t + 1];
    } else {
      t := |es| - 1;
      assert es[..t + 1] == es;
    }
  }

  /** A revision counts the writes before it, those to the key and those to all others. */
  lemma RevisionCounts(interval: int, es: seq<Event>, t: nat, k: nat)
    requires WrittenBy(interval, es, t, k)
    ensures k < |Run(interval, es).log| && Run(interval, es).log[k].revision == OtherWrites(es[..t]) + k + 1
  {
    SequenceIs(interval, es[..t]);
    assert es[..t + 1][..t] == es[..t];
    StepAppends(interval, Run(interval, es[..t]), es[t]);
    LogIsPrefix(interval, es, t + 1);
  }

  lemma {:induction false} QuietStretch(es: seq<Event>, i: nat, j: nat)
    requires i <= j <= |es|
    ensures OtherWrites(es[..i]) <= OtherWrites(es[..j])
    ensures OtherWrites(es[..i]) == OtherWrites(es[..j]) <==> forall m :: i <= m < j ==> Quiet(es[m])
    decreases j - i
  {
    if i < j {
      QuietStretch(es, i, j - 1);
      assert es[..j][..j - 1] == es[..j - 1];
    }
  }

  lemma WritersInOrder(interval: int, es: seq<Event>, i: nat, j: nat, k: nat)
    requires WrittenBy(interval, es, i, k) && WrittenBy(interval, es, j, k + 1)
    ensures i < j
  {
    if j <= i {
      assert es[..i][..j] == es[..j];
      LogIsPrefix(interval, es[..i], j);
    }
  }

  /** Which events decide over a rollback: it takes effect exactly when the claim is still the newest
      revision and, from the event that wrote the revision the node had loaded up to its claim, no other key
      of the bucket was written. */
  lemma RollbackNeedsQuietBucket(interval: int, es: seq<Event>, n: nat) returns (loaded: nat, claimed: nat)
    requires 0 < interval && At(Run(interval, es), n).Failed?
    ensures
      var s := Run(interval, es);
      var Failed(revision, now, claim) := At(s, n);
      && 0 < claim < |s.log| && s.log[claim - 1].revision == revision
      && WrittenBy(interval, es, loaded, claim - 1) && WrittenBy(interval, es, claimed, claim)
      && loaded < claimed < |es|
      && (Step(interval, s, TryRollback(n, true)).log != s.log
          <==> claim == |s.log| - 1 && forall m :: loaded <= m < claimed ==> Quiet(es[m]))
  {
    RunKeepsInv(interval, es);
    var s := Run(interval, es);
    var Failed(revision, now, claim) := At(s, n);
    assert NodeOk(s, n);
    RollbackTakesEffectIff(interval, es, n);
    hide Step, Inv, Run, NodeOk;
    loaded := Writer(interval, es, claim - 1);
    claimed := Writer(interval, es, claim);
    WritersInOrder(interval, es, loaded, claimed, claim - 1);
    RevisionCounts(interval, es, loaded, claim - 1);
    RevisionCounts(interval, es, claimed, claim);
    QuietStretch(es, loaded, claimed);
  }

  /** One write to another key between load and claim is enough to lose the rollback: the message
      was never published and the key still blocks the next run for a whole interval. */
  lemma LostRollback(interval: int)
    requires 0 < interval
    ensures
      var es := [Create(0, 0), Load(0, 1), OtherKeys(1), TryClaim(0, true), Publish(0, false), TryRollback(0, true)];
      var s := Run(interval, es);
      s.published == [] && At(s, 0) == Idle && |s.log| == 2 && Standing(s.log, 1)
  {
    var es := [Create(0, 0), Load(0, 1), OtherKeys(1), TryClaim(0, true), Publish(0, false), TryRollback(0, true)];
    hide Run;
    var w0 := Write(1, 0, Created, Placeholder(0));
    RunNothing(interval);
    RunUnfolds(interval, [], es[0]);
    assert [] + [es[0]] == es[..1];
    assert Run(interval, es[..1]) == State([w0], 1, map[], []);
    RunUnfolds(interval, es[..1], es[1]);
    assert es[..1] + [es[1]] == es[..2];
    assert Run(interval, es[..2]) == State([w0], 1, map[0 := Due(1, 1)], []);
    RunUnfolds(interval, es[..2], es[2]);
    assert es[..2] + [es[2]] == es[..3];
    LostRollbackTail(interval, es[..3], es[3], es[4], es[5]);
    assert es[..3] + [es[3]] + [es[4]] + [es[5]] == es;
  }

  lemma RunNothing(interval: int)
    ensures Run(interval, []) == INITIAL
  {
  }

  lemma LostRollbackTail(interval: int, es: seq<Event>, claim: Event, publish: Event, rollback: Event)
    requires Run(interval, es) == State([Write(1, 0, Created, Placeholder(0))], 2, map[0 := Due(1, 1)], [])
    requires claim == TryClaim(0, true) && publish == Publish(0, false) && rollback == TryRollback(0, true)
    ensures
      var s := Run(interval, es + [claim] + [publish] + [rollback]);
      s.published == [] && At(s, 0) == Idle && |s.log| == 2 && Standing(s.log, 1)
  {
    hide Run;
    RunUnfolds(interval, es, claim);
    RunUnfolds(interval, es + [claim], publish);
    RunUnfolds(interval, es + [claim] + [publish], rollback);
    assert At(Run(interval, es + [claim]), 0) == Claimed(1, 1, 1);
    assert At(Run(interval, es + [claim] + [publish]), 0) == Failed(1, 1, 1);
  }
}
