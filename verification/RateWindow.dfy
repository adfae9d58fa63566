/**
 The rate limiter's counter: two 64-bit words, each packing a count and the tick it belongs to, updated
 by compare-and-swap from any number of threads.

 First the interleaved threads are shown to behave like a sequence of atomic increments; then any
 such sequence is compared with a plain counter per tick.
 */
module RateWindow {
  import opened Common

  const HALF: nat := 0x1_0000_0000

  type Half = x: nat | x < HALF

  type Word = x: nat | x < HALF * HALF

  function Pack(count: Half, tick: Half): Word {
    count * HALF + tick
  }

  function CountOf(w: Word): Half {
    w / HALF
  }

  function TickOf(w: Word): Half {
    w % HALF
  }

  lemma Unpack(count: Half, tick: Half)
    ensures CountOf(Pack(count, tick)) == count && TickOf(Pack(count, tick)) == tick
  {
  }

  /** What a window reports for a tick. */
  function Read(w: Word, tick: Half): Half {
    if TickOf(w) != tick then 0 else CountOf(w)
  }

  /** One increment as an atomic operation: the new word and whether the call was admitted. */
  function IncWord(w: Word, now: Half, limit: Half): (Word, bool) {
    var count: Half := if TickOf(w) < now then 0 else CountOf(w);
    if count >= limit then (w, false) else (Pack(count + 1, now), true)
  }

  /** A subtick is a tick and the 8-bit position inside it. */
  function TickOfSub(sub: nat): Half {
    sub / 256 % HALF
  }

  /** The share of the previous window's count that is still counted. */
  function Carry(sub: nat, prev: Half, limit: Half): Half {
    var rest: nat := prev * (255 - sub % 256);
    Min(limit, rest / 256)
  }

  // ----- threads ---------------------------------------------------------------------------------

  /** Entered: before the other window is read.  Looping: before the word is loaded.  Loaded: before
      the compare-and-swap. */
  datatype Pc =
    | Idle
    | Entered(sub: nat, limit: Half)
    | Looping(tick: Half, limit: Half, budget: Half)
    | Loaded(tick: Half, limit: Half, budget: Half, expected: Word)

  /** A finished call. */
  datatype Call = Call(tick: Half, limit: Half, ok: bool)

  datatype State = State(words: seq<Word>, threads: map<nat, Pc>, log: seq<Call>)

  datatype Event =
    | Enter(thread: nat, sub: nat, limit: Half)
    | ReadOther(thread: nat)
    | Load(thread: nat)
    | CompareAndSwap(thread: nat)

  const INITIAL := State([0, 0], map[], [])

  function At(s: State, t: nat): Pc {
    if t in s.threads then s.threads[t] else Idle
  }

  function Goto(s: State, t: nat, pc: Pc): State {
    s.(threads := s.threads[t := pc])
  }

  function Finish(s: State, t: nat, call: Call): State {
    Goto(s.(log := s.log + [call]), t, Idle)
  }

  function Step(s: State, e: Event): State
    requires |s.words| == 2
  {
    match e
    case Enter(t, sub, limit) => if At(s, t).Idle? then Goto(s, t, Entered(sub, limit)) else s
    case ReadOther(t) =>
      (match At(s, t)
       case Entered(sub, limit) =>
         var tick := TickOfSub(sub);
         var count := Carry(sub, Read(s.words[1 - tick % 2], tick), limit / 2);
         if count >= limit then Finish(s, t, Call(tick, limit, false))
         else Goto(s, t, Looping(tick, limit, limit - count))
       case _ => s)
    case Load(t) =>
      (match At(s, t)
       case Looping(tick, limit, budget) =>
         var w := s.words[tick % 2];
         if IncWord(w, tick, budget).1 then Goto(s, t, Loaded(tick, limit, budget, w))
         else Finish(s, t, Call(tick, limit, false))
       case _ => s)
    case CompareAndSwap(t) =>
      (match At(s, t)
       case Loaded(tick, limit, budget, expected) =>
         if s.words[tick % 2] == expected
         then Finish(s.(words := s.words[tick % 2 := IncWord(expected, tick, budget).0]), t, Call(tick, limit, true))
         else Goto(s, t, Looping(tick, limit, budget))
       case _ => s)
  }

  function Run(es: seq<Event>): (s: State)
    ensures |s.words| == 2
  {
    if es == [] then INITIAL else Step(Run(es[..|es| - 1]), es[|es| - 1])
  }

  // ----- the calls as a sequence -----------------------------------------------------------------

  /** The words after performing the calls one after the other, with the full limit. */
  function Replay(log: seq<Call>): (ws: seq<Word>)
    ensures |ws| == 2
  {
    if log == [] then [0, 0]
    else
      var ws, c := Replay(log[..|log| - 1]), log[|log| - 1];
      ws[c.tick % 2 := IncWord(ws[c.tick % 2], c.tick, c.limit).0]
  }

  /** What the n-th call is told when the calls are performed one after the other. */
  function Verdict(log: seq<Call>, n: nat): bool
    requires n < |log|
  {
    IncWord(Replay(log[..n])[log[n].tick % 2], log[n].tick, log[n].limit).1
  }

  predicate Linear(s: State) {
    && s.words == Replay(s.log)
    && forall n :: 0 <= n < |s.log| ==> s.log[n].ok == Verdict(s.log, n)
  }

  /** A word is either still zero or holds a tick of its own parity. */
  predicate ParityOk(ws: seq<Word>) {
    && |ws| == 2
    && forall j :: 0 <= j < 2 ==> ws[j] == 0 || TickOf(ws[j]) % 2 == j
  }

  predicate ThreadOk(pc: Pc) {
    match pc
    case Looping(_, limit, budget) => budget == limit
    case Loaded(tick, limit, budget, expected) => budget == limit && IncWord(expected, tick, budget).1
    case _ => true
  }

  ghost predicate Inv(s: State) {
    Linear(s) && ParityOk(s.words) && forall t: nat :: ThreadOk(At(s, t))
  }

  /** The other window never has anything to carry over. */
  lemma OtherWindowIsEmpty(ws: seq<Word>, tick: Half)
    requires ParityOk(ws)
    ensures Read(ws[1 - tick % 2], tick) == 0
  {
  }

  lemma NothingCarried(sub: nat, limit: Half)
    ensures Carry(sub, 0, limit / 2) == 0
  {
  }

  lemma IncKeepsParity(ws: seq<Word>, tick: Half, limit: Half)
    requires ParityOk(ws)
    ensures ParityOk(ws[tick % 2 := IncWord(ws[tick % 2], tick, limit).0])
  {
  }

  /** A call that finishes with the verdict of its place in the sequence keeps the log linear. */
  lemma FinishKeepsLinear(s: State, s': State, call: Call)
    requires Linear(s) && s'.log == s.log + [call]
    requires call.ok == IncWord(s.words[call.tick % 2], call.tick, call.limit).1
    requires s'.words == s.words[call.tick % 2 := IncWord(s.words[call.tick % 2], call.tick, call.limit).0]
    ensures Linear(s')
  {
    assert s'.log[..|s.log|] == s.log;
    forall n | 0 <= n < |s'.log| ensures s'.log[n].ok == Verdict(s'.log, n) {
      if n < |s.log| {
        assert s'.log[..n] == s.log[..n];
      }
    }
  }

  lemma RefusalKeepsLinear(s: State, t: nat, tick: Half, limit: Half)
    requires Linear(s) && !IncWord(s.words[tick % 2], tick, limit).1
    ensures Linear(Finish(s, t, Call(tick, limit, false)))
  {
    var ws := s.words;
    assert ws[tick % 2 := ws[tick % 2]] == ws;
    FinishKeepsLinear(s, Finish(s, t, Call(tick, limit, false)), Call(tick, limit, false));
  }

  lemma NothingAdmitted(w: Word, tick: Half)
    ensures !IncWord(w, tick, 0).1
  {
  }

  lemma StepKeepsLinear(s: State, e: Event)
    requires Linear(s) && ParityOk(s.words) && ThreadOk(At(s, e.thread))
    ensures Linear(Step(s, e)) && ParityOk(Step(s, e).words)
  {
    hide Replay, Verdict, TickOf, CountOf, Carry, IncWord;
    var pc := At(s, e.thread);
    match e
    case Enter(_, _, _) =>
    case ReadOther(t) =>
      if pc.Entered? {
        OtherWindowIsEmpty(s.words, TickOfSub(pc.sub));
        NothingCarried(pc.sub, pc.limit);
        if pc.limit == 0 {
          NothingAdmitted(s.words[TickOfSub(pc.sub) % 2], TickOfSub(pc.sub));
          RefusalKeepsLinear(s, t, TickOfSub(pc.sub), pc.limit);
        }
      }
    case Load(t) =>
      if pc.Looping? && !IncWord(s.words[pc.tick % 2], pc.tick, pc.budget).1 {
        RefusalKeepsLinear(s, t, pc.tick, pc.limit);
      }
    case CompareAndSwap(t) =>
      if pc.Loaded? && s.words[pc.tick % 2] == pc.expected {
        IncKeepsParity(s.words, pc.tick, pc.limit);
        FinishKeepsLinear(s, Step(s, e), Call(pc.tick, pc.limit, true));
      }
  }

  lemma StepKeepsThread(s: State, e: Event, t: nat)
    requires ParityOk(s.words) && ThreadOk(At(s, t))
    ensures ThreadOk(At(Step(s, e), t))
  {
  }

  lemma {:induction false} RunKeepsInv(es: seq<Event>)
    ensures Inv(Run(es))
  {
    if es == [] {
    } else {
      var s, e := Run(es[..|es| - 1]), es[|es| - 1];
      RunKeepsInv(es[..|es| - 1]);
      StepKeepsLinear(s, e);
      forall t: nat ensures ThreadOk(At(Step(s, e), t)) {
        StepKeepsThread(s, e, t);
      }
    }
  }

  /** Every interleaving is linearizable: the words are those of performing the finished calls one
      after the other, each call was told what it would have been told there, and no count was ever
      carried over from the other window, so every call had its whole limit. */
  lemma InterleavingIsLinear(es: seq<Event>, t: nat)
    ensures
      var s := Run(es);
      && s.words == Replay(s.log)
      && (forall n :: 0 <= n < |s.log| ==> s.log[n].ok == Verdict(s.log, n))
      && (At(s, t).Looping? ==> At(s, t).budget == At(s, t).limit)
  {
    RunKeepsInv(es);
    assert ThreadOk(At(Run(es), t));
  }

  // ----- one counter per tick --------------------------------------------------------------------

  function Admitted(log: seq<Call>, tick: Half): nat {
    if log == [] then 0
    else
      Admitted(log[..|log| - 1], tick)
      + (if log[|log| - 1].tick == tick && log[|log| - 1].ok then 1 else 0)
  }

  function Calls(log: seq<Call>, tick: Half): nat {
    if log == [] then 0
    else Calls(log[..|log| - 1], tick) + (if log[|log| - 1].tick == tick then 1 else 0)
  }

  /** The call comes after one of a later tick of the same window. */
  predicate Late(log: seq<Call>, tick: Half) {
    tick < TickOf(Replay(log)[tick % 2])
  }

  /** The tick has used up the limit. */
  predicate Full(log: seq<Call>, tick: Half, limit: Half) {
    limit <= Admitted(log, tick)
  }

  /** Whenever a call came late, its own tick and the tick the window had reached were both full. */
  predicate Harmless(log: seq<Call>) {
    forall n :: 0 <= n < |log| ==> HarmlessAt(log, n)
  }

  predicate HarmlessAt(log: seq<Call>, n: nat)
    requires n < |log|
  {
    var before, c := log[..n], log[n];
    Late(before, c.tick)
    ==> Full(before, c.tick, c.limit) && Full(before, TickOf(Replay(before)[c.tick % 2]), c.limit)
  }

  /** No call comes after one of a later tick of the same parity. */
  predicate Ordered(log: seq<Call>) {
    forall i, j :: 0 <= i < j < |log| && log[i].tick % 2 == log[j].tick % 2 ==> log[i].tick <= log[j].tick
  }

  predicate Told(log: seq<Call>) {
    forall n :: 0 <= n < |log| ==> log[n].ok == Verdict(log, n)
  }

  lemma {:induction false} UnseenTick(log: seq<Call>, tick: Half)
    requires forall i :: 0 <= i < |log| ==> log[i].tick != tick
    ensures Admitted(log, tick) == 0
  {
    if log == [] {
    } else {
      UnseenTick(log[..|log| - 1], tick);
    }
  }

  /** What a window's word says about the calls made on it: the count of its tick, and nothing was
      admitted at later ticks. */
  predicate Counts(log: seq<Call>, w: Word, parity: nat) {
    forall tick: Half :: tick % 2 == parity && TickOf(w) <= tick ==> Admitted(log, tick) == Read(w, tick)
  }

  lemma CountsStep(log: seq<Call>, call: Call, ws: seq<Word>)
    requires |ws| == 2 && Counts(log, ws[call.tick % 2], call.tick % 2)
    requires call.ok == IncWord(ws[call.tick % 2], call.tick, call.limit).1
    requires TickOf(ws[call.tick % 2]) <= call.tick
    ensures call.ok <==> Admitted(log, call.tick) < call.limit
    ensures Counts(log + [call], IncWord(ws[call.tick % 2], call.tick, call.limit).0, call.tick % 2)
  {
    var w := ws[call.tick % 2];
    var log' := log + [call];
    var w' := IncWord(w, call.tick, call.limit).0;
    assert log'[..|log|] == log;
    assert Admitted(log, call.tick) == Read(w, call.tick);
    if call.ok {
      Unpack(Read(w, call.tick) + 1, call.tick);
    }
    forall tick: Half | tick % 2 == call.tick % 2 && TickOf(w') <= tick ensures Admitted(log', tick) == Read(w', tick) {
      assert Admitted(log, tick) == Read(w, tick);
    }
  }

  lemma CountsOther(log: seq<Call>, call: Call, w: Word, parity: nat)
    requires Counts(log, w, parity) && call.tick % 2 != parity
    ensures Counts(log + [call], w, parity)
  {
  }

  /** The tick in a window is that of some call, so an ordered call is never older. */
  lemma {:induction false} WordTick(log: seq<Call>, parity: nat)
    requires parity < 2
    ensures
      var w := Replay(log)[parity];
      w == 0 || exists i :: 0 <= i < |log| && log[i].tick % 2 == parity && log[i].tick == TickOf(w)
  {
    if log == [] {
    } else {
      var before, c := log[..|log| - 1], log[|log| - 1];
      WordTick(before, parity);
      var w, w' := Replay(before)[parity], Replay(log)[parity];
      if c.tick % 2 == parity && w' != w {
        var count: Half := if TickOf(w) < c.tick then 0 else CountOf(w);
        Unpack(count + 1, c.tick);
        assert log[|log| - 1].tick == TickOf(w');
      } else if w != 0 {
        var i :| 0 <= i < |before| && before[i].tick % 2 == parity && before[i].tick == TickOf(w);
        assert log[i].tick == TickOf(w);
      }
    }
  }

  /** In an ordered sequence no call is late. */
  lemma OrderedIsHarmless(log: seq<Call>)
    requires Ordered(log)
    ensures Harmless(log)
  {
    hide Replay, Full, TickOf;
    forall n | 0 <= n < |log| ensures !Late(log[..n], log[n].tick) {
      var before, parity := log[..n], log[n].tick % 2;
      WordTick(before, parity);
      NoTick();
      if i :| 0 <= i < n && before[i].tick % 2 == parity && before[i].tick == TickOf(Replay(before)[parity]) {
        assert log[i].tick <= log[n].tick;
      }
    }
  }

  lemma NoTick()
    ensures TickOf(0) == 0
  {
  }

  lemma SameHarm(log: seq<Call>, m: nat, n: nat)
    requires n < m <= |log|
    ensures HarmlessAt(log[..m], n) <==> HarmlessAt(log, n)
  {
    hide Full, Late;
    assert log[..m][..n] == log[..n];
  }

  lemma HarmlessPrefix(log: seq<Call>, n: nat)
    requires Harmless(log) && n <= |log|
    ensures Harmless(log[..n])
  {
    hide HarmlessAt;
    forall m | 0 <= m < n ensures HarmlessAt(log[..n], m) {
      SameHarm(log, n, m);
    }
  }

  /** A late call that finds both ticks full changes nothing. */
  lemma LateIsRefused(log: seq<Call>, call: Call, w: Word)
    requires Counts(log, w, call.tick % 2) && call.tick < TickOf(w) && TickOf(w) % 2 == call.tick % 2
    requires Full(log, TickOf(w), call.limit)
    ensures IncWord(w, call.tick, call.limit) == (w, false)
    ensures !call.ok ==> Counts(log + [call], w, call.tick % 2)
  {
    assert Admitted(log, TickOf(w)) == Read(w, TickOf(w));
    assert (log + [call])[..|log|] == log;
  }

  /** The window's word counts the admitted calls of its tick, and a call is admitted exactly when its tick
      is not full. */
  lemma {:induction false} HarmlessCounts(log: seq<Call>, parity: nat)
    requires Harmless(log) && Told(log) && parity < 2
    ensures Counts(log, Replay(log)[parity], parity)
    ensures log != [] && log[|log| - 1].tick % 2 == parity
            ==> (log[|log| - 1].ok <==> !Full(log[..|log| - 1], log[|log| - 1].tick, log[|log| - 1].limit))
  {
    hide Counts, Admitted, IncWord, TickOf, Told;
    if log == [] {
      NothingCounted(parity);
    } else {
      var n := |log| - 1;
      ToldLast(log, n);
      ToldPrefix(log, n);
      HarmlessPrefix(log, n);
      HarmlessCounts(log[..n], parity);
      assert log == log[..n] + [log[n]];
      var w := Replay(log[..n])[parity];
      if log[n].tick % 2 != parity {
        CountsOther(log[..n], log[n], w, parity);
      } else if TickOf(w) <= log[n].tick {
        CountsStep(log[..n], log[n], Replay(log[..n]));
      } else {
        assert HarmlessAt(log, n);
        WordTick(log[..n], parity);
        NoTick();
        LateIsRefused(log[..n], log[n], w);
      }
    }
  }

  lemma NothingCounted(parity: nat)
    ensures Counts([], 0, parity)
  {
  }

  lemma ToldLast(log: seq<Call>, n: nat)
    requires Told(log) && n < |log|
    ensures log[n].ok == Verdict(log, n)
  {
  }

  lemma ToldPrefix(log: seq<Call>, n: nat)
    requires Told(log) && n <= |log|
    ensures Told(log[..n])
  {
    hide Verdict;
    forall m | 0 <= m < n ensures log[..n][m].ok == Verdict(log[..n], m) {
      SameVerdict(log, n, m);
    }
  }

  /** As long as late calls are harmless, a call is admitted exactly when fewer calls of its tick than its
      limit were admitted before it. */
  lemma AdmittedIff(log: seq<Call>, n: nat)
    requires Harmless(log) && Told(log) && n < |log|
    ensures log[n].ok <==> Admitted(log[..n], log[n].tick) < log[n].limit
  {
    ToldPrefix(log, n + 1);
    HarmlessPrefix(log, n + 1);
    HarmlessCounts(log[..n + 1], log[n].tick % 2);
    assert log[..n + 1][..n] == log[..n];
  }

  predicate OneLimit(log: seq<Call>, limit: Half) {
    forall n :: 0 <= n < |log| ==> log[n].limit == limit
  }

  /** With one limit for all, a tick admits exactly the smaller of its calls and the limit. */
  lemma {:induction false} FixedWindow(log: seq<Call>, tick: Half, limit: Half)
    requires Harmless(log) && Told(log) && OneLimit(log, limit)
    ensures Admitted(log, tick) == Min(Calls(log, tick), limit)
  {
    hide Harmless, Told;
    if log == [] {
    } else {
      ToldPrefix(log, |log| - 1);
      HarmlessPrefix(log, |log| - 1);
      FixedWindow(log[..|log| - 1], tick, limit);
      AdmittedIff(log, |log| - 1);
    }
  }

  /** The concurrent limiter refines the counter per tick. */
  lemma ConcurrentFixedWindow(es: seq<Event>, tick: Half, limit: Half)
    requires Harmless(Run(es).log) && OneLimit(Run(es).log, limit)
    ensures Admitted(Run(es).log, tick) == Min(Calls(Run(es).log, tick), limit)
  {
    RunKeepsInv(es);
    FixedWindow(Run(es).log, tick, limit);
  }

  // ----- late calls --------------------------------------------------------------------------------

  /** `k` more calls at one tick, one after the other. */
  function More(log: seq<Call>, tick: Half, limit: Half, k: nat): (r: seq<Call>)
    ensures |r| == |log| + k && r[..|log|] == log
  {
    if k == 0 then log
    else
      var before := More(log, tick, limit, k - 1);
      before + [Call(tick, limit, IncWord(Replay(before)[tick % 2], tick, limit).1)]
  }

  lemma {:induction false} MoreIsTold(log: seq<Call>, tick: Half, limit: Half, k: nat)
    requires Told(log)
    ensures Told(More(log, tick, limit, k))
    ensures OneLimit(log, limit) ==> OneLimit(More(log, tick, limit, k), limit)
  {
    hide IncWord, Replay, Told;
    if k > 0 {
      MoreIsTold(log, tick, limit, k - 1);
      var before, after := More(log, tick, limit, k - 1), More(log, tick, limit, k);
      assert after[..|before|] == before;
      ToldAppend(after, |before|);
    }
  }

  lemma ToldAppend(log: seq<Call>, n: nat)
    requires |log| == n + 1 && Told(log[..n]) && log[n].ok == Verdict(log, n)
    ensures Told(log)
  {
    hide Verdict;
    forall m | 0 <= m < n ensures log[m].ok == Verdict(log, m) {
      SameVerdict(log, n, m);
    }
  }

  lemma SameVerdict(log: seq<Call>, n: nat, m: nat)
    requires m < n <= |log|
    ensures Verdict(log[..n], m) == Verdict(log, m)
  {
    assert log[..n][..m] == log[..m];
  }

  /** No call of the same window has a later tick. */
  predicate Newest(log: seq<Call>, tick: Half) {
    forall i :: 0 <= i < |log| && log[i].tick % 2 == tick % 2 ==> log[i].tick <= tick
  }

  /** Calls at the newest tick are not late. */
  lemma {:induction false} MoreIsHarmless(log: seq<Call>, tick: Half, limit: Half, k: nat)
    requires Harmless(log) && Newest(log, tick)
    ensures Harmless(More(log, tick, limit, k)) && Newest(More(log, tick, limit, k), tick)
  {
    hide Replay, Full, TickOf, IncWord;
    if k > 0 {
      MoreIsHarmless(log, tick, limit, k - 1);
      var before, after := More(log, tick, limit, k - 1), More(log, tick, limit, k);
      assert after[..|before|] == before;
      WordTick(before, tick % 2);
      NoTick();
      forall n | 0 <= n < |after| ensures HarmlessAt(after, n) {
        if n < |before| {
          assert after[..n] == before[..n];
          assert HarmlessAt(before, n);
        }
      }
    }
  }

  predicate FixedAt(log: seq<Call>, tick: Half, limit: Half) {
    Admitted(log, tick) == Min(Calls(log, tick), limit)
  }

  /** After every call, and after any number of further calls at the newest tick, every tick has admitted the
      smaller of its calls and the limit. */
  ghost predicate KeepsWindow(log: seq<Call>, limit: Half) {
    forall n: nat, newest: Half, k: nat, tick: Half :: n <= |log| && Newest(log[..n], newest) ==>
      FixedAt(More(log[..n], newest, limit, k), tick, limit)
  }
  lemma {:induction false} WordBelowLimit(log: seq<Call>, parity: nat, limit: Half)
    requires OneLimit(log, limit) && parity < 2
    ensures var w := Replay(log)[parity];
      w == 0 || 1 <= CountOf(w) <= limit
  {
    if log != [] {
      var before, c := log[..|log| - 1], log[|log| - 1];
      WordBelowLimit(before, parity, limit);
      if c.tick % 2 == parity {
        var w := Replay(before)[parity];
        var count: Half := if TickOf(w) < c.tick then 0 else CountOf(w);
        if count < limit {
          Unpack(count + 1, c.tick);
        }
      }
    }
  }

  /** The window shows the newest tick, unless nothing is ever admitted. */
  lemma {:induction false} WordIsNewest(log: seq<Call>, parity: nat, limit: Half)
    requires Harmless(log) && Told(log) && OneLimit(log, limit) && 0 < limit && parity < 2
    ensures forall i :: 0 <= i < |log| && log[i].tick % 2 == parity ==> log[i].tick <= TickOf(Replay(log)[parity])
  {
    hide Harmless, Told, Admitted;
    if log != [] {
      var n := |log| - 1;
      var before, c := log[..n], log[n];
      ToldPrefix(log, n);
      HarmlessPrefix(log, n);
      WordIsNewest(before, parity, limit);
      assert forall i :: 0 <= i < n ==> before[i] == log[i];
      if c.tick % 2 == parity {
        var w := Replay(before)[parity];
        if TickOf(w) < c.tick {
          Unpack(1, c.tick);
        } else if TickOf(w) == c.tick {
          if CountOf(w) < limit {
            Unpack(CountOf(w) + 1, c.tick);
          }
        } else {
          LateKeepsWord(log, n);
        }
      }
    }
  }

  lemma LateKeepsWord(log: seq<Call>, n: nat)
    requires Harmless(log) && Told(log) && n < |log| && Late(log[..n], log[n].tick)
    ensures var w := Replay(log[..n])[log[n].tick % 2];
      IncWord(w, log[n].tick, log[n].limit) == (w, false)
  {
    hide IncWord, Told, Counts, TickOf;
    var parity := log[n].tick % 2;
    ToldPrefix(log, n);
    HarmlessPrefix(log, n);
    HarmlessCounts(log[..n], parity);
    WordTick(log[..n], parity);
    NoTick();
    assert HarmlessAt(log, n);
    LateIsRefused(log[..n], log[n], Replay(log[..n])[parity]);
  }

  /** The window after k calls at a tick newer than the one it showed. */
  function Counted(w: Word, tick: Half, k: Half): Word {
    if k == 0 then w else Pack(k, tick)
  }

  lemma CountOn(w: Word, tick: Half, limit: Half, k: Half)
    requires TickOf(w) < tick && k < limit
    ensures IncWord(Counted(w, tick, k), tick, limit) == (Counted(w, tick, k + 1), true)
  {
    Unpack(k, tick);
  }

  lemma OneMore(log: seq<Call>, tick: Half, limit: Half, k: nat)
    requires 0 < k
    ensures var before, after := More(log, tick, limit, k - 1), More(log, tick, limit, k);
      var (w, ok) := IncWord(Replay(before)[tick % 2], tick, limit);
      && Replay(after)[tick % 2] == w
      && Admitted(after, tick) == Admitted(before, tick) + if ok then 1 else 0
  {
    hide IncWord;
    assert More(log, tick, limit, k)[..|log| + k - 1] == More(log, tick, limit, k - 1);
  }

  /** Calls at a tick newer than the window's begin to count anew. */
  lemma {:induction false} MoreAdmits(log: seq<Call>, tick: Half, limit: Half, k: Half)
    requires TickOf(Replay(log)[tick % 2]) < tick && k <= limit
    ensures Replay(More(log, tick, limit, k))[tick % 2] == Counted(Replay(log)[tick % 2], tick, k)
    ensures Admitted(More(log, tick, limit, k), tick) == Admitted(log, tick) + k
  {
    hide IncWord, Counted, TickOf, Replay, Admitted;
    if k > 0 {
      MoreAdmits(log, tick, limit, k - 1);
      CountOn(Replay(log)[tick % 2], tick, limit, k - 1);
      OneMore(log, tick, limit, k);
    } else {
      NotYetCounted(Replay(log)[tick % 2], tick);
    }
  }

  lemma NotYetCounted(w: Word, tick: Half)
    ensures Counted(w, tick, 0) == w
  {
  }

  /** A late call that finds one of the two ticks not full breaks the window of one of them. */
  lemma HarmfulBreaks(log: seq<Call>, limit: Half)
    requires Told(log) && OneLimit(log, limit) && log != []
    requires Harmless(log[..|log| - 1]) && !HarmlessAt(log, |log| - 1)
    ensures !KeepsWindow(log, limit)
  {
    hide Harmless, Told, IncWord, Replay;
    var n := |log| - 1;
    var before, c := log[..n], log[n];
    var parity := c.tick % 2;
    var w := Replay(before)[parity];
    ToldPrefix(log, n);
    ToldLast(log, n);
    HarmlessCounts(before, parity);
    WordTick(before, parity);
    WordBelowLimit(before, parity, limit);
    NoTick();
    WordIsNewest(before, parity, limit);
    assert forall i :: 0 <= i < n ==> before[i] == log[i];
    assert log[..|log|] == log;
    assert Newest(log, TickOf(w));
    LateStep(log, w, parity);
    if CountOf(w) < limit {
      MoreAdmits(log, TickOf(w), limit, limit);
      assert Admitted(log, TickOf(w)) == Admitted(before, TickOf(w)) == CountOf(w);
      assert !FixedAt(More(log[..|log|], TickOf(w), limit, limit), TickOf(w), limit);
    } else {
      FixedWindow(before, c.tick, limit);
      assert More(log[..|log|], TickOf(w), limit, 0) == log;
      assert !FixedAt(More(log[..|log|], TickOf(w), limit, 0), c.tick, limit);
    }
  }

  lemma LateStep(log: seq<Call>, w: Word, parity: nat)
    requires log != [] && parity == log[|log| - 1].tick % 2 && w == Replay(log[..|log| - 1])[parity]
    requires log[|log| - 1].tick < TickOf(w)
    requires log[|log| - 1].ok == Verdict(log, |log| - 1)
    ensures log[|log| - 1].ok <==> CountOf(w) < log[|log| - 1].limit
    ensures log[|log| - 1].ok ==> TickOf(Replay(log)[parity]) == log[|log| - 1].tick
  {
    var c := log[|log| - 1];
    if CountOf(w) < c.limit {
      Unpack(CountOf(w) + 1, c.tick);
    }
  }

  /** With one limit for all, the fixed window is kept, now and under any further calls at the newest tick,
      exactly when every late call found its own tick and the window's both full. */
  lemma {:induction false} WindowIsKeptIff(log: seq<Call>, limit: Half)
    requires Told(log) && OneLimit(log, limit)
    ensures KeepsWindow(log, limit) <==> Harmless(log)
  {
    hide Told, HarmlessAt, FixedAt, Admitted, Calls, Newest;
    if Harmless(log) {
      HarmlessKeeps(log, limit);
    } else if log != [] {
      var m := |log| - 1;
      ToldPrefix(log, m);
      WindowIsKeptIff(log[..m], limit);
      if Harmless(log[..m]) {
        forall n | 0 <= n < m ensures HarmlessAt(log, n) {
          SameHarm(log, m, n);
        }
        HarmfulBreaks(log, limit);
      } else if KeepsWindow(log, limit) {
        KeepsPrefix(log, limit, m);
      }
    }
  }

  lemma KeepsPrefix(log: seq<Call>, limit: Half, m: nat)
    requires m <= |log| && KeepsWindow(log, limit)
    ensures KeepsWindow(log[..m], limit)
  {
    hide FixedAt, Newest;
    forall n: nat, newest: Half, k: nat, tick: Half | n <= m && Newest(log[..m][..n], newest)
      ensures FixedAt(More(log[..m][..n], newest, limit, k), tick, limit)
    {
      assert log[..m][..n] == log[..n];
    }
  }

  lemma HarmlessKeeps(log: seq<Call>, limit: Half)
    requires Harmless(log) && Told(log) && OneLimit(log, limit)
    ensures KeepsWindow(log, limit)
  {
    hide Harmless, Told, Newest, Admitted, Calls;
    forall n: nat, newest: Half, k: nat, tick: Half | n <= |log| && Newest(log[..n], newest)
      ensures FixedAt(More(log[..n], newest, limit, k), tick, limit)
    {
      ToldPrefix(log, n);
      HarmlessPrefix(log, n);
      MoreIsTold(log[..n], newest, limit, k);
      MoreIsHarmless(log[..n], newest, limit, k);
      FixedWindow(More(log[..n], newest, limit, k), tick, limit);
    }
  }

  /** One late call after an ordered sequence: its own verdict, and every later verdict at the newer tick, is
      that of the fixed window exactly when both ticks are full. */
  lemma StragglerIsHarmlessIff(log: seq<Call>, late: Half, limit: Half)
    requires Ordered(log) && Told(log) && OneLimit(log, limit) && Late(log, late)
    ensures KeepsWindow(More(log, late, limit, 1), limit)
            <==> Full(log, late, limit) && Full(log, TickOf(Replay(log)[late % 2]), limit)
  {
    hide Ordered, Told, Full, TickOf, IncWord;
    var after := More(log, late, limit, 1);
    MoreIsTold(log, late, limit, 1);
    OrderedIsHarmless(log);
    WindowIsKeptIff(after, limit);
    assert More(log, late, limit, 0) == log;
    assert after[..|log|] == log;
    forall n | 0 <= n < |log| ensures HarmlessAt(after, n) {
      assert after[..n] == log[..n];
      assert HarmlessAt(log, n);
    }
    assert HarmlessAt(after, |log|) <==> Full(log, late, limit) && Full(log, TickOf(Replay(log)[late % 2]), limit);
  }

  lemma FullRefuses(w: Word, tick: Half, limit: Half)
    requires tick <= TickOf(w) && limit <= CountOf(w)
    ensures IncWord(w, tick, limit) == (w, false)
  {
  }

  lemma {:induction false} FullStaysFull(log: seq<Call>, tick: Half, limit: Half, k: nat)
    requires var w := Replay(log)[tick % 2]; TickOf(w) == tick && limit <= CountOf(w)
    ensures Replay(More(log, tick, limit, k))[tick % 2] == Replay(log)[tick % 2]
    ensures Admitted(More(log, tick, limit, k), tick) == Admitted(log, tick)
  {
    hide TickOf, CountOf, IncWord, Replay, Admitted;
    if k > 0 {
      FullStaysFull(log, tick, limit, k - 1);
      FullRefuses(Replay(log)[tick % 2], tick, limit);
      OneMore(log, tick, limit, k);
    }
  }

  /** Which tick the late call takes over its limit: its own, if that was full and the newer one not; the newer
      one, under enough further calls, if that was not full. */
  lemma StragglerOveradmitsIff(log: seq<Call>, late: Half, limit: Half)
    requires Ordered(log) && Told(log) && OneLimit(log, limit) && Late(log, late)
    ensures var newer := TickOf(Replay(log)[late % 2]);
      Admitted(More(log, late, limit, 1), late) > limit <==> Full(log, late, limit) && !Full(log, newer, limit)
    ensures var newer := TickOf(Replay(log)[late % 2]);
      (exists k :: Admitted(More(More(log, late, limit, 1), newer, limit, k), newer) > limit)
      <==> !Full(log, newer, limit)
  {
    hide Ordered, Told, OneLimit;
    var parity := late % 2;
    var w, after := Replay(log)[parity], More(log, late, limit, 1);
    var newer := TickOf(w);
    OrderedIsHarmless(log);
    HarmlessCounts(log, parity);
    FixedWindow(log, late, limit);
    WordTick(log, parity);
    WordBelowLimit(log, parity, limit);
    NoTick();
    assert Admitted(log, newer) == CountOf(w);
    assert More(log, late, limit, 0) == log;
    assert after[..|log|] == log;
    if CountOf(w) < limit {
      Unpack(CountOf(w) + 1, late);
      MoreAdmits(after, newer, limit, limit);
    } else {
      forall k: nat ensures Admitted(More(after, newer, limit, k), newer) <= limit {
        FullStaysFull(after, newer, limit, k);
      }
    }
  }

  // ----- which sequences of calls there are ----------------------------------------------------------

  /** Calls enter in the order of their clock readings. */
  predicate OnTime(es: seq<Event>) {
    forall i, j :: 0 <= i < j < |es| && es[i].Enter? && es[j].Enter? ==> es[i].sub <= es[j].sub
  }

  /** The n-th call of a sequence, entered by a thread of its own. */
  function EnterOf(log: seq<Call>, n: nat): Event
    requires n < |log|
  {
    Enter(n, log[n].tick * 256, log[n].limit)
  }

  predicate AllEnter(es: seq<Event>) {
    forall i :: 0 <= i < |es| ==> es[i].Enter?
  }

  function InsertEnter(es: seq<Event>, e: Event): (r: seq<Event>)
    requires AllEnter(es) && e.Enter?
    ensures AllEnter(r) && |r| == |es| + 1
    ensures forall x :: x in r <==> x in es || x == e
  {
    if es == [] || es[|es| - 1].sub <= e.sub then es + [e]
    else
      assert es == es[..|es| - 1] + [es[|es| - 1]];
      InsertEnter(es[..|es| - 1], e) + [es[|es| - 1]]
  }

  lemma {:induction false} InsertKeepsTime(es: seq<Event>, e: Event)
    requires AllEnter(es) && e.Enter? && OnTime(es)
    ensures OnTime(InsertEnter(es, e))
  {
    if es == [] || es[|es| - 1].sub <= e.sub {
    } else {
      var last := |es| - 1;
      InsertKeepsTime(es[..last], e);
      var front := InsertEnter(es[..last], e);
      forall i | 0 <= i < |front| ensures front[i].sub <= es[last].sub {
        assert front[i] in front;
      }
    }
  }

  /** All calls enter, by the clock. */
  function Entering(log: seq<Call>, n: nat): (es: seq<Event>)
    requires n <= |log|
    ensures AllEnter(es)
    ensures forall x :: x in es <==> exists k :: 0 <= k < n && x == EnterOf(log, k)
  {
    if n == 0 then [] else InsertEnter(Entering(log, n - 1), EnterOf(log, n - 1))
  }

  lemma {:induction false} EnteringIsOnTime(log: seq<Call>, n: nat)
    requires n <= |log|
    ensures OnTime(Entering(log, n))
  {
    if n > 0 {
      EnteringIsOnTime(log, n - 1);
      InsertKeepsTime(Entering(log, n - 1), EnterOf(log, n - 1));
    }
  }

  function AsEntered(c: Call): Pc {
    Entered(c.tick * 256, c.limit)
  }

  predicate EntersCall(log: seq<Call>, e: Event) {
    e.Enter? && e.thread < |log| && e == EnterOf(log, e.thread)
  }

  lemma {:induction false} AfterEntering(log: seq<Call>, es: seq<Event>)
    requires forall i :: 0 <= i < |es| ==> EntersCall(log, es[i])
    ensures var s := Run(es);
      && s.words == [0, 0] && s.log == []
      && forall k :: 0 <= k < |log| ==> At(s, k) == if EnterOf(log, k) in es then AsEntered(log[k]) else Idle
  {
    if es != [] {
      var last := |es| - 1;
      var before := es[..last];
      assert forall i :: 0 <= i < last ==> before[i] == es[i];
      AfterEntering(log, before);
      assert EntersCall(log, es[last]);
      assert es == before + [es[last]];
    }
  }

  /** The n-th call is performed without interference. */
  function Work(n: nat): seq<Event> {
    [ReadOther(n), Load(n), CompareAndSwap(n)]
  }

  function Works(n: nat): (es: seq<Event>)
    ensures forall i :: 0 <= i < |es| ==> !es[i].Enter?
  {
    if n == 0 then [] else Works(n - 1) + Work(n - 1)
  }

  lemma RunUnfolds(es: seq<Event>, e: Event)
    ensures Run(es + [e]) == Step(Run(es), e)
  {
  }

  lemma RunThree(es: seq<Event>, a: Event, b: Event, c: Event)
    ensures Run(es + [a, b, c]) == Step(Step(Step(Run(es), a), b), c)
  {
    hide Step;
    RunUnfolds(es, a);
    RunUnfolds(es + [a], b);
    RunUnfolds(es + [a] + [b], c);
    assert es + [a, b, c] == es + [a] + [b] + [c];
  }

  /** The calls of the log that are still to come have entered. */
  predicate Reached(s: State, log: seq<Call>, n: nat)
    requires n <= |log|
  {
    && s.log == log[..n]
    && forall k :: n <= k < |log| ==> At(s, k) == AsEntered(log[k])
  }

  /** A subtick counts for the tick it lies in, in 32 bits. */
  lemma SubTick(tick: Half, r: nat, wraps: nat)
    requires r < 256
    ensures TickOfSub((tick + wraps * 0x1_0000_0000) * 256 + r) == tick
  {
  }

  /** What an uninterrupted call does. */
  lemma WorkFinishes(s: State, n: nat, c: Call)
    requires ParityOk(s.words) && At(s, n) == AsEntered(c)
    requires c.ok == IncWord(s.words[c.tick % 2], c.tick, c.limit).1
    ensures var s' := Step(Step(Step(s, ReadOther(n)), Load(n)), CompareAndSwap(n));
      s'.log == s.log + [c] && forall k :: k != n ==> At(s', k) == At(s, k)
  {
    hide ParityOk, IncWord, Carry, TickOfSub, Read;
    SubTick(c.tick, 0, 0);
    ParityPair(s.words);
    OtherWindowIsEmpty(s.words, c.tick);
    NothingCarried(c.tick * 256, c.limit);
    NothingAdmitted(s.words[c.tick % 2], c.tick);
  }

  lemma ParityPair(ws: seq<Word>)
    requires ParityOk(ws)
    ensures |ws| == 2
  {
  }

  lemma EnteringReaches(log: seq<Call>)
    ensures Reached(Run(Entering(log, |log|)), log, 0)
  {
    var es := Entering(log, |log|);
    forall i | 0 <= i < |es| ensures EntersCall(log, es[i]) {
      assert es[i] in es;
    }
    assert forall k :: 0 <= k < |log| ==> EnterOf(log, k) in es;
    AfterEntering(log, es);
  }

  lemma WorkStep(log: seq<Call>, s: State, n: nat)
    requires Told(log) && n < |log| && Reached(s, log, n) && Inv(s)
    ensures Reached(Step(Step(Step(s, ReadOther(n)), Load(n)), CompareAndSwap(n)), log, n + 1)
  {
    hide Step, ParityOk, IncWord, Replay, ThreadOk;
    ToldLast(log, n);
    WorkFinishes(s, n, log[n]);
    assert log[..n + 1] == log[..n] + [log[n]];
  }

  lemma {:induction false} WorkReaches(log: seq<Call>, n: nat)
    requires Told(log) && n <= |log|
    ensures Reached(Run(Entering(log, |log|) + Works(n)), log, n)
  {
    hide Step, Inv, Told, Reached, Run;
    if n == 0 {
      EnteringReaches(log);
      assert Entering(log, |log|) + Works(0) == Entering(log, |log|);
    } else {
      WorkReaches(log, n - 1);
      var es := Entering(log, |log|) + Works(n - 1);
      RunKeepsInv(es);
      WorkStep(log, Run(es), n - 1);
      RunThree(es, ReadOther(n - 1), Load(n - 1), CompareAndSwap(n - 1));
      assert Entering(log, |log|) + Works(n) == es + Work(n - 1);
    }
  }

  /** The logs of runs, also of runs whose calls enter by the clock, are exactly the sequences in which each
      call was told what it would be told there. */
  lemma EveryLogIsReached(log: seq<Call>)
    ensures Told(log) <==> exists es :: OnTime(es) && Run(es).log == log
  {
    if Told(log) {
      var front, back := Entering(log, |log|), Works(|log|);
      EnteringIsOnTime(log, |log|);
      WorkReaches(log, |log|);
      assert log[..|log|] == log;
      assert OnTime(front + back);
    }
    if es :| OnTime(es) && Run(es).log == log {
      RunKeepsInv(es);
    }
  }

  /** Some run with this one limit for all admits more calls of a tick than the limit. */
  ghost predicate Overadmits(limit: Half) {
    exists es, tick: Half :: OnTime(es) && OneLimit(Run(es).log, limit) && Admitted(Run(es).log, tick) > limit
  }

  /** With a limit of one the late call of a tick is refused. */
  lemma {:induction false} AtMostOne(log: seq<Call>, tick: Half, limit: Half)
    requires Told(log) && OneLimit(log, limit) && limit <= 1
    ensures Admitted(log, tick) <= limit
    ensures Admitted(log, tick) > 0 ==> CountOf(Replay(log)[tick % 2]) == 1 && tick <= TickOf(Replay(log)[tick % 2])
  {
    hide Told;
    if log != [] {
      var n := |log| - 1;
      ToldPrefix(log, n);
      ToldLast(log, n);
      AtMostOne(log[..n], tick, limit);
      WordBelowLimit(log[..n], log[n].tick % 2, limit);
      Unpack(1, log[n].tick);
    }
  }

  /** One call at a newer tick, a late one, and as many at the newer tick as the limit allows. */
  lemma LateCallsGoOver(limit: Half) returns (log: seq<Call>)
    requires 2 <= limit
    ensures Told(log) && OneLimit(log, limit) && Admitted(log, 4) == limit + 1
  {
    hide Replay, Admitted, Told;
    var first := More([], 4, limit, 1);
    FirstCall(limit);
    var second := More(first, 2, limit, 1);
    SecondCall(limit);
    NothingTold();
    MoreIsTold([], 4, limit, 1);
    MoreIsTold(first, 2, limit, 1);
    log := More(second, 4, limit, limit);
    MoreIsTold(second, 4, limit, limit);
    MoreAdmits(second, 4, limit, limit);
  }

  lemma NothingTold()
    ensures Told([])
  {
  }

  lemma FirstCall(limit: Half)
    requires 2 <= limit
    ensures More([], 4, limit, 1) == [Call(4, limit, true)]
  {
    assert More([], 4, limit, 0) == [];
  }

  lemma SecondCall(limit: Half)
    requires 2 <= limit
    ensures var log := More([Call(4, limit, true)], 2, limit, 1);
      Admitted(log, 4) == 1 && TickOf(Replay(log)[0]) == 2
  {
    var first := [Call(4, limit, true)];
    assert More(first, 2, limit, 0) == first;
    assert first[..0] == [];
    Unpack(1, 4);
    assert Replay(first)[0] == Pack(1, 4);
    var log := More(first, 2, limit, 1);
    assert log[..1] == first;
    assert Admitted(first, 4) == 1;
    Unpack(2, 2);
  }

  /** Although every call enters by the clock, some tick of some run admits more calls than the limit exactly
      when the limit is two or more. */
  lemma OveradmitsIff(limit: Half)
    ensures Overadmits(limit) <==> 2 <= limit
  {
    hide OnTime, Admitted, Told;
    if 2 <= limit {
      var log := LateCallsGoOver(limit);
      EveryLogIsReached(log);
      var es :| OnTime(es) && Run(es).log == log;
      assert Admitted(Run(es).log, 4) > limit;
    } else {
      forall es, tick: Half | OneLimit(Run(es).log, limit) ensures Admitted(Run(es).log, tick) <= limit {
        EveryRunIsTold(es);
        AtMostOne(Run(es).log, tick, limit);
      }
    }
  }

  lemma EveryRunIsTold(es: seq<Event>)
    ensures Told(Run(es).log)
  {
    RunKeepsInv(es);
  }

  // ----- the retry loop ----------------------------------------------------------------------------

  class Window {
    var v: Word

    constructor ()
      ensures v == 0
    {
      v := 0;
    }

    /** `others` are the words other threads leave before the successive compare-and-swaps.  The call
        takes effect on `seen`, the word in the cell at one instant of the call. */
    method Inc(now: Half, limit: Half, others: seq<Word>) returns (ok: bool, ghost seen: Word)
      modifies this
      ensures (v, ok) == IncWord(seen, now, limit)
      ensures seen == old(v) || seen in others
    {
      var k := 0;
      while true
        invariant k <= |others|
        invariant v == old(v) || v in others
        decreases |others| - k
      {
        var expected := v;
        var count: Half := CountOf(expected);
        if TickOf(expected) < now {
          count := 0;
        }
        if count >= limit {
          return false, v;
        }
        var interfered := k < |others|;
        if interfered {
          v, k := others[k], k + 1;
        }
        if v == expected {
          v := Pack(count + 1, now);
          return true, expected;
        }
      }
    }
  }
}
