/**
 One multiplexed RPC connection.  Callers draw a sequence number, put their packet into the pending
 map, write the request and wait on the packet's signal channel.  One input loop pops the packet a
 reply names, reads the body into it and signals it; whoever meets an error first shuts the
 connection down, which closes the channels of everything still pending.

 `State` and `Step` describe every interleaving of the atomic sections.  `Duplex` is the object
 itself: its methods are proved to perform those sections.
 */
module RpcDuplex {

  /** A header is 32 bits wide: the top bit marks a reply, the rest is the sequence number. */
  const FLAG_REPLY: nat := 0x8000_0000

  type Header = h: nat | h < 0x1_0000_0000

  function Masked(h: nat): nat {
    h % FLAG_REPLY
  }

  /** Calls are numbered in the order they draw from the 32-bit counter, which starts at 0. */
  function SeqOf(call: nat): nat {
    Masked((call + 1) % 0x1_0000_0000)
  }

  /** What has happened to a call's signal channel. */
  datatype Fate =
    | Drawn                 // has its number, not yet promised
    | Refused               // promised after shutdown: no channel was made
    | Pending               // in the pending map
    | InHand                // popped, its reply is being read
    | Stranded              // popped, but reading its reply failed
    | Replied(header: Header)
    | Closed

  datatype Input = Reading | Filling(call: nat, header: Header) | Failing | Ended

  /** `abandoned` are the calls whose request could not be written: nobody listens to their channel. */
  datatype State = State(open: bool, pending: map<nat, nat>, calls: seq<Fate>, input: Input, abandoned: set<nat>)

  const INITIAL := State(true, map[], [], Reading, {})

  datatype Event =
    | Draw
    | Promise(call: nat)
    | WriteFails(call: nat)
    | Shutdown
    | ReplyHeader(header: Header)
    | ReplyBody
    | ReplyBodyFails
    | InputFails
    | InputShutdown

  function ShutdownStep(s: State): State {
    if !s.open then s
    else s.(open := false, pending := map[],
            calls := seq(|s.calls|, i requires 0 <= i < |s.calls| =>
                           if i in s.pending.Values then Closed else s.calls[i]))
  }

  function PopStep(s: State, h: Header): State {
    if !s.open || Masked(h) !in s.pending || s.pending[Masked(h)] >= |s.calls| then s
    else
      var call := s.pending[Masked(h)];
      s.(pending := s.pending - {Masked(h)}, calls := s.calls[call := InHand], input := Filling(call, h))
  }

  function PromiseStep(s: State, call: nat): State
    requires call < |s.calls|
  {
    if !s.open then s.(calls := s.calls[call := Refused])
    else s.(pending := s.pending[SeqOf(call) := call], calls := s.calls[call := Pending])
  }

  predicate Is(s: State, call: nat, fate: Fate) {
    call < |s.calls| && s.calls[call] == fate
  }

  /** A request whose Write fails was never seen by the peer, so it has not been popped. */
  function Step(s: State, e: Event): State {
    match e
    case Draw => s.(calls := s.calls + [Drawn])
    case Promise(c) => if Is(s, c, Drawn) then PromiseStep(s, c) else s
    case WriteFails(c) =>
      if Is(s, c, Pending) || Is(s, c, Closed)
      then ShutdownStep(s).(abandoned := s.abandoned + {c}) else s
    case Shutdown => ShutdownStep(s)
    case ReplyHeader(header) =>
      if s.input == Reading && FLAG_REPLY <= header then PopStep(s, header) else s
    case ReplyBody =>
      if s.input.Filling? && s.input.call < |s.calls|
      then s.(calls := s.calls[s.input.call := Replied(s.input.header)], input := Reading) else s
    case ReplyBodyFails =>
      if s.input.Filling? && s.input.call < |s.calls|
      then s.(calls := s.calls[s.input.call := Stranded], input := Failing) else s
    case InputFails => if s.input == Reading then s.(input := Failing) else s
    case InputShutdown => if s.input == Failing then ShutdownStep(s).(input := Ended) else s
  }

  function Run(es: seq<Event>): State {
    if es == [] then INITIAL else Step(Run(es[..|es| - 1]), es[|es| - 1])
  }

  /** Fewer than 2^31 later calls have drawn a number while a call waits to be resolved. */
  predicate Window(s: State) {
    forall c :: 0 <= c < |s.calls| && (s.calls[c].Drawn? || s.calls[c].Pending?) ==> |s.calls| - c <= FLAG_REPLY
  }

  ghost predicate Windowed(es: seq<Event>) {
    forall n :: 0 <= n <= |es| ==> Window(Run(es[..n]))
  }

  // ----- invariant ---------------------------------------------------------------------------

  /** The pending map and the pending calls are the same thing. */
  predicate PendingOk(s: State) {
    && (forall k :: k in s.pending ==> Is(s, s.pending[k], Pending) && SeqOf(s.pending[k]) == k)
    && (forall c: nat :: c < |s.calls| && s.calls[c] == Pending ==>
          SeqOf(c) in s.pending && s.pending[SeqOf(c)] == c)
    && (!s.open ==> s.pending == map[])
  }

  predicate OwnReply(h: nat, call: nat) {
    FLAG_REPLY <= h && Masked(h) == SeqOf(call)
  }

  predicate InputOk(s: State) {
    && (s.input.Filling? ==> Is(s, s.input.call, InHand) && OwnReply(s.input.header, s.input.call))
    && (forall c :: 0 <= c < |s.calls| && s.calls[c] == InHand ==> s.input.Filling? && s.input.call == c)
    && (forall c :: 0 <= c < |s.calls| && s.calls[c] == Stranded ==> s.input.Failing? || s.input.Ended?)
    && (forall c, d :: 0 <= c < d < |s.calls| ==> s.calls[c] != Stranded || s.calls[d] != Stranded)
    && (s.input.Ended? ==> !s.open)
  }

  predicate RepliesOk(s: State) {
    forall c :: 0 <= c < |s.calls| && s.calls[c].Replied? ==> OwnReply(s.calls[c].header, c)
  }

  predicate AbandonedOk(s: State) {
    forall c :: c in s.abandoned ==> Is(s, c, Closed)
  }

  predicate Inv(s: State) {
    PendingOk(s) && InputOk(s) && RepliesOk(s) && AbandonedOk(s)
  }

  /** Within the window no two waiting calls share a sequence number. */
  lemma WindowSeparates(c: nat, d: nat, drawn: nat)
    requires c < drawn && d < drawn && drawn - c <= 0x8000_0000 && drawn - d <= 0x8000_0000 && c != d
    ensures SeqOf(c) != SeqOf(d)
  {
    SeqOfIs(c);
    SeqOfIs(d);
  }

  lemma SeqOfIs(c: nat)
    ensures SeqOf(c) == (c + 1) % FLAG_REPLY
  {
  }

  lemma ShutdownKeepsInv(s: State)
    requires Inv(s)
    ensures Inv(ShutdownStep(s))
    ensures !ShutdownStep(s).open && ShutdownStep(s).input == s.input
    ensures forall c :: 0 <= c < |s.calls| ==> ShutdownStep(s).calls[c] != Pending
    ensures forall c :: 0 <= c < |s.calls| ==>
              ShutdownStep(s).calls[c] == if s.calls[c] == Pending then Closed else s.calls[c]
  {
  }

  lemma PromiseKeepsInv(s: State, c: nat)
    requires Inv(s) && Is(s, c, Drawn)
    requires forall d :: 0 <= d < |s.calls| && s.calls[d] == Pending ==> SeqOf(d) != SeqOf(c)
    ensures Inv(PromiseStep(s, c))
  {
    var s' := PromiseStep(s, c);
    assert PendingOk(s');
  }

  lemma PopKeepsInv(s: State, h: Header)
    requires Inv(s) && s.input == Reading && FLAG_REPLY <= h
    ensures Inv(PopStep(s, h))
  {
  }

  lemma StepKeepsInv(s: State, e: Event)
    requires Inv(s) && Window(s)
    ensures Inv(Step(s, e))
  {
    match e
    case Draw => DrawKeepsInv(s);
    case Promise(c) =>
      if Is(s, c, Drawn) {
        forall d | 0 <= d < |s.calls| && s.calls[d] == Pending ensures SeqOf(d) != SeqOf(c) {
          WindowSeparates(c, d, |s.calls|);
        }
        PromiseKeepsInv(s, c);
      }
    case WriteFails(c) => WriteFailsKeepsInv(s, c);
    case Shutdown => ShutdownKeepsInv(s);
    case ReplyHeader(h) =>
      if s.input == Reading && FLAG_REPLY <= h {
        PopKeepsInv(s, h);
      }
    case ReplyBody => FillKeepsInv(s, e);
    case ReplyBodyFails => FillKeepsInv(s, e);
    case InputFails => InputKeepsInv(s, e);
    case InputShutdown => InputKeepsInv(s, e);
  }

  lemma DrawKeepsInv(s: State)
    requires Inv(s)
    ensures Inv(Step(s, Draw))
  {
    assert PendingOk(Step(s, Draw));
  }

  lemma WriteFailsKeepsInv(s: State, c: nat)
    requires Inv(s)
    ensures Inv(Step(s, WriteFails(c)))
  {
    ShutdownKeepsInv(s);
    assert AbandonedOk(Step(s, WriteFails(c)));
  }

  lemma InputKeepsInv(s: State, e: Event)
    requires Inv(s) && (e.InputFails? || e.InputShutdown?)
    ensures Inv(Step(s, e))
  {
  }

  lemma FillKeepsInv(s: State, e: Event)
    requires Inv(s) && (e.ReplyBody? || e.ReplyBodyFails?)
    ensures Inv(Step(s, e))
  {
    assert PendingOk(Step(s, e));
  }

  lemma {:induction false} RunKeepsInv(es: seq<Event>)
    requires Windowed(es)
    ensures Inv(Run(es))
  {
    if es == [] {
    } else {
      var before := es[..|es| - 1];
      WindowedPrefix(es, |es| - 1);
      RunKeepsInv(before);
      assert before[..|before|] == before;
      StepKeepsInv(Run(before), es[|es| - 1]);
    }
  }

  lemma WindowedPrefix(es: seq<Event>, n: nat)
    requires Windowed(es) && n <= |es|
    ensures Windowed(es[..n])
  {
    forall m | 0 <= m <= n ensures Window(Run(es[..n][..m])) {
      assert es[..n][..m] == es[..m];
    }
  }

  // ----- main results ------------------------------------------------------------------------

  /** Nothing more can happen to the call's channel. */
  predicate Final(f: Fate) {
    f.Refused? || f.Stranded? || f.Replied? || f.Closed?
  }

  lemma FinalStep(s: State, e: Event, c: nat)
    requires Inv(s) && c < |s.calls| && Final(s.calls[c])
    ensures Is(Step(s, e), c, s.calls[c])
  {
  }

  /** In every run each call is resolved at most once: a call that was replied to is never closed, a
      closed one never replied to, and none of these is ever undone.  A reply carries the call's own
      sequence number. */
  lemma {:induction false} ResolvedOnce(es: seq<Event>, m: nat, c: nat)
    requires Windowed(es) && m <= |es|
    requires c < |Run(es[..m]).calls| && Final(Run(es[..m]).calls[c])
    ensures c < |Run(es).calls| && Run(es).calls[c] == Run(es[..m]).calls[c]
    ensures Run(es).calls[c].Replied? ==> OwnReply(Run(es).calls[c].header, c)
    decreases |es| - m
  {
    hide Step, Window, PendingOk, InputOk, SeqOf;
    RunKeepsInv(es);
    if m == |es| {
      assert es[..m] == es;
    } else {
      WindowedPrefix(es, m);
      RunKeepsInv(es[..m]);
      assert es[..m + 1][..m] == es[..m];
      FinalStep(Run(es[..m]), es[m], c);
      ResolvedOnce(es, m + 1, c);
    }
  }

  /** Shutdown releases everything still pending, and nothing can become pending after it: once the
      input loop has ended, every call that was ever promised has been replied to or closed, except
      at most one whose reply could not be read. */
  lemma EveryoneIsReleased(es: seq<Event>, c: nat, d: nat)
    requires Windowed(es)
    ensures
      var s := Run(es);
      c < |s.calls| && d < |s.calls| ==>
        && (!s.open ==> s.calls[c] != Pending)
        && (s.input.Ended? ==> s.calls[c].Drawn? || Final(s.calls[c]))
        && (s.calls[c].Stranded? && s.calls[d].Stranded? ==> c == d)
  {
    RunKeepsInv(es);
  }

  /** The input loop never signals a caller that has already left. */
  lemma AbandonedCallsAreClosed(es: seq<Event>, c: nat)
    requires Windowed(es)
    ensures c in Run(es).abandoned ==> Is(Run(es), c, Closed)
  {
    RunKeepsInv(es);
  }

  // ----- what becomes of a call --------------------------------------------------------------

  lemma RunUnfolds(es: seq<Event>, e: Event)
    ensures Run(es + [e]) == Step(Run(es), e)
  {
  }

  /** Both states hold the same of every call but c. */
  predicate OthersKept(s: State, s': State, c: nat) {
    && |s'.calls| == |s.calls| && s'.abandoned == s.abandoned && s'.open == s.open
    && forall d :: 0 <= d < |s.calls| && d != c ==> s'.calls[d] == s.calls[d]
  }

  /** Of the calls pending in s only c has left the map. */
  ghost predicate NoLongerPending(s: State, s': State, c: nat) {
    && (forall k :: k in s'.pending ==> s'.pending[k] != c)
    && (forall d: nat :: d != c && Is(s, d, Pending) ==> SeqOf(d) in s'.pending && s'.pending[SeqOf(d)] == d)
  }

  /** The pending call a reply names, if there is one. */
  ghost predicate Names(s: State, h: Header, c: nat) {
    Is(s, c, Pending) && OwnReply(h, c)
  }

  /** In every run, a reply that the input loop reads reaches the waiting call whose number it carries: the call
      leaves the pending map, and has its reply once the body is read.  A reply that names no waiting call, and
      a packet that is no reply, change nothing. */
  lemma ReplyReachesItsCall(es: seq<Event>, h: Header, c: nat)
    requires Windowed(es) && Run(es).input == Reading
    ensures Names(Run(es), h, c) ==>
      var s := Run(es);
      var popped := Step(s, ReplyHeader(h));
      var filled := Step(popped, ReplyBody);
      && Is(popped, c, InHand) && OthersKept(s, popped, c) && NoLongerPending(s, popped, c)
      && Is(filled, c, Replied(h)) && OthersKept(s, filled, c) && filled.pending == popped.pending
      && filled.input == Reading
    ensures (forall d :: !Names(Run(es), h, d)) ==> Step(Run(es), ReplyHeader(h)) == Run(es)
  {
    hide Window, Windowed;
    RunKeepsInv(es);
    var s := Run(es);
    if Names(s, h, c) {
      ReplyFills(s, h, c);
    }
    if forall d :: !Names(s, h, d) {
      NobodyIsPopped(s, h);
    }
  }

  lemma ReplyFills(s: State, h: Header, c: nat)
    requires Inv(s) && s.input == Reading && Names(s, h, c)
    ensures
      var popped := Step(s, ReplyHeader(h));
      var filled := Step(popped, ReplyBody);
      && Is(popped, c, InHand) && OthersKept(s, popped, c) && NoLongerPending(s, popped, c)
      && Is(filled, c, Replied(h)) && OthersKept(s, filled, c) && filled.pending == popped.pending
      && filled.input == Reading
  {
    hide SeqOf;
  }

  lemma NamedIff(s: State, h: Header)
    requires Inv(s) && FLAG_REPLY <= h
    ensures (exists c :: Names(s, h, c)) <==> Masked(h) in s.pending
    ensures !s.open ==> Masked(h) !in s.pending
  {
    hide Masked, SeqOf;
    if Masked(h) in s.pending {
      assert Names(s, h, s.pending[Masked(h)]);
    }
  }

  lemma NobodyIsPopped(s: State, h: Header)
    requires Inv(s) && s.input == Reading && forall d :: !Names(s, h, d)
    ensures Step(s, ReplyHeader(h)) == s
  {
    if FLAG_REPLY <= h && Masked(h) in s.pending {
      assert Names(s, h, s.pending[Masked(h)]);
    }
  }

  /** The header that answers a call: the flag, and the call's number in the lower 31 bits. */
  lemma OwnReplyIs(h: Header, c: nat)
    ensures OwnReply(h, c) <==> h == 0x8000_0000 + (c + 1) % 0x8000_0000
  {
    SeqOfIs(c);
  }

  /** While the connection is open a call that draws, promises and is answered gets its reply. */
  lemma CallIsAnswered(es: seq<Event>, h: Header)
    requires Windowed(es + [Draw]) && Run(es).open && Run(es).input == Reading && OwnReply(h, |Run(es).calls|)
    ensures
      var s := Run(es);
      var c := |s.calls|;
      var s' := Step(Step(Step(Step(s, Draw), Promise(c)), ReplyHeader(h)), ReplyBody);
      s' == s.(calls := s.calls + [Replied(h)])
  {
    hide Windowed, SeqOf;
    var s := Run(es);
    var c := |s.calls|;
    RunUnfolds(es, Draw);
    assert (es + [Draw])[..|es| + 1] == es + [Draw];
    RunKeepsInv(es + [Draw]);
    var drawn := Step(s, Draw);
    LastWindow(es + [Draw]);
    NumberIsFree(drawn, c);
    assert s.pending[SeqOf(c) := c] - {SeqOf(c)} == s.pending;
  }

  lemma LastWindow(es: seq<Event>)
    requires Windowed(es)
    ensures Window(Run(es))
  {
    assert es[..|es|] == es;
  }

  lemma NumberIsFree(s: State, c: nat)
    requires Inv(s) && Window(s) && Is(s, c, Drawn)
    ensures SeqOf(c) !in s.pending
  {
    if SeqOf(c) in s.pending {
      WindowSeparates(c, s.pending[SeqOf(c)], |s.calls|);
    }
  }

  /** Everybody who waits is released when the connection is shut down, by whichever of the four ways: a caller
      whose write fails, a reply that breaks off, the end of the input, or somebody from outside. */
  lemma ShutdownReleases(es: seq<Event>, e: Event, c: nat)
    requires Windowed(es) && c < |Run(es).calls|
    requires
      || e == Shutdown
      || (e == InputShutdown && Run(es).input == Failing)
      || (e.WriteFails? && (Is(Run(es), e.call, Pending) || Is(Run(es), e.call, Closed)))
    ensures
      var s, s' := Run(es), Step(Run(es), e);
      && !s'.open && s'.pending == map[] && |s'.calls| == |s.calls|
      && s'.calls[c] == (if s.calls[c] == Pending then Closed else s.calls[c])
      && (e == InputShutdown ==> s'.input == Ended)
      && (e.WriteFails? ==> e.call in s'.abandoned)
    ensures
      var s, s' := Run(es), Step(Run(es), e);
      Is(s, c, Drawn) ==> Is(Step(s', Promise(c)), c, Refused)
  {
    hide Window, Windowed;
    RunKeepsInv(es);
    ShutdownKeepsInv(Run(es));
  }

  /** The input loop comes to its end from wherever it is once reading fails. */
  lemma InputEnds(es: seq<Event>)
    requires Run(es).input == Reading || (Run(es).input.Filling? && Run(es).input.call < |Run(es).calls|)
    ensures
      var s := Run(es);
      var failing := Step(s, if s.input == Reading then InputFails else ReplyBodyFails);
      && failing.input == Failing && Step(failing, InputShutdown).input == Ended
      && (s.input.Filling? ==> Is(failing, s.input.call, Stranded) && OthersKept(s, failing, s.input.call))
      && (s.input == Reading ==> failing.calls == s.calls)
  {
  }

  /** The sequence number of a pending call is taken over by a later call. */
  predicate TakenOver(s: State, c: nat) {
    && Is(s, c, Pending)
    && !(SeqOf(c) in s.pending && s.pending[SeqOf(c)] == c)
    && (forall k :: k in s.pending ==> s.pending[k] < |s.calls| && SeqOf(s.pending[k]) == k)
    && (s.input.Filling? ==> s.input.call != c)
  }

  lemma TakenOverStep(s: State, e: Event, c: nat)
    requires TakenOver(s, c)
    ensures TakenOver(Step(s, e), c)
  {
  }

  function RunFrom(s: State, es: seq<Event>): State
    decreases |es|
  {
    if es == [] then s else RunFrom(Step(s, es[0]), es[1..])
  }

  /** Outside the window the pending map overwrites: the earlier of two waiting calls with the same
      sequence number is never resolved, whatever happens afterwards. */
  lemma {:induction false} OverwrittenCallIsLost(s: State, es: seq<Event>, c: nat)
    requires TakenOver(s, c)
    ensures Is(RunFrom(s, es), c, Pending)
    decreases |es|
  {
    if es == [] {
    } else {
      TakenOverStep(s, es[0], c);
      OverwrittenCallIsLost(Step(s, es[0]), es[1..], c);
    }
  }

  /** The first call waits while k others draw their numbers. */
  predicate FirstWaits(s: State, k: nat) {
    && s.open && s.input == Reading && s.pending == map[1 := 0] && |s.calls| == k + 1 && s.calls[0] == Pending
    && forall c :: 1 <= c <= k ==> s.calls[c] == Drawn
  }

  lemma {:induction false} ManyDraws(k: nat) returns (es: seq<Event>)
    ensures FirstWaits(Run(es), k)
  {
    if k == 0 {
      RunUnfolds([], Draw);
      RunUnfolds([Draw], Promise(0));
      es := [Draw] + [Promise(0)];
      assert [] + [Draw] == [Draw];
    } else {
      var before := ManyDraws(k - 1);
      RunUnfolds(before, Draw);
      es := before + [Draw];
    }
  }

  lemma LastPromise(s: State)
    requires FirstWaits(s, FLAG_REPLY)
    ensures TakenOver(Step(s, Promise(FLAG_REPLY)), 0)
  {
  }

  /** A run that leaves the window: the call 2^31 numbers later takes over the place of the first, which is
      never resolved after that. */
  lemma CollisionIsReached() returns (es: seq<Event>)
    ensures TakenOver(Run(es), 0)
    ensures forall more :: Is(RunFrom(Run(es), more), 0, Pending)
  {
    var before := ManyDraws(FLAG_REPLY);
    LastPromise(Run(before));
    hide Step, TakenOver;
    RunUnfolds(before, Promise(FLAG_REPLY));
    es := before + [Promise(FLAG_REPLY)];
    forall more ensures Is(RunFrom(Run(es), more), 0, Pending) {
      OverwrittenCallIsLost(Run(es), more, 0);
    }
  }

  /** Promising keeps the connection sound exactly when no waiting call has the same number. */
  lemma PromiseIsSafeIff(s: State, c: nat)
    requires Inv(s) && s.open && Is(s, c, Drawn)
    ensures Inv(PromiseStep(s, c)) <==> SeqOf(c) !in s.pending
    ensures SeqOf(c) in s.pending ==> TakenOver(PromiseStep(s, c), s.pending[SeqOf(c)])
  {
    if SeqOf(c) !in s.pending {
      PromiseKeepsInv(s, c);
    } else {
      var d := s.pending[SeqOf(c)];
      var s' := PromiseStep(s, c);
      assert Is(s', d, Pending) && SeqOf(d) == SeqOf(c) && s'.pending[SeqOf(d)] == c;
    }
  }

  // ----- the object --------------------------------------------------------------------------

  /** `signals` holds, per call, what has been done to its channel; `err` says that the error is set. */
  class Duplex {
    var seqno: nat
    var pending: map<nat, nat>
    var err: bool
    var closed: bool
    var signals: seq<Fate>
    var input: Input
    var abandoned: set<nat>

    function View(): State
      reads this
    {
      State(!err, pending, signals, input, abandoned)
    }

    ghost predicate Valid()
      reads this
    {
      Inv(View()) && closed == err && seqno == |signals| % 0x1_0000_0000
    }

    constructor ()
      ensures Valid() && View() == INITIAL
    {
      seqno, pending, err, closed, signals, input, abandoned := 0, map[], false, false, [], Reading, {};
    }

    /** Draws the next sequence number. */
    method NextSeq() returns (call: nat, s: nat)
      requires Valid()
      modifies this
      ensures Valid() && View() == Step(old(View()), Draw)
      ensures call == old(|signals|) && s == SeqOf(call)
    {
      call := |signals|;
      seqno := (seqno + 1) % 0x1_0000_0000;
      signals := signals + [Drawn];
      s := Masked(seqno);
      hide PendingOk, InputOk, RepliesOk, AbandonedOk;
      DrawKeepsInv(old(View()));
      assert View() == Step(old(View()), Draw);
    }

    /** Close of a channel that is closed already is a panic, so it must be open. */
    method CloseSignal(call: nat)
      requires call < |signals| && signals[call] == Pending
      modifies this`signals
      ensures signals == old(signals)[call := Closed]
    {
      signals := signals[call := Closed];
    }

    /** Puts a call into the pending map under the number it drew.  The connection stays sound exactly when
        no waiting call has that number, as is certain within the window. */
    method PromiseCall(call: nat, s: nat) returns (ok: bool)
      requires Valid() && Is(View(), call, Drawn) && s == SeqOf(call)
      modifies this
      ensures View() == Step(old(View()), Promise(call)) && ok == !old(err)
      ensures Valid() <==> old(err) || s !in old(pending)
      ensures old(Window(View())) ==> Valid()
    {
      if Window(View()) {
        StepKeepsInv(View(), Promise(call));
      }
      if closed || err {
        PromiseKeepsInv(View(), call);
        signals := signals[call := Refused];
        return false;
      }
      PromiseIsSafeIff(View(), call);
      signals := signals[call := Pending];
      pending := pending[s := call];
      return true;
    }

    /** Takes the call a reply names out of the pending map. */
    method Pop(h: Header) returns (found: bool, call: nat)
      requires Valid() && input == Reading && FLAG_REPLY <= h
      modifies this
      ensures Valid() && View() == Step(old(View()), ReplyHeader(h))
      ensures found ==> OwnReply(h, call) && Is(old(View()), call, Pending) && input == Filling(call, h)
      ensures !found <==> View() == old(View())
      ensures found <==> !old(err) && exists c :: Names(old(View()), h, c)
    {
      PopKeepsInv(View(), h);
      NamedIff(View(), h);
      found, call := false, 0;
      if closed || err {
        return;
      }
      var s := Masked(h);
      if s in pending {
        found, call := true, pending[s];
        pending := pending - {s};
        signals := signals[call := InHand];
        input := Filling(call, h);
      }
    }

    /** Closes every pending channel, in any order, and refuses everything from now on. */
    method Shutdown()
      requires Valid()
      modifies this
      ensures Valid() && View() == ShutdownStep(old(View())) && err
    {
      ghost var before := View();
      ShutdownKeepsInv(before);
      if closed || err {
        return;
      }
      hide InputOk, RepliesOk, AbandonedOk, SeqOf;
      var rest := pending.Keys;
      while rest != {}
        invariant rest <= pending.Keys
        invariant View() == before.(calls := signals) && !closed && seqno == |signals| % 0x1_0000_0000
        invariant |signals| == |before.calls|
        invariant forall c :: 0 <= c < |signals| ==>
          signals[c] == if before.calls[c] == Pending && SeqOf(c) !in rest then Closed else before.calls[c]
        decreases |rest|
      {
        var k :| k in rest;
        CloseSignal(pending[k]);
        rest := rest - {k};
      }
      err, closed, pending := true, true, map[];
      assert signals == ShutdownStep(before).calls;
    }
  }
}
