/**
 The compare-and-swap endpoint: a swap on values built from a swap on revisions, with a bounded
 number of retries.  Other clients write, purge and create the key between any two operations of the
 call, and every operation may fail without effect.
 */
module KvCas {
  import opened Common

  type Json = string

  /** Who wrote a version: somebody else, the call's own initial create, or the call's swap. */
  datatype Author = Other | OwnCreate | OwnSwap

  /** One revision of the key; a purge leaves a version without a value. */
  datatype Version = Version(revision: nat, value: Option<Json>, author: Author)

  /** A write by another client; `skipped` revisions go to other keys of the bucket first. */
  datatype Write = Write(skipped: nat, value: Option<Json>)

  datatype CasResult =
    | Swapped(revision: nat, value: Json)
    | Mismatch(revision: nat, value: Json)
    | Failed

  const MAX_RETRIES: nat := 16

  predicate Increasing(history: seq<Version>) {
    forall i, j :: 0 <= i < j < |history| ==> history[i].revision < history[j].revision
  }

  /** The version a Get finds. */
  predicate Live(history: seq<Version>) {
    history != [] && history[|history| - 1].value.Some?
  }

  /** No version written since `from` is the call's swap. */
  predicate NoSwap(history: seq<Version>, from: nat) {
    forall i :: from <= i < |history| ==> history[i].author != OwnSwap
  }

  /** What the call itself creates since `from` is the value `null`. */
  predicate CreatesNull(history: seq<Version>, from: nat) {
    forall i :: from <= i < |history| && history[i].author == OwnCreate ==> history[i].value == Some("null")
  }

  predicate Extends(before: seq<Version>, after: seq<Version>) {
    |before| <= |after| && after[..|before|] == before
  }

  /** The key went from `before` to `after` without a swap by the call. */
  predicate Grows(before: seq<Version>, after: seq<Version>) {
    Extends(before, after) && NoSwap(after, |before|) && CreatesNull(after, |before|)
  }

  lemma GrowsTransitive(a: seq<Version>, b: seq<Version>, c: seq<Version>)
    requires Grows(a, b) && Grows(b, c)
    ensures Grows(a, c)
  {
  }

  /** A revision identifies a version. */
  lemma SameRevision(history: seq<Version>, i: nat, j: nat)
    requires Increasing(history) && i < |history| && j < |history| && history[i].revision == history[j].revision
    ensures i == j
  {
  }

  predicate AllPut(writes: seq<Write>) {
    forall k :: 0 <= k < |writes| ==> writes[k].value.Some?
  }

  /** The call took effect at one point: `history[at]` replaced a matching value by the desired one. */
  predicate SwapAt(
    history: seq<Version>, matches: (Json, Json) -> bool, expected: Json, desired: Json, from: nat, at: nat)
  {
    && from <= at < |history| && 0 < at
    && history[at].author == OwnSwap && history[at].value == Some(desired)
    && history[at - 1].value.Some? && matches(history[at - 1].value.value, expected)
    && (forall i :: from <= i < |history| && i != at ==> history[i].author != OwnSwap)
  }

  /** `history[at]` was the current version at some point of a call that began at length `from`. */
  predicate SeenAt(history: seq<Version>, revision: nat, value: Json, from: nat, at: nat) {
    && from <= at + 1 && at < |history|
    && history[at].revision == revision && history[at].value == Some(value)
  }

  /** Nothing fails by itself and nobody purges the key. */
  ghost predicate Benign(env: nat -> seq<Write>, faults: nat -> bool) {
    && (forall i: nat :: !faults(i))
    && (forall i: nat :: AllPut(env(i)))
  }

  /** Nothing fails, and no other client writes during the operations numbered below n. */
  predicate Undisturbed(env: nat -> seq<Write>, faults: nat -> bool, n: nat) {
    forall i :: 0 <= i < n ==> env(i) == [] && !faults(i)
  }

  class Store {
    var history: seq<Version>
    var lastRevision: nat

    predicate Valid()
      reads this
    {
      && Increasing(history)
      && forall i :: 0 <= i < |history| ==> history[i].revision <= lastRevision
    }

    constructor ()
      ensures Valid() && history == []
    {
      history, lastRevision := [], 0;
    }

    method Append(value: Option<Json>, author: Author) returns (revision: nat)
      requires Valid()
      modifies this
      ensures Valid() && history == old(history) + [Version(revision, value, author)]
    {
      lastRevision := lastRevision + 1;
      revision := lastRevision;
      history := history + [Version(revision, value, author)];
    }

    /** The writes of the other clients that happen next. */
    method Interfere(writes: seq<Write>)
      requires Valid()
      modifies this
      ensures Valid() && Grows(old(history), history)
      ensures AllPut(writes) && Live(old(history)) ==> Live(history)
      ensures writes == [] ==> history == old(history)
    {
      for k := 0 to |writes|
        invariant Valid() && Grows(old(history), history)
        invariant AllPut(writes) && Live(old(history)) ==> Live(history)
        invariant k == 0 ==> history == old(history)
      {
        lastRevision := lastRevision + writes[k].skipped;
        var _ := Append(writes[k].value, Other);
      }
    }

    method Get() returns (found: Option<(nat, Json)>)
      requires Valid()
      ensures found.Some? <==> Live(history)
      ensures found.Some? ==>
        var last := history[|history| - 1];
        last.revision == found.value.0 && last.value == Some(found.value.1)
    {
      if history != [] && history[|history| - 1].value.Some? {
        found := Some((history[|history| - 1].revision, history[|history| - 1].value.value));
      } else {
        found := None;
      }
    }

    /** Fails when the key has a value. */
    method Create(value: Json) returns (ok: bool)
      requires Valid()
      modifies this
      ensures Valid() && Extends(old(history), history) && NoSwap(history, |old(history)|) && ok == !Live(old(history))
      ensures value == "null" ==> Grows(old(history), history)
      ensures ok ==> exists r :: history == old(history) + [Version(r, Some(value), OwnCreate)]
      ensures !ok ==> history == old(history)
    {
      ok := !(history != [] && history[|history| - 1].value.Some?);
      if ok {
        var _ := Append(Some(value), OwnCreate);
      }
    }

    /** Fails unless the key is still at the given revision. */
    method Update(value: Json, expected: nat) returns (ok: bool, revision: nat)
      requires Valid()
      modifies this
      ensures Valid()
      ensures ok == (old(history) != [] && old(history)[|old(history)| - 1].revision == expected)
      ensures ok ==> history == old(history) + [Version(revision, Some(value), OwnSwap)]
      ensures !ok ==> history == old(history)
    {
      ok, revision := history != [] && history[|history| - 1].revision == expected, 0;
      if ok {
        revision := Append(Some(value), OwnSwap);
      }
    }
  }

  /** Reads the key, giving it the value `null` first if it has none.  `op` numbers the operations of
      the call: what the others do before operation `i` is `env(i)`, and `faults(i)` makes it fail. */
  method GetKeyState(store: Store, env: nat -> seq<Write>, faults: nat -> bool)
    returns (state: Option<(nat, Json)>, op: nat)
    requires store.Valid()
    modifies store
    ensures store.Valid() && Grows(old(store.history), store.history)
    ensures state.Some? ==> Live(store.history)
    ensures state.Some? ==>
      SeenAt(store.history, state.value.0, state.value.1, |old(store.history)|, |store.history| - 1)
    ensures Benign(env, faults) ==> state.Some?
    ensures Undisturbed(env, faults, 3) ==>
      && state.Some?
      && (Live(old(store.history)) ==> store.history == old(store.history))
      && (!Live(old(store.history)) ==> state.value.1 == "null" && |store.history| == |old(store.history)| + 1)
  {
    hide NoSwap, Increasing;
    store.Interfere(env(0));
    if faults(0) {
      return None, 1;
    }
    state := store.Get();
    op := 1;
    if state.None? {
      ghost var h0 := store.history;
      store.Interfere(env(1));
      ghost var h1 := store.history;
      GrowsTransitive(old(store.history), h0, h1);
      if !faults(1) {
        var _ := store.Create("null");
      }
      ghost var h2 := store.history;
      GrowsTransitive(old(store.history), h1, h2);
      store.Interfere(env(2));
      GrowsTransitive(old(store.history), h2, store.history);
      op := 3;
      if faults(2) {
        return None, op;
      }
      state := store.Get();
    }
  }

  datatype Attempt = Won(revision: nat) | Moved(revision: nat, value: Json) | Lost

  predicate LastIs(history: seq<Version>, revision: nat, value: Json) {
    && history != []
    && history[|history| - 1].revision == revision
    && history[|history| - 1].value == Some(value)
  }

  /** One round of the retry loop: try the update, and find out what the key is now if it failed. */
  method Try(store: Store, desired: Json, revision: nat, ghost value: Json,
             env: nat -> seq<Write>, faults: nat -> bool, op: nat)
    returns (attempt: Attempt)
    requires store.Valid() && LastIs(store.history, revision, value)
    modifies store
    ensures store.Valid()
    ensures !attempt.Won? ==> Grows(old(store.history), store.history)
    ensures attempt.Won? ==> exists h ::
      && Grows(old(store.history), h) && LastIs(h, revision, value)
      && store.history == h + [Version(attempt.revision, Some(desired), OwnSwap)]
    ensures attempt.Moved? ==> LastIs(store.history, attempt.revision, attempt.value)
    ensures attempt.Moved? ==> attempt.revision != revision && |old(store.history)| < |store.history|
    ensures Benign(env, faults) ==> !attempt.Lost?
  {
    hide NoSwap, Increasing;
    ghost var h0 := store.history;
    store.Interfere(env(op));
    ghost var h1 := store.history;
    assert h1[|h0| - 1] == h0[|h0| - 1];
    if !faults(op) {
      var ok, rev := store.Update(desired, revision);
      if ok {
        SameRevision(h1, |h0| - 1, |h1| - 1);
        assert Grows(h0, h1) && LastIs(h1, revision, value);
        return Won(rev);
      }
    }
    store.Interfere(env(op + 1));
    GrowsTransitive(h0, h1, store.history);
    assert store.history[|h0| - 1] == h0[|h0| - 1];
    if faults(op + 1) {
      return Lost;
    }
    var got := store.Get();
    if got.None? || got.value.0 == revision {
      if got.Some? {
        SameRevision(store.history, |h0| - 1, |store.history| - 1);
      }
      return Lost;
    }
    return Moved(got.value.0, got.value.1);
  }

  lemma WonIsSwap(
    before: seq<Version>, h0: seq<Version>, h: seq<Version>, after: seq<Version>,
    matches: (Json, Json) -> bool, expected: Json, desired: Json, revision: nat, value: Json, rev: nat)
    requires Grows(before, h0) && Grows(h0, h) && LastIs(h, revision, value) && matches(value, expected)
    requires after == h + [Version(rev, Some(desired), OwnSwap)]
    ensures Extends(before, after) && SwapAt(after, matches, expected, desired, |before|, |h|)
  {
  }

  /** The endpoint.  A success took effect at one instant of the call: there the stored value matched
      and was replaced.  A mismatch reports a version that was current during the call, did not match,
      and was not touched.  There are at most 17 updates; when nothing fails by itself and nobody
      purges the key, giving up means that 17 other writes came in between. */
  method CompareAndSwap(
    store: Store, matches: (Json, Json) -> bool, expected: Json, desired: Json,
    env: nat -> seq<Write>, faults: nat -> bool)
    returns (res: CasResult, updates: nat, ghost at: nat)
    requires store.Valid()
    modifies store
    ensures store.Valid() && Extends(old(store.history), store.history)
    ensures CreatesNull(store.history, |old(store.history)|)
    ensures updates <= 17
    ensures res.Swapped? ==> SwapAt(store.history, matches, expected, desired, |old(store.history)|, at)
    ensures res.Swapped? ==> res == Swapped(store.history[at].revision, desired)
    ensures !res.Swapped? ==> NoSwap(store.history, |old(store.history)|)
    ensures res.Mismatch? ==> SeenAt(store.history, res.revision, res.value, |old(store.history)|, at)
    ensures res.Mismatch? ==> !matches(res.value, expected)
    ensures res.Failed? && Benign(env, faults) ==> updates == 17
    ensures res.Failed? && Benign(env, faults) ==> |store.history| >= |old(store.history)| + 17
  {
    ghost var before := store.history;
    var state, op := GetKeyState(store, env, faults);
    updates, at := 0, 0;
    if state.None? {
      return Failed, updates, at;
    }
    var revision, value := state.value.0, state.value.1;
    var step := 0;
    while true
      invariant store.Valid() && Grows(before, store.history)
      invariant LastIs(store.history, revision, value)
      invariant updates == step <= MAX_RETRIES
      invariant |before| + step <= |store.history|
      decreases MAX_RETRIES - step
    {
      if !matches(value, expected) {
        return Mismatch(revision, value), updates, |store.history| - 1;
      }
      ghost var h0 := store.history;
      var attempt := Try(store, desired, revision, value, env, faults, op);
      updates, op := updates + 1, op + 2;
      if attempt.Won? {
        ghost var h :| Grows(h0, h) && LastIs(h, revision, value)
                       && store.history == h + [Version(attempt.revision, Some(desired), OwnSwap)];
        WonIsSwap(before, h0, h, store.history, matches, expected, desired, revision, value, attempt.revision);
        return Swapped(attempt.revision, desired), updates, |h|;
      }
      GrowsTransitive(before, h0, store.history);
      if step < MAX_RETRIES && attempt.Moved? {
        revision, value, step := attempt.revision, attempt.value, step + 1;
      } else {
        return Failed, updates, at;
      }
    }
  }
}
