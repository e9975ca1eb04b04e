/**
 Controller expectations: how many creations and deletions a controller still
 waits for, with the UIDs of the awaited deletions in a second store. The two
 stores are written by different operations and have to agree.

 The operations are functions on `Stores`; `ExpectationsImpl` ties them to the
 shared objects that the source changes in place.
 */
module Expectations {
  import opened Wrappers

  type Key = string
  type UID = string

  /** ExpectationsTimeout, in nanoseconds. */
  const TIMEOUT := 5 * 60 * 1_000_000_000

  datatype Counters = Counters(add: int, del: int, timestamp: int) {

    predicate Fulfilled() {
      add <= 0 && del <= 0
    }

    predicate Expired(now: int) {
      now - timestamp > TIMEOUT
    }
  }

  datatype Stores = Stores(counters: map<Key, Counters>, uids: map<Key, set<UID>>)

  const EMPTY := Stores(map[], map[])

  datatype Op =
    | ExpectDeletions(key: Key, deleted: seq<UID>, now: int)
    | DeletionObserved(key: Key, uid: UID)
    | DeleteExpectations(key: Key)
    | CreationObserved(key: Key)
    | ExpectCreations(key: Key, adds: int, now: int)
    | LowerExpectations(key: Key, add: int, del: int)

  function Elements(xs: seq<UID>): set<UID> {
    set x | x in xs
  }

  function Lower(s: Stores, k: Key, add: int, del: int): Stores {
    if k !in s.counters then s
    else
      var c := s.counters[k];
      s.(counters := s.counters[k := c.(add := c.add - add, del := c.del - del)])
  }

  function Apply(s: Stores, op: Op): Stores {
    match op
    case ExpectDeletions(k, deleted, now) =>
      Stores(s.counters[k := Counters(0, |Elements(deleted)|, now)], s.uids[k := Elements(deleted)])
    case DeletionObserved(k, u) =>
      if k in s.uids && u in s.uids[k] then
        var t := Lower(s, k, 0, 1);
        t.(uids := t.uids[k := t.uids[k] - {u}])
      else s
    case DeleteExpectations(k) => Stores(s.counters - {k}, s.uids - {k})
    case CreationObserved(k) => Lower(s, k, 1, 0)
    case ExpectCreations(k, adds, now) => s.(counters := s.counters[k := Counters(adds, 0, now)])
    case LowerExpectations(k, add, del) => Lower(s, k, add, del)
  }

  function Run(s: Stores, ops: seq<Op>): Stores
    decreases |ops|
  {
    if ops == [] then s else Run(Apply(s, ops[0]), ops[1..])
  }

  /** The awaited deletions of a controller. */
  function Outstanding(s: Stores, k: Key): set<UID> {
    Get(s.uids, k, {})
  }

  function Satisfied(s: Stores, k: Key, now: int): bool {
    k !in s.counters || s.counters[k].Fulfilled() || s.counters[k].Expired(now)
  }

  // ------------------------------------------------------ deletions only

  predicate DeletionOp(op: Op) {
    op.ExpectDeletions? || op.DeletionObserved? || op.DeleteExpectations? || op.CreationObserved?
  }

  /** The two stores agree: the same keys, and the counter is the number of outstanding UIDs. */
  ghost predicate Agree(s: Stores) {
    && s.counters.Keys == s.uids.Keys
    && forall k :: k in s.counters ==> s.counters[k].del == |s.uids[k]|
  }

  ghost predicate NoCreations(s: Stores) {
    forall k :: k in s.counters ==> s.counters[k].add <= 0
  }

  /** Whatever the order, repetition or origin of the deletions observed, the stores agree. */
  lemma {:induction false} DeletionsKeepAgreement(s: Stores, ops: seq<Op>)
    requires Agree(s) && forall i :: 0 <= i < |ops| ==> DeletionOp(ops[i])
    ensures Agree(Run(s, ops))
    ensures NoCreations(s) ==> NoCreations(Run(s, ops))
    decreases |ops|
  {
    if ops != [] {
      DeletionOpKeepsAgreement(s, ops[0]);
      DeletionsKeepAgreement(Apply(s, ops[0]), ops[1..]);
    }
  }

  lemma DeletionOpKeepsAgreement(s: Stores, op: Op)
    requires Agree(s) && DeletionOp(op)
    ensures Agree(Apply(s, op))
    ensures NoCreations(s) ==> NoCreations(Apply(s, op))
  {
  }

  /** The controller is woken exactly when no UID is outstanding or its expectations are too old. */
  lemma SatisfiedIffNothingOutstanding(ops: seq<Op>, k: Key, now: int)
    requires forall i :: 0 <= i < |ops| ==> DeletionOp(ops[i])
    ensures var s := Run(EMPTY, ops);
      Satisfied(s, k, now) <==>
        Outstanding(s, k) == {} || (k in s.counters && now > s.counters[k].timestamp + TIMEOUT)
  {
    DeletionsKeepAgreement(EMPTY, ops);
  }

  function Observe(k: Key, seen: seq<UID>): seq<Op> {
    seq(|seen|, i requires 0 <= i < |seen| => DeletionObserved(k, seen[i]))
  }

  /** After ExpectDeletions the counter is the number of distinct awaited UIDs
      not among the observed ones: duplicates and unknown UIDs do not count. */
  lemma {:induction false} CountdownIsExact(s: Stores, k: Key, deleted: seq<UID>, now: int, seen: seq<UID>)
    requires Agree(s)
    ensures var t := Run(Apply(s, ExpectDeletions(k, deleted, now)), Observe(k, seen));
      k in t.counters && t.counters[k] == Counters(0, |Elements(deleted) - Elements(seen)|, now)
  {
    var t := Apply(s, ExpectDeletions(k, deleted, now));
    DeletionOpKeepsAgreement(s, ExpectDeletions(k, deleted, now));
    ObserveRemoves(t, k, seen);
  }

  lemma ObserveOne(s: Stores, k: Key, x: UID)
    requires Agree(s) && k in s.uids
    ensures var t := Apply(s, DeletionObserved(k, x));
      && Agree(t) && k in t.uids && t.uids[k] == s.uids[k] - {x}
      && t.counters[k].add == s.counters[k].add && t.counters[k].timestamp == s.counters[k].timestamp
  {
  }

  lemma {:induction false} ObserveRemoves(s: Stores, k: Key, seen: seq<UID>)
    requires Agree(s) && k in s.uids
    ensures var t := Run(s, Observe(k, seen));
      && Agree(t) && k in t.uids && t.uids[k] == s.uids[k] - Elements(seen)
      && t.counters[k].add == s.counters[k].add && t.counters[k].timestamp == s.counters[k].timestamp
    decreases |seen|
  {
    if seen != [] {
      ObserveFirst(s, k, seen);
      ObserveOne(s, k, seen[0]);
      ObserveRemoves(Apply(s, DeletionObserved(k, seen[0])), k, seen[1..]);
    }
  }

  lemma ObserveFirst(s: Stores, k: Key, seen: seq<UID>)
    requires seen != []
    ensures Run(s, Observe(k, seen)) == Run(Apply(s, DeletionObserved(k, seen[0])), Observe(k, seen[1..]))
    ensures Elements(seen) == {seen[0]} + Elements(seen[1..])
  {
    assert Observe(k, seen)[1..] == Observe(k, seen[1..]);
  }

  // ---------------------------------------------------- creations mixed in

  predicate LoweringOp(op: Op) {
    op.LowerExpectations? ==> op.add >= 0 && op.del >= 0
  }

  ghost predicate Bounded(s: Stores) {
    && s.uids.Keys <= s.counters.Keys
    && forall k :: k in s.counters ==> s.counters[k].del <= |Outstanding(s, k)|
  }

  /** With creations in the mix the deletion counter may fall behind, but it
      never exceeds the number of outstanding UIDs. */
  lemma {:induction false} MixedOpsStayBounded(s: Stores, ops: seq<Op>)
    requires Bounded(s) && forall i :: 0 <= i < |ops| ==> LoweringOp(ops[i])
    ensures Bounded(Run(s, ops))
    decreases |ops|
  {
    if ops != [] {
      OpKeepsBounded(s, ops[0]);
      MixedOpsStayBounded(Apply(s, ops[0]), ops[1..]);
    }
  }

  lemma OpKeepsBounded(s: Stores, op: Op)
    requires Bounded(s) && LoweringOp(op)
    ensures Bounded(Apply(s, op))
  {
  }

  /** A creation expectation overwrites the deletion counter: the stores agree
      afterwards if and only if they had an entry with nothing outstanding. */
  lemma CreationsKeepAgreementIff(s: Stores, k: Key, adds: int, now: int)
    requires Agree(s)
    ensures Agree(Apply(s, ExpectCreations(k, adds, now))) <==> k in s.uids && s.uids[k] == {}
  {
    var t := Apply(s, ExpectCreations(k, adds, now));
    assert k in t.counters;
    if k in s.uids && s.uids[k] != {} { assert t.counters[k].del == 0 != |t.uids[k]|; }
  }

  /** The creations of a controller that the operations observe. */
  function Created(ops: seq<Op>, k: Key): nat {
    if ops == [] then 0 else (if ops[0] == CreationObserved(k) then 1 else 0) + Created(ops[1..], k)
  }

  /** The operation sets no new expectations for the controller. */
  predicate Observes(op: Op, k: Key) {
    op.key != k || op.CreationObserved? || op.DeletionObserved?
  }

  /** The creation countdown: after ExpectCreations and any observations the
      controller is satisfied if and only if as many creations have been observed
      as are expected, or the expectations are more than five minutes old. */
  lemma CreationCountdown(s: Stores, k: Key, adds: int, time: int, ops: seq<Op>, now: int)
    requires forall i :: 0 <= i < |ops| ==> Observes(ops[i], k)
    ensures var t := Run(Apply(s, ExpectCreations(k, adds, time)), ops);
      Satisfied(t, k, now) <==> Created(ops, k) >= adds || now > time + 300_000_000_000
  {
    ObservationsCount(Apply(s, ExpectCreations(k, adds, time)), k, ops);
  }

  lemma {:induction false} ObservationsCount(s: Stores, k: Key, ops: seq<Op>)
    requires k in s.counters && forall i :: 0 <= i < |ops| ==> Observes(ops[i], k)
    ensures var t := Run(s, ops);
      && k in t.counters && t.counters[k].add == s.counters[k].add - Created(ops, k)
      && t.counters[k].del <= s.counters[k].del && t.counters[k].timestamp == s.counters[k].timestamp
    decreases |ops|
  {
    if ops != [] {
      assert Observes(ops[0], k);
      ObservationsCount(Apply(s, ops[0]), k, ops[1..]);
    }
  }

  /** An operation touches the entries of its own key only. */
  lemma OpTouchesOneKey(s: Stores, op: Op, k: Key)
    requires op.key != k
    ensures var t := Apply(s, op);
      && (k in t.counters <==> k in s.counters) && (k in s.counters ==> t.counters[k] == s.counters[k])
      && (k in t.uids <==> k in s.uids) && (k in s.uids ==> t.uids[k] == s.uids[k])
  {
  }

  /** Deleted expectations are gone from both stores, and the controller is satisfied at once. */
  lemma DeletedIsGone(s: Stores, k: Key, now: int)
    ensures var t := Apply(s, DeleteExpectations(k));
      k !in t.counters && k !in t.uids && Satisfied(t, k, now) && Outstanding(t, k) == {}
  {
  }

  // ------------------------------------------------------ two atomic loads

  /** The values of one counter at consecutive moments. */
  type History = seq<int>

  predicate FulfilledAt(adds: History, dels: History, t: nat)
    requires t < |adds| == |dels|
  {
    adds[t] <= 0 && dels[t] <= 0
  }

  /** Fulfilled's answer when it loads `add` at moment t1 and, only if that is
      not positive, `del` at the later moment t2. */
  predicate LoadedFulfilled(adds: History, dels: History, t1: nat, t2: nat)
    requires t1 <= t2 < |adds| == |dels|
  {
    adds[t1] <= 0 && dels[t2] <= 0
  }

  ghost predicate Falling(h: History, from: nat, to: nat) {
    forall i, j :: from <= i <= j <= to < |h| ==> h[j] <= h[i]
  }

  /** If the counters are only lowered during the call [t0, t3], "true" holds at
      its return and "false" held at its start. */
  lemma FulfilledUnderLowering(adds: History, dels: History, t0: nat, t1: nat, t2: nat, t3: nat)
    requires t0 <= t1 <= t2 <= t3 < |adds| == |dels| && Falling(adds, t0, t3) && Falling(dels, t0, t3)
    ensures if LoadedFulfilled(adds, dels, t1, t2) then FulfilledAt(adds, dels, t3) else !FulfilledAt(adds, dels, t0)
  {
    assert adds[t3] <= adds[t1] <= adds[t0] && dels[t3] <= dels[t2] <= dels[t0];
  }

  /** The answer is that of one moment between the loads. */
  ghost predicate Linearizable(adds: History, dels: History, t1: nat, t2: nat)
    requires t1 <= t2 < |adds| == |dels|
  {
    exists t: nat :: t1 <= t <= t2 && FulfilledAt(adds, dels, t) == LoadedFulfilled(adds, dels, t1, t2)
  }

  /** For a given course of the creation counter the answer is that of one moment
      whatever the deletion counter does, if and only if the creation counter is
      not positive at the second load when it was not positive at the first. */
  lemma FulfilledIsLinearizableIff(adds: History, t1: nat, t2: nat)
    requires t1 <= t2 < |adds|
    ensures (forall dels: History :: |dels| == |adds| ==> Linearizable(adds, dels, t1, t2)) <==>
      (adds[t1] <= 0 ==> adds[t2] <= 0)
  {
    if adds[t1] <= 0 ==> adds[t2] <= 0 {
      forall dels: History | |dels| == |adds| ensures Linearizable(adds, dels, t1, t2) {
        var t := if adds[t1] <= 0 then t2 else t1;
        assert FulfilledAt(adds, dels, t) == LoadedFulfilled(adds, dels, t1, t2);
      }
    } else {
      var dels := FallsLate(adds, t1, t2);
    }
  }

  /** The deletion counter that breaks the answer: it falls to zero just for the second load. */
  lemma FallsLate(adds: History, t1: nat, t2: nat) returns (dels: History)
    requires t1 <= t2 < |adds| && adds[t1] <= 0 < adds[t2]
    ensures |dels| == |adds| && LoadedFulfilled(adds, dels, t1, t2) && !Linearizable(adds, dels, t1, t2)
  {
    dels := seq(|adds|, i => if i == t2 then 0 else 1);
  }

  /** In particular it is linearizable while creations are only observed. */
  lemma ObservingIsLinearizable(adds: History, dels: History, t1: nat, t2: nat)
    requires t1 <= t2 < |adds| == |dels| && Falling(adds, t1, t2)
    ensures Linearizable(adds, dels, t1, t2)
  {
    FulfilledIsLinearizableIff(adds, t1, t2);
    assert adds[t2] <= adds[t1];
  }
}
