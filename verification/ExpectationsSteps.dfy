/**
 The expectations under concurrency. The UID tracking operations hold a lock,
 but they touch the two stores one after the other, and operations of the
 embedded expectations do not take that lock: they may come in between. A
 counter object may even be replaced after an operation has looked it up, and
 before it is lowered.
 */
module ExpectationsSteps {
  import opened Wrappers
  import opened Expectations

  /** A counter object; it belongs to one key for good. */
  datatype Object = Object(key: Key, counters: Counters)

  /** Where the holder of uidStoreLock is. */
  datatype Section =
    | Unlocked
    | Expecting(key: Key, count: nat, now: int)
    | LookedUp(key: Key, uid: UID, target: Option<nat>)
    | Lowered(key: Key, uid: UID)
    | Deleting(key: Key)

  datatype State = State(objects: seq<Object>, store: map<Key, nat>, uids: map<Key, set<UID>>, section: Section)

  const INITIAL := State([], map[], map[], Unlocked)

  datatype Step =
    | StoreUIDs(key: Key, deleted: seq<UID>, now: int)
    | StoreCounters
    | LookUp(key: Key, uid: UID)
    | LowerDel
    | RemoveUID
    | DropCounters(key: Key)
    | DropUIDs
    | ReplaceCounters(key: Key, adds: int, now: int)
    | LowerAdd(target: nat)

  predicate Enabled(s: State, step: Step) {
    match step
    case StoreUIDs(_, _, _) => s.section.Unlocked?
    case StoreCounters => s.section.Expecting?
    case LookUp(k, u) => s.section.Unlocked? && k in s.uids && u in s.uids[k]
    case LowerDel => s.section.LookedUp? && (s.section.target.Some? ==> s.section.target.value < |s.objects|)
    case RemoveUID => s.section.Lowered? && s.section.key in s.uids
    case DropCounters(_) => s.section.Unlocked?
    case DropUIDs => s.section.Deleting?
    case ReplaceCounters(_, _, _) => true
    case LowerAdd(i) => i < |s.objects|
  }

  function SetCounters(s: State, k: Key, c: Counters): State {
    s.(objects := s.objects + [Object(k, c)], store := s.store[k := |s.objects|])
  }

  function AddTo(s: State, i: nat, add: int, del: int): State
    requires i < |s.objects|
  {
    var c := s.objects[i].counters;
    s.(objects := s.objects[i := s.objects[i].(counters := c.(add := c.add + add, del := c.del + del))])
  }

  function Next(s: State, step: Step): State
    requires Enabled(s, step)
  {
    match step
    case StoreUIDs(k, deleted, now) =>
      s.(uids := s.uids[k := Elements(deleted)], section := Expecting(k, |Elements(deleted)|, now))
    case StoreCounters =>
      SetCounters(s, s.section.key, Counters(0, s.section.count, s.section.now)).(section := Unlocked)
    case LookUp(k, u) => s.(section := LookedUp(k, u, if k in s.store then Some(s.store[k]) else None))
    case LowerDel =>
      var t := if s.section.target.Some? then AddTo(s, s.section.target.value, 0, -1) else s;
      t.(section := Lowered(s.section.key, s.section.uid))
    case RemoveUID =>
      var k := s.section.key;
      s.(uids := s.uids[k := s.uids[k] - {s.section.uid}], section := Unlocked)
    case DropCounters(k) => s.(store := s.store - {k}, section := Deleting(k))
    case DropUIDs => s.(uids := s.uids - {s.section.key}, section := Unlocked)
    case ReplaceCounters(k, adds, now) => SetCounters(s, k, Counters(adds, 0, now))
    case LowerAdd(i) => AddTo(s, i, -1, 0)
  }

  predicate Runs(s: State, steps: seq<Step>)
    decreases |steps|
  {
    steps == [] || (Enabled(s, steps[0]) && Runs(Next(s, steps[0]), steps[1..]))
  }

  function Exec(s: State, steps: seq<Step>): State
    requires Runs(s, steps)
    decreases |steps|
  {
    if steps == [] then s else Exec(Next(s, steps[0]), steps[1..])
  }

  // ------------------------------------------------------------- the bound

  ghost predicate Owned(s: State) {
    && (forall k :: k in s.store ==> s.store[k] < |s.objects| && s.objects[s.store[k]].key == k)
    && (s.section.LookedUp? && s.section.target.Some? ==>
          s.section.target.value < |s.objects| && s.objects[s.section.target.value].key == s.section.key)
  }

  function Del(s: State, k: Key): int
    requires k in s.store && s.store[k] < |s.objects|
  {
    s.objects[s.store[k]].counters.del
  }

  function Awaited(s: State, k: Key): set<UID> {
    Get(s.uids, k, {})
  }

  /** The bound on a key's deletion counter, at every point of the critical sections. */
  ghost predicate Bound(s: State, k: Key)
    requires k in s.store && s.store[k] < |s.objects|
  {
    if s.section.Unlocked? || s.section.key != k then Del(s, k) <= |Awaited(s, k)|
    else
      match s.section
      case Expecting(_, _, _) => true
      case LookedUp(_, u, o) =>
        u in Awaited(s, k) && Del(s, k) <= |Awaited(s, k)| - if o == Some(s.store[k]) then 0 else 1
      case Lowered(_, u) => u in Awaited(s, k) && Del(s, k) <= |Awaited(s, k)| - 1
      case Deleting(_) => Del(s, k) <= 0
  }

  ghost predicate Inv(s: State) {
    && Owned(s)
    && (s.section.LookedUp? || s.section.Lowered? ==> s.section.uid in Awaited(s, s.section.key))
    && (s.section.Expecting? ==> s.section.count == |Awaited(s, s.section.key)|)
    && forall k :: k in s.store ==> Bound(s, k)
  }

  lemma NextKeepsInv(s: State, step: Step)
    requires Inv(s) && Enabled(s, step)
    ensures Inv(Next(s, step))
  {
    var t := Next(s, step);
    assert Owned(t);
    forall k | k in t.store ensures Bound(t, k) {
      NextKeepsBound(s, step, k);
    }
  }

  lemma NextKeepsBound(s: State, step: Step, k: Key)
    requires Inv(s) && Enabled(s, step) && Owned(Next(s, step)) && k in Next(s, step).store
    ensures Bound(Next(s, step), k)
  {
    if k in s.store { assert Bound(s, k); }
  }

  /** Over every interleaving: whenever the lock is free, a controller that still
      waits for deletions has that many UIDs outstanding. */
  lemma {:induction false} WaitingIsJustified(s: State, steps: seq<Step>)
    requires Inv(s) && Runs(s, steps)
    ensures var t := Exec(s, steps);
      && Inv(t)
      && (t.section.Unlocked? ==>
            forall k :: k in t.store ==> t.store[k] < |t.objects| && Del(t, k) <= |Awaited(t, k)|)
    decreases |steps|
  {
    if steps == [] {
      forall k | s.section.Unlocked? && k in s.store ensures s.store[k] < |s.objects| && Del(s, k) <= |Awaited(s, k)| {
        assert Bound(s, k);
      }
    } else {
      NextKeepsInv(s, steps[0]);
      WaitingIsJustified(Next(s, steps[0]), steps[1..]);
    }
  }

  // ------------------------------------------------------- deletions only

  /** Without creation expectations: how far the stores agree on a key, at every point of the critical sections. */
  ghost predicate Exact(s: State, k: Key) {
    if s.section.Unlocked? || s.section.key != k then
      (k in s.store <==> k in s.uids) && (k in s.store ==> s.store[k] < |s.objects| && Del(s, k) == |Awaited(s, k)|)
    else
      match s.section
      case Expecting(_, n, _) => k in s.uids && n == |s.uids[k]|
      case LookedUp(_, u, o) =>
        k in s.store && k in s.uids && o == Some(s.store[k]) && s.store[k] < |s.objects| && Del(s, k) == |s.uids[k]|
      case Lowered(_, u) =>
        k in s.store && k in s.uids && s.store[k] < |s.objects| && Del(s, k) == |s.uids[k]| - 1
      case Deleting(_) => k !in s.store
  }

  lemma NextKeepsExact(s: State, step: Step, k: Key)
    requires Inv(s) && Enabled(s, step) && !step.ReplaceCounters? && Exact(s, k)
    ensures Exact(Next(s, step), k)
  {
  }

  /** Over every interleaving of deletion operations and observed creations:
      whenever the lock is free, the stores have the same keys and the counter
      is the number of outstanding UIDs. */
  lemma {:induction false} DeletionsAgreeWhenUnlocked(s: State, steps: seq<Step>)
    requires Inv(s) && (forall k :: Exact(s, k)) && Runs(s, steps)
    requires forall i :: 0 <= i < |steps| ==> !steps[i].ReplaceCounters?
    ensures var t := Exec(s, steps);
      t.section.Unlocked? ==>
        && t.store.Keys == t.uids.Keys
        && forall k :: k in t.store ==> t.store[k] < |t.objects| && Del(t, k) == |t.uids[k]|
    decreases |steps|
  {
    if steps == [] {
      if s.section.Unlocked? {
        forall k ensures k in s.store <==> k in s.uids { assert Exact(s, k); }
        forall k | k in s.store ensures s.store[k] < |s.objects| && Del(s, k) == |s.uids[k]| { assert Exact(s, k); }
      }
    } else {
      NextKeepsInv(s, steps[0]);
      forall k ensures Exact(Next(s, steps[0]), k) { NextKeepsExact(s, steps[0], k); }
      DeletionsAgreeWhenUnlocked(Next(s, steps[0]), steps[1..]);
    }
  }

  // -------------------------------------------------- Fulfilled's two loads

  ghost predicate FulfilledIn(s: State, i: nat)
    requires i < |s.objects|
  {
    s.objects[i].counters.Fulfilled()
  }

  /** The counters of an object never rise, whichever operations run. */
  lemma {:induction false} CountersFall(s: State, steps: seq<Step>, i: nat)
    requires Runs(s, steps) && i < |s.objects|
    ensures var t := Exec(s, steps);
      && i < |t.objects|
      && t.objects[i].counters.add <= s.objects[i].counters.add
      && t.objects[i].counters.del <= s.objects[i].counters.del
    decreases |steps|
  {
    if steps != [] {
      StepLowers(s, steps[0], i);
      CountersFall(Next(s, steps[0]), steps[1..], i);
    }
  }

  lemma StepLowers(s: State, step: Step, i: nat)
    requires Enabled(s, step) && i < |s.objects|
    ensures var t := Next(s, step);
      && i < |t.objects|
      && t.objects[i].counters.add <= s.objects[i].counters.add
      && t.objects[i].counters.del <= s.objects[i].counters.del
  {
  }

  /** The answer to the TODO: Fulfilled loads `add` in one state and, only if that
      is not positive, `del` in a later one. Over every interleaving in between, a
      "true" still holds at the second load, and a "false" is that of one of the
      two moments. */
  lemma FulfilledIsOfOneMoment(s: State, steps: seq<Step>, i: nat)
    requires Runs(s, steps) && i < |s.objects|
    ensures var t := Exec(s, steps);
      && i < |t.objects|
      && var answer := s.objects[i].counters.add <= 0 && t.objects[i].counters.del <= 0;
         if answer then FulfilledIn(t, i)
         else if s.objects[i].counters.add > 0 then !FulfilledIn(s, i) else !FulfilledIn(t, i)
  {
    CountersFall(s, steps, i);
  }

  // ------------------------------------------------------ creations counted

  function Observed(steps: seq<Step>, i: nat): nat {
    if steps == [] then 0 else (if steps[0] == LowerAdd(i) then 1 else 0) + Observed(steps[1..], i)
  }

  lemma {:induction false} CreationsAreCounted(s: State, steps: seq<Step>, i: nat)
    requires Runs(s, steps) && i < |s.objects|
    ensures var t := Exec(s, steps);
      && i < |t.objects|
      && t.objects[i].counters.add == s.objects[i].counters.add - Observed(steps, i)
      && t.objects[i].counters.timestamp == s.objects[i].counters.timestamp
    decreases |steps|
  {
    if steps != [] {
      StepCounts(s, steps[0], i);
      CreationsAreCounted(Next(s, steps[0]), steps[1..], i);
    }
  }

  lemma StepCounts(s: State, step: Step, i: nat)
    requires Enabled(s, step) && i < |s.objects|
    ensures var t := Next(s, step);
      && i < |t.objects|
      && t.objects[i].counters.add == s.objects[i].counters.add - (if step == LowerAdd(i) then 1 else 0)
      && t.objects[i].counters.timestamp == s.objects[i].counters.timestamp
  {
  }

  ghost predicate Satisfied(s: State, k: Key, now: int)
    requires k in s.store ==> s.store[k] < |s.objects|
  {
    k in s.store ==>
      var c := s.objects[s.store[k]].counters; (c.add <= 0 && c.del <= 0) || now > c.timestamp + TIMEOUT
  }

  /** Over every interleaving: after ExpectCreations, as long as its counters have
      not been replaced or dropped, the controller is satisfied if and only if as
      many creations have been observed as are expected, or they are too old. */
  lemma CreationCountdownInRuns(s: State, k: Key, adds: int, time: int, steps: seq<Step>, now: int)
    requires Inv(s) && Runs(Next(s, ReplaceCounters(k, adds, time)), steps)
    requires var t := Exec(Next(s, ReplaceCounters(k, adds, time)), steps);
      k in t.store && t.store[k] == |s.objects|
    ensures var t := Exec(Next(s, ReplaceCounters(k, adds, time)), steps);
      && |s.objects| < |t.objects|
      && (Satisfied(t, k, now) <==> Observed(steps, |s.objects|) >= adds || now > time + TIMEOUT)
  {
    var r := Next(s, ReplaceCounters(k, adds, time));
    CreationsAreCounted(r, steps, |s.objects|);
    CountersFall(r, steps, |s.objects|);
  }

  /** No creations are awaited under any key. */
  ghost predicate NoneAwaited(s: State) {
    forall k :: k in s.store ==> s.store[k] < |s.objects| && s.objects[s.store[k]].counters.add <= 0
  }

  lemma NextKeepsNoneAwaited(s: State, step: Step)
    requires Inv(s) && NoneAwaited(s) && Enabled(s, step) && !step.ReplaceCounters?
    ensures NoneAwaited(Next(s, step))
  {
  }

  /** Over every interleaving of deletion operations and observed creations:
      whenever the lock is free, a controller is satisfied if and only if it has
      no UID outstanding, or its expectations are too old. */
  lemma {:induction false} DeletionCountdownInRuns(s: State, steps: seq<Step>, k: Key, now: int)
    requires Inv(s) && NoneAwaited(s) && (forall k :: Exact(s, k)) && Runs(s, steps)
    requires forall i :: 0 <= i < |steps| ==> !steps[i].ReplaceCounters?
    ensures var t := Exec(s, steps);
      t.section.Unlocked? ==>
        && (k in t.store ==> t.store[k] < |t.objects|)
        && (Satisfied(t, k, now) <==>
              Awaited(t, k) == {} || (k in t.store && now > t.objects[t.store[k]].counters.timestamp + TIMEOUT))
    decreases |steps|
  {
    if steps == [] {
      assert Exact(s, k);
    } else {
      NextKeepsInv(s, steps[0]);
      NextKeepsNoneAwaited(s, steps[0]);
      forall k ensures Exact(Next(s, steps[0]), k) { NextKeepsExact(s, steps[0], k); }
      DeletionCountdownInRuns(Next(s, steps[0]), steps[1..], k, now);
    }
  }
}
