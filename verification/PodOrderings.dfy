/**
 The comparators that pick pods for deletion and for logs and that order
 replica sets, as their branches are written, and their reading as dictionary
 orders of a rank.
 */
module PodOrderings {
  import opened Orders

  /** A timestamp; the zero time is 0. */
  type Time = int

  datatype PodPhase = PodPending | PodRunning | PodSucceeded | PodFailed | PodUnknown | PodNoSchedule

  datatype Condition = Condition(isReady: bool, isTrue: bool, lastTransition: Time)

  datatype Pod = Pod(nodeName: string, phase: PodPhase, conditions: seq<Condition>, restartCounts: seq<int>,
                     created: Time)

  /** afterOrZero: the zero time counts as later than every other. */
  predicate AfterOrZero(t1: Time, t2: Time) {
    if t1 == 0 || t2 == 0 then t1 == 0 else t1 > t2
  }

  /** The index of the first ready condition, or the number of conditions. */
  function ReadyIndex(cs: seq<Condition>): (i: nat)
    ensures i <= |cs|
    ensures i < |cs| ==> cs[i].isReady
    ensures forall j :: 0 <= j < i ==> !cs[j].isReady
  {
    if cs == [] || cs[0].isReady then 0 else 1 + ReadyIndex(cs[1..])
  }

  /** IsPodReady looks at the first ready condition only. */
  predicate IsPodReady(p: Pod) {
    var i := ReadyIndex(p.conditions);
    i < |p.conditions| && p.conditions[i].isTrue
  }

  function ReadyTime(p: Pod): Time {
    if IsPodReady(p) then p.conditions[ReadyIndex(p.conditions)].lastTransition else 0
  }

  /** podReadyTime searches for the first condition that is ready and true; for
      a ready pod that is the first ready condition. */
  method PodReadyTime(p: Pod) returns (t: Time)
    ensures t == ReadyTime(p)
    ensures !IsPodReady(p) ==> t == 0
    ensures IsPodReady(p) ==>
      exists i :: 0 <= i < |p.conditions| && p.conditions[i].isReady && p.conditions[i].lastTransition == t &&
        forall j :: 0 <= j < i ==> !p.conditions[j].isReady
  {
    if IsPodReady(p) {
      for i := 0 to |p.conditions|
        invariant forall j :: 0 <= j < i ==> !(p.conditions[j].isReady && p.conditions[j].isTrue)
      {
        if p.conditions[i].isReady && p.conditions[i].isTrue {
          return p.conditions[i].lastTransition;
        }
      }
    }
    t := 0;
  }

  function MaxRestarts(cs: seq<int>): (m: int)
    ensures m >= 0 && (m == 0 || m in cs)
    ensures forall i :: 0 <= i < |cs| ==> cs[i] <= m
  {
    if cs == [] then 0
    else
      var m := MaxRestarts(cs[..|cs| - 1]);
      if m < cs[|cs| - 1] then cs[|cs| - 1] else m
  }

  method MaxContainerRestarts(p: Pod) returns (m: int)
    ensures m == MaxRestarts(p.restartCounts)
  {
    m := 0;
    for i := 0 to |p.restartCounts|
      invariant m == MaxRestarts(p.restartCounts[..i])
    {
      assert p.restartCounts[..i + 1][..i] == p.restartCounts[..i];
      m := if m < p.restartCounts[i] then p.restartCounts[i] else m;
    }
    assert p.restartCounts[..|p.restartCounts|] == p.restartCounts;
  }

  /** A phase missing from the map counts as 0. */
  function ActivePhase(ph: PodPhase): int {
    match ph case PodPending => 0 case PodUnknown => 1 case PodRunning => 2 case _ => 0
  }

  function LoggingPhase(ph: PodPhase): int {
    match ph case PodRunning => 0 case PodUnknown => 1 case PodPending => 2 case _ => 0
  }

  /** ActivePods.Less */
  predicate ActiveLess(a: Pod, b: Pod) {
    if a.nodeName != b.nodeName && (|a.nodeName| == 0 || |b.nodeName| == 0) then |a.nodeName| == 0
    else if ActivePhase(a.phase) != ActivePhase(b.phase) then ActivePhase(a.phase) < ActivePhase(b.phase)
    else if IsPodReady(a) != IsPodReady(b) then !IsPodReady(a)
    else if IsPodReady(a) && IsPodReady(b) && ReadyTime(a) != ReadyTime(b) then AfterOrZero(ReadyTime(a), ReadyTime(b))
    else if MaxRestarts(a.restartCounts) != MaxRestarts(b.restartCounts) then
      MaxRestarts(a.restartCounts) > MaxRestarts(b.restartCounts)
    else if a.created != b.created then AfterOrZero(a.created, b.created)
    else false
  }

  /** ByLogging.Less */
  predicate LoggingLess(a: Pod, b: Pod) {
    if a.nodeName != b.nodeName && (|a.nodeName| == 0 || |b.nodeName| == 0) then |a.nodeName| > 0
    else if LoggingPhase(a.phase) != LoggingPhase(b.phase) then LoggingPhase(a.phase) < LoggingPhase(b.phase)
    else if IsPodReady(a) != IsPodReady(b) then IsPodReady(a)
    else if IsPodReady(a) && IsPodReady(b) && ReadyTime(a) != ReadyTime(b) then AfterOrZero(ReadyTime(b), ReadyTime(a))
    else if MaxRestarts(a.restartCounts) != MaxRestarts(b.restartCounts) then
      MaxRestarts(a.restartCounts) > MaxRestarts(b.restartCounts)
    else if a.created != b.created then AfterOrZero(b.created, a.created)
    else false
  }

  function Bit(b: bool): int { if b then 1 else 0 }

  /** Zero times first, then newest to oldest. */
  function NewestFirst(t: Time): seq<int> {
    if t == 0 then [0, 0] else [1, -t]
  }

  /** Oldest to newest, then the zero time. */
  function OldestFirst(t: Time): seq<int> {
    if t == 0 then [1, 0] else [0, t]
  }

  function ActiveRank(p: Pod): seq<int> {
    [Bit(p.nodeName != ""), ActivePhase(p.phase), Bit(IsPodReady(p))] + NewestFirst(ReadyTime(p))
    + [-MaxRestarts(p.restartCounts)] + NewestFirst(p.created)
  }

  function LoggingRank(p: Pod): seq<int> {
    [Bit(p.nodeName == ""), LoggingPhase(p.phase), Bit(!IsPodReady(p))] + OldestFirst(ReadyTime(p))
    + [-MaxRestarts(p.restartCounts)] + OldestFirst(p.created)
  }

  /** Comparing sequences of eight: the first difference decides. */
  lemma Lex8(a: seq<int>, b: seq<int>)
    requires |a| == |b| == 8
    ensures LexLess(a, b) <==>
      if a[0] != b[0] then a[0] < b[0] else if a[1] != b[1] then a[1] < b[1]
      else if a[2] != b[2] then a[2] < b[2] else if a[3] != b[3] then a[3] < b[3]
      else if a[4] != b[4] then a[4] < b[4] else if a[5] != b[5] then a[5] < b[5]
      else if a[6] != b[6] then a[6] < b[6] else a[7] < b[7]
  {
    var a2, b2 := a[1..][1..], b[1..][1..];
    var a4, b4 := a2[1..][1..], b2[1..][1..];
    var a6, b6 := a4[1..][1..], b4[1..][1..];
    assert a[1..][0] == a[1] && a2[0] == a[2] && a2[1..][0] == a[3] && a4[0] == a[4] && a4[1..][0] == a[5];
    assert b[1..][0] == b[1] && b2[0] == b[2] && b2[1..][0] == b[3] && b4[0] == b[4] && b4[1..][0] == b[5];
    assert a6[0] == a[6] && a6[1..][0] == a[7] && b6[0] == b[6] && b6[1..][0] == b[7];
    assert a6[1..][1..] == [] && b6[1..][1..] == [];
    assert LexLess(a6[1..], b6[1..]) <==> a[7] < b[7];
    assert LexLess(a4[1..], b4[1..]) <==> if a[5] != b[5] then a[5] < b[5] else LexLess(a6, b6);
    assert LexLess(a2[1..], b2[1..]) <==> if a[3] != b[3] then a[3] < b[3] else LexLess(a4, b4);
    assert LexLess(a[1..], b[1..]) <==> if a[1] != b[1] then a[1] < b[1] else LexLess(a2, b2);
  }

  lemma ActiveLessIsRanked(a: Pod, b: Pod)
    ensures ActiveLess(a, b) == LexLess(ActiveRank(a), ActiveRank(b))
  {
    Lex8(ActiveRank(a), ActiveRank(b));
  }

  lemma LoggingLessIsRanked(a: Pod, b: Pod)
    ensures LoggingLess(a, b) == LexLess(LoggingRank(a), LoggingRank(b))
  {
    Lex8(LoggingRank(a), LoggingRank(b));
  }

  /** For all pods, with zero times, unlisted phases and mixed readiness. */
  lemma ActiveLessIsStrictWeak()
    ensures StrictWeakOrder(ActiveLess)
    ensures forall a, b :: Tied(ActiveLess, a, b) <==> ActiveRank(a) == ActiveRank(b)
  {
    forall a, b ensures ActiveLess(a, b) == LexLess(ActiveRank(a), ActiveRank(b)) { ActiveLessIsRanked(a, b); }
    RankedIsStrictWeak(ActiveLess, ActiveRank);
  }

  lemma LoggingLessIsStrictWeak()
    ensures StrictWeakOrder(LoggingLess)
    ensures forall a, b :: Tied(LoggingLess, a, b) <==> LoggingRank(a) == LoggingRank(b)
  {
    forall a, b ensures LoggingLess(a, b) == LexLess(LoggingRank(a), LoggingRank(b)) { LoggingLessIsRanked(a, b); }
    RankedIsStrictWeak(LoggingLess, LoggingRank);
  }

  /** A pod is ready exactly when its first ready condition is true. */
  lemma ReadyIff(p: Pod)
    ensures IsPodReady(p) <==>
      exists i :: 0 <= i < |p.conditions| && p.conditions[i].isReady && p.conditions[i].isTrue &&
        forall j :: 0 <= j < i ==> !p.conditions[j].isReady
  {
  }

  predicate SamePlacement(a: Pod, b: Pod) {
    a.nodeName == "" <==> b.nodeName == ""
  }

  /** The phases decide before everything but the placement: pending, unknown and
      running in this order for deletion and in the reverse one for logs. Other
      phases are not listed and count like pending for deletion, like running for logs. */
  lemma PhasesDecide(a: Pod, b: Pod)
    requires SamePlacement(a, b)
    ensures a.phase == PodRunning && b.phase != PodRunning ==> !ActiveLess(a, b) && ActiveLess(b, a)
    ensures a.phase == PodUnknown && b.phase !in {PodUnknown, PodRunning} ==> !ActiveLess(a, b) && ActiveLess(b, a)
    ensures a.phase == PodPending && b.phase != PodPending ==> LoggingLess(b, a) && !LoggingLess(a, b)
    ensures a.phase == PodUnknown && b.phase !in {PodUnknown, PodPending} ==> LoggingLess(b, a) && !LoggingLess(a, b)
  {
  }

  /** Unlisted phases tie with the phase that counts as zero. */
  lemma UnlistedPhasesTie(a: Pod, ph: PodPhase)
    requires ph in {PodSucceeded, PodFailed, PodNoSchedule}
    ensures Tied(ActiveLess, a.(phase := ph), a.(phase := PodPending))
    ensures Tied(LoggingLess, a.(phase := ph), a.(phase := PodRunning))
  {
  }

  // ---------------------------------------------------------- replica sets

  datatype ReplicaSet = ReplicaSet(name: string, replicas: int, created: Time)

  /** ReplicaSetsByCreationTimestamp.Less */
  predicate CreationLess(a: ReplicaSet, b: ReplicaSet) {
    if a.created == b.created then StringLess(a.name, b.name) else a.created < b.created
  }

  predicate SizeOlderLess(a: ReplicaSet, b: ReplicaSet) {
    if a.replicas == b.replicas then CreationLess(a, b) else a.replicas > b.replicas
  }

  predicate SizeNewerLess(a: ReplicaSet, b: ReplicaSet) {
    if a.replicas == b.replicas then CreationLess(b, a) else a.replicas > b.replicas
  }

  predicate SameForSorting(a: ReplicaSet, b: ReplicaSet) {
    a.name == b.name && a.replicas == b.replicas && a.created == b.created
  }

  /** Older first, then by name. */
  function CreationRank(a: ReplicaSet): seq<int> {
    [a.created] + Codes(a.name)
  }

  /** Larger first, then older first, then by name. */
  function SizeOlderRank(a: ReplicaSet): seq<int> {
    [-a.replicas] + CreationRank(a)
  }

  lemma CreationLessIsRanked(a: ReplicaSet, b: ReplicaSet)
    ensures CreationLess(a, b) == LexLess(CreationRank(a), CreationRank(b))
  {
    assert CreationRank(a)[1..] == Codes(a.name) && CreationRank(b)[1..] == Codes(b.name);
  }

  lemma SizeOlderIsRanked(a: ReplicaSet, b: ReplicaSet)
    ensures SizeOlderLess(a, b) == LexLess(SizeOlderRank(a), SizeOlderRank(b))
  {
    CreationLessIsRanked(a, b);
    assert SizeOlderRank(a)[1..] == CreationRank(a) && SizeOlderRank(b)[1..] == CreationRank(b);
  }

  /** By size and newness: larger first, and among equal sizes the reverse of the order by age. */
  lemma SizeNewerReversesAge(a: ReplicaSet, b: ReplicaSet)
    ensures SizeNewerLess(a, b) <==>
      if a.replicas == b.replicas then LexLess(CreationRank(b), CreationRank(a))
      else LexLess(SizeOlderRank(a), SizeOlderRank(b))
  {
    CreationLessIsRanked(b, a);
    SizeOlderIsRanked(a, b);
  }

  lemma NamesTransitive(a: string, b: string, c: string)
    ensures StringLess(a, b) && StringLess(b, c) ==> StringLess(a, c)
  {
    if StringLess(a, b) && StringLess(b, c) { StringTransitive(a, b, c); }
  }

  lemma CreationLessIsStrictWeak()
    ensures StrictWeakOrder(CreationLess)
    ensures forall a, b :: Tied(CreationLess, a, b) <==> a.created == b.created && a.name == b.name
  {
    forall a: ReplicaSet, b: ReplicaSet
      ensures !CreationLess(a, a)
      ensures Tied(CreationLess, a, b) <==> a.created == b.created && a.name == b.name
    {
      StringOrder(a.name, b.name);
    }
    forall a: ReplicaSet, b: ReplicaSet, c: ReplicaSet | CreationLess(a, b) && CreationLess(b, c)
      ensures CreationLess(a, c)
    {
      NamesTransitive(a.name, b.name, c.name);
    }
  }

  /** The comparators by size are strict weak orders in which only sets with the
      same size, time and name tie, so sorting has one result. */
  lemma SizeOlderIsStrictWeak()
    ensures StrictWeakOrder(SizeOlderLess)
    ensures forall a, b :: Tied(SizeOlderLess, a, b) <==> SameForSorting(a, b)
  {
    CreationLessIsStrictWeak();
    forall a: ReplicaSet, b: ReplicaSet ensures Tied(SizeOlderLess, a, b) <==> SameForSorting(a, b) {
      assert Tied(CreationLess, a, b) <==> a.created == b.created && a.name == b.name;
    }
    assert Transitive(SizeOlderLess) by { assert Transitive(CreationLess); }
  }

  lemma SizeNewerIsStrictWeak()
    ensures StrictWeakOrder(SizeNewerLess)
    ensures forall a, b :: Tied(SizeNewerLess, a, b) <==> SameForSorting(a, b)
  {
    CreationLessIsStrictWeak();
    forall a: ReplicaSet, b: ReplicaSet ensures Tied(SizeNewerLess, a, b) <==> SameForSorting(a, b) {
      assert Tied(CreationLess, a, b) <==> a.created == b.created && a.name == b.name;
    }
    assert Transitive(SizeNewerLess) by { assert Transitive(CreationLess); }
  }
}
