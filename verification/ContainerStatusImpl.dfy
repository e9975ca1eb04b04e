/**
 convertToAPIContainerStatuses with its maps and in-place sorts, proved against
 the per-container meaning in `ContainerStatus`.
 */
module ContainerStatusImpl {
  import opened Wrappers
  import opened Orders
  import opened StableSort
  import opened ContainerStatus
  import PodPhase

  class PodStatus {
    var containerStatuses: seq<Record>

    constructor (containerStatuses: seq<Record>)
      ensures this.containerStatuses == containerStatuses
    {
      this.containerStatuses := containerStatuses;
    }
  }

  function ContainerName(c: Container): string { c.name }

  ghost predicate DistinctNames(containers: seq<Container>) {
    DistinctKeys(ContainerName, containers)
  }

  /** The library's sort promises no order among records of the same time. */
  method SortNewestFirst(rs: seq<Record>) returns (sorted: seq<Record>)
    ensures multiset(sorted) == multiset(rs) && NewestFirst(sorted)
  {
    SortIsStable(Later, CreatedAt, rs);
    sorted := Sort(Later, CreatedAt, rs);
  }

  method OldStatuses(previous: seq<Status>) returns (m: map<string, Status>)
    ensures forall n :: (n in m <==> OldOf(previous, n).Some?) && (n in m ==> OldOf(previous, n) == Some(m[n]))
  {
    m := map[];
    for i := 0 to |previous|
      invariant forall n :: n in m <==> OldOf(previous[..i], n).Some?
      invariant forall n :: n in m ==> OldOf(previous[..i], n) == Some(m[n])
    {
      assert previous[..i + 1][..i] == previous[..i];
      m := m[previous[i].name := previous[i]];
    }
    assert previous[..|previous|] == previous;
  }

  ghost predicate Holds(statuses: map<string, Status>, containers: seq<Container>, want: Container -> Status) {
    && (forall i :: 0 <= i < |containers| ==>
          containers[i].name in statuses && statuses[containers[i].name] == want(containers[i]))
    && (forall n :: n in statuses ==> exists i :: 0 <= i < |containers| && containers[i].name == n)
  }

  function Initially(previous: seq<Status>, hasInit: bool): Container -> Status {
    (c: Container) => Default(c, OldOf(previous, c.name), DefaultReason(hasInit))
  }

  function Merged(previous: seq<Status>, hasInit: bool, rs: seq<Record>): Container -> Status {
    (c: Container) => BeforeFailures(c, rs, previous, hasInit)
  }

  function Finally(pod: PodInfo, rs: seq<Record>, previous: seq<Status>,
                   hasInit: bool, isInit: bool): Container -> Status {
    (c: Container) => Final(c, pod, rs, previous, hasInit, isInit)
  }

  method Defaults(previous: seq<Status>, containers: seq<Container>, hasInit: bool)
    returns (statuses: map<string, Status>)
    requires DistinctNames(containers)
    ensures Holds(statuses, containers, Initially(previous, hasInit))
  {
    var oldStatuses := OldStatuses(previous);
    statuses := map[];
    ghost var want := Initially(previous, hasInit);
    for i := 0 to |containers|
      invariant Holds(statuses, containers[..i], want)
    {
      var c := containers[i];
      var status := Status(c.name, WaitingState(DefaultReason(hasInit), ""), NO_STATE, 0, c.image, "", "");
      if c.name in oldStatuses {
        var oldStatus := oldStatuses[c.name];
        if oldStatus.state.terminated.Some? {
          status := oldStatus;
        } else {
          status := status.(restartCount := oldStatus.restartCount);
          status := status.(lastTermination := oldStatus.lastTermination);
        }
      }
      assert status == want(c);
      HoldsExtended(statuses, containers, i, want);
      statuses := statuses[c.name := status];
    }
    assert containers[..|containers|] == containers;
  }

  lemma HoldsExtended(statuses: map<string, Status>, containers: seq<Container>, i: nat, want: Container -> Status)
    requires DistinctNames(containers) && i < |containers| && Holds(statuses, containers[..i], want)
    ensures Holds(statuses[containers[i].name := want(containers[i])], containers[..i + 1], want)
  {
    var m, cs, c := statuses[containers[i].name := want(containers[i])], containers[..i + 1], containers[i];
    forall k | 0 <= k < |cs| ensures cs[k].name in m && m[cs[k].name] == want(cs[k]) {
      if k < i { assert containers[..i][k] == cs[k] && containers[k].name != c.name; }
    }
    forall n | n in m ensures exists k :: 0 <= k < |cs| && cs[k].name == n {
      if n == c.name {
        assert cs[i].name == n;
      } else {
        var k :| 0 <= k < |containers[..i]| && containers[..i][k].name == n;
        assert cs[k].name == n;
      }
    }
  }

  /** For one container, after the records `rs`: its status, and how many of the records were used. */
  ghost predicate MergedFor(default: Status, status: Status, seen: int, rs: seq<Record>, n: string) {
    && status == FromRecords(default, RecordsOf(rs, n))
    && seen == if |RecordsOf(rs, n)| < 2 then |RecordsOf(rs, n)| else 2
  }

  ghost predicate MergedUpTo(defaults: map<string, Status>, statuses: map<string, Status>, seen: map<string, int>,
                             rs: seq<Record>) {
    && statuses.Keys == defaults.Keys
    && forall n :: n in defaults ==> MergedFor(defaults[n], statuses[n], Get(seen, n, 0), rs, n)
  }

  function Used(status: Status, seen: int, r: Record): Status {
    if seen == 0 then Convert(r) else if seen == 1 then status.(lastTermination := Convert(r).state) else status
  }

  lemma MergeStepFor(default: Status, status: Status, seen: int, rs: seq<Record>, i: nat, n: string)
    requires i < |rs| && MergedFor(default, status, seen, rs[..i], n)
    ensures rs[i].name != n || seen >= 2 ==> MergedFor(default, status, seen, rs[..i + 1], n)
    ensures rs[i].name == n && seen < 2 ==> MergedFor(default, Used(status, seen, rs[i]), seen + 1, rs[..i + 1], n)
  {
    assert rs[..i + 1] == rs[..i] + [rs[i]];
    SelectConcat(RecordName, rs[..i], [rs[i]], n);
    SelectCons(RecordName, rs[i], [], n);
    assert [rs[i]] + [] == [rs[i]];
  }

  lemma MergeStep(defaults: map<string, Status>, statuses: map<string, Status>, seen: map<string, int>,
                  rs: seq<Record>, i: nat)
    requires i < |rs| && MergedUpTo(defaults, statuses, seen, rs[..i])
    ensures var r := rs[i];
      var k := Get(seen, r.name, 0);
      if r.name !in statuses || k >= 2 then MergedUpTo(defaults, statuses, seen, rs[..i + 1])
      else MergedUpTo(defaults, statuses[r.name := Used(statuses[r.name], k, r)], seen[r.name := k + 1], rs[..i + 1])
  {
    forall n | n in defaults
      ensures rs[i].name != n || Get(seen, n, 0) >= 2 ==>
        MergedFor(defaults[n], statuses[n], Get(seen, n, 0), rs[..i + 1], n)
      ensures rs[i].name == n && Get(seen, n, 0) < 2 ==>
        MergedFor(defaults[n], Used(statuses[n], Get(seen, n, 0), rs[i]), Get(seen, n, 0) + 1, rs[..i + 1], n)
    {
      MergeStepFor(defaults[n], statuses[n], Get(seen, n, 0), rs, i, n);
    }
  }

  /** Set the statuses according to the records, newest first; at most two count per container. */
  method MergeRecords(defaults: map<string, Status>, rs: seq<Record>) returns (statuses: map<string, Status>)
    ensures statuses.Keys == defaults.Keys
    ensures forall n :: n in defaults ==> statuses[n] == FromRecords(defaults[n], RecordsOf(rs, n))
  {
    statuses := defaults;
    var containerSeen: map<string, int> := map[];
    for i := 0 to |rs|
      invariant MergedUpTo(defaults, statuses, containerSeen, rs[..i])
    {
      MergeStep(defaults, statuses, containerSeen, rs, i);
      var r := rs[i];
      if r.name !in statuses {
        continue;
      }
      if Get(containerSeen, r.name, 0) >= 2 {
        continue;
      }
      var status := Convert(r);
      if Get(containerSeen, r.name, 0) == 0 {
        statuses := statuses[r.name := status];
      } else {
        statuses := statuses[r.name := statuses[r.name].(lastTermination := status.state)];
      }
      containerSeen := containerSeen[r.name := Get(containerSeen, r.name, 0) + 1];
    }
    assert rs[..|rs|] == rs;
    forall n | n in defaults ensures statuses[n] == FromRecords(defaults[n], RecordsOf(rs, n)) {
      assert MergedFor(defaults[n], statuses[n], Get(containerSeen, n, 0), rs, n);
    }
  }

  /** A container that failed to be started becomes a waiting one. */
  method MarkFailure(start: Status, c: Container, pod: PodInfo, rs: seq<Record>, isInit: bool) returns (status: Status)
    ensures status == if FailsToStart(c.name, pod, rs, isInit) then AfterFailure(start, pod.failures[c.name]) else start
  {
    status := start;
    if isInit {
      var s := FindRecord(rs, c.name);
      if s.Some? && s.value.state == RtExited && s.value.exitCode == 0 { return; }
    }
    if !ShouldBeRestarted(c.name, pod, rs) { return; }
    if c.name !in pod.failures { return; }
    var reason := pod.failures[c.name];
    if status.state.terminated.Some? {
      status := status.(lastTermination := status.state);
    }
    status := status.(state := WaitingState(reason.error, reason.message));
  }

  /** The first `i` containers are at `after`, the others at `before`. */
  ghost predicate HalfDone(statuses: map<string, Status>, containers: seq<Container>, i: nat,
                           before: Container -> Status, after: Container -> Status) {
    && i <= |containers|
    && (forall j :: 0 <= j < |containers| ==> containers[j].name in statuses)
    && (forall j :: 0 <= j < |containers| ==>
          statuses[containers[j].name] == if j < i then after(containers[j]) else before(containers[j]))
    && (forall n :: n in statuses ==> exists j :: 0 <= j < |containers| && containers[j].name == n)
  }

  lemma HalfStep(statuses: map<string, Status>, containers: seq<Container>, i: nat,
                 before: Container -> Status, after: Container -> Status)
    requires DistinctNames(containers) && i < |containers| && HalfDone(statuses, containers, i, before, after)
    ensures HalfDone(statuses[containers[i].name := after(containers[i])], containers, i + 1, before, after)
  {
  }

  lemma HalfStart(statuses: map<string, Status>, containers: seq<Container>, before: Container -> Status,
                  after: Container -> Status)
    requires Holds(statuses, containers, before)
    ensures HalfDone(statuses, containers, 0, before, after)
  {
  }

  lemma HalfEnd(statuses: map<string, Status>, containers: seq<Container>, before: Container -> Status,
                after: Container -> Status)
    requires HalfDone(statuses, containers, |containers|, before, after)
    ensures Holds(statuses, containers, after)
  {
  }

  method MarkFailures(merged: map<string, Status>, containers: seq<Container>,
                      pod: PodInfo, rs: seq<Record>, isInit: bool,
                      ghost before: Container -> Status, ghost after: Container -> Status)
    returns (statuses: map<string, Status>)
    requires DistinctNames(containers) && Holds(merged, containers, before)
    requires forall c ::
      after(c) ==
        if FailsToStart(c.name, pod, rs, isInit) then AfterFailure(before(c), pod.failures[c.name]) else before(c)
    ensures Holds(statuses, containers, after)
  {
    statuses := merged;
    HalfStart(statuses, containers, before, after);
    for i := 0 to |containers|
      invariant HalfDone(statuses, containers, i, before, after)
    {
      HalfStep(statuses, containers, i, before, after);
      var status := MarkFailure(statuses[containers[i].name], containers[i], pod, rs, isInit);
      assert status == after(containers[i]);
      statuses := statuses[containers[i].name := status];
    }
    HalfEnd(statuses, containers, before, after);
  }

  ghost predicate DistinctStatuses(s: seq<Status>) {
    DistinctKeys(NameOf, s)
  }

  /** The statuses in the order of a map iteration, which is arbitrary. */
  method Values(statuses: map<string, Status>) returns (list: seq<Status>)
    requires forall n :: n in statuses ==> statuses[n].name == n
    ensures DistinctStatuses(list)
    ensures forall s :: s in list <==> s.name in statuses && statuses[s.name] == s
  {
    list := [];
    var keys := statuses.Keys;
    while keys != {}
      invariant keys <= statuses.Keys
      invariant DistinctStatuses(list)
      invariant forall s :: s in list <==> s.name in statuses && s.name !in keys && statuses[s.name] == s
      decreases keys
    {
      var n :| n in keys;
      forall i | 0 <= i < |list| ensures list[i].name != n { assert list[i] in list; }
      list := list + [statuses[n]];
      keys := keys - {n};
    }
  }

  /** SortInitContainerStatuses: move each container's status to its place by swapping. */
  method SortInitStatuses(containers: seq<Container>, list: seq<Status>, ghost want: seq<Status>)
    returns (sorted: seq<Status>)
    requires |want| == |containers| && DistinctStatuses(want) && multiset(list) == multiset(want)
    requires forall i :: 0 <= i < |want| ==> want[i].name == containers[i].name
    ensures sorted == want
  {
    sorted := list;
    assert |list| == |multiset(list)| == |multiset(want)| == |want|;
    var current := 0;
    for i := 0 to |containers|
      invariant current == i && multiset(sorted) == multiset(want) && |sorted| == |want|
      invariant forall k :: 0 <= k < i ==> sorted[k] == want[k]
    {
      ghost var place := PlaceOf(sorted, want, i);
      var j := current;
      while j < |sorted| && containers[i].name != sorted[j].name
        invariant current <= j <= place
      {
        j := j + 1;
      }
      OnlyOne(sorted, want, i, j);
      sorted := sorted[current := sorted[j]][j := sorted[current]];
      current := current + 1;
    }
  }

  lemma PlaceOf(sorted: seq<Status>, want: seq<Status>, i: nat) returns (place: nat)
    requires multiset(sorted) == multiset(want) && |sorted| == |want| && i < |want| && DistinctStatuses(want)
    requires forall k :: 0 <= k < i ==> sorted[k] == want[k]
    ensures i <= place < |sorted| && sorted[place] == want[i]
  {
    assert want[i] in multiset(sorted);
    place :| 0 <= place < |sorted| && sorted[place] == want[i];
  }

  lemma OnlyOne(sorted: seq<Status>, want: seq<Status>, i: nat, j: nat)
    requires multiset(sorted) == multiset(want) && i < |want| && j < |sorted| && DistinctStatuses(want)
    requires sorted[j].name == want[i].name
    ensures sorted[j] == want[i]
  {
    assert sorted[j] in multiset(want);
    var k :| 0 <= k < |want| && want[k] == sorted[j];
  }

  /** The statuses that the containers end up with, in the order of the spec. */
  function Finals(containers: seq<Container>, want: Container -> Status): seq<Status> {
    seq(|containers|, i requires 0 <= i < |containers| => want(containers[i]))
  }

  lemma ValuesAreFinals(statuses: map<string, Status>, containers: seq<Container>, want: Container -> Status,
                        list: seq<Status>)
    requires DistinctNames(containers) && Holds(statuses, containers, want)
    requires forall i :: 0 <= i < |containers| ==> want(containers[i]).name == containers[i].name
    requires DistinctStatuses(list) && forall s :: s in list <==> s.name in statuses && statuses[s.name] == s
    ensures DistinctStatuses(Finals(containers, want)) && multiset(list) == multiset(Finals(containers, want))
  {
    var f := Finals(containers, want);
    forall s ensures s in list <==> s in f {
      if s in list {
        var i :| 0 <= i < |containers| && containers[i].name == s.name;
        assert f[i] == s;
      }
      if s in f {
        var i :| 0 <= i < |f| && f[i] == s;
      }
    }
    SameMultiset(NameOf, list, f);
  }

  /** Each container of the spec gets exactly one status, `Final` of it: in spec
      order for init containers, else in the order of the names. The records of
      the pod status are left sorted newest first. */
  method ConvertToAPIContainerStatuses(pod: PodInfo, podStatus: PodStatus, previous: seq<Status>,
                                       containers: seq<Container>, hasInit: bool, isInit: bool)
    returns (result: seq<Status>)
    requires DistinctNames(containers)
    modifies podStatus
    ensures multiset(podStatus.containerStatuses) == multiset(old(podStatus.containerStatuses))
    ensures NewestFirst(podStatus.containerStatuses)
    ensures var finals := Finals(containers, Finally(pod, podStatus.containerStatuses, previous, hasInit, isInit));
      && multiset(result) == multiset(finals)
      && (if isInit then result == finals else Sorted(StringLess, NameOf, result))
  {
    var defaults := Defaults(previous, containers, hasInit);
    podStatus.containerStatuses := SortNewestFirst(podStatus.containerStatuses);
    var rs := podStatus.containerStatuses;
    var merged := MergeRecords(defaults, rs);
    assert Holds(merged, containers, Merged(previous, hasInit, rs));
    ghost var want := Finally(pod, rs, previous, hasInit, isInit);
    var statuses := MarkFailures(merged, containers, pod, rs, isInit, Merged(previous, hasInit, rs), want);
    NamesKept(statuses, containers, pod, rs, previous, hasInit, isInit);
    result := ListStatuses(statuses, containers, isInit, want);
  }

  /** The statuses of the map as a list, in its final order. */
  method ListStatuses(statuses: map<string, Status>, containers: seq<Container>, isInit: bool,
                      ghost want: Container -> Status)
    returns (result: seq<Status>)
    requires DistinctNames(containers) && Holds(statuses, containers, want)
    requires forall n :: n in statuses ==> statuses[n].name == n
    requires forall i :: 0 <= i < |containers| ==> want(containers[i]).name == containers[i].name
    ensures multiset(result) == multiset(Finals(containers, want))
    ensures if isInit then result == Finals(containers, want) else Sorted(StringLess, NameOf, result)
  {
    var list := Values(statuses);
    ValuesAreFinals(statuses, containers, want, list);
    if isInit {
      result := SortInitStatuses(containers, list, Finals(containers, want));
    } else {
      result := SortByName(list);
    }
  }

  method SortByName(list: seq<Status>) returns (r: seq<Status>)
    ensures multiset(r) == multiset(list) && Sorted(StringLess, NameOf, r)
  {
    StringsAreTotallyOrdered();
    SortIsStable(StringLess, NameOf, list);
    r := Sort(StringLess, NameOf, list);
  }

  lemma NamesKept(statuses: map<string, Status>, containers: seq<Container>, pod: PodInfo, rs: seq<Record>,
                  previous: seq<Status>, hasInit: bool, isInit: bool)
    requires Holds(statuses, containers, Finally(pod, rs, previous, hasInit, isInit))
    ensures forall n :: n in statuses ==> statuses[n].name == n
    ensures forall i :: 0 <= i < |containers| ==>
      Finally(pod, rs, previous, hasInit, isInit)(containers[i]).name == containers[i].name
  {
    forall i | 0 <= i < |containers|
      ensures Final(containers[i], pod, rs, previous, hasInit, isInit).name == containers[i].name
    {
      OldOfFound(previous, containers[i].name);
      RecordsOfName(rs, containers[i].name);
    }
  }

  /** The result read back as the old status of the next conversion: each container finds its own. */
  lemma {:induction false} ResultIsNextOld(result: seq<Status>, s: Status)
    requires DistinctStatuses(result) && s in result
    ensures OldOf(result, s.name) == Some(s)
  {
    var last := |result| - 1;
    if result[last] != s {
      assert result == result[..last] + [result[last]];
      ResultIsNextOld(result[..last], s);
    }
  }

  // ------------------------------------------------------ the whole pod

  ghost predicate DistinctAcross(xs: seq<Container>, ys: seq<Container>) {
    forall i, j :: 0 <= i < |xs| && 0 <= j < |ys| ==> xs[i].name != ys[j].name
  }

  lemma FinalsFacts(containers: seq<Container>, pod: PodInfo, rs: seq<Record>, previous: seq<Status>,
                    hasInit: bool, isInit: bool)
    requires DistinctNames(containers) && WellFormedOld(previous)
    ensures var f := Finals(containers, Finally(pod, rs, previous, hasInit, isInit));
      && DistinctStatuses(f)
      && forall i :: 0 <= i < |f| ==> f[i].name == containers[i].name && ExactlyOne(f[i].state)
  {
    forall i | 0 <= i < |containers|
      ensures var s := Final(containers[i], pod, rs, previous, hasInit, isInit);
        s.name == containers[i].name && ExactlyOne(s.state)
    {
      FinalIsWellFormed(containers[i], pod, rs, previous, hasInit, isInit);
    }
  }

  /** The statuses of both kinds together cover the spec, container by container. */
  lemma ConvertedCovers(spec: PodPhase.PodSpec, mains: seq<Status>, inits: seq<Status>, main: Container -> Status,
                        init: Container -> Status)
    requires DistinctAcross(spec.containers, spec.initContainers)
    requires var f := Finals(spec.containers, main);
      && multiset(mains) == multiset(f) && DistinctStatuses(f)
      && forall i :: 0 <= i < |f| ==> f[i].name == spec.containers[i].name && ExactlyOne(f[i].state)
    requires inits == Finals(spec.initContainers, init) && DistinctStatuses(inits)
    requires forall i :: 0 <= i < |inits| ==> inits[i].name == spec.initContainers[i].name && ExactlyOne(inits[i].state)
    ensures PodPhase.Covers(mains + inits, spec, main, init)
  {
    var f := Finals(spec.containers, main);
    PermutedDistinct(NameOf, mains, f);
    forall i, j | 0 <= i < |mains| && 0 <= j < |inits| ensures mains[i].name != inits[j].name {
      assert mains[i] in multiset(f);
      var k :| 0 <= k < |f| && f[k] == mains[i];
    }
    forall i | 0 <= i < |spec.containers| ensures main(spec.containers[i]) in mains + inits {
      assert f[i] in multiset(mains);
    }
    forall i | 0 <= i < |spec.initContainers| ensures init(spec.initContainers[i]) in mains + inits {
      assert inits[i] in inits;
    }
  }

  /** Statuses and phase of a pod of containers: both conversions, and getPhase on their results. */
  method ObservePhase(pod: PodInfo, spec: PodPhase.PodSpec, podStatus: PodStatus,
                      previous: seq<Status>, previousInit: seq<Status>)
    returns (mains: seq<Status>, inits: seq<Status>, phase: PodPhase.Phase, ghost rs: seq<Record>)
    requires DistinctNames(spec.containers) && DistinctNames(spec.initContainers)
    requires DistinctAcross(spec.containers, spec.initContainers)
    requires WellFormedOld(previous) && WellFormedOld(previousInit)
    modifies podStatus
    ensures multiset(rs) == multiset(podStatus.containerStatuses) == multiset(old(podStatus.containerStatuses))
    ensures Observed(pod, spec, previous, previousInit, rs, podStatus.containerStatuses, mains + inits, phase)
  {
    var hasInit := |spec.initContainers| > 0;
    mains := ConvertToAPIContainerStatuses(pod, podStatus, previous, spec.containers, hasInit, false);
    rs := podStatus.containerStatuses;
    inits := ConvertToAPIContainerStatuses(pod, podStatus, previousInit, spec.initContainers, hasInit, true);
    ghost var rs' := podStatus.containerStatuses;
    FinalsFacts(spec.containers, pod, rs, previous, hasInit, false);
    FinalsFacts(spec.initContainers, pod, rs', previousInit, hasInit, true);
    ghost var main, init := Finally(pod, rs, previous, hasInit, false), Finally(pod, rs', previousInit, hasInit, true);
    ConvertedCovers(spec, mains, inits, main, init);
    PodPhase.ConvertedPodSucceedsIff(mains + inits, spec, main, init);
    phase := PodPhase.GetPhase(spec, mains + inits);
    PodPhase.FoundIsOwn(mains + inits, spec, main, init);
    assert PodPhase.Found(spec.containers, mains + inits) == Own(spec.containers, main);
    assert PodPhase.Found(spec.initContainers, mains + inits) == Own(spec.initContainers, init);
  }

  /** `info` has one well-formed status for each container, computed from the
      records `rs` and, for init containers, `rs'`; none is unknown, and `phase`
      means what its name says of them. */
  ghost predicate Observed(pod: PodInfo, spec: PodPhase.PodSpec, previous: seq<Status>, previousInit: seq<Status>,
                           rs: seq<Record>, rs': seq<Record>, info: seq<Status>, phase: PodPhase.Phase) {
    && NewestFirst(rs) && NewestFirst(rs')
    && PodPhase.Covers(info, spec, Finally(pod, rs, previous, |spec.initContainers| > 0, false),
                       Finally(pod, rs', previousInit, |spec.initContainers| > 0, true))
    && PodPhase.Means(phase, spec.restartPolicy,
                      PodPhase.Inits(spec.initContainers, info), PodPhase.Mains(spec.containers, info))
    && PodPhase.Unknown !in PodPhase.Mains(spec.containers, info)
    && PodPhase.Says(phase, spec.restartPolicy,
                     Own(spec.initContainers, Finally(pod, rs', previousInit, |spec.initContainers| > 0, true)),
                     Own(spec.containers, Finally(pod, rs, previous, |spec.initContainers| > 0, false)))
  }

  /** Each container's own status. */
  function Own(containers: seq<Container>, status: Container -> Status): seq<Option<Status>> {
    seq(|containers|, i requires 0 <= i < |containers| => Some(status(containers[i])))
  }

  ghost predicate DistinctTimesFor(rs: seq<Record>, spec: PodPhase.PodSpec) {
    && (forall i :: 0 <= i < |spec.containers| ==> DistinctTimes(rs, spec.containers[i].name))
    && (forall i :: 0 <= i < |spec.initContainers| ==> DistinctTimes(rs, spec.initContainers[i].name))
  }

  /** However the runtime lists the same records, the phase is the same, as long
      as no two records of one container have the same creation time. */
  lemma PhaseIgnoresListing(pod: PodInfo, spec: PodPhase.PodSpec, previous: seq<Status>, previousInit: seq<Status>,
                            a: seq<Record>, a': seq<Record>, info: seq<Status>, p: PodPhase.Phase,
                            b: seq<Record>, b': seq<Record>, other: seq<Status>, q: PodPhase.Phase)
    requires Observed(pod, spec, previous, previousInit, a, a', info, p)
    requires Observed(pod, spec, previous, previousInit, b, b', other, q)
    requires multiset(a) == multiset(a') == multiset(b) == multiset(b')
    requires DistinctTimesFor(a, spec) && DistinctTimesFor(a', spec)
    requires DistinctTimesFor(b, spec) && DistinctTimesFor(b', spec)
    ensures p == q
  {
    var hasInit := |spec.initContainers| > 0;
    forall i | 0 <= i < |spec.containers|
      ensures Finally(pod, a, previous, hasInit, false)(spec.containers[i]) ==
        Finally(pod, b, previous, hasInit, false)(spec.containers[i])
    {
      FinalIgnoresListing(spec.containers[i], pod, a, b, previous, hasInit, false);
    }
    forall i | 0 <= i < |spec.initContainers|
      ensures Finally(pod, a', previousInit, hasInit, true)(spec.initContainers[i]) ==
        Finally(pod, b', previousInit, hasInit, true)(spec.initContainers[i])
    {
      FinalIgnoresListing(spec.initContainers[i], pod, a', b', previousInit, hasInit, true);
    }
    PodPhase.CoveredPhasesAgree(info, other, spec, p, q,
      Finally(pod, a, previous, hasInit, false), Finally(pod, a', previousInit, hasInit, true),
      Finally(pod, b, previous, hasInit, false), Finally(pod, b', previousInit, hasInit, true));
  }

  /** The phase part of generateAPIPodStatus: the conversions come first, then the
      handlers' evictions, then the virtual machine or the containers, then the
      guard of terminal phases. `api` is the phase that the API server shows. */
  method GeneratePhase(pod: PodInfo, spec: PodPhase.PodSpec, podStatus: PodStatus,
                       previous: seq<Status>, previousInit: seq<Status>,
                       evictions: seq<bool>, vm: Option<PodPhase.VirtualMachine>, api: PodPhase.Phase)
    returns (phase: PodPhase.Phase, ghost observed: PodPhase.Phase, ghost info: seq<Status>, ghost rs: seq<Record>)
    requires DistinctNames(spec.containers) && DistinctNames(spec.initContainers)
    requires DistinctAcross(spec.containers, spec.initContainers)
    requires WellFormedOld(previous) && WellFormedOld(previousInit)
    modifies podStatus
    ensures phase == PodPhase.Reported(true in evictions, observed, api)
    ensures true in evictions ==> phase == PodPhase.PodFailed
    ensures true !in evictions && api in {PodPhase.PodFailed, PodPhase.PodSucceeded} ==> phase == api
    ensures true !in evictions && api !in {PodPhase.PodFailed, PodPhase.PodSucceeded} ==> phase == observed
    ensures vm.Some? && vm.value.active ==> observed == PodPhase.PodRunning
    ensures vm.Some? && !vm.value.active ==>
      observed == if vm.value.shutdownRequested then PodPhase.PodNoSchedule else PodPhase.PodPending
    ensures vm.None? ==>
      && multiset(rs) == multiset(podStatus.containerStatuses) == multiset(old(podStatus.containerStatuses))
      && Observed(pod, spec, previous, previousInit, rs, podStatus.containerStatuses, info, observed)
  {
    var computed;
    if vm.Some? {
      computed, info, rs := PodPhase.MachinePhase(vm.value), [], [];
    } else {
      var mains, inits;
      mains, inits, computed, rs := ObservePhase(pod, spec, podStatus, previous, previousInit);
      info := mains + inits;
    }
    observed := computed;
    phase := GuardPhase(evictions, computed, api);
  }

  /** The evictions of the handlers and the guard of terminal phases. */
  method GuardPhase(evictions: seq<bool>, computed: PodPhase.Phase, api: PodPhase.Phase) returns (phase: PodPhase.Phase)
    ensures phase == PodPhase.Reported(true in evictions, computed, api)
    ensures true in evictions ==> phase == PodPhase.PodFailed
    ensures true !in evictions && api in {PodPhase.PodFailed, PodPhase.PodSucceeded} ==> phase == api
    ensures true !in evictions && api !in {PodPhase.PodFailed, PodPhase.PodSucceeded} ==> phase == computed
  {
    for i := 0 to |evictions|
      invariant true !in evictions[..i]
    {
      if evictions[i] {
        return PodPhase.PodFailed;
      }
    }
    assert evictions[..|evictions|] == evictions;
    phase := computed;
    if api == PodPhase.PodFailed || api == PodPhase.PodSucceeded {
      if phase != api {
        phase := api;
      }
    }
  }
}
