/**
 When may the kubelet skip a node status report? Conditions are compared after
 a stable sort by type and without their heartbeat times, and the cached node
 is overwritten in place even if nothing is sent.
 */
module NodeStatus {
  import opened Wrappers
  import opened Orders
  import opened StableSort

  type Time = int

  datatype NodeCondition = NodeCondition(
    kind: string,
    status: string,
    lastHeartbeat: Time,
    lastTransition: Time,
    reason: string,
    message: string)

  function Kind(c: NodeCondition): string { c.kind }

  /** The condition with the zero heartbeat time. */
  function Strip(c: NodeCondition): NodeCondition { c.(lastHeartbeat := 0) }

  function StripAll(s: seq<NodeCondition>): seq<NodeCondition> {
    seq(|s|, i requires 0 <= i < |s| => Strip(s[i]))
  }

  /** Equal up to heartbeats, type by type; the order of different types does not matter. */
  ghost predicate SameConditions(a: seq<NodeCondition>, b: seq<NodeCondition>) {
    forall k :: StripAll(Select(Kind, a, k)) == StripAll(Select(Kind, b, k))
  }

  lemma {:induction false} SelectStripped(s: seq<NodeCondition>, k: string)
    ensures Select(Kind, StripAll(s), k) == StripAll(Select(Kind, s, k))
  {
    if s != [] {
      assert StripAll(s)[1..] == StripAll(s[1..]);
      SelectStripped(s[1..], k);
      var head := if s[0].kind == k then [s[0]] else [];
      assert StripAll(head + Select(Kind, s[1..], k)) == StripAll(head) + StripAll(Select(Kind, s[1..], k));
    }
  }

  function SortByType(s: seq<NodeCondition>): (r: seq<NodeCondition>)
    ensures |r| == |s|
  {
    var r := Sort(StringLess, Kind, s);
    assert |multiset(r)| == |r| && |multiset(s)| == |s|;
    r
  }

  lemma SortedStripped(s: seq<NodeCondition>)
    ensures Sorted(StringLess, Kind, StripAll(SortByType(s)))
    ensures forall k :: Select(Kind, StripAll(SortByType(s)), k) == StripAll(Select(Kind, s, k))
  {
    StringsAreTotallyOrdered();
    SortIsStable(StringLess, Kind, s);
    var r := SortByType(s);
    forall k ensures Select(Kind, StripAll(r), k) == StripAll(Select(Kind, s, k)) {
      SelectStripped(r, k);
      assert Select(Kind, r, k) == Select(Kind, s, k);
    }
  }

  /** Comparing the sorted and stripped lists decides equality up to heartbeats. */
  lemma SortedEqualIffSame(a: seq<NodeCondition>, b: seq<NodeCondition>)
    ensures StripAll(SortByType(a)) == StripAll(SortByType(b)) <==> SameConditions(a, b)
  {
    SortedStripped(a);
    SortedStripped(b);
    var x, y := StripAll(SortByType(a)), StripAll(SortByType(b));
    if x == y {
      forall k ensures StripAll(Select(Kind, a, k)) == StripAll(Select(Kind, b, k)) {
        assert Select(Kind, x, k) == Select(Kind, y, k);
      }
    }
    if SameConditions(a, b) {
      StringsAreTotallyOrdered();
      forall k ensures Select(Kind, x, k) == Select(Kind, y, k) {
        assert StripAll(Select(Kind, a, k)) == StripAll(Select(Kind, b, k));
      }
      SortedUnique(StringLess, Kind, x, y);
    }
  }

  /** The loop over the two sorted copies, which clears the heartbeats as it goes. */
  method SortedDiffer(original: seq<NodeCondition>, conditions: seq<NodeCondition>) returns (differ: bool)
    requires |original| == |conditions|
    ensures differ <==> StripAll(original) != StripAll(conditions)
  {
    var originalCopy, copy := original, conditions;
    ghost var x, y := StripAll(originalCopy), StripAll(copy);
    for i := 0 to |copy|
      invariant |originalCopy| == |copy| == |x| == |y|
      invariant forall j :: 0 <= j < i ==> x[j] == y[j]
      invariant forall j :: i <= j < |copy| ==> x[j] == Strip(originalCopy[j]) && y[j] == Strip(copy[j])
    {
      originalCopy := originalCopy[i := originalCopy[i].(lastHeartbeat := 0)];
      copy := copy[i := copy[i].(lastHeartbeat := 0)];
      if originalCopy[i] != copy[i] {
        assert x[i] != y[i];
        return true;
      }
    }
    assert x == y;
    return false;
  }

  /** nodeConditionsHaveChanged */
  method ConditionsHaveChanged(original: seq<NodeCondition>, conditions: seq<NodeCondition>) returns (changed: bool)
    ensures changed <==> !SameConditions(original, conditions)
  {
    SortedEqualIffSame(original, conditions);
    if |original| != |conditions| {
      assert |StripAll(SortByType(original))| != |StripAll(SortByType(conditions))|;
      return true;
    }
    changed := SortedDiffer(SortByType(original), SortByType(conditions));
  }

  /** Skipping reports is harmless over many turns because the comparison is an equivalence. */
  lemma SameConditionsIsEquivalence(a: seq<NodeCondition>, b: seq<NodeCondition>, c: seq<NodeCondition>)
    ensures SameConditions(a, a)
    ensures SameConditions(a, b) <==> SameConditions(b, a)
    ensures SameConditions(a, b) && SameConditions(b, c) ==> SameConditions(a, c)
  {
    SortedEqualIffSame(a, b);
    SortedEqualIffSame(b, a);
    SortedEqualIffSame(b, c);
    SortedEqualIffSame(a, c);
  }

  // -------------------------------------------------------------- statuses

  /** `others` stands for all fields that are compared as they are. */
  datatype Status = Status(conditions: seq<NodeCondition>, addresses: seq<string>, volumesInUse: seq<string>,
                           others: map<string, string>)

  ghost predicate SameStatus(a: Status, b: Status) {
    && SameConditions(a.conditions, b.conditions)
    && a.addresses == b.addresses && a.volumesInUse == b.volumesInUse && a.others == b.others
  }

  /** nodeStatusHasChanged for two non-nil statuses */
  method StatusHasChanged(original: Status, status: Status) returns (changed: bool)
    ensures changed <==> !SameStatus(original, status)
  {
    changed := ConditionsHaveChanged(original.conditions, status.conditions);
    if !changed {
      changed := original.(conditions := []) != status.(conditions := []);
    }
  }

  lemma SameStatusTransitive(a: Status, b: Status, c: Status)
    ensures SameStatus(a, a)
    ensures SameStatus(a, b) ==> (SameStatus(b, c) <==> SameStatus(a, c))
  {
    SameConditionsIsEquivalence(a.conditions, b.conditions, c.conditions);
    SameConditionsIsEquivalence(b.conditions, a.conditions, c.conditions);
  }

  // ------------------------------------------------------------ the report

  /** Everything that tryUpdateNodeStatus meets: the server's node if it has to
      be read, the status that the setters compute, and the answer to the patch. */
  datatype Attempt = Attempt(
    fetched: Option<Status>,
    computed: Status,
    podCIDRChanged: bool,
    nodeLease: bool,
    now: Time,
    patched: Option<Status>)

  /** `latest` is the cached node's status; `accepted` is what the server returned for our last patch. */
  datatype State = State(latest: Option<Status>, lastReport: Time, accepted: Option<Status>,
                         volumesReported: seq<string>)

  datatype Result = GetFailed | Skipped | PatchFailed | Reported

  ghost predicate MaySkip(frequency: Time, s: State, original: Status, a: Attempt) {
    a.nodeLease && a.now < s.lastReport + frequency && !a.podCIDRChanged && SameStatus(original, a.computed)
  }

  ghost function Try(frequency: Time, s: State, a: Attempt): (State, Result) {
    var node := if s.latest.Some? then s.latest else a.fetched;
    if node.None? then (s, GetFailed)
    else if MaySkip(frequency, s, node.value, a) then
      var latest := if s.latest.Some? then Some(a.computed) else None;
      (s.(latest := latest, volumesReported := a.computed.volumesInUse), Skipped)
    else if a.patched.None? then (s.(latest := None), PatchFailed)
    else (State(a.patched, a.now, a.patched, a.patched.value.volumesInUse), Reported)
  }

  ghost function Run(frequency: Time, s: State, attempts: seq<Attempt>): State
    decreases |attempts|
  {
    if attempts == [] then s else Run(frequency, Try(frequency, s, attempts[0]).0, attempts[1..])
  }

  /** The cached status is what the server last accepted, up to heartbeats. */
  ghost predicate Faithful(s: State) {
    s.latest.Some? ==> s.accepted.Some? && SameStatus(s.accepted.value, s.latest.value)
  }

  lemma TryKeepsFaithful(frequency: Time, s: State, a: Attempt)
    requires Faithful(s)
    ensures Faithful(Try(frequency, s, a).0)
  {
    if s.latest.Some? {
      SameStatusTransitive(s.accepted.value, s.latest.value, a.computed);
    }
    if a.patched.Some? {
      SameStatusTransitive(a.patched.value, a.patched.value, a.patched.value);
    }
  }

  /** Over every run, with any number of skipped reports in a row. */
  lemma {:induction false} RunKeepsFaithful(frequency: Time, s: State, attempts: seq<Attempt>)
    requires Faithful(s)
    ensures Faithful(Run(frequency, s, attempts))
    decreases |attempts|
  {
    if attempts != [] {
      TryKeepsFaithful(frequency, s, attempts[0]);
      RunKeepsFaithful(frequency, Try(frequency, s, attempts[0]).0, attempts[1..]);
    }
  }

  /** After any run a report is skipped exactly when, with leases on and in time,
      there is no news: since what the server last accepted if the node is cached,
      else compared with the node just read from the server. */
  lemma SkippedIffNoNews(frequency: Time, s: State, attempts: seq<Attempt>, a: Attempt)
    requires Faithful(s)
    ensures var t := Run(frequency, s, attempts);
      var known := if t.latest.Some? then t.accepted else a.fetched;
      Try(frequency, t, a).1 == Skipped <==>
        && a.nodeLease && a.now < t.lastReport + frequency && !a.podCIDRChanged
        && known.Some? && SameStatus(known.value, a.computed)
  {
    RunKeepsFaithful(frequency, s, attempts);
    var t := Run(frequency, s, attempts);
    if t.latest.Some? {
      SameStatusTransitive(t.accepted.value, t.latest.value, a.computed);
    }
  }

  /** The results of the attempts of a run, in order. */
  ghost function Results(frequency: Time, s: State, attempts: seq<Attempt>): (rs: seq<Result>)
    ensures |rs| == |attempts|
    decreases |attempts|
  {
    if attempts == [] then [] else
      var (t, r) := Try(frequency, s, attempts[0]);
      [r] + Results(frequency, t, attempts[1..])
  }

  /** While no patch is taken the report time and the accepted status stay, and
      while no attempt is skipped either so do the volumes marked as reported. */
  lemma {:induction false} NothingReported(frequency: Time, s: State, attempts: seq<Attempt>)
    ensures var t := Run(frequency, s, attempts);
      var rs := Results(frequency, s, attempts);
      && (Reported !in rs ==> t.lastReport == s.lastReport && t.accepted == s.accepted)
      && (Reported !in rs && Skipped !in rs ==> t.volumesReported == s.volumesReported)
    decreases |attempts|
  {
    if attempts != [] {
      NothingReported(frequency, Try(frequency, s, attempts[0]).0, attempts[1..]);
    }
  }

  /** Over every run: the report time and the accepted status are those of the last
      attempt whose patch the server took, and the volumes marked as reported are
      those of the last attempt that was skipped or taken. */
  lemma {:induction false} ReportsAreTracked(frequency: Time, s: State, attempts: seq<Attempt>, k: nat)
    requires k < |attempts|
    ensures var t := Run(frequency, s, attempts);
      var rs := Results(frequency, s, attempts);
      && (rs[k] == Reported && Reported !in rs[k + 1..] ==>
            t.lastReport == attempts[k].now && t.accepted == attempts[k].patched && t.accepted.Some?)
      && (rs[k] == Reported && Reported !in rs[k + 1..] && Skipped !in rs[k + 1..] ==>
            t.volumesReported == attempts[k].patched.value.volumesInUse)
      && (rs[k] == Skipped && Reported !in rs[k + 1..] && Skipped !in rs[k + 1..] ==>
            t.volumesReported == attempts[k].computed.volumesInUse)
    decreases k
  {
    var next := Try(frequency, s, attempts[0]).0;
    var rs := Results(frequency, s, attempts);
    assert rs[1..] == Results(frequency, next, attempts[1..]);
    if k == 0 {
      NothingReported(frequency, next, attempts[1..]);
    } else {
      ReportsAreTracked(frequency, next, attempts[1..], k - 1);
      assert rs[1..][k..] == rs[k + 1..];
    }
  }

  /** After any run, every outcome of the next attempt has its exact condition. */
  lemma OutcomeIff(frequency: Time, s: State, attempts: seq<Attempt>, a: Attempt)
    requires Faithful(s)
    ensures var t := Run(frequency, s, attempts);
      var r := Try(frequency, t, a).1;
      && (r == GetFailed <==> t.latest.None? && a.fetched.None?)
      && (r == Reported <==> r != GetFailed && r != Skipped && a.patched.Some?)
      && (r == PatchFailed <==> r != GetFailed && r != Skipped && a.patched.None?)
      && (r == PatchFailed ==> Try(frequency, t, a).0.latest.None?)
      && (r == Reported ==> Try(frequency, t, a).0.latest == a.patched)
      && (r == Skipped && t.latest.Some? ==> Try(frequency, t, a).0.latest == Some(a.computed))
      && (r == GetFailed ==> Try(frequency, t, a).0 == t)
  {
    SkippedIffNoNews(frequency, s, attempts, a);
  }

  // ------------------------------------------------------------ the object

  class Node {
    var status: Status

    constructor (status: Status)
      ensures this.status == status
    {
      this.status := status;
    }
  }

  class Kubelet {
    const frequency: Time
    var latestNode: Node?
    var lastStatusReportTime: Time
    var volumesReported: seq<string>
    var lastObservedNodeAddresses: seq<string>
    ghost var accepted: Option<Status>

    constructor (frequency: Time)
      ensures this.frequency == frequency && View() == State(None, 0, None, [])
    {
      this.frequency := frequency;
      latestNode, lastStatusReportTime, volumesReported := null, 0, [];
      lastObservedNodeAddresses, accepted := [], None;
    }

    ghost function View(): State
      reads this, latestNode
    {
      State(if latestNode == null then None else Some(latestNode.status),
            lastStatusReportTime, accepted, volumesReported)
    }

    /** tryUpdateNodeStatus; the cached node is changed in place before the comparison. */
    method TryUpdateNodeStatus(a: Attempt) returns (result: Result)
      modifies this, latestNode
      ensures (View(), result) == Try(frequency, old(View()), a)
      ensures result == Reported ==> lastObservedNodeAddresses == a.patched.value.addresses
      ensures result != Reported ==> lastObservedNodeAddresses == old(lastObservedNodeAddresses)
    {
      var node := latestNode;
      if node == null {
        if a.fetched.None? { return GetFailed; }
        node := new Node(a.fetched.value);
      }
      var original := node.status;
      node.status := a.computed;
      if a.nodeLease && a.now < lastStatusReportTime + frequency {
        var changed := StatusHasChanged(original, node.status);
        if !a.podCIDRChanged && !changed {
          volumesReported := node.status.volumesInUse;
          return Skipped;
        }
      }
      if a.patched.None? {
        latestNode := null;
        return PatchFailed;
      }
      latestNode := new Node(a.patched.value);
      lastStatusReportTime := a.now;
      accepted := a.patched;
      lastObservedNodeAddresses := a.patched.value.addresses;
      volumesReported := a.patched.value.volumesInUse;
      return Reported;
    }
  }
}
