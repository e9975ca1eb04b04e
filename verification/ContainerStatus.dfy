/**
 The status of each container of a pod, merged from the old API status, the
 container runtime's records (newest and second newest) and failures to start.
 */
module ContainerStatus {
  import opened Wrappers
  import opened StableSort

  type Time = int

  datatype RuntimeState = RtCreated | RtRunning | RtExited | RtUnknown

  /** What the runtime knows of one container instance. */
  datatype Record = Record(
    name: string, id: string, state: RuntimeState,
    createdAt: Time, startedAt: Time, finishedAt: Time,
    exitCode: int, restartCount: int, image: string, imageId: string, reason: string, message: string)

  datatype Waiting = Waiting(reason: string, message: string)
  datatype Running = Running(startedAt: Time)
  datatype Terminated = Terminated(
    exitCode: int, reason: string, message: string, startedAt: Time, finishedAt: Time, containerId: string)

  /** Three pointers, of which one should be set. */
  datatype ContainerState = ContainerState(waiting: Option<Waiting>, running: Option<Running>,
                                           terminated: Option<Terminated>)

  const NO_STATE := ContainerState(None, None, None)

  predicate ExactlyOne(s: ContainerState) {
    || (s.waiting.Some? && s.running.None? && s.terminated.None?)
    || (s.waiting.None? && s.running.Some? && s.terminated.None?)
    || (s.waiting.None? && s.running.None? && s.terminated.Some?)
  }

  function WaitingState(reason: string, message: string): ContainerState {
    ContainerState(Some(Waiting(reason, message)), None, None)
  }

  datatype Status = Status(
    name: string, state: ContainerState, lastTermination: ContainerState,
    restartCount: int, image: string, imageId: string, containerId: string)

  function NameOf(s: Status): string { s.name }

  datatype Container = Container(name: string, image: string)

  datatype RestartPolicy = Always | OnFailure | Never

  datatype StartFailure = StartFailure(error: string, message: string)

  /** The pod as far as the conversion reads it; `failures` is the reason cache. */
  datatype PodInfo = PodInfo(deleting: bool, restartPolicy: RestartPolicy, failures: map<string, StartFailure>)

  /** convertContainerStatus; a created container counts as exited. */
  function Convert(r: Record): (s: Status)
    ensures s.name == r.name && ExactlyOne(s.state)
  {
    var state := match r.state
      case RtRunning => ContainerState(None, Some(Running(r.startedAt)), None)
      case RtCreated => Dead(r)
      case RtExited => Dead(r)
      case RtUnknown => WaitingState("", "");
    Status(r.name, state, NO_STATE, r.restartCount, r.image, r.imageId, r.id)
  }

  function Dead(r: Record): ContainerState {
    ContainerState(None, None, Some(Terminated(r.exitCode, r.reason, r.message, r.startedAt, r.finishedAt, r.id)))
  }

  /** What a converted record shows, field by field. */
  lemma ConvertShows(r: Record)
    ensures var s := Convert(r);
      && s.name == r.name
      && (s.state.running.Some? <==> r.state == RtRunning)
      && (s.state.running.Some? ==> s.state.running.value.startedAt == r.startedAt)
      && (s.state.waiting.Some? <==> r.state == RtUnknown)
      && (s.state.terminated.Some? <==> r.state == RtExited || r.state == RtCreated)
      && (s.state.terminated.Some? ==>
            var t := s.state.terminated.value;
            && t.exitCode == r.exitCode && t.reason == r.reason && t.message == r.message
            && t.startedAt == r.startedAt && t.finishedAt == r.finishedAt && t.containerId == r.id)
      && s.lastTermination == NO_STATE && s.restartCount == r.restartCount
      && s.image == r.image && s.imageId == r.imageId && s.containerId == r.id
  {
  }

  /** The old status of a container: the last of that name. */
  function OldOf(previous: seq<Status>, name: string): Option<Status> {
    if previous == [] then None
    else if previous[|previous| - 1].name == name then Some(previous[|previous| - 1])
    else OldOf(previous[..|previous| - 1], name)
  }

  /** Before the runtime is looked at: the old status if terminated, else a
      waiting one that carries over the restart count and the last termination. */
  function Default(c: Container, before: Option<Status>, reason: string): Status {
    var waiting := Status(c.name, WaitingState(reason, ""), NO_STATE, 0, c.image, "", "");
    match before
    case None => waiting
    case Some(o) =>
      if o.state.terminated.Some? then o
      else waiting.(restartCount := o.restartCount, lastTermination := o.lastTermination)
  }

  function RecordName(r: Record): string { r.name }

  /** The records of one container, in list order. */
  function RecordsOf(rs: seq<Record>, name: string): seq<Record> {
    Select(RecordName, rs, name)
  }

  /** What the runtime's records, newest first, make of the default. */
  function FromRecords(default: Status, rs: seq<Record>): Status {
    if rs == [] then default
    else if |rs| == 1 then Convert(rs[0])
    else Convert(rs[0]).(lastTermination := Convert(rs[1]).state)
  }

  /** FindContainerStatusByName */
  function FindRecord(rs: seq<Record>, name: string): Option<Record> {
    var mine := RecordsOf(rs, name);
    if mine == [] then None else Some(mine[0])
  }

  predicate ShouldBeRestarted(name: string, pod: PodInfo, rs: seq<Record>) {
    if pod.deleting then false
    else
      match FindRecord(rs, name)
      case None => true
      case Some(r) =>
        if r.state == RtRunning then false
        else if r.state == RtUnknown || r.state == RtCreated then true
        else if pod.restartPolicy == Never then false
        else if pod.restartPolicy == OnFailure && r.exitCode == 0 then false
        else true
  }

  predicate InitSucceeded(r: Option<Record>) {
    r.Some? && r.value.state == RtExited && r.value.exitCode == 0
  }

  /** Does the start-failure pass turn the container into a waiting one? */
  predicate FailsToStart(name: string, pod: PodInfo, rs: seq<Record>, isInit: bool) {
    && !(isInit && InitSucceeded(FindRecord(rs, name)))
    && ShouldBeRestarted(name, pod, rs)
    && name in pod.failures
  }

  /** When a container is to be restarted, by the newest record of it, if any: it
      is not running, and it never ran to an end, or the policy restarts such an end. */
  lemma RestartIff(name: string, pod: PodInfo, rs: seq<Record>)
    ensures ShouldBeRestarted(name, pod, rs) <==>
      && !pod.deleting
      && (FindRecord(rs, name).Some? ==>
            var r := FindRecord(rs, name).value;
            && r.state != RtRunning
            && (r.state == RtExited ==>
              pod.restartPolicy == Always || (pod.restartPolicy == OnFailure && r.exitCode != 0)))
  {
  }

  function AfterFailure(s: Status, f: StartFailure): Status {
    s.(state := WaitingState(f.error, f.message),
       lastTermination := if s.state.terminated.Some? then s.state else s.lastTermination)
  }

  function DefaultReason(hasInit: bool): string {
    if hasInit then "PodInitializing" else "ContainerCreating"
  }

  function BeforeFailures(c: Container, rs: seq<Record>, previous: seq<Status>, hasInit: bool): Status {
    FromRecords(Default(c, OldOf(previous, c.name), DefaultReason(hasInit)), RecordsOf(rs, c.name))
  }

  /** The status of container `c` in the result, for records sorted newest first. */
  function Final(c: Container, pod: PodInfo, rs: seq<Record>, previous: seq<Status>,
                 hasInit: bool, isInit: bool): Status {
    var s := BeforeFailures(c, rs, previous, hasInit);
    if FailsToStart(c.name, pod, rs, isInit) then AfterFailure(s, pod.failures[c.name]) else s
  }

  // ------------------------------------------------ newest record decides

  predicate Later(a: Time, b: Time) { a > b }

  function CreatedAt(r: Record): Time { r.createdAt }

  ghost predicate NewestFirst(rs: seq<Record>) {
    Sorted(Later, CreatedAt, rs)
  }

  ghost predicate DistinctTimes(rs: seq<Record>, name: string) {
    forall i, j :: 0 <= i < j < |rs| && rs[i].name == name && rs[j].name == name ==>
      rs[i].createdAt != rs[j].createdAt
  }

  lemma {:induction false} RecordsOfCount(rs: seq<Record>, name: string, x: Record)
    ensures multiset(RecordsOf(rs, name))[x] == if x.name == name then multiset(rs)[x] else 0
  {
    if rs != [] {
      RecordsOfCount(rs[1..], name, x);
      assert rs == [rs[0]] + rs[1..];
    }
  }

  lemma {:induction false} RecordsOfStrict(rs: seq<Record>, name: string)
    requires NewestFirst(rs) && DistinctTimes(rs, name)
    ensures StrictlySorted(Later, CreatedAt, RecordsOf(rs, name))
  {
    if rs != [] {
      RecordsOfStrict(rs[1..], name);
      if rs[0].name == name { FirstIsLatest(rs, name); }
    }
  }

  lemma FirstIsLatest(rs: seq<Record>, name: string)
    requires NewestFirst(rs) && DistinctTimes(rs, name) && rs != [] && rs[0].name == name
    ensures forall i :: 0 <= i < |RecordsOf(rs[1..], name)| ==> RecordsOf(rs[1..], name)[i].createdAt < rs[0].createdAt
  {
    var mine := RecordsOf(rs[1..], name);
    SelectMember(RecordName, rs[1..], name);
    forall i | 0 <= i < |mine| ensures mine[i].createdAt < rs[0].createdAt {
      assert mine[i] in mine;
      var j :| 0 <= j < |rs[1..]| && rs[1..][j] == mine[i];
      assert rs[j + 1] == mine[i];
    }
  }

  /** The order in which the runtime lists its records does not matter: any two
      newest-first arrangements give a container with distinct creation times the same records. */
  lemma ListingOrderIsIrrelevant(a: seq<Record>, b: seq<Record>, name: string)
    requires multiset(a) == multiset(b) && NewestFirst(a) && NewestFirst(b)
    requires DistinctTimes(a, name) && DistinctTimes(b, name)
    ensures RecordsOf(a, name) == RecordsOf(b, name)
  {
    RecordsOfStrict(a, name);
    RecordsOfStrict(b, name);
    SameRecords(a, b, name);
    StrictUnique(Later, CreatedAt, RecordsOf(a, name), RecordsOf(b, name));
  }

  lemma SameRecords(a: seq<Record>, b: seq<Record>, name: string)
    requires multiset(a) == multiset(b)
    ensures multiset(RecordsOf(a, name)) == multiset(RecordsOf(b, name))
  {
    forall r ensures multiset(RecordsOf(a, name))[r] == multiset(RecordsOf(b, name))[r] {
      RecordsOfCount(a, name, r);
      RecordsOfCount(b, name, r);
    }
  }

  /** So the result for the container is the same. */
  lemma FinalIgnoresListing(c: Container, pod: PodInfo, a: seq<Record>, b: seq<Record>, previous: seq<Status>,
                            hasInit: bool, isInit: bool)
    requires multiset(a) == multiset(b) && NewestFirst(a) && NewestFirst(b)
    requires DistinctTimes(a, c.name) && DistinctTimes(b, c.name)
    ensures Final(c, pod, a, previous, hasInit, isInit) == Final(c, pod, b, previous, hasInit, isInit)
  {
    ListingOrderIsIrrelevant(a, b, c.name);
  }

  /** Record `r` is the newest of its container's records apart from those of `but`. */
  ghost predicate NewestBut(rs: seq<Record>, r: Record, but: set<Record>) {
    && r in rs && r !in but
    && forall x :: x in rs && x.name == r.name && x !in but && x != r ==> x.createdAt < r.createdAt
  }

  /** Before the start-failure pass: the status is the conversion of the newest
      record, and the last termination state is that of the second newest, or
      empty if there is no second one. */
  lemma NewestDecides(c: Container, rs: seq<Record>, previous: seq<Status>, hasInit: bool, newest: Record)
    requires NewestFirst(rs) && DistinctTimes(rs, c.name)
    requires newest.name == c.name && NewestBut(rs, newest, {})
    ensures var s := BeforeFailures(c, rs, previous, hasInit);
      && s == Convert(newest).(lastTermination := s.lastTermination)
      && (forall second: Record :: second.name == c.name && NewestBut(rs, second, {newest}) ==>
            s.lastTermination == Convert(second).state)
      && ((forall r :: r in rs && r.name == c.name ==> r == newest) ==> s.lastTermination == NO_STATE)
  {
    RecordsOfStrict(rs, c.name);
    var mine := RecordsOf(rs, c.name);
    SelectMember(RecordName, rs, c.name);
    assert newest in mine;
    assert mine[0] in mine && mine[0] == newest;
    if |mine| > 1 {
      assert mine[1] in mine && mine[1] != newest;
    }
    forall second: Record | second.name == c.name && NewestBut(rs, second, {newest})
      ensures |mine| > 1 && mine[1] == second
    {
      assert second in mine;
      var i :| 0 <= i < |mine| && mine[i] == second;
    }
  }

  // ------------------------------------------------ containers without records

  /** A container that nothing is known of waits, for the init containers if there
      are any, or for the error of its failed start. */
  lemma UnknownContainerWaits(c: Container, pod: PodInfo, rs: seq<Record>, previous: seq<Status>,
                              hasInit: bool, isInit: bool)
    requires RecordsOf(rs, c.name) == [] && OldOf(previous, c.name).None?
    ensures var s := Final(c, pod, rs, previous, hasInit, isInit);
      && s.state.waiting.Some? && s.lastTermination == NO_STATE && s.restartCount == 0
      && s.name == c.name && s.image == c.image && s.imageId == "" && s.containerId == ""
      && (!pod.deleting && c.name in pod.failures ==>
            s.state.waiting.value == Waiting(pod.failures[c.name].error, pod.failures[c.name].message))
      && (pod.deleting || c.name !in pod.failures ==>
            s.state.waiting.value == Waiting(if hasInit then "PodInitializing" else "ContainerCreating", ""))
  {
  }

  /** A known failure to start is shown, exactly if the container is to be
      restarted and is no init container that has succeeded. */
  lemma StartFailureShown(c: Container, pod: PodInfo, rs: seq<Record>, previous: seq<Status>, hasInit: bool,
                          isInit: bool)
    requires c.name in pod.failures
    ensures var s := Final(c, pod, rs, previous, hasInit, isInit);
      var r := FindRecord(rs, c.name);
      var succeeded := isInit && r.Some? && r.value.state == RtExited && r.value.exitCode == 0;
      if ShouldBeRestarted(c.name, pod, rs) && !succeeded then
        s.state == WaitingState(pod.failures[c.name].error, pod.failures[c.name].message)
      else s == BeforeFailures(c, rs, previous, hasInit)
  {
  }

  // ---------------------------------------------------- repeated conversions

  /** The latest termination that a status tells of. */
  function LatestTermination(s: Status): Option<Terminated> {
    if s.state.terminated.Some? then s.state.terminated else s.lastTermination.terminated
  }

  predicate IsDead(r: Record) {
    r.state == RtExited || r.state == RtCreated
  }

  /** What a result shows of the past, exactly: without records the termination
      and the restart count of the old status; else the termination of the newest
      or of the second newest record and the newest one's count. A failure to
      start changes none of it. */
  lemma TerminationShown(c: Container, pod: PodInfo, rs: seq<Record>, previous: seq<Status>,
                         hasInit: bool, isInit: bool)
    ensures var s := Final(c, pod, rs, previous, hasInit, isInit);
      var mine, o := RecordsOf(rs, c.name), OldOf(previous, c.name);
      if mine == [] then
        && LatestTermination(s) == (if o.Some? then LatestTermination(o.value) else None)
        && s.restartCount == if o.Some? then o.value.restartCount else 0
      else
        && LatestTermination(s) ==
             (if IsDead(mine[0]) then Dead(mine[0]).terminated
              else if |mine| > 1 && IsDead(mine[1]) then Dead(mine[1]).terminated else None)
        && s.restartCount == mine[0].restartCount
  {
  }

  /** A known termination disappears from the status exactly when the runtime has
      records of the container, but the one or two newest are not of a dead instance. */
  lemma TerminationIsLostIff(c: Container, pod: PodInfo, rs: seq<Record>, previous: seq<Status>,
                             hasInit: bool, isInit: bool)
    requires OldOf(previous, c.name).Some? && LatestTermination(OldOf(previous, c.name).value).Some?
    ensures LatestTermination(Final(c, pod, rs, previous, hasInit, isInit)).None? <==>
      var mine := RecordsOf(rs, c.name); mine != [] && !IsDead(mine[0]) && !(|mine| > 1 && IsDead(mine[1]))
  {
    TerminationShown(c, pod, rs, previous, hasInit, isInit);
  }

  /** It does happen: the dead instance has been collected and its successor runs. */
  lemma CollectedTerminationIsLost(c: Container, t: Terminated, r: Record, pod: PodInfo)
    requires r.name == c.name && r.state == RtRunning
    ensures var known := ContainerState(None, None, Some(t));
      var o := Status(c.name, ContainerState(None, Some(Running(0)), None), known, 1, c.image, "", "");
      && LatestTermination(o) == Some(t)
      && LatestTermination(Final(c, pod, [r], [o], false, false)) == None
  {
    var known := ContainerState(None, None, Some(t));
    var o := Status(c.name, ContainerState(None, Some(Running(0)), None), known, 1, c.image, "", "");
    SelectCons(RecordName, r, [], c.name);
    assert [r] + [] == [r];
    TerminationIsLostIff(c, pod, [r], [o], false, false);
  }

  /** The one case in which converting the result again gives something else: the
      old status of a terminated container keeps its image and ids in the first
      conversion, and loses them in the second because the container now waits. */
  predicate Unsettled(c: Container, pod: PodInfo, rs: seq<Record>, previous: seq<Status>, isInit: bool) {
    var o := OldOf(previous, c.name);
    && RecordsOf(rs, c.name) == [] && FailsToStart(c.name, pod, rs, isInit)
    && o.Some? && o.value.state.terminated.Some?
    && !(o.value.image == c.image && o.value.imageId == "" && o.value.containerId == "")
  }

  /** Converting again, with the first result as the old status, changes nothing
      unless `Unsettled`; a third conversion never changes anything. */
  lemma ConversionSettles(c: Container, pod: PodInfo, rs: seq<Record>,
                          first: seq<Status>, second: seq<Status>, third: seq<Status>, hasInit: bool, isInit: bool)
    requires OldOf(second, c.name) == Some(Final(c, pod, rs, first, hasInit, isInit))
    requires OldOf(third, c.name) == Some(Final(c, pod, rs, second, hasInit, isInit))
    ensures Final(c, pod, rs, second, hasInit, isInit) == Final(c, pod, rs, first, hasInit, isInit) <==>
      !Unsettled(c, pod, rs, first, isInit)
    ensures Final(c, pod, rs, third, hasInit, isInit) == Final(c, pod, rs, second, hasInit, isInit)
  {
    OldOfFound(first, c.name);
  }

  /** The unsettled case happens: a terminated container whose records are gone
      and which fails to start loses its image id in the second conversion. */
  lemma ImageIdIsLostLate(c: Container, t: Terminated, f: StartFailure)
    ensures var o := Status(c.name, ContainerState(None, None, Some(t)), NO_STATE, 1, c.image, "id", "");
      var pod := PodInfo(false, Always, map[c.name := f]);
      var once := Final(c, pod, [], [o], false, false);
      once.imageId == "id" && Final(c, pod, [], [once], false, false).imageId == ""
  {
  }

  // -------------------------------------------------------- well-formedness

  ghost predicate WellFormedOld(previous: seq<Status>) {
    forall i :: 0 <= i < |previous| && previous[i].state.terminated.Some? ==> ExactlyOne(previous[i].state)
  }

  lemma {:induction false} OldOfFound(previous: seq<Status>, name: string)
    ensures var o := OldOf(previous, name); o.Some? ==> o.value.name == name && o.value in previous
  {
    if previous != [] { OldOfFound(previous[..|previous| - 1], name); }
  }

  lemma RecordsOfName(rs: seq<Record>, name: string)
    ensures forall i :: 0 <= i < |RecordsOf(rs, name)| ==> RecordsOf(rs, name)[i].name == name
  {
    SelectMember(RecordName, rs, name);
    forall i | 0 <= i < |RecordsOf(rs, name)| ensures RecordsOf(rs, name)[i].name == name {
      assert RecordsOf(rs, name)[i] in RecordsOf(rs, name);
    }
  }

  /** Exactly one of waiting, running and terminated, under the container's name. */
  lemma FinalIsWellFormed(c: Container, pod: PodInfo, rs: seq<Record>, previous: seq<Status>,
                          hasInit: bool, isInit: bool)
    requires WellFormedOld(previous)
    ensures var s := Final(c, pod, rs, previous, hasInit, isInit); s.name == c.name && ExactlyOne(s.state)
  {
    OldOfFound(previous, c.name);
    RecordsOfName(rs, c.name);
  }
}
