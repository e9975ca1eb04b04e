/**
 The phase of a pod from the statuses of its containers: getPhase with its
 counters, what each phase means, and the guard of terminal phases.
 */
module PodPhase {
  import opened Wrappers
  import opened StableSort
  import opened ContainerStatus

  datatype Phase = PodPending | PodRunning | PodSucceeded | PodFailed | PodNoSchedule

  datatype PodSpec = PodSpec(initContainers: seq<Container>, containers: seq<Container>, restartPolicy: RestartPolicy)

  /** podutil.GetContainerStatus: the first status of that name. */
  function Lookup(info: seq<Status>, name: string): Option<Status> {
    if info == [] then None
    else if info[0].name == name then Some(info[0])
    else Lookup(info[1..], name)
  }

  datatype InitProgress = InitPending | InitFailed | InitDone

  function InitOf(s: Option<Status>): InitProgress {
    if s.None? || s.value.state.running.Some? then InitPending
    else
      var last := if s.value.state.terminated.Some? then s.value.state.terminated
                  else if s.value.state.waiting.Some? then s.value.lastTermination.terminated
                  else None;
      match last
      case None => InitPending
      case Some(t) => if t.exitCode != 0 then InitFailed else InitDone
  }

  datatype Progress = Unknown | NotStarted | Up | Stopped(success: bool)

  function ProgressOf(s: Option<Status>): Progress {
    if s.None? then Unknown
    else if s.value.state.running.Some? then Up
    else if s.value.state.terminated.Some? then Stopped(s.value.state.terminated.value.exitCode == 0)
    else if s.value.state.waiting.Some? then
      if s.value.lastTermination.terminated.Some? then Stopped(false) else NotStarted
    else Unknown
  }

  function Inits(cs: seq<Container>, info: seq<Status>): seq<InitProgress> {
    seq(|cs|, i requires 0 <= i < |cs| => InitOf(Lookup(info, cs[i].name)))
  }

  function Mains(cs: seq<Container>, info: seq<Status>): seq<Progress> {
    seq(|cs|, i requires 0 <= i < |cs| => ProgressOf(Lookup(info, cs[i].name)))
  }

  predicate InitGivenUp(policy: RestartPolicy, inits: seq<InitProgress>) {
    policy == Never && InitFailed in inits
  }

  /** No container is unknown or still to be started, and there is at least one. */
  predicate AllStarted(mains: seq<Progress>) {
    mains != [] && forall i :: 0 <= i < |mains| ==> mains[i].Up? || mains[i].Stopped?
  }

  predicate AllStopped(mains: seq<Progress>) {
    mains != [] && forall i :: 0 <= i < |mains| ==> mains[i].Stopped?
  }

  /** What each phase says about the containers; the four cases exclude each other and cover everything. */
  predicate Means(phase: Phase, policy: RestartPolicy, inits: seq<InitProgress>, mains: seq<Progress>) {
    match phase
    case PodFailed =>
      policy == Never &&
      (InitFailed in inits || (InitPending !in inits && AllStopped(mains) && Stopped(false) in mains))
    case PodSucceeded =>
      && policy != Always && !InitGivenUp(policy, inits) && InitPending !in inits
      && AllStopped(mains) && Stopped(false) !in mains
    case PodRunning =>
      && !InitGivenUp(policy, inits) && InitPending !in inits && AllStarted(mains)
      && (Up in mains || policy == Always || (policy == OnFailure && Stopped(false) in mains))
    case PodPending =>
      !InitGivenUp(policy, inits) && (InitPending in inits || !AllStarted(mains))
    case PodNoSchedule => false
  }

  /** Exactly one phase fits. */
  lemma MeaningIsUnique(p: Phase, q: Phase, policy: RestartPolicy, inits: seq<InitProgress>, mains: seq<Progress>)
    requires Means(p, policy, inits, mains) && Means(q, policy, inits, mains)
    ensures p == q
  {
    if AllStopped(mains) { assert mains[0].Stopped?; }
  }

  // ------------------------------------- the same, said of the statuses

  /** A running container, whatever else its status says. */
  predicate IsUp(s: Option<Status>) {
    s.Some? && s.value.state.running.Some?
  }

  /** Not running, and terminated or waiting after a termination. */
  predicate HasEnded(s: Option<Status>) {
    && s.Some? && s.value.state.running.None?
    && (s.value.state.terminated.Some? || (s.value.state.waiting.Some? && s.value.lastTermination.terminated.Some?))
  }

  predicate EndedWell(s: Option<Status>) {
    && s.Some? && s.value.state.running.None?
    && s.value.state.terminated.Some? && s.value.state.terminated.value.exitCode == 0
  }

  /** The exit code that an init container is judged by: that of its termination,
      or of its last one if it waits. */
  predicate InitExited(s: Option<Status>, well: bool) {
    && HasEnded(s)
    && var t := if s.value.state.terminated.Some? then s.value.state.terminated.value
                else s.value.lastTermination.terminated.value;
       (t.exitCode == 0) == well
  }

  /** What each phase says, of the statuses found for the containers of the spec. */
  predicate Says(phase: Phase, policy: RestartPolicy, inits: seq<Option<Status>>, mains: seq<Option<Status>>) {
    var initFailed := exists i :: 0 <= i < |inits| && InitExited(inits[i], false);
    var initsOver := forall i :: 0 <= i < |inits| ==> InitExited(inits[i], true) || InitExited(inits[i], false);
    var allBegun := mains != [] && forall i :: 0 <= i < |mains| ==> IsUp(mains[i]) || HasEnded(mains[i]);
    var allEnded := mains != [] && forall i :: 0 <= i < |mains| ==> HasEnded(mains[i]);
    var allWell := forall i :: 0 <= i < |mains| ==> EndedWell(mains[i]);
    var someUp := exists i :: 0 <= i < |mains| && IsUp(mains[i]);
    match phase
    case PodFailed => policy == Never && (initFailed || (initsOver && allEnded && !allWell))
    case PodSucceeded => policy != Always && !(policy == Never && initFailed) && initsOver && allEnded && allWell
    case PodRunning =>
      && !(policy == Never && initFailed) && initsOver && allBegun
      && (someUp || policy == Always || (policy == OnFailure && !allWell))
    case PodPending => !(policy == Never && initFailed) && (!initsOver || !allBegun)
    case PodNoSchedule => false
  }

  function Found(cs: seq<Container>, info: seq<Status>): seq<Option<Status>> {
    seq(|cs|, i requires 0 <= i < |cs| => Lookup(info, cs[i].name))
  }

  lemma ClassesSay(s: Option<Status>)
    ensures ProgressOf(s).Up? <==> IsUp(s)
    ensures ProgressOf(s).Stopped? <==> HasEnded(s)
    ensures ProgressOf(s) == Stopped(true) <==> EndedWell(s)
    ensures InitOf(s) == InitFailed <==> InitExited(s, false)
    ensures InitOf(s) == InitDone <==> InitExited(s, true)
  {
  }

  /** A phase has its meaning exactly when it says what it should of the statuses themselves. */
  lemma MeansSays(phase: Phase, policy: RestartPolicy, spec: PodSpec, info: seq<Status>)
    ensures Means(phase, policy, Inits(spec.initContainers, info), Mains(spec.containers, info)) <==>
      Says(phase, policy, Found(spec.initContainers, info), Found(spec.containers, info))
  {
    var inits, mains := Inits(spec.initContainers, info), Mains(spec.containers, info);
    var found, ms := Found(spec.initContainers, info), Found(spec.containers, info);
    forall i | 0 <= i < |ms|
      ensures (mains[i].Up? <==> IsUp(ms[i])) && (mains[i].Stopped? <==> HasEnded(ms[i]))
      ensures mains[i] == Stopped(true) <==> EndedWell(ms[i])
      ensures mains[i] in mains
    {
      ClassesSay(ms[i]);
    }
    forall i | 0 <= i < |found|
      ensures (inits[i] == InitFailed <==> InitExited(found[i], false)) &&
        (inits[i] == InitDone <==> InitExited(found[i], true))
      ensures inits[i] in inits
    {
      ClassesSay(found[i]);
    }
    InitFacts(inits, found);
    MainFacts(mains, ms);
  }

  lemma InitFacts(inits: seq<InitProgress>, found: seq<Option<Status>>)
    requires |inits| == |found|
    requires forall i :: 0 <= i < |found| ==> (inits[i] == InitFailed <==> InitExited(found[i], false))
    requires forall i :: 0 <= i < |found| ==> (inits[i] == InitDone <==> InitExited(found[i], true))
    ensures InitFailed in inits <==> exists i :: 0 <= i < |found| && InitExited(found[i], false)
    ensures InitPending !in inits <==>
      forall i :: 0 <= i < |found| ==> InitExited(found[i], true) || InitExited(found[i], false)
  {
    forall i | 0 <= i < |found| ensures inits[i] in inits {}
  }

  lemma MainFacts(mains: seq<Progress>, ms: seq<Option<Status>>)
    requires |mains| == |ms|
    requires forall i :: 0 <= i < |ms| ==> (mains[i].Up? <==> IsUp(ms[i])) && (mains[i].Stopped? <==> HasEnded(ms[i]))
    requires forall i :: 0 <= i < |ms| ==> (mains[i] == Stopped(true) <==> EndedWell(ms[i]))
    ensures AllStarted(mains) <==> ms != [] && forall i :: 0 <= i < |ms| ==> IsUp(ms[i]) || HasEnded(ms[i])
    ensures AllStopped(mains) <==> ms != [] && forall i :: 0 <= i < |ms| ==> HasEnded(ms[i])
    ensures Up in mains <==> exists i :: 0 <= i < |ms| && IsUp(ms[i])
    ensures AllStopped(mains) ==> (Stopped(false) !in mains <==> forall i :: 0 <= i < |ms| ==> EndedWell(ms[i]))
    ensures AllStarted(mains) && Up !in mains ==> AllStopped(mains)
  {
    forall i | 0 <= i < |ms| ensures mains[i] in mains {}
  }

  method GetPhase(spec: PodSpec, info: seq<Status>) returns (phase: Phase)
    ensures Means(phase, spec.restartPolicy, Inits(spec.initContainers, info), Mains(spec.containers, info))
    ensures Says(phase, spec.restartPolicy, Found(spec.initContainers, info), Found(spec.containers, info))
  {
    phase := JudgeCounts(spec, info);
    MeansSays(phase, spec.restartPolicy, spec, info);
  }

  /** getPhase by its counters. */
  method JudgeCounts(spec: PodSpec, info: seq<Status>) returns (phase: Phase)
    ensures Means(phase, spec.restartPolicy, Inits(spec.initContainers, info), Mains(spec.containers, info))
  {
    ghost var inits, mains := Inits(spec.initContainers, info), Mains(spec.containers, info);
    var pendingInitialization, failedInitialization := CountInits(spec.initContainers, info);
    var unknown, running, waiting, stopped, succeeded := CountMains(spec.containers, info);
    CountsTell(inits, mains);
    if failedInitialization > 0 && spec.restartPolicy == Never {
      return PodFailed;
    }
    if pendingInitialization > 0 || waiting > 0 {
      return PodPending;
    }
    if running > 0 && unknown == 0 {
      return PodRunning;
    }
    if running == 0 && stopped > 0 && unknown == 0 {
      if spec.restartPolicy == Always { return PodRunning; }
      if stopped == succeeded { return PodSucceeded; }
      if spec.restartPolicy == Never { return PodFailed; }
      return PodRunning;
    }
    return PodPending;
  }

  /** From the counters to what the list contains. */
  lemma CountsTell(inits: seq<InitProgress>, mains: seq<Progress>)
    ensures multiset(inits)[InitPending] > 0 <==> InitPending in inits
    ensures multiset(inits)[InitFailed] > 0 <==> InitFailed in inits
    ensures forall x :: multiset(mains)[x] > 0 <==> x in mains
    ensures AllStarted(mains) <==> mains != [] && NotStarted !in mains && Unknown !in mains
    ensures AllStopped(mains) <==> mains != [] && NotStarted !in mains && Unknown !in mains && Up !in mains
    ensures mains != [] ==>
      Unknown in mains || NotStarted in mains || Up in mains || Stopped(true) in mains || Stopped(false) in mains
  {
    forall i | 0 <= i < |mains| ensures mains[i] in mains {}
    if mains != [] {
      assert mains[0] in mains;
      assert mains[0].Stopped? ==> mains[0] == Stopped(true) || mains[0] == Stopped(false);
    }
  }

  method CountInits(cs: seq<Container>, info: seq<Status>) returns (pending: nat, failed: nat)
    ensures pending == multiset(Inits(cs, info))[InitPending] && failed == multiset(Inits(cs, info))[InitFailed]
  {
    pending, failed := 0, 0;
    ghost var all := Inits(cs, info);
    for i := 0 to |cs|
      invariant pending == multiset(all[..i])[InitPending] && failed == multiset(all[..i])[InitFailed]
    {
      assert all[..i + 1] == all[..i] + [all[i]];
      var status := Lookup(info, cs[i].name);
      if status.None? {
        pending := pending + 1;
      } else if status.value.state.running.Some? {
        pending := pending + 1;
      } else if status.value.state.terminated.Some? {
        if status.value.state.terminated.value.exitCode != 0 {
          failed := failed + 1;
        }
      } else if status.value.state.waiting.Some? {
        if status.value.lastTermination.terminated.Some? {
          if status.value.lastTermination.terminated.value.exitCode != 0 {
            failed := failed + 1;
          }
        } else {
          pending := pending + 1;
        }
      } else {
        pending := pending + 1;
      }
    }
    assert all[..|cs|] == all;
  }

  method CountMains(cs: seq<Container>, info: seq<Status>)
    returns (unknown: nat, running: nat, waiting: nat, stopped: nat, succeeded: nat)
    ensures var m := multiset(Mains(cs, info));
      && unknown == m[Unknown] && running == m[Up] && waiting == m[NotStarted]
      && stopped == m[Stopped(true)] + m[Stopped(false)] && succeeded == m[Stopped(true)]
  {
    unknown, running, waiting, stopped, succeeded := 0, 0, 0, 0, 0;
    ghost var all := Mains(cs, info);
    for i := 0 to |cs|
      invariant unknown == multiset(all[..i])[Unknown] && running == multiset(all[..i])[Up]
      invariant waiting == multiset(all[..i])[NotStarted]
      invariant stopped == multiset(all[..i])[Stopped(true)] + multiset(all[..i])[Stopped(false)]
      invariant succeeded == multiset(all[..i])[Stopped(true)]
    {
      assert all[..i + 1] == all[..i] + [all[i]];
      var status := Lookup(info, cs[i].name);
      if status.None? {
        unknown := unknown + 1;
      } else if status.value.state.running.Some? {
        running := running + 1;
      } else if status.value.state.terminated.Some? {
        stopped := stopped + 1;
        if status.value.state.terminated.value.exitCode == 0 {
          succeeded := succeeded + 1;
        }
      } else if status.value.state.waiting.Some? {
        if status.value.lastTermination.terminated.Some? {
          stopped := stopped + 1;
        } else {
          waiting := waiting + 1;
        }
      } else {
        unknown := unknown + 1;
      }
    }
    assert all[..|cs|] == all;
  }

  // -------------------------------------------- phases of converted statuses

  lemma {:induction false} LookupFinds(info: seq<Status>, s: Status)
    requires DistinctKeys(NameOf, info) && s in info
    ensures Lookup(info, s.name) == Some(s)
  {
    var i :| 0 <= i < |info| && info[i] == s;
    if i > 0 {
      assert info[1..][i - 1] == s;
      LookupFinds(info[1..], s);
    }
  }

  /** `info` holds exactly one well-formed status for each container of the spec. */
  ghost predicate Covers(info: seq<Status>, spec: PodSpec, main: Container -> Status, init: Container -> Status) {
    && DistinctKeys(NameOf, info)
    && (forall i :: 0 <= i < |spec.containers| ==> var s := main(spec.containers[i]);
          s in info && s.name == spec.containers[i].name && ExactlyOne(s.state))
    && (forall i :: 0 <= i < |spec.initContainers| ==> var s := init(spec.initContainers[i]);
          s in info && s.name == spec.initContainers[i].name && ExactlyOne(s.state))
  }

  predicate SucceededContainer(s: Status) {
    s.state.terminated.Some? && s.state.terminated.value.exitCode == 0
  }

  predicate CompletedInit(s: Status) {
    SucceededContainer(s) ||
      (s.state.waiting.Some? && s.lastTermination.terminated.Some? && s.lastTermination.terminated.value.exitCode == 0)
  }

  predicate FailedInit(s: Status) {
    || (s.state.terminated.Some? && s.state.terminated.value.exitCode != 0)
    || (s.state.waiting.Some? && s.lastTermination.terminated.Some? && s.lastTermination.terminated.value.exitCode != 0)
  }

  lemma CoveredClasses(info: seq<Status>, spec: PodSpec, main: Container -> Status, init: Container -> Status)
    requires Covers(info, spec, main, init)
    ensures forall i :: 0 <= i < |spec.containers| ==>
      Mains(spec.containers, info)[i] == ProgressOf(Some(main(spec.containers[i])))
    ensures forall i :: 0 <= i < |spec.initContainers| ==>
      Inits(spec.initContainers, info)[i] == InitOf(Some(init(spec.initContainers[i])))
    ensures Unknown !in Mains(spec.containers, info)
  {
    forall i | 0 <= i < |spec.containers|
      ensures Mains(spec.containers, info)[i] == ProgressOf(Some(main(spec.containers[i])))
      ensures Mains(spec.containers, info)[i] != Unknown
    {
      LookupFinds(info, main(spec.containers[i]));
    }
    forall i | 0 <= i < |spec.initContainers|
      ensures Inits(spec.initContainers, info)[i] == InitOf(Some(init(spec.initContainers[i])))
    {
      LookupFinds(info, init(spec.initContainers[i]));
    }
  }

  /** For converted statuses: no container is unknown, and the pod has succeeded
      exactly when the policy is not Always, there is a container, all have
      terminated with code 0, and every init container has completed or has
      failed with a policy that still retries it. */
  lemma ConvertedPodSucceedsIff(info: seq<Status>, spec: PodSpec, main: Container -> Status, init: Container -> Status)
    requires Covers(info, spec, main, init)
    ensures Unknown !in Mains(spec.containers, info)
    ensures Means(PodSucceeded, spec.restartPolicy, Inits(spec.initContainers, info), Mains(spec.containers, info)) <==>
      && spec.restartPolicy != Always && spec.containers != []
      && (forall i :: 0 <= i < |spec.containers| ==> SucceededContainer(main(spec.containers[i])))
      && (forall i :: 0 <= i < |spec.initContainers| ==>
            CompletedInit(init(spec.initContainers[i])) ||
              (spec.restartPolicy == OnFailure && FailedInit(init(spec.initContainers[i]))))
  {
    CoveredClasses(info, spec, main, init);
    var inits, mains := Inits(spec.initContainers, info), Mains(spec.containers, info);
    var ok := Means(PodSucceeded, spec.restartPolicy, inits, mains);
    forall i | 0 <= i < |mains| ensures mains[i] == Stopped(true) <==> SucceededContainer(main(spec.containers[i])) {
      assert mains[i] in mains;
    }
    forall i | 0 <= i < |inits|
      ensures inits[i] == InitDone <==> CompletedInit(init(spec.initContainers[i]))
      ensures inits[i] == InitFailed <==> FailedInit(init(spec.initContainers[i]))
    {
      assert inits[i] in inits;
    }
  }

  /** On converted statuses each container's own status is the one found. */
  lemma FoundIsOwn(info: seq<Status>, spec: PodSpec, main: Container -> Status, init: Container -> Status)
    requires Covers(info, spec, main, init)
    ensures forall i :: 0 <= i < |spec.containers| ==> Found(spec.containers, info)[i] == Some(main(spec.containers[i]))
    ensures forall i :: 0 <= i < |spec.initContainers| ==>
      Found(spec.initContainers, info)[i] == Some(init(spec.initContainers[i]))
  {
    forall i | 0 <= i < |spec.containers|
      ensures Found(spec.containers, info)[i] == Some(main(spec.containers[i]))
    {
      LookupFinds(info, main(spec.containers[i]));
    }
    forall i | 0 <= i < |spec.initContainers|
      ensures Found(spec.initContainers, info)[i] == Some(init(spec.initContainers[i]))
    {
      LookupFinds(info, init(spec.initContainers[i]));
    }
  }

  /** Two status lists whose containers have the same statuses have the same phase. */
  lemma CoveredPhasesAgree(info: seq<Status>, other: seq<Status>, spec: PodSpec, p: Phase, q: Phase,
                           main: Container -> Status, init: Container -> Status,
                           main': Container -> Status, init': Container -> Status)
    requires Covers(info, spec, main, init) && Covers(other, spec, main', init')
    requires forall i :: 0 <= i < |spec.containers| ==> main(spec.containers[i]) == main'(spec.containers[i])
    requires forall i :: 0 <= i < |spec.initContainers| ==>
      init(spec.initContainers[i]) == init'(spec.initContainers[i])
    requires Means(p, spec.restartPolicy, Inits(spec.initContainers, info), Mains(spec.containers, info))
    requires Means(q, spec.restartPolicy, Inits(spec.initContainers, other), Mains(spec.containers, other))
    ensures p == q
  {
    CoveredClasses(info, spec, main, init);
    CoveredClasses(other, spec, main', init');
    assert Mains(spec.containers, info) == Mains(spec.containers, other);
    assert Inits(spec.initContainers, info) == Inits(spec.initContainers, other);
    MeaningIsUnique(p, q, spec.restartPolicy, Inits(spec.initContainers, info), Mains(spec.containers, info));
  }

  // -------------------------------------------------------- terminal phases

  datatype VirtualMachine = VirtualMachine(active: bool, shutdownRequested: bool)

  function MachinePhase(vm: VirtualMachine): Phase {
    if vm.active then PodRunning else if vm.shutdownRequested then PodNoSchedule else PodPending
  }

  predicate Terminal(p: Phase) {
    p == PodFailed || p == PodSucceeded
  }

  /** The phase that one sync reports: an eviction fails the pod, else a terminal
      phase that the API server shows is kept, else the observed phase counts. */
  function Reported(evicted: bool, observed: Phase, api: Phase): Phase {
    if evicted then PodFailed else if Terminal(api) then api else observed
  }

  /** One sync of a pod: did a handler evict it, and the phase computed from what runs. */
  datatype Sync = Sync(evicted: bool, observed: Phase)

  /** The phase at the API server after the syncs, when each report gets there. */
  function PhaseAfter(api: Phase, syncs: seq<Sync>): Phase
    decreases |syncs|
  {
    if syncs == [] then api else PhaseAfter(Reported(syncs[0].evicted, syncs[0].observed, api), syncs[1..])
  }

  /** The code means to keep a terminal phase for good. Over all runs of syncs:
      Failed stays, and Succeeded stays until an eviction, which returns before
      the guard, turns it into Failed for good. */
  lemma {:induction false} TerminalPhaseOverRuns(api: Phase, syncs: seq<Sync>)
    requires Terminal(api)
    ensures PhaseAfter(api, syncs) ==
      if api == PodSucceeded && (exists i :: 0 <= i < |syncs| && syncs[i].evicted) then PodFailed else api
    decreases |syncs|
  {
    if syncs != [] {
      TerminalPhaseOverRuns(Reported(syncs[0].evicted, syncs[0].observed, api), syncs[1..]);
      assert forall i :: 0 < i < |syncs| ==> syncs[i] == syncs[1..][i - 1];
      assert forall i :: 0 <= i < |syncs| - 1 ==> syncs[1..][i] == syncs[i + 1];
    }
  }
}
