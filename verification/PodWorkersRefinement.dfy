/**
 What a client of the pod workers may rely on, stated on a machine that knows
 one pod only: at most one update in flight, and the list of everything that
 was submitted since that update was handed over.

 Every interleaving of `PodWorkers` refines this machine, pod by pod, with the
 same sequence of processed updates. The delivery guarantees are then proved on
 the machine.
 */
module PodWorkersRefinement {
  import opened Wrappers
  import opened PodWorkers

  datatype Pod =
    | Idle
    | Busy(inFlight: Update, started: bool, waiting: seq<Update>)

  datatype PodEvent = Submitted(update: Update) | Dropped | Started | Finished

  /** One step with the update whose processing begins in it, if any. */
  datatype PodStep = PodStep(pod: Pod, processed: seq<Update>)

  predicate HasKill(w: seq<Update>) {
    exists i :: 0 <= i < |w| && IsKill(w[i])
  }

  /** The first kill submitted, else the latest update. */
  function Choose(w: seq<Update>): (x: Update)
    requires w != []
    ensures x in w
    ensures HasKill(w) ==> exists i :: 0 <= i < |w| && x == w[i] && IsKill(w[i]) && !HasKill(w[..i])
    ensures !HasKill(w) ==> x == w[|w| - 1]
  {
    if |w| == 1 || IsKill(w[0]) then w[0]
    else
      var x := Choose(w[1..]);
      assert w == [w[0]] + w[1..];
      assert HasKill(w[1..]) == HasKill(w) by {
        if HasKill(w) {
          var i :| 0 <= i < |w| && IsKill(w[i]);
          assert w[1..][i - 1] == w[i];
        }
      }
      assert HasKill(w) ==> exists i :: 0 <= i < |w| && x == w[i] && IsKill(w[i]) && !HasKill(w[..i]) by {
        if HasKill(w) {
          var i :| 0 <= i < |w[1..]| && x == w[1..][i] && IsKill(w[1..][i]) && !HasKill(w[1..][..i]);
          assert w[i + 1] == x;
          var v := w[..i + 1];
          forall j | 0 <= j < |v| ensures !IsKill(v[j]) {
            if j > 0 { assert w[1..][..i][j - 1] == v[j]; }
          }
        }
      }
      x
  }

  lemma {:induction false} ChooseAppend(w: seq<Update>, x: Update)
    ensures Choose(w + [x]) == if w != [] && IsKill(Choose(w)) then Choose(w) else x
    ensures w != [] ==> IsKill(Choose(w)) == HasKill(w)
  {
    if |w| > 1 && !IsKill(w[0]) {
      assert (w + [x])[1..] == w[1..] + [x];
      ChooseAppend(w[1..], x);
    } else if w == [] {
      assert w + [x] == [x];
    }
  }

  predicate PodEnabled(p: Pod, e: PodEvent) {
    match e
    case Started => p.Busy? && !p.started
    case Finished => p.Busy? && p.started
    case _ => true
  }

  function PodNext(p: Pod, e: PodEvent): PodStep
    requires PodEnabled(p, e)
  {
    match e
    case Submitted(x) =>
      PodStep(if p.Idle? then Busy(x, false, []) else p.(waiting := p.waiting + [x]), [])
    case Dropped => PodStep(if p.Idle? then p else p.(waiting := []), [])
    case Started => PodStep(p.(started := true), [p.inFlight])
    case Finished =>
      PodStep(if p.waiting == [] then Idle else Busy(Choose(p.waiting), false, []), [])
  }

  predicate PodRuns(p: Pod, es: seq<PodEvent>)
    decreases |es|
  {
    es == [] || (PodEnabled(p, es[0]) && PodRuns(PodNext(p, es[0]).pod, es[1..]))
  }

  function PodExec(p: Pod, es: seq<PodEvent>): PodStep
    requires PodRuns(p, es)
    decreases |es|
  {
    if es == [] then PodStep(p, [])
    else
      var r := PodNext(p, es[0]);
      var rest := PodExec(r.pod, es[1..]);
      PodStep(rest.pod, r.processed + rest.processed)
  }

  // ----------------------------------------------------------- refinement

  /** What pod `u` sees of event `e` happening in state `s`. */
  function Project(s: State, e: Event, u: UID): seq<PodEvent> {
    match e
    case UpdatePod(x) => if x.uid == u then [Submitted(x)] else []
    case ForgetWorker(v) => if u == v then [Dropped] else []
    case ForgetNonExistingPodWorkers(desired) => if u in s.podUpdates && u !in desired then [Dropped] else []
    case ReceiveUpdate(c) => if CanReceive(s, c) && s.channels[c].uid == u then [Started] else []
    case FinishSync(c) => if CanFinish(s, c) && s.channels[c].uid == u then [Finished] else []
  }

  /** The update of pod `u` that a goroutine starts to process in the step. */
  function Processes(s: State, e: Event, u: UID): seq<Update> {
    if e.ReceiveUpdate? && CanReceive(s, e.channel) && s.channels[e.channel].buffer.value.uid == u
    then [s.channels[e.channel].buffer.value] else []
  }

  ghost function History(s: State, es: seq<Event>, u: UID): seq<PodEvent>
    requires Inv(s) && Exec(s, es).Done?
    decreases |es|
  {
    if es == [] then []
    else
      NextKeepsInv(s, es[0]);
      Project(s, es[0], u) + History(Next(s, es[0]).state, es[1..], u)
  }

  /** Everything the goroutines of pod `u`, of all generations, started to process. */
  ghost function Processed(s: State, es: seq<Event>, u: UID): seq<Update>
    requires Inv(s) && Exec(s, es).Done?
    decreases |es|
  {
    if es == [] then []
    else
      NextKeepsInv(s, es[0]);
      Processes(s, es[0], u) + Processed(Next(s, es[0]).state, es[1..], u)
  }

  ghost predicate Carries(s: State, u: UID, c: nat, x: Update, started: bool) {
    c < |s.channels| && s.channels[c].uid == u &&
    if started then s.channels[c].syncing == Some(x) else s.channels[c].buffer == Some(x)
  }

  ghost predicate Abstracts(s: State, u: UID, p: Pod) {
    match p
    case Idle => !Working(s, u) && u !in s.lastUndelivered
    case Busy(x, started, w) =>
      && Working(s, u)
      && (exists c :: Carries(s, u, c, x, started))
      && if w == [] then u !in s.lastUndelivered
         else u in s.lastUndelivered && s.lastUndelivered[u] == Choose(w)
  }

  /** A step that leaves the channels, the flag and the pending update of `u` alone is a stutter. */
  lemma Stutter(s: State, r: State, u: UID, p: Pod)
    requires Abstracts(s, u, p)
    requires Working(r, u) == Working(s, u)
    requires u in r.lastUndelivered <==> u in s.lastUndelivered
    requires u in s.lastUndelivered ==> r.lastUndelivered[u] == s.lastUndelivered[u]
    requires |s.channels| <= |r.channels|
    requires forall c :: 0 <= c < |s.channels| && s.channels[c].uid == u ==>
      && r.channels[c].uid == u
      && r.channels[c].buffer == s.channels[c].buffer && r.channels[c].syncing == s.channels[c].syncing
    ensures Abstracts(r, u, p)
  {
    if p.Busy? {
      var c :| Carries(s, u, c, p.inFlight, p.started);
      assert Carries(r, u, c, p.inFlight, p.started);
    }
  }

  lemma SubmitRefines(s: State, x: Update, u: UID, p: Pod)
    requires Inv(s) && Abstracts(s, u, p)
    ensures Submit(s, x).Done?
    ensures Abstracts(Submit(s, x).state, u, if x.uid == u then PodNext(p, Submitted(x)).pod else p)
  {
    SubmitKeepsInv(s, x);
    if x.uid != u {
      SubmitElsewhere(s, x, u, p);
    } else if p.Idle? {
      SubmitToIdle(s, x);
    } else {
      SubmitToBusy(s, x, p);
    }
  }

  lemma SubmitElsewhere(s: State, x: Update, u: UID, p: Pod)
    requires Registered(s) && Submit(s, x).Done? && Abstracts(s, u, p) && x.uid != u
    ensures Abstracts(Submit(s, x).state, u, p)
  {
    Stutter(s, Submit(s, x).state, u, p);
  }

  lemma SubmitToIdle(s: State, x: Update)
    requires Registered(s) && Submit(s, x).Done? && Abstracts(s, x.uid, Idle)
    ensures Abstracts(Submit(s, x).state, x.uid, Busy(x, false, []))
  {
    var r := Submit(s, x).state;
    assert Carries(r, x.uid, r.podUpdates[x.uid], x, false);
  }

  lemma SubmitToBusy(s: State, x: Update, p: Pod)
    requires Registered(s) && Submit(s, x).Done? && Abstracts(s, x.uid, p) && p.Busy?
    ensures Abstracts(Submit(s, x).state, x.uid, p.(waiting := p.waiting + [x]))
  {
    var r := Submit(s, x).state;
    ChooseAppend(p.waiting, x);
    var c :| Carries(s, x.uid, c, p.inFlight, p.started);
    assert Carries(r, x.uid, c, p.inFlight, p.started);
  }

  lemma ForgetRefines(s: State, us: set<UID>, u: UID, p: Pod)
    requires Inv(s) && Abstracts(s, u, p)
    ensures Abstracts(ForgetAll(s, us), u, if u in us then PodNext(p, Dropped).pod else p)
    ensures u !in s.podUpdates ==> PodNext(p, Dropped).pod == p
  {
    var r := ForgetAll(s, us);
    if u in us {
      if p.Busy? {
        var c :| Carries(s, u, c, p.inFlight, p.started);
        assert Carries(r, u, c, p.inFlight, p.started);
      }
    } else {
      Stutter(s, r, u, p);
    }
  }

  lemma ReceiveRefines(s: State, c: nat, u: UID, p: Pod)
    requires Inv(s) && Abstracts(s, u, p) && CanReceive(s, c)
    ensures s.channels[c].uid != u ==> Abstracts(Receive(s, c), u, p)
    ensures s.channels[c].uid == u ==>
      && PodEnabled(p, Started)
      && Abstracts(Receive(s, c), u, PodNext(p, Started).pod)
      && PodNext(p, Started).processed == [s.channels[c].buffer.value]
  {
    var r := Receive(s, c);
    if s.channels[c].uid != u {
      Stutter(s, r, u, p);
    } else {
      HolderIsSole(s, c);
      var d :| Carries(s, u, d, p.inFlight, p.started);
      assert d == c && !p.started;
      assert Carries(r, u, c, p.inFlight, true);
    }
  }

  lemma FinishRefines(s: State, c: nat, u: UID, p: Pod)
    requires Inv(s) && Abstracts(s, u, p) && CanFinish(s, c)
    ensures Finish(s, c).Done?
    ensures s.channels[c].uid != u ==> Abstracts(Finish(s, c).state, u, p)
    ensures s.channels[c].uid == u ==>
      PodEnabled(p, Finished) && Abstracts(Finish(s, c).state, u, PodNext(p, Finished).pod)
  {
    FinishKeepsInv(s, c);
    if s.channels[c].uid != u {
      FinishElsewhere(s, c, u, p);
    } else {
      HolderIsSole(s, c);
      var d :| Carries(s, u, d, p.inFlight, p.started);
      assert d == c && p.started;
      FinishOwn(s, c, p);
    }
  }

  lemma FinishElsewhere(s: State, c: nat, u: UID, p: Pod)
    requires Registered(s) && CanFinish(s, c) && Finish(s, c).Done? && Abstracts(s, u, p) && s.channels[c].uid != u
    ensures Abstracts(Finish(s, c).state, u, p)
  {
    Stutter(s, Finish(s, c).state, u, p);
  }

  lemma FinishOwn(s: State, c: nat, p: Pod)
    requires Registered(s) && CanFinish(s, c) && Finish(s, c).Done?
    requires Abstracts(s, s.channels[c].uid, p) && p.Busy? && p.started
    ensures Abstracts(Finish(s, c).state, s.channels[c].uid, PodNext(p, Finished).pod)
  {
    var u := s.channels[c].uid;
    if p.waiting != [] {
      assert Carries(Finish(s, c).state, u, s.podUpdates[u], Choose(p.waiting), false);
    }
  }

  lemma PodExecCons(p: Pod, e: PodEvent, es: seq<PodEvent>)
    requires PodEnabled(p, e) && PodRuns(PodNext(p, e).pod, es)
    ensures PodRuns(p, [e] + es)
    ensures var r := PodNext(p, e); var rest := PodExec(r.pod, es);
      PodExec(p, [e] + es) == PodStep(rest.pod, r.processed + rest.processed)
  {
    assert ([e] + es)[1..] == es;
  }

  lemma SingleEvent(p: Pod, e: PodEvent)
    requires PodEnabled(p, e)
    ensures PodRuns(p, [e]) && PodExec(p, [e]) == PodNext(p, e)
  {
    PodExecCons(p, e, []);
    assert [e] + [] == [e];
  }

  lemma StepRefines(s: State, e: Event, u: UID, p: Pod)
    requires Inv(s) && Abstracts(s, u, p) && Next(s, e).Done?
    ensures var h := Project(s, e, u);
      && PodRuns(p, h)
      && Abstracts(Next(s, e).state, u, PodExec(p, h).pod)
      && PodExec(p, h).processed == Processes(s, e, u)
  {
    match e {
      case UpdatePod(x) => SubmitRefines(s, x, u, p);
      case ForgetWorker(v) => ForgetRefines(s, {v}, u, p); assert u == v <==> u in {v};
      case ForgetNonExistingPodWorkers(desired) => ForgetRefines(s, s.podUpdates.Keys - desired, u, p);
      case ReceiveUpdate(c) => ReceiveRefines(s, c, u, p);
      case FinishSync(c) => FinishRefines(s, c, u, p);
    }
    var h := Project(s, e, u);
    if h != [] {
      assert h == [h[0]];
      SingleEvent(p, h[0]);
    }
  }

  /** From `p` the one-pod machine can run `h`, which processes `out` and ends
      in a state that stands for pod `u` in `t`. */
  ghost predicate Refines(p: Pod, h: seq<PodEvent>, t: State, u: UID, out: seq<Update>) {
    PodRuns(p, h) && Abstracts(t, u, PodExec(p, h).pod) && PodExec(p, h).processed == out
  }

  lemma RefinesConcat(p: Pod, h: seq<PodEvent>, out: seq<Update>, es: seq<PodEvent>, t: State, u: UID,
                      rest: seq<Update>)
    requires |h| <= 1 && PodRuns(p, h) && PodExec(p, h).processed == out
    requires Refines(PodExec(p, h).pod, es, t, u, rest)
    ensures Refines(p, h + es, t, u, out + rest)
  {
    if h == [] {
      assert h + es == es;
    } else {
      assert h == [h[0]];
      SingleEvent(p, h[0]);
      PodExecCons(p, h[0], es);
    }
  }

  /** The first step of a run: the state after it, what pod `u` sees of it, and what is left. */
  lemma FirstStep(s: State, es: seq<Event>, u: UID, p: Pod)
    returns (t: State, q: Pod, h: seq<PodEvent>, out: seq<Update>)
    requires Inv(s) && Abstracts(s, u, p) && Exec(s, es).Done? && es != []
    ensures Inv(t) && Abstracts(t, u, q) && Exec(t, es[1..]) == Exec(s, es)
    ensures |h| <= 1 && PodRuns(p, h) && PodExec(p, h) == PodStep(q, out)
    ensures History(s, es, u) == h + History(t, es[1..], u)
    ensures Processed(s, es, u) == out + Processed(t, es[1..], u)
  {
    UnrollRun(s, es, u);
    t, q, h, out := OneStep(s, es[0], u, p);
  }

  lemma OneStep(s: State, e: Event, u: UID, p: Pod) returns (t: State, q: Pod, h: seq<PodEvent>, out: seq<Update>)
    requires Inv(s) && Abstracts(s, u, p) && Next(s, e).Done?
    ensures Next(s, e) == Done(t) && Abstracts(t, u, q)
    ensures h == Project(s, e, u) && out == Processes(s, e, u)
    ensures |h| <= 1 && PodRuns(p, h) && PodExec(p, h) == PodStep(q, out)
  {
    StepRefines(s, e, u, p);
    t, h, out := Next(s, e).state, Project(s, e, u), Processes(s, e, u);
    q := PodExec(p, h).pod;
  }

  lemma UnrollRun(s: State, es: seq<Event>, u: UID)
    requires Inv(s) && Exec(s, es).Done? && es != []
    ensures var o := Next(s, es[0]);
      && o.Done? && Inv(o.state) && Exec(o.state, es[1..]) == Exec(s, es)
      && History(s, es, u) == Project(s, es[0], u) + History(o.state, es[1..], u)
      && Processed(s, es, u) == Processes(s, es[0], u) + Processed(o.state, es[1..], u)
  {
    NextKeepsInv(s, es[0]);
  }

  /** Every interleaving, seen from one pod, is a run of the one-pod machine
      which processes the same updates in the same order. */
  lemma {:induction false} RunRefines(s: State, es: seq<Event>, u: UID, p: Pod)
    requires Inv(s) && Abstracts(s, u, p) && Exec(s, es).Done?
    ensures Refines(p, History(s, es, u), Exec(s, es).state, u, Processed(s, es, u))
    decreases |es|
  {
    if es != [] {
      var t, q, h, out := FirstStep(s, es, u, p);
      RunRefines(t, es[1..], u, q);
      RefinesConcat(p, h, out, History(t, es[1..], u), Exec(t, es[1..]).state, u, Processed(t, es[1..], u));
    }
  }

  /** Nothing accepted is left behind: a pod without a flag has no pending and
      no outstanding update in any channel. */
  lemma IdleMeansEmpty(es: seq<Event>, u: UID)
    requires Exec(INITIAL, es).Done? && !Working(Exec(INITIAL, es).state, u)
    ensures var s := Exec(INITIAL, es).state;
      && u !in s.lastUndelivered && Outstanding(s, u) == {}
      && PodRuns(Idle, History(INITIAL, es, u)) && PodExec(Idle, History(INITIAL, es, u)).pod == Idle
  {
    RunRefines(INITIAL, es, u, Idle);
    OutstandingOfInv(Exec(INITIAL, es).state, u);
  }

  // --------------------------------------------------- delivery guarantees

  predicate NoDrop(es: seq<PodEvent>) {
    Dropped !in es
  }

  /** While a sync runs with a kill pending, the next update to be processed is
      the first kill submitted, whatever else is submitted, unless the worker is forgotten. */
  lemma {:induction false} PendingKillIsNext(p: Pod, es: seq<PodEvent>)
    requires p.Busy? && p.started && HasKill(p.waiting)
    requires NoDrop(es) && PodRuns(p, es)
    ensures var out := PodExec(p, es).processed; out != [] ==> out[0] == Choose(p.waiting) && IsKill(out[0])
    decreases |es|
  {
    ChooseAppend(p.waiting, p.inFlight);
    if es != [] {
      var q := PodNext(p, es[0]).pod;
      match es[0]
      case Submitted(x) =>
        ChooseAppend(p.waiting, x);
        ChooseAppend(q.waiting, x);
        assert IsKill(Choose(q.waiting));
        PendingKillIsNext(q, es[1..]);
      case Finished => FirstProcessedIsInFlight(q, es[1..]);
    }
  }

  lemma {:induction false} FirstProcessedIsInFlight(p: Pod, es: seq<PodEvent>)
    requires p.Busy? && !p.started && PodRuns(p, es)
    ensures var out := PodExec(p, es).processed; out != [] ==> out[0] == p.inFlight
    decreases |es|
  {
    if es != [] && !es[0].Started? {
      FirstProcessedIsInFlight(PodNext(p, es[0]).pod, es[1..]);
    }
  }

  /** What a busy pod still processes last if nobody submits or forgets any more. */
  function LastToProcess(p: Pod): Update
    requires p.Busy?
  {
    if p.waiting == [] then p.inFlight else Choose(p.waiting)
  }

  predicate Quiescing(es: seq<PodEvent>) {
    forall i :: 0 <= i < |es| ==> es[i].Started? || es[i].Finished?
  }

  lemma {:induction false} DrainProcessesLast(p: Pod, es: seq<PodEvent>)
    requires p.Busy? && Quiescing(es) && PodRuns(p, es) && PodExec(p, es).pod.Idle?
    ensures var out := PodExec(p, es).processed;
      if out == [] then p.started && p.waiting == [] else out[|out| - 1] == LastToProcess(p)
    decreases |es|
  {
    var r := PodNext(p, es[0]);
    if r.pod.Idle? {
      assert es[1..] == [];
    } else {
      DrainProcessesLast(r.pod, es[1..]);
    }
  }

  /** After the last submission `x` of a pod, once it is idle again, the last
      update processed is `x`, except that a kill pending when `x` came in
      takes its place: then it is the first of the pending kills. */
  lemma LastSubmissionWins(before: seq<PodEvent>, x: Update, after: seq<PodEvent>)
    requires Quiescing(after)
    requires PodRuns(Idle, before) && PodRuns(PodNext(PodExec(Idle, before).pod, Submitted(x)).pod, after)
    requires PodExec(PodNext(PodExec(Idle, before).pod, Submitted(x)).pod, after).pod.Idle?
    ensures var p := PodExec(Idle, before).pod;
      var out := PodExec(PodNext(p, Submitted(x)).pod, after).processed;
      && out != []
      && out[|out| - 1] == if p.Busy? && HasKill(p.waiting) then Choose(p.waiting) else x
  {
    var p := PodExec(Idle, before).pod;
    DrainProcessesLast(PodNext(p, Submitted(x)).pod, after);
    if p.Busy? {
      ChooseAppend(p.waiting, x);
      if p.waiting == [] { assert p.waiting + [x] == [x]; }
    }
  }

  /** The comment on OnCompleteFunc promises that a kill is always delivered. It
      is not: in this run the second kill leaves no trace in the state. */
  lemma SecondKillIsLost(u: UID)
    ensures
      var create := Update(u, SyncPodCreate, 0);
      var kill1 := Update(u, SyncPodKill, 1);
      var kill2 := Update(u, SyncPodKill, 2);
      var es := [UpdatePod(create), UpdatePod(kill1)];
      && Exec(INITIAL, es).Done?
      && Exec(INITIAL, es + [UpdatePod(kill2)]) == Exec(INITIAL, es)
      && Exec(INITIAL, es).state.lastUndelivered == map[u := kill1]
  {
    var create := Update(u, SyncPodCreate, 0);
    var kill1 := Update(u, SyncPodKill, 1);
    var kill2 := Update(u, SyncPodKill, 2);
    var es := [UpdatePod(create), UpdatePod(kill1)];
    var s1 := State(map[u := 0], map[u := true], map[], [Channel(u, true, Some(create), None)]);
    var s2 := s1.(lastUndelivered := map[u := kill1]);
    ExecStep(INITIAL, es, s1);
    ExecStep(s1, es[1..], s2);
    var es' := es + [UpdatePod(kill2)];
    assert es'[0] == es[0] && es'[1..][0] == es[1] && es'[1..][1..] == [UpdatePod(kill2)];
    ExecStep(INITIAL, es', s1);
    ExecStep(s1, es'[1..], s2);
    ExecStep(s2, [UpdatePod(kill2)], s2);
  }

  lemma ExecStep(s: State, es: seq<Event>, t: State)
    requires es != [] && Inv(s) && Next(s, es[0]) == Done(t)
    ensures Inv(t) && Exec(s, es) == Exec(t, es[1..])
  {
    NextKeepsInv(s, es[0]);
  }

  /** Nor does a kill survive that its pod's worker is forgotten while the kill is pending. */
  lemma ForgottenKillIsLost(u: UID)
    ensures
      var create := Update(u, SyncPodCreate, 0);
      var kill := Update(u, SyncPodKill, 1);
      var es := [UpdatePod(create), UpdatePod(kill), ForgetWorker(u)];
      && Exec(INITIAL, es).Done?
      && Exec(INITIAL, es).state == State(map[], map[u := true], map[], [Channel(u, false, Some(create), None)])
  {
    var create := Update(u, SyncPodCreate, 0);
    var kill := Update(u, SyncPodKill, 1);
    var es := [UpdatePod(create), UpdatePod(kill), ForgetWorker(u)];
    var s1 := State(map[u := 0], map[u := true], map[], [Channel(u, true, Some(create), None)]);
    var s2 := s1.(lastUndelivered := map[u := kill]);
    var s3 := State(map[], map[u := true], map[], [Channel(u, false, Some(create), None)]);
    ExecStep(INITIAL, es, s1);
    ExecStep(s1, es[1..], s2);
    var forgotten := ForgetAll(s2, {u});
    assert forgotten.podUpdates == map[] && forgotten.lastUndelivered == map[];
    assert forgotten.channels == s3.channels;
    ExecStep(s2, es[1..][1..], s3);
  }

  // ------------------------------------------------ when a kill is delivered

  /** The update `x` is nowhere in the pod. */
  predicate Fresh(p: Pod, x: Update) {
    p.Idle? || (p.inFlight != x && x !in p.waiting)
  }

  predicate NotSubmitted(es: seq<PodEvent>, x: Update) {
    Submitted(x) !in es
  }

  /** A forget comes before the end of the sync in flight. */
  predicate DroppedFirst(es: seq<PodEvent>) {
    es != [] && !es[0].Finished? && (es[0].Dropped? || DroppedFirst(es[1..]))
  }

  /** Neither in flight nor next: whatever comes, `x` is not processed unless submitted again. */
  predicate Lost(p: Pod, x: Update) {
    p.Idle? || (p.inFlight != x && (p.waiting == [] || Choose(p.waiting) != x))
  }

  lemma {:induction false} LostIsNeverProcessed(p: Pod, es: seq<PodEvent>, x: Update)
    requires Lost(p, x) && NotSubmitted(es, x) && PodRuns(p, es)
    ensures x !in PodExec(p, es).processed
    decreases |es|
  {
    if es != [] {
      if es[0].Submitted? && p.Busy? { ChooseAppend(p.waiting, es[0].update); }
      LostIsNeverProcessed(PodNext(p, es[0]).pod, es[1..], x);
    }
  }

  lemma {:induction false} InFlightIsProcessed(p: Pod, es: seq<PodEvent>)
    requires p.Busy? && !p.started && PodRuns(p, es) && PodExec(p, es).pod.Idle?
    ensures p.inFlight in PodExec(p, es).processed
    decreases |es|
  {
    if !es[0].Started? { InFlightIsProcessed(PodNext(p, es[0]).pod, es[1..]); }
  }

  /** The next in line, a kill, is processed unless a forget comes before the end of the sync in flight. */
  lemma {:induction false} NextKillIsProcessedIff(p: Pod, es: seq<PodEvent>, x: Update)
    requires p.Busy? && p.inFlight != x && p.waiting != [] && Choose(p.waiting) == x && IsKill(x)
    requires NotSubmitted(es, x) && PodRuns(p, es) && PodExec(p, es).pod.Idle?
    ensures x in PodExec(p, es).processed <==> !DroppedFirst(es)
    decreases |es|
  {
    var q := PodNext(p, es[0]).pod;
    match es[0]
    case Submitted(y) =>
      ChooseAppend(p.waiting, y);
      NextKillIsProcessedIff(q, es[1..], x);
    case Dropped => LostIsNeverProcessed(q, es[1..], x);
    case Started => NextKillIsProcessedIff(q, es[1..], x);
    case Finished => InFlightIsProcessed(q, es[1..]);
  }

  /** A kill submitted once is processed by the time the pod is idle exactly when
      the pod was idle, or no kill was waiting and no forget comes before the
      end of the sync in flight. */
  lemma PodKillIsProcessedIff(p: Pod, x: Update, es: seq<PodEvent>)
    requires IsKill(x) && Fresh(p, x) && NotSubmitted(es, x)
    requires var q := PodNext(p, Submitted(x)).pod; PodRuns(q, es) && PodExec(q, es).pod.Idle?
    ensures x in PodExec(PodNext(p, Submitted(x)).pod, es).processed <==>
      p.Idle? || (!HasKill(p.waiting) && !DroppedFirst(es))
  {
    var q := PodNext(p, Submitted(x)).pod;
    if p.Idle? {
      InFlightIsProcessed(q, es);
    } else {
      ChooseAppend(p.waiting, x);
      if HasKill(p.waiting) {
        LostIsNeverProcessed(q, es, x);
      } else {
        NextKillIsProcessedIff(q, es, x);
      }
    }
  }

  lemma {:induction false} StaysFresh(p: Pod, es: seq<PodEvent>, x: Update)
    requires Fresh(p, x) && NotSubmitted(es, x) && PodRuns(p, es)
    ensures Fresh(PodExec(p, es).pod, x)
    decreases |es|
  {
    if es != [] { StaysFresh(PodNext(p, es[0]).pod, es[1..], x); }
  }

  lemma {:induction false} HistorySubmits(s: State, es: seq<Event>, u: UID, x: Update)
    requires Inv(s) && Exec(s, es).Done? && UpdatePod(x) !in es
    ensures NotSubmitted(History(s, es, u), x)
    decreases |es|
  {
    if es != [] {
      NextKeepsInv(s, es[0]);
      HistorySubmits(Next(s, es[0]).state, es[1..], u, x);
    }
  }

  ghost predicate KillPending(s: State, u: UID) {
    u in s.lastUndelivered && IsKill(s.lastUndelivered[u])
  }

  /** The state after the run `before` and UpdatePod(x). */
  ghost function Submission(before: seq<Event>, x: Update): (t: State)
    requires Exec(INITIAL, before).Done?
    ensures Inv(t) && Submit(Exec(INITIAL, before).state, x) == Done(t)
  {
    SubmitKeepsInv(Exec(INITIAL, before).state, x);
    Submit(Exec(INITIAL, before).state, x).state
  }

  /** When the comment on OnCompleteFunc is right, over all runs: a kill that is
      submitted once has been processed by the time the pod is idle again if and
      only if the pod was idle when it came in, or no other kill was pending and
      the worker is not forgotten before the sync in flight ends. */
  lemma KillIsDeliveredIff(before: seq<Event>, x: Update, after: seq<Event>)
    requires IsKill(x) && UpdatePod(x) !in before && UpdatePod(x) !in after && Exec(INITIAL, before).Done?
    requires var o := Exec(Submission(before, x), after); o.Done? && !Working(o.state, x.uid)
    ensures var s, t := Exec(INITIAL, before).state, Submission(before, x);
      x in Processed(t, after, x.uid) <==>
        !Working(s, x.uid) || (!KillPending(s, x.uid) && !DroppedFirst(History(t, after, x.uid)))
  {
    var u, s, t := x.uid, Exec(INITIAL, before).state, Submission(before, x);
    var p := PodWithout(before, x);
    AbstractKill(s, u, p);
    SubmitRefines(s, x, u, p);
    KillFrom(t, p, x, after);
  }

  lemma AbstractKill(s: State, u: UID, p: Pod)
    requires Abstracts(s, u, p)
    ensures p.Idle? <==> !Working(s, u)
    ensures KillPending(s, u) <==> p.Busy? && HasKill(p.waiting)
  {
    if p.Busy? && p.waiting != [] { ChooseAppend(p.waiting, p.inFlight); }
  }

  lemma KillFrom(t: State, p: Pod, x: Update, after: seq<Event>)
    requires IsKill(x) && Fresh(p, x) && UpdatePod(x) !in after
    requires Inv(t) && Abstracts(t, x.uid, PodNext(p, Submitted(x)).pod)
    requires Exec(t, after).Done? && !Working(Exec(t, after).state, x.uid)
    ensures x in Processed(t, after, x.uid) <==>
      p.Idle? || (!HasKill(p.waiting) && !DroppedFirst(History(t, after, x.uid)))
  {
    RunRefines(t, after, x.uid, PodNext(p, Submitted(x)).pod);
    HistorySubmits(t, after, x.uid, x);
    PodKillIsProcessedIff(p, x, History(t, after, x.uid));
  }

  /** What stands for the pod of `x` after a run in which `x` was not submitted. */
  lemma PodWithout(before: seq<Event>, x: Update) returns (p: Pod)
    requires UpdatePod(x) !in before && Exec(INITIAL, before).Done?
    ensures Abstracts(Exec(INITIAL, before).state, x.uid, p) && Fresh(p, x)
  {
    var h := History(INITIAL, before, x.uid);
    RunRefines(INITIAL, before, x.uid, Idle);
    p := PodExec(Idle, h).pod;
    HistorySubmits(INITIAL, before, x.uid, x);
    StaysFresh(Idle, h, x);
  }

  // ------------------------------------------- the guarantees over all runs

  predicate NotForgotten(es: seq<Event>, u: UID) {
    forall i :: 0 <= i < |es| ==>
      es[i] != ForgetWorker(u) && (es[i].ForgetNonExistingPodWorkers? ==> u in es[i].desired)
  }

  predicate NotUpdated(es: seq<Event>, u: UID) {
    forall i :: 0 <= i < |es| ==> !(es[i].UpdatePod? && es[i].update.uid == u)
  }

  lemma {:induction false} HistoryOf(s: State, es: seq<Event>, u: UID)
    requires Inv(s) && Exec(s, es).Done? && NotForgotten(es, u)
    ensures NoDrop(History(s, es, u))
    ensures NotUpdated(es, u) ==> Quiescing(History(s, es, u))
    decreases |es|
  {
    if es != [] {
      NextKeepsInv(s, es[0]);
      HistoryOf(Next(s, es[0]).state, es[1..], u);
    }
  }

  lemma AbstractSync(s: State, u: UID, p: Pod, c: nat)
    requires Inv(s) && Abstracts(s, u, p) && CanFinish(s, c) && s.channels[c].uid == u
    ensures p.Busy? && p.started
  {
    HolderIsSole(s, c);
    var d :| Carries(s, u, d, p.inFlight, p.started);
    assert d == c;
  }

  lemma AbstractPending(s: State, u: UID, p: Pod)
    requires Abstracts(s, u, p) && KillPending(s, u)
    ensures p.Busy? && HasKill(p.waiting) && s.lastUndelivered[u] == Choose(p.waiting)
  {
    AbstractKill(s, u, p);
  }

  /** Over all runs: while a sync of a pod runs with a kill pending, the next
      update of the pod that is processed is that kill, whatever else is
      submitted, unless the worker is forgotten. */
  lemma PendingKillIsNextInRuns(before: seq<Event>, u: UID, c: nat, es: seq<Event>)
    requires Exec(INITIAL, before).Done?
    requires var s := Exec(INITIAL, before).state;
      && CanFinish(s, c) && s.channels[c].uid == u && KillPending(s, u)
      && Exec(s, es).Done? && NotForgotten(es, u)
    ensures var s := Exec(INITIAL, before).state;
      var out := Processed(s, es, u); out != [] ==> out[0] == s.lastUndelivered[u]
  {
    var s := Exec(INITIAL, before).state;
    RunRefines(INITIAL, before, u, Idle);
    var p := PodExec(Idle, History(INITIAL, before, u)).pod;
    AbstractSync(s, u, p, c);
    AbstractPending(s, u, p);
    RunRefines(s, es, u, p);
    HistoryOf(s, es, u);
    PendingKillIsNext(p, History(s, es, u));
  }

  /** Over all runs: after the last submission of a pod, once it is idle again and
      if its worker is not forgotten, the last update processed is that one, or
      the kill that was pending when it came in. */
  lemma LastSubmissionWinsInRuns(before: seq<Event>, x: Update, after: seq<Event>)
    requires Exec(INITIAL, before).Done?
    requires NotForgotten(after, x.uid) && NotUpdated(after, x.uid)
    requires var o := Exec(Submission(before, x), after); o.Done? && !Working(o.state, x.uid)
    ensures var s, out := Exec(INITIAL, before).state, Processed(Submission(before, x), after, x.uid);
      && out != []
      && out[|out| - 1] == if KillPending(s, x.uid) then s.lastUndelivered[x.uid] else x
  {
    var u, s, t := x.uid, Exec(INITIAL, before).state, Submission(before, x);
    var h := History(INITIAL, before, u);
    RunRefines(INITIAL, before, u, Idle);
    var p := PodExec(Idle, h).pod;
    SubmitRefines(s, x, u, p);
    LastFrom(t, h, x, after);
    AbstractKill(s, u, p);
    if KillPending(s, u) { AbstractPending(s, u, p); }
  }

  lemma LastFrom(t: State, h: seq<PodEvent>, x: Update, after: seq<Event>)
    requires PodRuns(Idle, h) && NotForgotten(after, x.uid) && NotUpdated(after, x.uid)
    requires Inv(t) && Abstracts(t, x.uid, PodNext(PodExec(Idle, h).pod, Submitted(x)).pod)
    requires Exec(t, after).Done? && !Working(Exec(t, after).state, x.uid)
    ensures var p, out := PodExec(Idle, h).pod, Processed(t, after, x.uid);
      && out != []
      && out[|out| - 1] == if p.Busy? && HasKill(p.waiting) then Choose(p.waiting) else x
  {
    RunRefines(t, after, x.uid, PodNext(PodExec(Idle, h).pod, Submitted(x)).pod);
    HistoryOf(t, after, x.uid);
    var g := History(t, after, x.uid);
    LastSubmissionWins(h, x, g);
  }

  // --------------------------------------------------------- idle is reached

  /** The steps that the goroutines still need before pod `u` is idle. */
  ghost function Left(s: State, u: UID): nat {
    if !Working(s, u) then 0
    else (if Buffered(s, u) then 2 else 1) + (if u in s.lastUndelivered then 2 else 0)
  }

  ghost predicate Buffered(s: State, u: UID) {
    exists c :: 0 <= c < |s.channels| && s.channels[c].uid == u && s.channels[c].buffer.Some?
  }

  predicate OfGoroutine(e: Event) {
    e.ReceiveUpdate? || e.FinishSync?
  }

  lemma ReceiveComesNearer(s: State, u: UID, c: nat)
    requires Inv(s) && CanReceive(s, c) && s.channels[c].uid == u
    ensures Left(Receive(s, c), u) < Left(s, u)
  {
    HolderIsSole(s, c);
    assert Buffered(s, u);
  }

  lemma FinishComesNearer(s: State, u: UID, c: nat)
    requires Inv(s) && CanFinish(s, c) && s.channels[c].uid == u && Finish(s, c).Done?
    ensures Left(Finish(s, c).state, u) < Left(s, u)
  {
    HolderIsSole(s, c);
  }

  /** From every state of the invariant a working pod is idle after at most four
      steps of its goroutines: none of them is ever stuck. */
  lemma IdleIsReached(s: State, u: UID) returns (es: seq<Event>)
    requires Inv(s)
    ensures |es| <= Left(s, u) <= 4 && forall i :: 0 <= i < |es| ==> OfGoroutine(es[i])
    ensures Exec(s, es).Done? && !Working(Exec(s, es).state, u)
    decreases Left(s, u)
  {
    es := [];
    if Working(s, u) {
      assert OneOutstanding(s, u);
      var c: nat :| SoleHolder(s, u, c);
      var e := if s.channels[c].buffer.Some? then ReceiveUpdate(c) else FinishSync(c);
      if e.ReceiveUpdate? {
        ReceiveComesNearer(s, u, c);
      } else {
        FinishKeepsInv(s, c);
        FinishComesNearer(s, u, c);
      }
      NextKeepsInv(s, e);
      var t := Next(s, e).state;
      var rest := IdleIsReached(t, u);
      es := [e] + rest;
      assert es[1..] == rest;
      ExecStep(s, es, t);
    }
  }
}
