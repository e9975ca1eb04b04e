/**
 The kubelet's pod workers: callers hand pod updates to one goroutine per pod
 through a one-slot channel, an "is working" flag and a one-entry map of
 undelivered updates, all guarded by one lock.

 Every atomic section of the source is one step function on `State`. Forgetting
 a worker closes its channel but leaves the flag alone, so several generations
 of channels (and goroutines) of one pod may be alive at the same time; they
 are the elements of `channels` that share a `uid`.
 */
module PodWorkers {
  import opened Wrappers

  type UID = string

  datatype SyncPodType = SyncPodSync | SyncPodUpdate | SyncPodCreate | SyncPodKill | SyncPodAction

  /** UpdatePodOptions; `payload` stands for the pod, the callback and the kill options. */
  datatype Update = Update(uid: UID, kind: SyncPodType, payload: nat)

  /** A channel of capacity one with the goroutine that ranges over it;
      `syncing` is the update which that goroutine is processing. */
  datatype Channel = Channel(uid: UID, open: bool, buffer: Option<Update>, syncing: Option<Update>) {

    predicate Holds() {
      buffer.Some? || syncing.Some?
    }
  }

  datatype State = State(
    podUpdates: map<UID, nat>,
    isWorking: map<UID, bool>,
    lastUndelivered: map<UID, Update>,
    channels: seq<Channel>)

  /** What a send or receive would do besides succeeding: panic on a closed
      channel, block with the lock held, or block for ever on the nil channel. */
  datatype Fault = SendOnClosedChannel | SendBlocksHoldingLock | SendOnMissingChannel

  datatype Outcome = Done(state: State) | NotEnabled | Broken(fault: Fault)

  const INITIAL := State(map[], map[], map[], [])

  predicate Working(s: State, u: UID) {
    Get(s.isWorking, u, false)
  }

  predicate IsKill(x: Update) {
    x.kind == SyncPodKill
  }

  // ---------------------------------------------------------------- steps

  function Send(s: State, c: nat, x: Update): Outcome
    requires c < |s.channels|
  {
    if !s.channels[c].open then Broken(SendOnClosedChannel)
    else if s.channels[c].buffer.Some? then Broken(SendBlocksHoldingLock)
    else Done(s.(channels := s.channels[c := s.channels[c].(buffer := Some(x))]))
  }

  function EnsureWorker(s: State, u: UID): State {
    if u in s.podUpdates then s
    else s.(podUpdates := s.podUpdates[u := |s.channels|],
            channels := s.channels + [Channel(u, true, None, None)])
  }

  /** UpdatePod's critical section. */
  function Submit(s: State, x: Update): Outcome
    requires x.uid in s.podUpdates ==> s.podUpdates[x.uid] < |s.channels|
  {
    var t := EnsureWorker(s, x.uid);
    if !Working(t, x.uid) then
      Send(t.(isWorking := t.isWorking[x.uid := true]), t.podUpdates[x.uid], x)
    else if x.uid !in t.lastUndelivered || !IsKill(t.lastUndelivered[x.uid]) then
      Done(t.(lastUndelivered := t.lastUndelivered[x.uid := x]))
    else
      Done(t)
  }

  predicate Forgotten(s: State, c: nat, us: set<UID>)
    requires c < |s.channels|
  {
    var u := s.channels[c].uid;
    u in us && u in s.podUpdates && s.podUpdates[u] == c
  }

  /** removeWorker for every pod of `us`: close the channel, drop the map entry
      and the undelivered update; `isWorking` stays as it is. */
  function ForgetAll(s: State, us: set<UID>): State {
    var gone := us * s.podUpdates.Keys;
    State(
      s.podUpdates - gone,
      s.isWorking,
      s.lastUndelivered - gone,
      seq(|s.channels|, c requires 0 <= c < |s.channels| =>
        if Forgotten(s, c, us) then s.channels[c].(open := false) else s.channels[c]))
  }

  predicate CanReceive(s: State, c: nat) {
    c < |s.channels| && s.channels[c].buffer.Some? && s.channels[c].syncing.None?
  }

  /** The goroutine of channel `c` takes the buffered update (also from a closed channel). */
  function Receive(s: State, c: nat): State
    requires CanReceive(s, c)
  {
    var ch := s.channels[c];
    s.(channels := s.channels[c := ch.(buffer := None, syncing := ch.buffer)])
  }

  function CheckForUpdates(s: State, u: UID): Outcome
    requires u in s.podUpdates ==> s.podUpdates[u] < |s.channels|
  {
    if u in s.lastUndelivered then
      if u !in s.podUpdates then Broken(SendOnMissingChannel)
      else
        Send(s.(lastUndelivered := s.lastUndelivered - {u}), s.podUpdates[u], s.lastUndelivered[u])
    else Done(s.(isWorking := s.isWorking[u := false]))
  }

  predicate CanFinish(s: State, c: nat) {
    c < |s.channels| && s.channels[c].syncing.Some?
  }

  /** The sync of channel `c` is over and the goroutine calls wrapUp. */
  function Finish(s: State, c: nat): Outcome
    requires CanFinish(s, c)
    requires var u := s.channels[c].syncing.value.uid; u in s.podUpdates ==> s.podUpdates[u] < |s.channels|
  {
    var ch := s.channels[c];
    CheckForUpdates(s.(channels := s.channels[c := ch.(syncing := None)]), ch.syncing.value.uid)
  }

  // ------------------------------------------------------------ invariant

  /** The maps and the channels agree: the open channels are the registered ones. */
  ghost predicate Registered(s: State) {
    && (forall u :: u in s.podUpdates ==>
          && s.podUpdates[u] < |s.channels|
          && s.channels[s.podUpdates[u]].uid == u
          && s.channels[s.podUpdates[u]].open)
    && (forall c :: 0 <= c < |s.channels| && s.channels[c].open ==>
          && s.channels[c].uid in s.podUpdates
          && s.podUpdates[s.channels[c].uid] == c)
    && (forall c :: 0 <= c < |s.channels| ==>
          && (s.channels[c].buffer.Some? ==> s.channels[c].buffer.value.uid == s.channels[c].uid)
          && (s.channels[c].syncing.Some? ==> s.channels[c].syncing.value.uid == s.channels[c].uid))
  }

  ghost predicate Quiet(s: State, u: UID) {
    forall c :: 0 <= c < |s.channels| && s.channels[c].uid == u ==> !s.channels[c].Holds()
  }

  /** Channel `c` holds the only outstanding update of pod `u`, over all generations. */
  ghost predicate SoleHolder(s: State, u: UID, c: nat) {
    && c < |s.channels| && s.channels[c].uid == u && s.channels[c].Holds()
    && !(s.channels[c].buffer.Some? && s.channels[c].syncing.Some?)
    && (forall d :: 0 <= d < |s.channels| && d != c && s.channels[d].uid == u ==> !s.channels[d].Holds())
  }

  /** One update of `u` is outstanding exactly when its flag is set. */
  ghost predicate OneOutstanding(s: State, u: UID) {
    if Working(s, u) then exists c :: SoleHolder(s, u, c) else Quiet(s, u)
  }

  ghost predicate UndeliveredHasWorker(s: State) {
    forall u :: u in s.lastUndelivered ==>
      u in s.podUpdates && Working(s, u) && s.lastUndelivered[u].uid == u
  }

  ghost predicate Inv(s: State) {
    Registered(s) && UndeliveredHasWorker(s) && forall u :: OneOutstanding(s, u)
  }

  /** What a step does to the other pods' channels and flags does not touch pod `u`. */
  lemma OneOutstandingFrame(s: State, r: State, u: UID)
    requires OneOutstanding(s, u) && Working(r, u) == Working(s, u)
    requires |s.channels| <= |r.channels|
    requires forall c :: 0 <= c < |s.channels| ==> r.channels[c].uid == s.channels[c].uid
    requires forall c :: 0 <= c < |s.channels| && s.channels[c].uid == u ==>
      r.channels[c].buffer == s.channels[c].buffer && r.channels[c].syncing == s.channels[c].syncing
    requires forall c :: |s.channels| <= c < |r.channels| ==> !r.channels[c].Holds()
    ensures OneOutstanding(r, u)
  {
    if Working(s, u) {
      var c: nat :| SoleHolder(s, u, c);
      assert SoleHolder(r, u, c);
    }
  }

  lemma EnsureWorkerKeepsInv(s: State, u: UID)
    requires Inv(s)
    ensures Inv(EnsureWorker(s, u)) && u in EnsureWorker(s, u).podUpdates
  {
    forall v ensures OneOutstanding(EnsureWorker(s, u), v) {
      OneOutstandingFrame(s, EnsureWorker(s, u), v);
    }
  }

  /** A send to a pod without outstanding updates succeeds and makes `x` the outstanding one. */
  lemma SendToQuietPod(s: State, x: Update)
    requires Registered(s) && UndeliveredHasWorker(s)
    requires x.uid in s.podUpdates && Working(s, x.uid) && Quiet(s, x.uid)
    requires forall v :: v != x.uid ==> OneOutstanding(s, v)
    ensures var o := Send(s, s.podUpdates[x.uid], x);
      o.Done? && Inv(o.state) && SoleHolder(o.state, x.uid, s.podUpdates[x.uid])
  {
    var c := s.podUpdates[x.uid];
    var r := Send(s, c, x).state;
    assert SoleHolder(r, x.uid, c);
    forall v ensures OneOutstanding(r, v) {
      if v != x.uid { OneOutstandingFrame(s, r, v); }
    }
  }

  lemma SendToIdlePod(s: State, x: Update)
    requires Inv(s) && x.uid in s.podUpdates && !Working(s, x.uid)
    ensures var o := Send(s.(isWorking := s.isWorking[x.uid := true]), s.podUpdates[x.uid], x); o.Done? && Inv(o.state)
  {
    var t := s.(isWorking := s.isWorking[x.uid := true]);
    assert OneOutstanding(s, x.uid);
    forall v | v != x.uid ensures OneOutstanding(t, v) { OneOutstandingFrame(s, t, v); }
    SendToQuietPod(t, x);
  }

  lemma PendingKeepsInv(s: State, x: Update)
    requires Inv(s) && x.uid in s.podUpdates && Working(s, x.uid)
    ensures Inv(s.(lastUndelivered := s.lastUndelivered[x.uid := x]))
  {
    var r := s.(lastUndelivered := s.lastUndelivered[x.uid := x]);
    forall v ensures OneOutstanding(r, v) { OneOutstandingFrame(s, r, v); }
  }

  lemma SubmitKeepsInv(s: State, x: Update)
    requires Inv(s)
    ensures Submit(s, x).Done? && Inv(Submit(s, x).state)
  {
    EnsureWorkerKeepsInv(s, x.uid);
    var t := EnsureWorker(s, x.uid);
    if !Working(t, x.uid) {
      SendToIdlePod(t, x);
    } else {
      PendingKeepsInv(t, x);
    }
  }

  lemma ForgetKeepsInv(s: State, us: set<UID>)
    requires Inv(s)
    ensures Inv(ForgetAll(s, us))
  {
    forall v ensures OneOutstanding(ForgetAll(s, us), v) {
      OneOutstandingFrame(s, ForgetAll(s, us), v);
    }
  }

  /** What forgetting the workers of `us` does, and does not do. */
  ghost predicate Forgets(s: State, t: State, us: set<UID>) {
    && (forall u :: u in us ==> u !in t.podUpdates && u !in t.lastUndelivered)
    && (forall u :: u !in us ==>
          && (u in t.podUpdates <==> u in s.podUpdates)
          && (u in s.podUpdates ==> t.podUpdates[u] == s.podUpdates[u])
          && (u in t.lastUndelivered <==> u in s.lastUndelivered)
          && (u in s.lastUndelivered ==> t.lastUndelivered[u] == s.lastUndelivered[u]))
    && t.isWorking == s.isWorking && |t.channels| == |s.channels|
    && (forall c :: 0 <= c < |s.channels| ==>
          && t.channels[c].uid == s.channels[c].uid
          && t.channels[c].buffer == s.channels[c].buffer && t.channels[c].syncing == s.channels[c].syncing
          && t.channels[c].open == (s.channels[c].open && s.channels[c].uid !in us))
  }

  lemma ForgetAllForgets(s: State, us: set<UID>)
    requires Inv(s)
    ensures Forgets(s, ForgetAll(s, us), us)
  {
  }

  lemma HolderIsSole(s: State, c: nat)
    requires Inv(s) && c < |s.channels| && s.channels[c].Holds()
    ensures Working(s, s.channels[c].uid) && SoleHolder(s, s.channels[c].uid, c)
  {
    assert OneOutstanding(s, s.channels[c].uid);
  }

  lemma ReceiveKeepsInv(s: State, c: nat)
    requires Inv(s) && CanReceive(s, c)
    ensures Inv(Receive(s, c))
  {
    var r := Receive(s, c);
    HolderIsSole(s, c);
    assert SoleHolder(r, s.channels[c].uid, c);
    forall v ensures OneOutstanding(r, v) {
      if v != s.channels[c].uid { OneOutstandingFrame(s, r, v); }
    }
  }

  lemma FinishKeepsInv(s: State, c: nat)
    requires Inv(s) && CanFinish(s, c)
    ensures Finish(s, c).Done? && Inv(Finish(s, c).state)
  {
    var u := s.channels[c].uid;
    HolderIsSole(s, c);
    var t := s.(channels := s.channels[c := s.channels[c].(syncing := None)]);
    assert Quiet(t, u);
    if u in s.lastUndelivered {
      var t' := t.(lastUndelivered := s.lastUndelivered - {u});
      forall v | v != u ensures OneOutstanding(t', v) { OneOutstandingFrame(s, t', v); }
      SendToQuietPod(t', s.lastUndelivered[u]);
    } else {
      FinishIdleKeepsInv(s, c);
    }
  }

  lemma FinishIdleKeepsInv(s: State, c: nat)
    requires Inv(s) && CanFinish(s, c) && SoleHolder(s, s.channels[c].uid, c)
    requires s.channels[c].uid !in s.lastUndelivered
    ensures Finish(s, c).Done? && Inv(Finish(s, c).state)
  {
    var u, r := s.channels[c].uid, Finish(s, c).state;
    assert Quiet(r, u);
    forall v ensures OneOutstanding(r, v) { if v != u { OneOutstandingFrame(s, r, v); } }
  }

  // ----------------------------------------------------------------- runs

  datatype Event =
    | UpdatePod(update: Update)
    | ForgetWorker(uid: UID)
    | ForgetNonExistingPodWorkers(desired: set<UID>)
    | ReceiveUpdate(channel: nat)
    | FinishSync(channel: nat)

  function Next(s: State, e: Event): Outcome
    requires forall u :: u in s.podUpdates ==> s.podUpdates[u] < |s.channels|
  {
    match e
    case UpdatePod(x) => Submit(s, x)
    case ForgetWorker(u) => Done(ForgetAll(s, {u}))
    case ForgetNonExistingPodWorkers(desired) => Done(ForgetAll(s, s.podUpdates.Keys - desired))
    case ReceiveUpdate(c) => if CanReceive(s, c) then Done(Receive(s, c)) else NotEnabled
    case FinishSync(c) => if CanFinish(s, c) then Finish(s, c) else NotEnabled
  }

  lemma NextKeepsInv(s: State, e: Event)
    requires Inv(s)
    ensures !Next(s, e).Broken?
    ensures Next(s, e).Done? ==> Inv(Next(s, e).state)
  {
    match e
    case UpdatePod(x) => SubmitKeepsInv(s, x);
    case ForgetWorker(u) => ForgetKeepsInv(s, {u});
    case ForgetNonExistingPodWorkers(desired) => ForgetKeepsInv(s, s.podUpdates.Keys - desired);
    case ReceiveUpdate(c) => if CanReceive(s, c) { ReceiveKeepsInv(s, c); }
    case FinishSync(c) => if CanFinish(s, c) { FinishKeepsInv(s, c); }
  }

  /** A forgotten worker is gone, with its pending update and its channel, and nothing else is. */
  lemma ForgetStepForgets(s: State, e: Event)
    requires Inv(s) && (e.ForgetWorker? || e.ForgetNonExistingPodWorkers?)
    ensures Next(s, e).Done?
    ensures Forgets(s, Next(s, e).state, if e.ForgetWorker? then {e.uid} else s.podUpdates.Keys - e.desired)
  {
    ForgetAllForgets(s, if e.ForgetWorker? then {e.uid} else s.podUpdates.Keys - e.desired);
  }

  /** Any interleaving of the steps of callers and goroutines. */
  ghost function Exec(s: State, es: seq<Event>): (o: Outcome)
    requires Inv(s)
    ensures !o.Broken?
    ensures o.Done? ==> Inv(o.state)
    decreases |es|
  {
    if es == [] then Done(s)
    else
      NextKeepsInv(s, es[0]);
      var o := Next(s, es[0]);
      if o.Done? then Exec(o.state, es[1..]) else o
  }

  datatype Token = InBuffer(channel: nat, item: Update) | InSync(channel: nat, item: Update)

  /** The updates of pod `u` on their way: buffered in a channel of any generation, or being synced. */
  ghost function Outstanding(s: State, u: UID): set<Token> {
    (set c | 0 <= c < |s.channels| && s.channels[c].uid == u && s.channels[c].buffer.Some? ::
       InBuffer(c, s.channels[c].buffer.value)) +
    (set c | 0 <= c < |s.channels| && s.channels[c].uid == u && s.channels[c].syncing.Some? ::
       InSync(c, s.channels[c].syncing.value))
  }

  /** In every reachable state the flag of a pod is set exactly when one update
      of it is outstanding, over all generations of its channels. */
  lemma FlagCountsOutstanding(es: seq<Event>, u: UID)
    requires Exec(INITIAL, es).Done?
    ensures var s := Exec(INITIAL, es).state;
      |Outstanding(s, u)| == if Working(s, u) then 1 else 0
  {
    OutstandingOfInv(Exec(INITIAL, es).state, u);
  }

  lemma OutstandingOfInv(s: State, u: UID)
    requires Inv(s)
    ensures |Outstanding(s, u)| == if Working(s, u) then 1 else 0
  {
    assert OneOutstanding(s, u);
    if Working(s, u) {
      var c: nat :| SoleHolder(s, u, c);
      var t := if s.channels[c].buffer.Some? then InBuffer(c, s.channels[c].buffer.value)
               else InSync(c, s.channels[c].syncing.value);
      assert Outstanding(s, u) == {t};
    } else {
      assert Outstanding(s, u) == {};
    }
  }

  /** At most one sync of a pod runs at a time, also across a forgotten worker and its replacement. */
  lemma NoTwoSyncs(es: seq<Event>, c: nat, d: nat)
    requires Exec(INITIAL, es).Done?
    requires var s := Exec(INITIAL, es).state;
      CanFinish(s, c) && CanFinish(s, d) && s.channels[c].uid == s.channels[d].uid
    ensures c == d
  {
    HolderIsSole(Exec(INITIAL, es).state, c);
  }
}
