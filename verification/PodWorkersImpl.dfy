/**
 The podWorkers object: its maps are updated in place, one method per critical
 section. Each method is proved against its step function in `PodWorkers`, and
 every channel send is proved to find an open channel with a free slot.
 */
module PodWorkersImpl {
  import opened Wrappers
  import opened PodWorkers

  class Workers {
    var podUpdates: map<UID, nat>
    var isWorking: map<UID, bool>
    var lastUndelivered: map<UID, Update>
    var channels: seq<Channel>

    ghost function View(): State
      reads this
    {
      State(podUpdates, isWorking, lastUndelivered, channels)
    }

    ghost predicate Valid()
      reads this
    {
      Inv(View())
    }

    constructor ()
      ensures Valid() && View() == INITIAL
    {
      podUpdates, isWorking, lastUndelivered, channels := map[], map[], map[], [];
    }

    /** A send that neither panics nor blocks. */
    method SendTo(c: nat, x: Update)
      requires c < |channels| && channels[c].open && channels[c].buffer.None?
      modifies this`channels
      ensures Send(old(View()), c, x) == Done(View())
    {
      channels := channels[c := channels[c].(buffer := Some(x))];
    }

    method UpdatePod(x: Update)
      requires Valid()
      modifies this
      ensures Valid() && Submit(old(View()), x) == Done(View())
    {
      SubmitKeepsInv(View(), x);
      EnsureWorkerKeepsInv(View(), x.uid);
      if x.uid !in podUpdates {
        podUpdates := podUpdates[x.uid := |channels|];
        channels := channels + [Channel(x.uid, true, None, None)];
      }
      assert View() == EnsureWorker(old(View()), x.uid);
      if !Get(isWorking, x.uid, false) {
        assert OneOutstanding(View(), x.uid);
        isWorking := isWorking[x.uid := true];
        SendTo(podUpdates[x.uid], x);
      } else if x.uid !in lastUndelivered || lastUndelivered[x.uid].kind != SyncPodKill {
        lastUndelivered := lastUndelivered[x.uid := x];
      }
    }

    method RemoveWorker(uid: UID)
      requires Valid()
      modifies this
      ensures Valid() && View() == ForgetAll(old(View()), {uid})
      ensures Forgets(old(View()), View(), {uid})
    {
      ForgetAllForgets(View(), {uid});
      ForgetKeepsInv(View(), {uid});
      if uid in podUpdates {
        var c := podUpdates[uid];
        channels := channels[c := channels[c].(open := false)];
        podUpdates := podUpdates - {uid};
        lastUndelivered := lastUndelivered - {uid};
        assert {uid} * old(podUpdates).Keys == {uid};
        assert channels == ForgetAll(old(View()), {uid}).channels;
      } else {
        assert View() == ForgetAll(View(), {uid});
      }
    }

    method ForgetNonExistingPodWorkers(desired: set<UID>)
      requires Valid()
      modifies this
      ensures Valid() && View() == ForgetAll(old(View()), old(podUpdates).Keys - desired)
      ensures Forgets(old(View()), View(), old(podUpdates).Keys - desired)
    {
      ForgetAllForgets(View(), podUpdates.Keys - desired);
      ghost var before, all := View(), podUpdates.Keys;
      var keys := podUpdates.Keys;
      ghost var done: set<UID> := {};
      ForgetNone(before);
      while keys != {}
        invariant Valid() && View() == ForgetAll(before, done)
        invariant Split(all, desired, keys, done)
        decreases keys
      {
        var key :| key in keys;
        SplitStep(all, desired, keys, done, key);
        if key !in desired {
          RemoveWorker(key);
          ForgetTwice(before, done, {key});
          done := done + {key};
        }
        keys := keys - {key};
      }
      assert done == all - desired;
    }

    /** One turn of managePodLoop's range over channel `c`. */
    method ReceiveUpdate(c: nat) returns (x: Update)
      requires Valid() && CanReceive(View(), c)
      modifies this`channels
      ensures Valid() && View() == Receive(old(View()), c)
      ensures old(channels)[c].buffer == Some(x) && channels[c].syncing == Some(x)
    {
      ReceiveKeepsInv(View(), c);
      x := channels[c].buffer.value;
      channels := channels[c := channels[c].(buffer := None, syncing := Some(x))];
    }

    /** The end of a sync: wrapUp's call of checkForUpdates. */
    method FinishSync(c: nat)
      requires Valid() && CanFinish(View(), c)
      modifies this
      ensures Valid() && Finish(old(View()), c) == Done(View())
    {
      FinishKeepsInv(View(), c);
      HolderIsSole(View(), c);
      var uid := channels[c].syncing.value.uid;
      channels := channels[c := channels[c].(syncing := None)];
      if uid in lastUndelivered {
        var workUpdate := lastUndelivered[uid];
        assert Quiet(View(), uid);
        lastUndelivered := lastUndelivered - {uid};
        SendTo(podUpdates[uid], workUpdate);
      } else {
        isWorking := isWorking[uid := false];
      }
    }
  }

  /** Of `all` pods those in `keys` are still to be visited; the others are done unless desired. */
  ghost predicate Split(all: set<UID>, desired: set<UID>, keys: set<UID>, done: set<UID>) {
    keys <= all && done == all - keys - desired
  }

  lemma SplitStep(all: set<UID>, desired: set<UID>, keys: set<UID>, done: set<UID>, key: UID)
    requires Split(all, desired, keys, done) && key in keys
    ensures Split(all, desired, keys - {key}, if key in desired then done else done + {key})
  {
  }

  lemma ForgetNone(s: State)
    ensures ForgetAll(s, {}) == s
  {
    assert ForgetAll(s, {}).podUpdates == s.podUpdates;
    assert ForgetAll(s, {}).lastUndelivered == s.lastUndelivered;
    assert ForgetAll(s, {}).channels == s.channels;
  }

  /** Forgetting pods one after the other forgets them all, in any order. */
  lemma ForgetTwice(s: State, us: set<UID>, vs: set<UID>)
    ensures ForgetAll(ForgetAll(s, us), vs) == ForgetAll(s, us + vs)
  {
    var a, b := ForgetAll(ForgetAll(s, us), vs), ForgetAll(s, us + vs);
    assert a.podUpdates == b.podUpdates;
    assert a.lastUndelivered == b.lastUndelivered;
    assert a.channels == b.channels;
  }
}
