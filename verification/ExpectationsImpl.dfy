/**
 UIDTrackingControllerExpectations on its two object stores: counters and UID
 sets are shared objects which the operations change in place.
 */
module ExpectationsImpl {
  import opened Expectations

  class ControlleeExpectations {
    var add: int
    var del: int
    var timestamp: int

    constructor (add: int, del: int, timestamp: int)
      ensures View() == Counters(add, del, timestamp)
    {
      this.add, this.del, this.timestamp := add, del, timestamp;
    }

    ghost function View(): Counters
      reads this
    {
      Counters(add, del, timestamp)
    }

    method Add(add: int, del: int)
      modifies this`add, this`del
      ensures View() == old(View()).(add := old(this.add) + add, del := old(this.del) + del)
    {
      this.add := this.add + add;
      this.del := this.del + del;
    }
  }

  class UIDSet {
    var uids: set<UID>

    constructor (uids: set<UID>)
      ensures this.uids == uids
    {
      this.uids := uids;
    }
  }

  /** The set built by inserting the keys one by one. */
  method NewString(keys: seq<UID>) returns (s: set<UID>)
    ensures s == Elements(keys)
  {
    s := {};
    for i := 0 to |keys|
      invariant s == Elements(keys[..i])
    {
      s := s + {keys[i]};
    }
    assert keys[..|keys|] == keys;
  }

  class UIDTracking {
    var store: map<Key, ControlleeExpectations>
    var uidStore: map<Key, UIDSet>

    /** Every key has objects of its own. */
    ghost predicate Valid()
      reads this
    {
      && (forall k, l :: k in store && l in store && k != l ==> store[k] != store[l])
      && (forall k, l :: k in uidStore && l in uidStore && k != l ==> uidStore[k] != uidStore[l])
    }

    ghost function View(): Stores
      reads this, store.Values, uidStore.Values
    {
      Stores(map k | k in store :: store[k].View(), map k | k in uidStore :: uidStore[k].uids)
    }

    constructor ()
      ensures Valid() && View() == EMPTY
    {
      store, uidStore := map[], map[];
    }

    method SetExpectations(k: Key, add: int, del: int, now: int)
      requires Valid()
      modifies this`store
      ensures Valid() && View() == old(View()).(counters := old(View()).counters[k := Counters(add, del, now)])
      ensures k in store && fresh(store[k])
    {
      var exp := new ControlleeExpectations(add, del, now);
      store := store[k := exp];
    }

    method LowerExpectations(k: Key, add: int, del: int)
      requires Valid()
      modifies store.Values
      ensures Valid() && View() == Lower(old(View()), k, add, del)
    {
      if k in store {
        store[k].Add(-add, -del);
      }
    }

    method ExpectDeletions(k: Key, deletedKeys: seq<UID>, now: int)
      requires Valid()
      modifies this
      ensures Valid() && View() == Apply(old(View()), Op.ExpectDeletions(k, deletedKeys, now))
    {
      var expectedUIDs := NewString(deletedKeys);
      AddUIDs(k, expectedUIDs);
      SetExpectations(k, 0, |expectedUIDs|, now);
    }

    method AddUIDs(k: Key, uids: set<UID>)
      requires Valid()
      modifies this`uidStore
      ensures Valid() && View() == old(View()).(uids := old(View()).uids[k := uids])
    {
      var entry := new UIDSet(uids);
      uidStore := uidStore[k := entry];
    }

    method DeletionObserved(k: Key, deleteKey: UID)
      requires Valid()
      modifies store.Values, uidStore.Values
      ensures Valid() && View() == Apply(old(View()), Op.DeletionObserved(k, deleteKey))
    {
      if k in uidStore && deleteKey in uidStore[k].uids {
        LowerExpectations(k, 0, 1);
        uidStore[k].uids := uidStore[k].uids - {deleteKey};
      }
    }

    method DeleteExpectations(k: Key)
      requires Valid()
      modifies this
      ensures Valid() && View() == Apply(old(View()), Op.DeleteExpectations(k))
    {
      store := store - {k};
      uidStore := uidStore - {k};
      assert View().counters == old(View()).counters - {k};
      assert View().uids == old(View()).uids - {k};
    }

    /** Promoted from the embedded expectations: the UID store is not touched. */
    method ExpectCreations(k: Key, adds: int, now: int)
      requires Valid()
      modifies this`store
      ensures Valid() && View() == Apply(old(View()), Op.ExpectCreations(k, adds, now))
    {
      SetExpectations(k, adds, 0, now);
    }

    method SatisfiedExpectations(k: Key, now: int) returns (satisfied: bool)
      requires Valid()
      ensures satisfied == Satisfied(View(), k, now)
    {
      if k in store {
        var exp := store[k];
        if exp.add <= 0 && exp.del <= 0 {
          return true;
        } else if now - exp.timestamp > TIMEOUT {
          return true;
        } else {
          return false;
        }
      }
      satisfied := true;
    }
  }
}
