/**
 The reference manager object: CanAdopt caches its answer in fields, and
 ClaimPods loops over the snapshots, sending patches to the API server.
 */
module ControllerRefImpl {
  import opened ControllerRef

  class Api {
    var server: Server
    var patches: nat

    constructor (server: Server)
      ensures this.server == server && patches == 0
    {
      this.server, patches := server, 0;
    }
  }

  datatype ApiError = Nil | NotFoundError | OtherError

  class RefManager {
    const manager: Manager
    var onceDone: bool
    var canAdoptErr: bool
    var asked: nat

    constructor (manager: Manager)
      ensures this.manager == manager && !onceDone && !canAdoptErr && asked == 0
    {
      this.manager := manager;
      onceDone, canAdoptErr, asked := false, false, 0;
    }

    ghost predicate Valid()
      reads this
    {
      !onceDone ==> !canAdoptErr
    }

    function Once(): Once
      reads this
    {
      if !onceDone then NotAsked else if canAdoptErr then Denied else Allowed
    }

    function World(api: Api): World
      reads this, api
    {
      ControllerRef.World(api.server, Once(), asked, api.patches)
    }

    method CanAdopt(f: Fate) returns (err: bool)
      requires Valid()
      modifies this
      ensures Valid() && err == canAdoptErr
      ensures forall s, n ::
        ControllerRef.World(s, Once(), asked, n) == Ask(ControllerRef.World(s, old(Once()), old(asked), n), f)
    {
      if !onceDone {
        onceDone := true;
        asked := asked + 1;
        canAdoptErr := !f.canAdopt;
      }
      err := canAdoptErr;
    }

    method AdoptPod(api: Api, o: Obj, f: Fate) returns (err: ApiError)
      requires Valid()
      modifies this, api
      ensures Valid()
      ensures var c := SendAdopt(manager, old(World(api)), o, f);
        c == Claim(World(api), err.Nil?, err.OtherError?)
    {
      var denied := CanAdopt(f);
      if denied { return OtherError; }
      api.patches := api.patches + 1;
      if f.patchLost { return OtherError; }
      match AdoptPatch(api.server, o.name, o.uid, manager.uid) {
        case Patched(s) => api.server := s; err := Nil;
        case NotFound => err := NotFoundError;
        case Invalid => err := OtherError;
      }
      if f.replyLost { err := OtherError; }
    }

    method ReleasePod(api: Api, o: Obj, f: Fate) returns (err: ApiError)
      requires Valid()
      modifies api
      ensures var c := SendRelease(manager, old(World(api)), o, f);
        c == Claim(World(api), false, err.OtherError?)
    {
      api.patches := api.patches + 1;
      if f.patchLost { return OtherError; }
      var r := ReleasePatch(api.server, o.name, o.uid, manager.uid);
      if r.Patched? {
        api.server := r.server;
      }
      // "not found" and "invalid" are ignored
      err := if f.replyLost then OtherError else Nil;
    }

    method ClaimObject(api: Api, o: Obj, f: Fate) returns (claimed: bool, failed: bool)
      requires Valid()
      modifies this, api
      ensures Valid() && ControllerRef.ClaimObject(manager, old(World(api)), o, f) == Claim(World(api), claimed, failed)
    {
      var controllerRef := ControllerOf(o.owners);
      if controllerRef.Some? {
        if controllerRef.value != manager.uid { return false, false; }
        if manager.selects(o.body) { return true, false; }
        if manager.deleting { return false, false; }
        var err := ReleasePod(api, o, f);
        return false, err.OtherError?;
      }
      if manager.deleting || !manager.selects(o.body) { return false, false; }
      if o.deleting { return false, false; }
      var err := AdoptPod(api, o, f);
      return err.Nil?, err.OtherError?;
    }

    method ClaimPods(api: Api, pods: seq<Obj>, fates: seq<Fate>) returns (claimed: seq<Obj>, failures: nat)
      requires Valid() && |fates| == |pods|
      modifies this, api
      ensures Valid() && ClaimAll(manager, old(World(api)), pods, fates) == Claims(World(api), claimed, failures)
    {
      claimed, failures := [], 0;
      ghost var whole := ClaimAll(manager, World(api), pods, fates);
      for i := 0 to |pods|
        invariant Valid()
        invariant Ahead(manager, whole, World(api), claimed, failures, pods[i..], fates[i..])
      {
        assert pods[i..][1..] == pods[i + 1..] && fates[i..][1..] == fates[i + 1..];
        AheadStep(manager, whole, World(api), claimed, failures, pods[i..], fates[i..]);
        var ok, failed := ClaimObject(api, pods[i], fates[i]);
        if failed {
          failures := failures + 1;
        } else if ok {
          claimed := claimed + [pods[i]];
        }
      }
    }
  }

  /** `whole` is what has been claimed so far and what the remaining list will yield. */
  ghost predicate Ahead(m: Manager, whole: Claims, w: World, claimed: seq<Obj>, failures: nat, pods: seq<Obj>,
                        fates: seq<Fate>) {
    && |fates| == |pods|
    && var rest := ClaimAll(m, w, pods, fates);
       whole == Claims(rest.world, claimed + rest.claimed, failures + rest.failures)
  }

  lemma AheadStep(m: Manager, whole: Claims, w: World, claimed: seq<Obj>, failures: nat, pods: seq<Obj>,
                  fates: seq<Fate>)
    requires Ahead(m, whole, w, claimed, failures, pods, fates) && pods != []
    ensures var c := ControllerRef.ClaimObject(m, w, pods[0], fates[0]);
      Ahead(m, whole, c.world,
            if !c.failed && c.claimed then claimed + [pods[0]] else claimed,
            if c.failed then failures + 1 else failures, pods[1..], fates[1..])
  {
    var c := ControllerRef.ClaimObject(m, w, pods[0], fates[0]);
    assert !(c.failed && c.claimed);
    var more := ClaimAll(m, c.world, pods[1..], fates[1..]).claimed;
    assert claimed + ([pods[0]] + more) == (claimed + [pods[0]]) + more && [] + more == more;
  }
}
