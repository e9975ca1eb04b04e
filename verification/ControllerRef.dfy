/**
 The controller reference manager: controllers adopt matching orphans and
 release objects that no longer match, by patches computed from snapshots of
 any age. The API server checks the object's UID and rejects a patch that would
 leave two references with controller=true.
 */
module ControllerRef {
  import opened Wrappers

  type Uid = nat

  type Name = string

  /** What selectors and filters look at: labels, status, whatever patches of owner references leave alone. */
  type Body = map<string, string>

  datatype OwnerRef = OwnerRef(uid: Uid, controller: bool)

  datatype Obj = Obj(name: Name, uid: Uid, owners: seq<OwnerRef>, deleting: bool, body: Body)

  type Server = map<Name, Obj>

  /** GetControllerOf: the first reference with controller=true. */
  function ControllerOf(owners: seq<OwnerRef>): (c: Option<Uid>)
    ensures c.Some? ==> OwnerRef(c.value, true) in owners
    ensures c.None? ==> forall r :: r in owners ==> !r.controller
  {
    if owners == [] then None
    else if owners[0].controller then Some(owners[0].uid)
    else ControllerOf(owners[1..])
  }

  /** ValidateOwnerReferences: only one reference may have controller=true. */
  ghost predicate AtMostOneController(owners: seq<OwnerRef>) {
    forall i, j :: 0 <= i < j < |owners| ==> !(owners[i].controller && owners[j].controller)
  }

  function CountControllers(owners: seq<OwnerRef>): nat {
    if owners == [] then 0 else (if owners[0].controller then 1 else 0) + CountControllers(owners[1..])
  }

  lemma {:induction false} CountIsAtMostOne(owners: seq<OwnerRef>)
    ensures CountControllers(owners) <= 1 <==> AtMostOneController(owners)
    ensures CountControllers(owners) == 0 <==> ControllerOf(owners).None?
  {
    if owners != [] {
      var rest := owners[1..];
      CountIsAtMostOne(rest);
      assert forall i :: 0 <= i < |rest| ==> rest[i] == owners[i + 1];
      if owners[0].controller && CountControllers(rest) > 0 {
        var c := OwnerRef(ControllerOf(rest).value, true);
        var i :| 0 <= i < |rest| && rest[i] == c;
        assert owners[0].controller && owners[i + 1].controller;
      }
      if AtMostOneController(rest) && !(owners[0].controller && CountControllers(rest) > 0) {
        forall i, j | 0 <= i < j < |owners| ensures !(owners[i].controller && owners[j].controller) {
          assert owners[j] == rest[j - 1] && rest[j - 1] in rest;
          if i > 0 { assert owners[i] == rest[i - 1]; }
        }
      }
    }
  }

  /** The references of everybody but `m`, in order. */
  function Others(owners: seq<OwnerRef>, m: Uid): seq<OwnerRef> {
    if owners == [] then []
    else (if owners[0].uid == m then [] else [owners[0]]) + Others(owners[1..], m)
  }

  /** The strategic merge of a reference: by UID into an existing one, else appended. */
  function Merged(owners: seq<OwnerRef>, m: Uid): (r: seq<OwnerRef>)
    ensures OwnerRef(m, true) in r
  {
    if owners == [] then [OwnerRef(m, true)]
    else if owners[0].uid == m then [OwnerRef(m, true)] + owners[1..]
    else [owners[0]] + Merged(owners[1..], m)
  }

  lemma {:induction false} MergedKeepsOthers(owners: seq<OwnerRef>, m: Uid)
    ensures Others(Merged(owners, m), m) == Others(owners, m)
    ensures ControllerOf(owners).None? ==>
      CountControllers(Merged(owners, m)) == 1 && ControllerOf(Merged(owners, m)) == Some(m)
  {
    if owners != [] {
      var r := Merged(owners, m);
      if owners[0].uid == m {
        assert r[1..] == owners[1..];
        CountIsAtMostOne(owners[1..]);
      } else {
        assert r[1..] == Merged(owners[1..], m);
        MergedKeepsOthers(owners[1..], m);
      }
    }
  }

  /** Releasing leaves the others' references; without a second controller nobody controls the object afterwards. */
  lemma {:induction false} OthersIsReleased(owners: seq<OwnerRef>, m: Uid)
    ensures Others(Others(owners, m), m) == Others(owners, m)
    ensures CountControllers(Others(owners, m)) <= CountControllers(owners)
    ensures ControllerOf(owners) == Some(m) && CountControllers(owners) <= 1 ==> ControllerOf(Others(owners, m)).None?
  {
    if owners != [] {
      OthersIsReleased(owners[1..], m);
      var r := Others(owners, m);
      if owners[0].uid == m {
        assert r == Others(owners[1..], m);
      } else {
        assert r[0] == owners[0] && r[1..] == Others(owners[1..], m);
      }
      CountIsAtMostOne(owners[1..]);
      CountIsAtMostOne(Others(owners[1..], m));
    }
  }

  // ----------------------------------------------------------- the server

  datatype PatchResult = Patched(server: Server) | NotFound | Invalid

  function AdoptPatch(s: Server, name: Name, uid: Uid, m: Uid): PatchResult {
    if name !in s then NotFound
    else if s[name].uid != uid then Invalid
    else
      var owners := Merged(s[name].owners, m);
      if CountControllers(owners) > 1 then Invalid
      else Patched(s[name := s[name].(owners := owners)])
  }

  function ReleasePatch(s: Server, name: Name, uid: Uid, m: Uid): PatchResult {
    if name !in s then NotFound
    else if s[name].uid != uid || s[name].owners == [] then Invalid
    else Patched(s[name := s[name].(owners := Others(s[name].owners, m))])
  }

  // ---------------------------------------------------------- the manager

  datatype Manager = Manager(uid: Uid, deleting: bool, selects: Body -> bool)

  datatype Decision = Ignore | Keep | Release | Adopt

  /** What ClaimObject attempts, from the snapshot `o` alone. */
  function Decide(m: Manager, o: Obj): Decision {
    match ControllerOf(o.owners)
    case Some(c) =>
      if c != m.uid then Ignore
      else if m.selects(o.body) then Keep
      else if m.deleting then Ignore
      else Release
    case None =>
      if m.deleting || !m.selects(o.body) || o.deleting then Ignore else Adopt
  }

  /** The sync.Once around the CanAdopt check. */
  datatype Once = NotAsked | Allowed | Denied

  /** How the outside answers: the CanAdopt check if it is made, whether the
      patch reaches the server, and whether the server's answer comes back. */
  datatype Fate = Fate(canAdopt: bool, patchLost: bool, replyLost: bool)

  datatype World = World(server: Server, once: Once, asked: nat, patches: nat)

  datatype Claim = Claim(world: World, claimed: bool, failed: bool)

  function Ask(w: World, f: Fate): World {
    if w.once.NotAsked? then w.(once := if f.canAdopt then Allowed else Denied, asked := w.asked + 1) else w
  }

  /** ReleasePod: a missing object, a changed UID and an object without references are no errors. */
  function SendRelease(m: Manager, w: World, o: Obj, f: Fate): Claim {
    var sent := w.(patches := w.patches + 1);
    if f.patchLost then Claim(sent, false, true)
    else
      match ReleasePatch(w.server, o.name, o.uid, m.uid)
      case Patched(s) => Claim(sent.(server := s), false, f.replyLost)
      case _ => Claim(sent, false, f.replyLost)
  }

  /** AdoptPod, after the CanAdopt check; only a missing object is no error. */
  function SendAdopt(m: Manager, w: World, o: Obj, f: Fate): Claim {
    var a := Ask(w, f);
    if a.once.Denied? then Claim(a, false, true)
    else
      var sent := a.(patches := w.patches + 1);
      if f.patchLost then Claim(sent, false, true)
      else
        match AdoptPatch(w.server, o.name, o.uid, m.uid)
        case Patched(s) => Claim(sent.(server := s), !f.replyLost, f.replyLost)
        case NotFound => Claim(sent, false, f.replyLost)
        case Invalid => Claim(sent, false, true)
  }

  function ClaimObject(m: Manager, w: World, o: Obj, f: Fate): Claim {
    match Decide(m, o)
    case Ignore => Claim(w, false, false)
    case Keep => Claim(w, true, false)
    case Release => SendRelease(m, w, o, f)
    case Adopt => SendAdopt(m, w, o, f)
  }

  datatype Claims = Claims(world: World, claimed: seq<Obj>, failures: nat)

  /** ClaimPods over a list of snapshots. */
  function ClaimAll(m: Manager, w: World, pods: seq<Obj>, fates: seq<Fate>): Claims
    requires |fates| == |pods|
    decreases |pods|
  {
    if pods == [] then Claims(w, [], 0)
    else
      var c := ClaimObject(m, w, pods[0], fates[0]);
      var rest := ClaimAll(m, c.world, pods[1..], fates[1..]);
      Claims(rest.world,
             (if c.claimed then [pods[0]] else []) + rest.claimed,
             (if c.failed then 1 else 0) + rest.failures)
  }

  // ------------------------------------------------- what a claim tells

  /** The place of the first reference of `m`, or the number of references. */
  function FirstOf(owners: seq<OwnerRef>, m: Uid): (i: nat)
    ensures i <= |owners|
  {
    if owners == [] || owners[0].uid == m then 0 else 1 + FirstOf(owners[1..], m)
  }

  /** A reference other than the one that `m` would merge into has controller=true. */
  ghost predicate ControlledBeside(owners: seq<OwnerRef>, m: Uid) {
    exists i :: 0 <= i < |owners| && i != FirstOf(owners, m) && owners[i].controller
  }

  lemma NoneCounted(owners: seq<OwnerRef>)
    ensures CountControllers(owners) > 0 <==> exists i :: 0 <= i < |owners| && owners[i].controller
  {
    CountIsAtMostOne(owners);
    if CountControllers(owners) > 0 {
      var c := OwnerRef(ControllerOf(owners).value, true);
      var i :| 0 <= i < |owners| && owners[i] == c;
      assert owners[i].controller;
    }
  }

  lemma {:induction false} MergedCountIff(owners: seq<OwnerRef>, m: Uid)
    ensures CountControllers(Merged(owners, m)) > 1 <==> ControlledBeside(owners, m)
    ensures CountControllers(Merged(owners, m)) >= 1
  {
    if owners != [] {
      var rest := owners[1..];
      assert forall i :: 0 < i < |owners| ==> owners[i] == rest[i - 1];
      assert forall i :: 0 <= i < |rest| ==> rest[i] == owners[i + 1];
      if owners[0].uid == m {
        assert Merged(owners, m)[1..] == rest;
        NoneCounted(rest);
      } else {
        assert Merged(owners, m)[1..] == Merged(rest, m);
        MergedCountIff(rest, m);
        BesideStep(owners, m);
      }
    }
  }

  lemma BesideStep(owners: seq<OwnerRef>, m: Uid)
    requires owners != [] && owners[0].uid != m
    ensures ControlledBeside(owners, m) <==> owners[0].controller || ControlledBeside(owners[1..], m)
  {
    var rest := owners[1..];
    if ControlledBeside(rest, m) {
      var i :| 0 <= i < |rest| && i != FirstOf(rest, m) && rest[i].controller;
      assert owners[i + 1].controller && i + 1 != FirstOf(owners, m);
    }
    if ControlledBeside(owners, m) && !owners[0].controller {
      var i :| 0 <= i < |owners| && i != FirstOf(owners, m) && owners[i].controller;
      assert rest[i - 1].controller && i - 1 != FirstOf(rest, m);
    }
  }

  /** The server has the snapshot's incarnation of the object, controlled by the manager. */
  predicate Owned(s: Server, o: Obj, m: Manager) {
    o.name in s && s[o.name].uid == o.uid && ControllerOf(s[o.name].owners) == Some(m.uid)
  }

  predicate WantsRelease(m: Manager, o: Obj) {
    ControllerOf(o.owners) == Some(m.uid) && !m.selects(o.body) && !m.deleting
  }

  predicate WantsAdoption(m: Manager, o: Obj) {
    ControllerOf(o.owners).None? && m.selects(o.body) && !m.deleting && !o.deleting
  }

  predicate CheckDenied(w: World, f: Fate) {
    w.once.Denied? || (w.once.NotAsked? && !f.canAdopt)
  }

  /** The server refuses to make `m` the controller: another incarnation, or another controller. */
  ghost predicate Refused(s: Server, o: Obj, m: Uid) {
    o.name in s && (s[o.name].uid != o.uid || ControlledBeside(s[o.name].owners, m))
  }

  /** When a claim fails, for any server, snapshot and fate. */
  ghost predicate Fails(m: Manager, w: World, o: Obj, f: Fate) {
    || (WantsRelease(m, o) && (f.patchLost || f.replyLost))
    || (WantsAdoption(m, o) && (CheckDenied(w, f) || f.patchLost || f.replyLost || Refused(w.server, o, m.uid)))
  }

  /** When it claims the object: an own match, or an orphan that the server lets it adopt. */
  ghost predicate Succeeds(m: Manager, w: World, o: Obj, f: Fate) {
    || IsMine(m, o)
    || (WantsAdoption(m, o) && !Fails(m, w, o, f) && o.name in w.server)
  }

  lemma OnlyController(owners: seq<OwnerRef>, m: Uid)
    requires CountControllers(owners) <= 1 && OwnerRef(m, true) in owners
    ensures ControllerOf(owners) == Some(m)
  {
    CountIsAtMostOne(owners);
    var i :| 0 <= i < |owners| && owners[i] == OwnerRef(m, true);
    var c := OwnerRef(ControllerOf(owners).value, true);
    var j :| 0 <= j < |owners| && owners[j] == c;
    assert i == j;
  }

  /** For all servers, snapshots and fates: a claim fails and claims exactly when
      said so, never both, and what it claims was the manager's match already, or
      is an object of the snapshot's incarnation that the manager now controls. */
  lemma ClaimTells(m: Manager, w: World, o: Obj, f: Fate)
    ensures var c := ClaimObject(m, w, o, f);
      && (c.failed <==> Fails(m, w, o, f)) && (c.claimed <==> Succeeds(m, w, o, f))
      && !(c.claimed && c.failed)
      && (c.claimed ==> IsMine(m, o) || Owned(c.world.server, o, m))
  {
    if Decide(m, o).Adopt? && o.name in w.server {
      var owners := w.server[o.name].owners;
      MergedCountIff(owners, m.uid);
      if CountControllers(Merged(owners, m.uid)) <= 1 { OnlyController(Merged(owners, m.uid), m.uid); }
    }
  }

  lemma {:induction false} OthersHasNone(owners: seq<OwnerRef>, m: Uid)
    ensures forall r :: r in Others(owners, m) ==> r.uid != m
  {
    if owners != [] { OthersHasNone(owners[1..], m); }
  }

  /** A request that arrives takes effect even if its answer is lost: a released
      object has no reference of the manager left, an adopted one is controlled by it. */
  lemma ClaimDoes(m: Manager, w: World, o: Obj, f: Fate)
    requires o.name in w.server && w.server[o.name].uid == o.uid && !f.patchLost
    ensures var s := ClaimObject(m, w, o, f).world.server;
      && o.name in s
      && (WantsRelease(m, o) ==> forall r :: r in s[o.name].owners ==> r.uid != m.uid)
      && (WantsAdoption(m, o) && !CheckDenied(w, f) && !Refused(w.server, o, m.uid) ==> Owned(s, o, m))
  {
    var owners := w.server[o.name].owners;
    OthersHasNone(owners, m.uid);
    MergedCountIff(owners, m.uid);
    if CountControllers(Merged(owners, m.uid)) <= 1 { OnlyController(Merged(owners, m.uid), m.uid); }
  }

  // -------------------------------------------- what a list of claims tells

  /** The world before claim `i` of the list. */
  function WorldAt(m: Manager, w: World, pods: seq<Obj>, fates: seq<Fate>, i: nat): World
    requires |fates| == |pods| && i <= |pods|
    decreases i
  {
    if i == 0 then w else WorldAt(m, ClaimObject(m, w, pods[0], fates[0]).world, pods[1..], fates[1..], i - 1)
  }

  /** The pods whose claim succeeds, in order. */
  ghost function Succeeding(m: Manager, w: World, pods: seq<Obj>, fates: seq<Fate>, i: nat): seq<Obj>
    requires |fates| == |pods| && i <= |pods|
  {
    if i == 0 then []
    else
      var v := WorldAt(m, w, pods, fates, i - 1);
      Succeeding(m, w, pods, fates, i - 1) + if Succeeds(m, v, pods[i - 1], fates[i - 1]) then [pods[i - 1]] else []
  }

  ghost function Failing(m: Manager, w: World, pods: seq<Obj>, fates: seq<Fate>, i: nat): nat
    requires |fates| == |pods| && i <= |pods|
  {
    if i == 0 then 0
    else
      var v := WorldAt(m, w, pods, fates, i - 1);
      Failing(m, w, pods, fates, i - 1) + if Fails(m, v, pods[i - 1], fates[i - 1]) then 1 else 0
  }

  lemma {:induction false} FirstThenRest(m: Manager, w: World, pods: seq<Obj>, fates: seq<Fate>, i: nat)
    requires |fates| == |pods| && 0 < i <= |pods|
    ensures var v := ClaimObject(m, w, pods[0], fates[0]).world;
      && Succeeding(m, w, pods, fates, i) ==
           (if Succeeds(m, w, pods[0], fates[0]) then [pods[0]] else []) + Succeeding(m, v, pods[1..], fates[1..],
             i - 1)
      && Failing(m, w, pods, fates, i) ==
           (if Fails(m, w, pods[0], fates[0]) then 1 else 0) + Failing(m, v, pods[1..], fates[1..], i - 1)
    decreases i
  {
    var v := ClaimObject(m, w, pods[0], fates[0]).world;
    if i == 1 {
      assert WorldAt(m, w, pods, fates, 0) == w;
      assert Succeeding(m, w, pods, fates, 0) == [] && Failing(m, w, pods, fates, 0) == 0;
      assert Succeeding(m, v, pods[1..], fates[1..], 0) == [] && Failing(m, v, pods[1..], fates[1..], 0) == 0;
    } else {
      FirstThenRest(m, w, pods, fates, i - 1);
      assert WorldAt(m, w, pods, fates, i - 1) == WorldAt(m, v, pods[1..], fates[1..], i - 2);
      assert pods[1..][i - 2] == pods[i - 1] && fates[1..][i - 2] == fates[i - 1];
    }
  }

  /** For all servers, lists of snapshots and fates: ClaimPods returns in input
      order exactly the pods whose claims succeed, and counts exactly those that fail. */
  lemma {:induction false} ClaimAllTells(m: Manager, w: World, pods: seq<Obj>, fates: seq<Fate>)
    requires |fates| == |pods|
    ensures var c := ClaimAll(m, w, pods, fates);
      && c.claimed == Succeeding(m, w, pods, fates, |pods|) && c.failures == Failing(m, w, pods, fates, |pods|)
      && c.world == WorldAt(m, w, pods, fates, |pods|)
    decreases |pods|
  {
    if pods != [] {
      ClaimTells(m, w, pods[0], fates[0]);
      ClaimAllTells(m, ClaimObject(m, w, pods[0], fates[0]).world, pods[1..], fates[1..]);
      FirstThenRest(m, w, pods, fates, |pods|);
    }
  }

  ghost predicate DistinctObjects(pods: seq<Obj>) {
    forall i, j :: 0 <= i < j < |pods| ==> pods[i].name != pods[j].name
  }

  /** What ClaimPods returns from a list of different pods is, in the end, the
      manager's: each was its match already in the snapshot, or is controlled by it on the server. */
  lemma {:induction false} ClaimedAreOwned(m: Manager, w: World, pods: seq<Obj>, fates: seq<Fate>)
    requires |fates| == |pods| && ServerValid(w.server) && DistinctObjects(pods)
    ensures var c := ClaimAll(m, w, pods, fates);
      && (forall o :: o in c.claimed ==> o in pods && (IsMine(m, o) || Owned(c.world.server, o, m)))
      && (forall n :: n in w.server && (forall i :: 0 <= i < |pods| ==> pods[i].name != n) ==>
            n in c.world.server && c.world.server[n] == w.server[n])
    decreases |pods|
  {
    if pods != [] {
      var c := ClaimObject(m, w, pods[0], fates[0]);
      ClaimTells(m, w, pods[0], fates[0]);
      ClaimObjectFacts(m, w, pods[0], fates[0]);
      ClaimedAreOwned(m, c.world, pods[1..], fates[1..]);
      assert forall i :: 0 <= i < |pods[1..]| ==> pods[1..][i] == pods[i + 1];
      assert forall i :: 0 < i < |pods| ==> pods[i] == pods[1..][i - 1];
    }
  }

  // ----------------------------------------------- many managers at a time

  datatype Session = Session(manager: Manager, once: Once, asked: nat)

  /** A patch that the server carried out: who sent it, from which snapshot, and the object before and after. */
  datatype Record = Record(session: nat, snapshot: Obj, adopted: bool, before: Obj, after: Obj)

  datatype System = System(server: Server, sessions: seq<Session>, log: seq<Record>)

  datatype Step =
    | ClaimStep(session: nat, snapshot: Obj, fate: Fate)
    | NewSession(manager: Manager)
    | OthersWrite(name: Name, obj: Obj)
    | OthersDelete(name: Name)

  predicate ServerValid(s: Server) {
    forall n :: n in s ==> s[n].name == n && CountControllers(s[n].owners) <= 1
  }

  /** Snapshots are arbitrary; what other clients write passes the server's validation. */
  predicate Enabled(y: System, step: Step) {
    match step
    case ClaimStep(i, o, _) => i < |y.sessions|
    case OthersWrite(n, o) => o.name == n && CountControllers(o.owners) <= 1
    case _ => true
  }

  function Next(y: System, step: Step): System
    requires Enabled(y, step)
  {
    match step
    case ClaimStep(i, o, f) =>
      var x := y.sessions[i];
      var c := ClaimObject(x.manager, World(y.server, x.once, x.asked, 0), o, f);
      System(c.world.server,
             y.sessions[i := x.(once := c.world.once, asked := c.world.asked)],
             if o.name in y.server && c.world.server != y.server
             then y.log + [Record(i, o, Decide(x.manager, o).Adopt?, y.server[o.name], c.world.server[o.name])]
             else y.log)
    case NewSession(m) => y.(sessions := y.sessions + [Session(m, NotAsked, 0)])
    case OthersWrite(n, o) => y.(server := y.server[n := o])
    case OthersDelete(n) => y.(server := y.server - {n})
  }

  /** What justifies a write of a manager: it took the same incarnation of the
      object as its snapshot, left all foreign references alone, and if it added
      its own, the snapshot was a matching live orphan and its one check passed. */
  ghost predicate Justified(y: System, r: Record) {
    && r.session < |y.sessions|
    && var x := y.sessions[r.session];
       var m := x.manager;
       && r.before.uid == r.snapshot.uid == r.after.uid
       && r.after == r.before.(owners := r.after.owners)
       && Others(r.after.owners, m.uid) == Others(r.before.owners, m.uid)
       && !m.deleting
       && (r.adopted ==>
             && ControllerOf(r.snapshot.owners).None? && m.selects(r.snapshot.body) && !r.snapshot.deleting
             && x.once == Allowed
             && OwnerRef(m.uid, true) in r.after.owners)
       && (!r.adopted ==>
             && ControllerOf(r.snapshot.owners) == Some(m.uid) && !m.selects(r.snapshot.body)
             && r.after.owners == Others(r.before.owners, m.uid))
  }

  ghost predicate AskedOnce(x: Session) {
    x.asked == if x.once.NotAsked? then 0 else 1
  }

  ghost predicate Inv(y: System) {
    && ServerValid(y.server)
    && (forall i :: 0 <= i < |y.sessions| ==> AskedOnce(y.sessions[i]))
    && (forall i :: 0 <= i < |y.log| ==> Justified(y, y.log[i]))
  }

  /** Apart from the object itself a claim leaves the server alone. */
  ghost predicate OnlyTouches(s: Server, t: Server, name: Name) {
    t.Keys == s.Keys && forall n :: n in s && n != name ==> t[n] == s[n]
  }

  lemma ReleaseFacts(s: Server, name: Name, uid: Uid, m: Uid)
    requires ServerValid(s)
    ensures var r := ReleasePatch(s, name, uid, m);
      r.Patched? ==> ServerValid(r.server) && OnlyTouches(s, r.server, name)
  {
    if name in s { OthersIsReleased(s[name].owners, m); }
  }

  lemma AdoptFacts(s: Server, name: Name, uid: Uid, m: Uid)
    requires ServerValid(s)
    ensures var r := AdoptPatch(s, name, uid, m); r.Patched? ==> ServerValid(r.server) && OnlyTouches(s, r.server, name)
  {
  }

  /** The check is made at most once in a session. */
  ghost predicate AskedAtMostOnce(v: World, w: World) {
    if v.once.NotAsked? then w.asked == v.asked + if w.once.NotAsked? then 0 else 1
    else w.once == v.once && w.asked == v.asked
  }

  lemma SendReleaseFacts(m: Manager, w: World, o: Obj, f: Fate)
    requires ServerValid(w.server)
    ensures var v := SendRelease(m, w, o, f).world;
      ServerValid(v.server) && OnlyTouches(w.server, v.server, o.name) && AskedAtMostOnce(w, v)
  {
    ReleaseFacts(w.server, o.name, o.uid, m.uid);
  }

  lemma SendAdoptFacts(m: Manager, w: World, o: Obj, f: Fate)
    requires ServerValid(w.server)
    ensures var v := SendAdopt(m, w, o, f).world;
      ServerValid(v.server) && OnlyTouches(w.server, v.server, o.name) && AskedAtMostOnce(w, v)
  {
    AdoptFacts(w.server, o.name, o.uid, m.uid);
  }

  lemma ClaimObjectFacts(m: Manager, w: World, o: Obj, f: Fate)
    requires ServerValid(w.server)
    ensures var v := ClaimObject(m, w, o, f).world;
      ServerValid(v.server) && OnlyTouches(w.server, v.server, o.name) && AskedAtMostOnce(w, v)
  {
    match Decide(m, o)
    case Release => SendReleaseFacts(m, w, o, f);
    case Adopt => SendAdoptFacts(m, w, o, f);
    case _ =>
  }

  lemma {:induction false} NextKeepsInv(y: System, step: Step)
    requires Inv(y) && Enabled(y, step)
    ensures Inv(Next(y, step))
  {
    var z := Next(y, step);
    match step
    case ClaimStep(i, o, f) =>
      var x := y.sessions[i];
      var w := World(y.server, x.once, x.asked, 0);
      ClaimObjectFacts(x.manager, w, o, f);
      forall k | 0 <= k < |z.log| ensures Justified(z, z.log[k]) {
        if k < |y.log| {
          assert Justified(y, y.log[k]);
        } else {
          RecordIsJustified(y, i, o, f);
        }
      }
    case NewSession(m) =>
      forall k | 0 <= k < |z.log| ensures Justified(z, z.log[k]) { assert Justified(y, y.log[k]); }
    case OthersWrite(n, o) =>
      forall k | 0 <= k < |z.log| ensures Justified(z, z.log[k]) { assert Justified(y, y.log[k]); }
    case OthersDelete(n) =>
      forall k | 0 <= k < |z.log| ensures Justified(z, z.log[k]) { assert Justified(y, y.log[k]); }
  }

  /** The log has every write that a manager makes, and nothing else: who made it,
      from which snapshot, and the object before and after. */
  lemma ClaimsAreLogged(y: System, i: nat, o: Obj, f: Fate)
    requires Inv(y) && i < |y.sessions|
    ensures Enabled(y, ClaimStep(i, o, f))
    ensures var z := Next(y, ClaimStep(i, o, f));
      if z.server == y.server then z.log == y.log
      else
        && |z.log| == |y.log| + 1 && z.log[..|y.log|] == y.log && o.name in y.server && o.name in z.server
        && var r := z.log[|y.log|];
           && r.session == i && r.snapshot == o && r.before == y.server[o.name] && r.after == z.server[o.name]
           && z.server == y.server[o.name := r.after]
  {
    var x := y.sessions[i];
    ClaimObjectFacts(x.manager, World(y.server, x.once, x.asked, 0), o, f);
    var z := Next(y, ClaimStep(i, o, f));
    assert OnlyTouches(y.server, z.server, o.name);
    if o.name in y.server {
      assert z.server == y.server[o.name := z.server[o.name]];
    } else {
      assert z.server == y.server;
    }
  }

  /** Others may start a manager, delete any object, and write any object that passes the server's validation. */
  lemma OthersAreFree(y: System, m: Manager, n: Name, o: Obj)
    ensures Enabled(y, NewSession(m)) && Enabled(y, OthersDelete(n))
    ensures Enabled(y, OthersWrite(n, o)) <==>
      && o.name == n
      && forall i, j :: 0 <= i < j < |o.owners| ==> !(o.owners[i].controller && o.owners[j].controller)
  {
    OneControllerIff(o.owners);
  }

  lemma {:induction false} OneControllerIff(owners: seq<OwnerRef>)
    ensures CountControllers(owners) == 0 <==> forall i :: 0 <= i < |owners| ==> !owners[i].controller
    ensures CountControllers(owners) <= 1 <==>
      forall i, j :: 0 <= i < j < |owners| ==> !(owners[i].controller && owners[j].controller)
  {
    if owners != [] {
      var rest := owners[1..];
      OneControllerIff(rest);
      assert forall i :: 0 < i < |owners| ==> owners[i] == rest[i - 1];
      assert forall i :: 0 <= i < |rest| ==> rest[i] == owners[i + 1];
    }
  }

  lemma ReleaseIsJustified(y: System, r: Record, s: Server)
    requires r.session < |y.sessions| && !r.adopted && !y.sessions[r.session].manager.deleting
    requires var m := y.sessions[r.session].manager;
      && Decide(m, r.snapshot).Release?
      && r.snapshot.name in s && r.before == s[r.snapshot.name]
      && var p := ReleasePatch(s, r.snapshot.name, r.snapshot.uid, m.uid);
         p.Patched? && r.after == p.server[r.snapshot.name]
    ensures Justified(y, r)
  {
    OthersIsReleased(r.before.owners, y.sessions[r.session].manager.uid);
  }

  lemma AdoptIsJustified(y: System, r: Record, s: Server)
    requires r.session < |y.sessions| && r.adopted && y.sessions[r.session].once == Allowed
    requires var m := y.sessions[r.session].manager;
      && Decide(m, r.snapshot).Adopt?
      && r.snapshot.name in s && r.before == s[r.snapshot.name]
      && var p := AdoptPatch(s, r.snapshot.name, r.snapshot.uid, m.uid);
         p.Patched? && r.after == p.server[r.snapshot.name]
    ensures Justified(y, r)
  {
    MergedKeepsOthers(r.before.owners, y.sessions[r.session].manager.uid);
  }

  lemma RecordIsJustified(y: System, i: nat, o: Obj, f: Fate)
    requires Inv(y) && i < |y.sessions|
    ensures var z := Next(y, ClaimStep(i, o, f));
      z.log != y.log ==> |z.log| == |y.log| + 1 && Justified(z, z.log[|y.log|])
  {
    var x := y.sessions[i];
    var m := x.manager;
    var z := Next(y, ClaimStep(i, o, f));
    if z.log != y.log {
      match Decide(m, o)
      case Release =>
        assert z.server == ReleasePatch(y.server, o.name, o.uid, m.uid).server;
        ReleaseIsJustified(z, z.log[|y.log|], y.server);
      case Adopt =>
        assert z.server == AdoptPatch(y.server, o.name, o.uid, m.uid).server;
        AdoptIsJustified(z, z.log[|y.log|], y.server);
    }
  }

  predicate Runs(y: System, steps: seq<Step>)
    decreases |steps|
  {
    steps == [] || (Enabled(y, steps[0]) && Runs(Next(y, steps[0]), steps[1..]))
  }

  function Exec(y: System, steps: seq<Step>): System
    requires Runs(y, steps)
    decreases |steps|
  {
    if steps == [] then y else Exec(Next(y, steps[0]), steps[1..])
  }

  /** For any number of managers working from arbitrary snapshots, and other
      clients writing in between: every object has at most one controller in
      every reachable state, and every write of a manager is justified. */
  lemma {:induction false} ManagersAreSafe(y: System, steps: seq<Step>)
    requires Inv(y) && Runs(y, steps)
    ensures Inv(Exec(y, steps))
    ensures forall n :: n in Exec(y, steps).server ==> AtMostOneController(Exec(y, steps).server[n].owners)
    decreases |steps|
  {
    if steps == [] {
      forall n | n in y.server ensures AtMostOneController(y.server[n].owners) { CountIsAtMostOne(y.server[n].owners); }
    } else {
      NextKeepsInv(y, steps[0]);
      ManagersAreSafe(Next(y, steps[0]), steps[1..]);
    }
  }

  // ------------------------------------------------------ no interference

  /** The snapshots are the server's present objects. */
  ghost predicate UpToDate(s: Server, pods: seq<Obj>) {
    && (forall i :: 0 <= i < |pods| ==> pods[i].name in s && s[pods[i].name] == pods[i])
    && (forall i, j :: 0 <= i < j < |pods| ==> pods[i].name != pods[j].name)
  }

  predicate Undisturbed(fates: seq<Fate>) {
    forall i :: 0 <= i < |fates| ==> fates[i] == Fate(true, false, false)
  }

  /** The object as a manager leaves it. */
  function Settle(m: Manager, o: Obj): Obj {
    match Decide(m, o)
    case Release => o.(owners := Others(o.owners, m.uid))
    case Adopt => o.(owners := Merged(o.owners, m.uid))
    case _ => o
  }

  predicate IsMine(m: Manager, o: Obj) {
    m.selects(o.body) && ControllerOf(o.owners) == Some(m.uid)
  }

  lemma SettledIsStable(m: Manager, o: Obj)
    requires CountControllers(o.owners) <= 1
    ensures CountControllers(Settle(m, o).owners) <= 1
    ensures Decide(m, Settle(m, o)) == if IsMine(m, Settle(m, o)) then Keep else Ignore
  {
    MergedKeepsOthers(o.owners, m.uid);
    OthersIsReleased(o.owners, m.uid);
  }

  /** Where a manager that is not being deleted leaves an object: it controls no
      object that it does not select and every live orphan that it does, and
      objects of other controllers are as they were. */
  lemma SettledOutcome(m: Manager, o: Obj)
    requires CountControllers(o.owners) <= 1 && !m.deleting
    ensures var r := Settle(m, o);
      && r == o.(owners := r.owners) && Others(r.owners, m.uid) == Others(o.owners, m.uid)
      && (!m.selects(o.body) ==> ControllerOf(r.owners) != Some(m.uid))
      && (m.selects(o.body) && ControllerOf(o.owners).None? && !o.deleting ==> ControllerOf(r.owners) == Some(m.uid))
      && (ControllerOf(o.owners).Some? && ControllerOf(o.owners).value != m.uid ==> r == o)
      && (IsMine(m, o) ==> r == o)
  {
    MergedKeepsOthers(o.owners, m.uid);
    OthersIsReleased(o.owners, m.uid);
  }

  lemma ReleaseUndisturbed(m: Manager, w: World, o: Obj)
    requires ServerValid(w.server) && o.name in w.server && w.server[o.name] == o && Decide(m, o).Release?
    ensures var c := SendRelease(m, w, o, Fate(true, false, false));
      && c.world == w.(server := w.server[o.name := Settle(m, o)], patches := w.patches + 1)
      && !c.failed && !c.claimed && !IsMine(m, Settle(m, o))
  {
    OthersIsReleased(o.owners, m.uid);
  }

  lemma AdoptUndisturbed(m: Manager, w: World, o: Obj)
    requires o.name in w.server && w.server[o.name] == o && Decide(m, o).Adopt? && !w.once.Denied?
    ensures var c := SendAdopt(m, w, o, Fate(true, false, false));
      && c.world ==
        Ask(w, Fate(true, false, false)).(server := w.server[o.name := Settle(m, o)], patches := w.patches + 1)
      && !c.failed && c.claimed && IsMine(m, Settle(m, o)) && !c.world.once.Denied?
  {
    MergedKeepsOthers(o.owners, m.uid);
  }

  lemma ClaimUndisturbed(m: Manager, w: World, o: Obj)
    requires ServerValid(w.server) && o.name in w.server && w.server[o.name] == o && !w.once.Denied?
    ensures var c := ClaimObject(m, w, o, Fate(true, false, false));
      && c.world.server == w.server[o.name := Settle(m, o)]
      && !c.failed && c.claimed == IsMine(m, Settle(m, o)) && !c.world.once.Denied?
  {
    match Decide(m, o)
    case Release => ReleaseUndisturbed(m, w, o);
    case Adopt => AdoptUndisturbed(m, w, o);
    case _ => assert w.server[o.name := o] == w.server;
  }

  /** The pods that match and are the manager's own on server `s`, in list order. */
  function Mine(m: Manager, s: Server, pods: seq<Obj>): seq<Obj> {
    if pods == [] then []
    else (if pods[0].name in s && IsMine(m, s[pods[0].name]) then [pods[0]] else []) + Mine(m, s, pods[1..])
  }

  /** Server `t` is `s` with the listed pods settled. */
  ghost predicate Settled(m: Manager, s: Server, pods: seq<Obj>, t: Server) {
    && ServerValid(t) && t.Keys == s.Keys
    && (forall i :: 0 <= i < |pods| ==> pods[i].name in t && t[pods[i].name] == Settle(m, pods[i]))
    && (forall n :: n in s && n !in Names(pods) ==> t[n] == s[n])
  }

  function Names(pods: seq<Obj>): seq<Name> {
    seq(|pods|, i requires 0 <= i < |pods| => pods[i].name)
  }

  lemma SettledStep(m: Manager, s: Server, pods: seq<Obj>, t: Server)
    requires ServerValid(s) && pods != [] && UpToDate(s, pods)
    requires Settled(m, s[pods[0].name := Settle(m, pods[0])], pods[1..], t)
    ensures Settled(m, s, pods, t)
  {
    var p, rest := pods[0], pods[1..];
    assert p.name !in Names(rest);
    forall i | 0 <= i < |pods| ensures pods[i].name in t && t[pods[i].name] == Settle(m, pods[i]) {
      if i > 0 { assert rest[i - 1] == pods[i]; }
    }
    forall n | n in s && n !in Names(pods) ensures t[n] == s[n] {
      assert n != Names(pods)[0];
      forall i | 0 <= i < |rest| ensures Names(rest)[i] != n { assert Names(pods)[i + 1] == rest[i].name; }
    }
  }

  lemma UpToDateTail(m: Manager, s: Server, pods: seq<Obj>)
    requires ServerValid(s) && pods != [] && UpToDate(s, pods)
    ensures var t := s[pods[0].name := Settle(m, pods[0])]; ServerValid(t) && UpToDate(t, pods[1..])
  {
    SettledIsStable(m, pods[0]);
  }

  /** ClaimPods without interference and errors returns, in input order, exactly
      the pods that match and that the controller owns afterwards. */
  lemma {:induction false} ClaimAllIsExact(m: Manager, w: World, pods: seq<Obj>, fates: seq<Fate>)
    requires ServerValid(w.server) && UpToDate(w.server, pods) && !w.once.Denied?
    requires |fates| == |pods| && Undisturbed(fates)
    ensures var c := ClaimAll(m, w, pods, fates);
      && c.failures == 0 && !c.world.once.Denied?
      && Settled(m, w.server, pods, c.world.server)
      && c.claimed == Mine(m, c.world.server, pods)
    decreases |pods|
  {
    if pods != [] {
      ClaimUndisturbed(m, w, pods[0]);
      UpToDateTail(m, w.server, pods);
      var v := ClaimObject(m, w, pods[0], fates[0]).world;
      ClaimAllIsExact(m, v, pods[1..], fates[1..]);
      SettledStep(m, w.server, pods, ClaimAll(m, v, pods[1..], fates[1..]).world.server);
    }
  }

  function Refreshed(s: Server, pods: seq<Obj>): seq<Obj>
    requires forall i :: 0 <= i < |pods| ==> pods[i].name in s
  {
    seq(|pods|, i requires 0 <= i < |pods| => s[pods[i].name])
  }

  /** On settled snapshots nothing is sent, whatever the outside would answer. */
  lemma {:induction false} SettledClaimsAreFree(m: Manager, w: World, pods: seq<Obj>, fates: seq<Fate>)
    requires |fates| == |pods|
    requires forall i :: 0 <= i < |pods| ==> Decide(m, pods[i]) == if IsMine(m, pods[i]) then Keep else Ignore
    requires forall i :: 0 <= i < |pods| ==> pods[i].name in w.server && w.server[pods[i].name] == pods[i]
    ensures ClaimAll(m, w, pods, fates) == Claims(w, Mine(m, w.server, pods), 0)
    decreases |pods|
  {
    if pods != [] {
      SettledClaimsAreFree(m, w, pods[1..], fates[1..]);
    }
  }

  lemma {:induction false} MineByName(m: Manager, s: Server, pods: seq<Obj>)
    requires ServerValid(s) && forall i :: 0 <= i < |pods| ==> pods[i].name in s
    ensures Names(Mine(m, s, Refreshed(s, pods))) == Names(Mine(m, s, pods))
    decreases |pods|
  {
    if pods != [] {
      var q := Refreshed(s, pods);
      assert q[1..] == Refreshed(s, pods[1..]);
      MineByName(m, s, pods[1..]);
      if IsMine(m, s[pods[0].name]) {
        NamesConcat(pods[0], Mine(m, s, pods[1..]));
        NamesConcat(q[0], Mine(m, s, q[1..]));
      } else {
        assert Mine(m, s, pods) == Mine(m, s, pods[1..]) && Mine(m, s, q) == Mine(m, s, q[1..]);
      }
    }
  }

  lemma NamesConcat(p: Obj, pods: seq<Obj>)
    ensures Names([p] + pods) == [p.name] + Names(pods)
  {
  }

  /** A second run on the refreshed list sends no patch, changes nothing and claims the same pods. */
  lemma SecondRunIsFree(m: Manager, w: World, pods: seq<Obj>, fates: seq<Fate>, fates': seq<Fate>)
    requires ServerValid(w.server) && UpToDate(w.server, pods) && !w.once.Denied?
    requires |fates| == |pods| == |fates'| && Undisturbed(fates)
    ensures var c := ClaimAll(m, w, pods, fates);
      && (forall i :: 0 <= i < |pods| ==> pods[i].name in c.world.server)
      && var again := ClaimAll(m, c.world, Refreshed(c.world.server, pods), fates');
         again.world == c.world && again.failures == 0 && Names(again.claimed) == Names(c.claimed)
  {
    ClaimAllIsExact(m, w, pods, fates);
    var c := ClaimAll(m, w, pods, fates);
    var q := Refreshed(c.world.server, pods);
    forall i | 0 <= i < |q|
      ensures Decide(m, q[i]) == if IsMine(m, q[i]) then Keep else Ignore
      ensures q[i].name in c.world.server && c.world.server[q[i].name] == q[i]
    {
      SettledIsStable(m, pods[i]);
    }
    SettledClaimsAreFree(m, c.world, q, fates');
    MineByName(m, c.world.server, pods);
  }
}
