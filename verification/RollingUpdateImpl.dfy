/**
 The rolling updater on replication controller objects: Spec.Replicas is
 overwritten in place and then pushed to the server, and AbortRollingUpdate
 swaps the two controllers of the configuration. The methods are proved against
 the functions of `RollingUpdate`; int32 sums are shown not to overflow.
 */
module RollingUpdateImpl {
  import opened Wrappers
  import opened RollingUpdate

  /** A replica count stored in an annotation. */
  datatype Annotation = Absent | NotANumber | Number(n: int32)

  class Controller {
    var name: string
    var uid: string
    var replicas: Option<int32>
    var desiredReplicas: Annotation
    var originalReplicas: Annotation
    var sourceId: Option<string>

    constructor (rc: Controller)
      ensures SameAs(rc)
    {
      name, uid, replicas := rc.name, rc.uid, rc.replicas;
      desiredReplicas, originalReplicas, sourceId := rc.desiredReplicas, rc.originalReplicas, rc.sourceId;
    }

    /** The client's copy of a stored state of controller `rc`. */
    constructor Decode(rc: Controller, state: Stored)
      ensures name == rc.name && uid == rc.uid && replicas == state.replicas
      ensures originalReplicas == state.originalReplicas
    {
      name, uid, replicas, originalReplicas := rc.name, rc.uid, state.replicas, state.originalReplicas;
      desiredReplicas, sourceId := rc.desiredReplicas, rc.sourceId;
    }

    ghost predicate SameAs(rc: Controller)
      reads this, rc
    {
      && name == rc.name && uid == rc.uid && replicas == rc.replicas
      && desiredReplicas == rc.desiredReplicas && originalReplicas == rc.originalReplicas && sourceId == rc.sourceId
    }

    /** valOrZero(rc.Spec.Replicas) */
    function Size(): int32
      reads this
    {
      replicas.GetOr(0)
    }
  }

  ghost predicate InRange(p: Params, oldSize: int, newSize: int) {
    p.Valid() && oldSize >= 0 && newSize >= 0 && oldSize + newSize <= INT32_MAX
  }

  /** Readiness counts for which the decrement is an int32. */
  ghost predicate UnreadyInRange(p: Params, bound: int, unready: int) {
    bound - INT32_MAX <= unready <= INT32_MAX - p.desired
  }

  /** scaleAndWait: the server's copy of the controller, or null on an error. */
  method ScaleAndWait(rc: Controller, fails: bool) returns (scaled: Controller?)
    ensures (scaled == null) == fails
    ensures scaled != null ==> fresh(scaled) && scaled.SameAs(rc)
  {
    if fails { return null; }
    scaled := new Controller(rc);
  }

  method ScaleUp(newRc: Controller, oldRc: Controller, desired: int32, maxSurge: int32, fails: bool, ghost p: Params)
    returns (scaled: Controller?)
    requires newRc != oldRc
    requires p.desired == desired as int && p.maxSurge == maxSurge as int
    requires InRange(p, oldRc.Size() as int, newRc.Size() as int)
    modifies newRc`replicas
    ensures newRc.Size() as int == ScaledUp(p, oldRc.Size() as int, old(newRc.Size() as int))
    ensures scaled == null <==> fails && newRc.Size() != old(newRc.Size())
    ensures scaled != null ==> (scaled == newRc || fresh(scaled)) && scaled.SameAs(newRc)
  {
    if newRc.Size() == desired { return newRc; }
    var increment := (desired + maxSurge) - (oldRc.Size() + newRc.Size());
    if oldRc.Size() == 0 {
      increment := desired - newRc.Size();
    }
    if increment <= 0 { return newRc; }
    newRc.replicas := Some(newRc.Size() + increment);
    if newRc.Size() > desired {
      newRc.replicas := Some(desired);
    }
    scaled := ScaleAndWait(newRc, fails);
  }

  method ScaleDown(newRc: Controller, oldRc: Controller, desired: int32, minAvailable: int32,
                   newAvailable: int32, listFails: bool, fails: bool, ghost p: Params)
    returns (scaled: Controller?)
    requires newRc != oldRc
    requires p.desired == desired as int && p.MinAvailable() == minAvailable as int
    requires InRange(p, oldRc.Size() as int, newRc.Size() as int)
    requires UnreadyInRange(p, oldRc.Size() as int + newRc.Size() as int, newRc.Size() as int - newAvailable as int)
    modifies oldRc`replicas
    ensures oldRc.Size() as int ==
      if listFails then old(oldRc.Size() as int)
      else ScaledDown(p, old(oldRc.Size() as int), newRc.Size() as int, newAvailable as int)
    ensures scaled == null <==>
      (old(oldRc.Size()) != 0 && listFails) || (fails && oldRc.Size() != old(oldRc.Size()))
    ensures scaled != null ==> (scaled == oldRc || fresh(scaled)) && scaled.SameAs(oldRc)
  {
    if oldRc.Size() == 0 { return oldRc; }
    if listFails { return null; }
    var allPods := oldRc.Size() + newRc.Size();
    var newUnavailable := newRc.Size() - newAvailable;
    var decrement := allPods - minAvailable - newUnavailable;
    if decrement <= 0 { return oldRc; }
    oldRc.replicas := Some(oldRc.Size() - decrement);
    if oldRc.Size() < 0 {
      oldRc.replicas := Some(0);
    }
    if newRc.Size() == desired && newAvailable == desired {
      oldRc.replicas := Some(0);
    }
    scaled := ScaleAndWait(oldRc, fails);
  }

  /** One turn of Update's loop; each controller is replaced by the server's copy when it is scaled. */
  method RunTurn(oldStart: Controller, newStart: Controller, desired: int32, maxSurge: int32, minAvailable: int32,
                 r: Round, ghost p: Params)
    returns (reports: seq<Report>, verdict: Verdict, oldRc: Controller, newRc: Controller)
    requires oldStart != newStart
    requires p.desired == desired as int && p.maxSurge == maxSurge as int && p.MinAvailable() == minAvailable as int
    requires InRange(p, oldStart.Size() as int, newStart.Size() as int)
    requires UnreadyInRange(p, Max(oldStart.Size() as int + newStart.Size() as int, p.desired + p.maxSurge), r.unready)
    modifies oldStart`replicas, newStart`replicas
    ensures Trace(reports, verdict, oldRc.Size() as int, newRc.Size() as int) ==
      Turn(p, old(oldStart.Size() as int), old(newStart.Size() as int), r)
    ensures oldRc != newRc && (oldRc == oldStart || fresh(oldRc)) && (newRc == newStart || fresh(newRc))
  {
    oldRc, newRc, reports := oldStart, newStart, [];
    var oldReplicas, newReplicas := oldRc.Size(), newRc.Size();
    ScaledUpWithinSurge(p, oldReplicas as int, newReplicas as int);
    var scaled := ScaleUp(newRc, oldRc, desired, maxSurge, r.scaleUpFails, p);
    if scaled == null { return [], ScaleError, oldRc, newRc; }
    newRc := scaled;
    reports := [Report(Up, oldReplicas as int, oldReplicas as int, newRc.Size() as int, 0)];
    if r.cancelAfterUp { return reports, Cancelled, oldRc, newRc; }

    var newAvailable := (newRc.Size() as int - r.unready) as int32;
    scaled := ScaleDown(newRc, oldRc, desired, minAvailable, newAvailable, r.listFails, r.scaleDownFails, p);
    if scaled == null {
      return reports, if r.listFails then ListError else ScaleError, oldRc, newRc;
    }
    oldRc := scaled;
    reports := reports + [Report(Down, oldReplicas as int, oldRc.Size() as int, newRc.Size() as int,
                                 newAvailable as int)];
    var progressMade := newRc.Size() != newReplicas || oldRc.Size() != oldReplicas;
    verdict := if r.cancelAfterDown then Cancelled
               else if !progressMade && r.deadlinePassed then TimedOut
               else Running;
  }

  /** Update's loop. */
  method Run(oldStart: Controller, newStart: Controller, desired: int32, maxSurge: int32, minAvailable: int32,
             script: seq<Round>, ghost p: Params)
    returns (reports: seq<Report>, verdict: Verdict, oldRc: Controller, newRc: Controller)
    requires oldStart != newStart
    requires p.desired == desired as int && p.maxSurge == maxSurge as int && p.MinAvailable() == minAvailable as int
    requires InRange(p, oldStart.Size() as int, newStart.Size() as int)
    requires forall i :: 0 <= i < |script| ==>
      UnreadyInRange(p, Max(oldStart.Size() as int + newStart.Size() as int, p.desired + p.maxSurge), script[i].unready)
    modifies oldStart`replicas, newStart`replicas
    ensures Trace(reports, verdict, oldRc.Size() as int, newRc.Size() as int) ==
      Rollout(p, old(oldStart.Size() as int), old(newStart.Size() as int), script)
  {
    oldRc, newRc, reports := oldStart, newStart, [];
    ghost var o, n := oldRc.Size() as int, newRc.Size() as int;
    ghost var bound := Max(o + n, p.desired + p.maxSurge);
    ghost var whole := Rollout(p, o, n, script);
    var i := 0;
    while newRc.Size() != desired || oldRc.Size() != 0
      invariant 0 <= i <= |script|
      invariant oldRc != newRc && (oldRc == oldStart || fresh(oldRc)) && (newRc == newStart || fresh(newRc))
      invariant o == oldRc.Size() as int && n == newRc.Size() as int
      invariant 0 <= o && 0 <= n && o + n <= bound
      invariant Continues(p, whole, reports, o, n, script[i..])
      decreases |script| - i
    {
      if i == |script| {
        verdict := Running;
        return;
      }
      ContinueTurn(p, whole, reports, o, n, script[i..]);
      TurnIsSafe(p, o, n, script[i], bound);
      ghost var turn := Turn(p, o, n, script[i]);
      o, n := turn.oldSize, turn.newSize;
      var more: seq<Report>;
      more, verdict, oldRc, newRc := RunTurn(oldRc, newRc, desired, maxSurge, minAvailable, script[i], p);
      assert more == turn.reports && verdict == turn.verdict;
      reports := reports + more;
      if verdict != Running { return; }
      assert script[i..][1..] == script[i + 1..];
      i := i + 1;
    }
    verdict := Completed;
  }

  /** The run `whole` consists of the reports so far and the run of the rounds that are left. */
  ghost predicate Continues(p: Params, whole: Trace, reports: seq<Report>, o: int, n: int, rounds: seq<Round>) {
    var rest := Rollout(p, o, n, rounds);
    whole == rest.(reports := reports + rest.reports)
  }

  lemma ContinueTurn(p: Params, whole: Trace, reports: seq<Report>, o: int, n: int, rounds: seq<Round>)
    requires Continues(p, whole, reports, o, n, rounds) && !Finished(p, o, n) && rounds != []
    ensures var t := Turn(p, o, n, rounds[0]);
      if t.verdict == Running then Continues(p, whole, reports + t.reports, t.oldSize, t.newSize, rounds[1..])
      else whole == t.(reports := reports + t.reports)
  {
    var t := Turn(p, o, n, rounds[0]);
    var rest := Rollout(p, t.oldSize, t.newSize, rounds[1..]);
    assert reports + (t.reports + rest.reports) == (reports + t.reports) + rest.reports;
  }

  // ----------------------------------------- recording the original size

  /** What the server stores of the old controller, under a resource version. */
  datatype Stored = Stored(replicas: Option<int32>, originalReplicas: Annotation, version: nat) {

    function Size(): int32 {
      replicas.GetOr(0)
    }
  }

  /** What other clients do before a request, and whether the request or its answer gets lost. */
  datatype Request = Request(edited: Option<(Option<int32>, Annotation)>, fails: bool, answerLost: bool)

  function First(requests: seq<Request>): Request {
    if requests == [] then Request(None, false, false) else requests[0]
  }

  function Later(requests: seq<Request>): seq<Request> {
    if requests == [] then [] else requests[1..]
  }

  function Edited(s: Stored, r: Request): Stored {
    match r.edited
    case None => s
    case Some((replicas, annotation)) => Stored(replicas, annotation, s.version + 1)
  }

  function Annotated(s: Stored, n: int32): Stored {
    s.(originalReplicas := Number(n), version := s.version + 1)
  }

  /** How recording ends: what other clients had made of the controller by then,
      what the server stores afterwards, and the answer to the client. */
  datatype Recorded = Recorded(found: Stored, server: Stored, answer: Option<Stored>)

  /** updateRcWithRetries with the closure that sets the annotation, with `tries` attempts left. */
  function Record(server: Stored, mine: Stored, copy: Stored, n: int32, requests: seq<Request>, tries: nat): Recorded
    decreases tries
  {
    if tries == 0 then Recorded(server, server, None)
    else
      var put, s := First(requests), Edited(server, First(requests));
      if put.fails then Recorded(s, s, None)
      else if mine.version == s.version then
        var stored := Annotated(mine, n);
        Recorded(s, stored, if put.answerLost then None else Some(stored))
      else
        var get := First(Later(requests));
        var s' := Edited(s, get);
        Record(s', if get.fails || get.answerLost then copy else s', copy, n, Later(Later(requests)), tries - 1)
  }

  const RETRIES := 4

  /** Reading the old controller and recording its size in it. */
  function RecordOriginal(server: Stored, requests: seq<Request>): Recorded {
    var s := Edited(server, First(requests));
    if First(requests).fails || First(requests).answerLost then Recorded(s, s, None)
    else Record(s, s, s, s.Size(), Later(requests), RETRIES)
  }

  /** The object is not newer than the server's state, and of the same size if it has its version. */
  predicate Fits(mine: Stored, server: Stored) {
    mine.version <= server.version && (mine.version == server.version ==> mine.replicas == server.replicas)
  }

  /** Recording undoes nothing that others have done: the server keeps what it
      had by then, except for the annotation and the version, and a successful
      answer is exactly that. */
  lemma {:induction false} RecordLosesNothing(server: Stored, mine: Stored, copy: Stored, n: int32,
                                              requests: seq<Request>, tries: nat)
    requires Fits(mine, server) && Fits(copy, server)
    ensures var r := Record(server, mine, copy, n, requests, tries);
      && (r.server == r.found || r.server == Annotated(r.found, n))
      && (r.answer.Some? ==> r.answer.value == r.server == Annotated(r.found, n))
      && (r.server != r.found ==>
            && r.server.replicas == r.found.replicas && r.server.originalReplicas == Number(n)
            && r.server.version == r.found.version + 1)
    decreases tries
  {
    if tries > 0 {
      var put, s := First(requests), Edited(server, First(requests));
      if !put.fails && mine.version != s.version {
        var get := First(Later(requests));
        var s' := Edited(s, get);
        var next := if get.fails || get.answerLost then copy else s';
        RecordLosesNothing(s', next, copy, n, Later(Later(requests)), tries - 1);
      }
    }
  }

  /** Others edit the controller before each of `k` updates; every read gets through. */
  function Contention(k: nat, edit: (Option<int32>, Annotation)): seq<Request> {
    if k == 0 then []
    else [Request(Some(edit), false, false), Request(None, false, false)] + Contention(k - 1, edit)
  }

  lemma {:induction false} RecordUnderContention(server: Stored, copy: Stored, n: int32, k: nat,
                                                 edit: (Option<int32>, Annotation), tries: nat)
    ensures Record(server, server, copy, n, Contention(k, edit), tries).answer.Some? <==> k < tries
    decreases tries
  {
    if k > 0 && tries > 0 {
      var requests := Contention(k, edit);
      assert requests[0] == Request(Some(edit), false, false) && requests[1..][0] == Request(None, false, false);
      assert requests[1..][1..] == Contention(k - 1, edit);
      RecordUnderContention(Edited(server, requests[0]), copy, n, k - 1, edit, tries - 1);
    }
  }

  /** Recording succeeds for an undisturbed client and against up to three edits
      by others in a row, and fails against four; a lost request or answer of the
      first update makes it fail. */
  lemma RecordSucceedsIff(server: Stored, k: nat, edit: (Option<int32>, Annotation), put: Request, rest: seq<Request>)
    ensures RecordOriginal(server, [Request(None, false, false)] + Contention(k, edit)).answer.Some? <==> k <= 3
    ensures RecordOriginal(server, []).answer == Some(Annotated(server, server.Size()))
    ensures put.fails || put.answerLost ==> RecordOriginal(server, [put] + rest).answer.None?
    ensures put.fails || (put.answerLost && put.edited.None?) ==>
      RecordOriginal(server, [Request(None, false, false), put] + rest).answer.None?
  {
    var quiet := Request(None, false, false);
    assert ([quiet] + Contention(k, edit))[1..] == Contention(k, edit);
    RecordUnderContention(server, server, server.Size(), k, edit, RETRIES);
    assert ([quiet, put] + rest)[1..][0] == put;
  }

  /** A client whose object is out of date and whose reads all get lost never
      succeeds and writes nothing: it goes on with the copy made in advance. */
  lemma {:induction false} LostReadsNeverSucceed(server: Stored, mine: Stored, copy: Stored, n: int32,
                                                 requests: seq<Request>, tries: nat)
    requires mine.version < server.version && copy.version < server.version && |requests| >= 2 * tries
    requires forall i :: 0 <= i < |requests| && i % 2 == 1 ==> requests[i].fails || requests[i].answerLost
    ensures var r := Record(server, mine, copy, n, requests, tries); r.answer.None? && r.server == r.found
    decreases tries
  {
    if tries > 0 && !requests[0].fails {
      var later := requests[1..][1..];
      assert forall i :: 0 <= i < |later| ==> later[i] == requests[i + 2];
      var s' := Edited(Edited(server, requests[0]), requests[1..][0]);
      assert requests[1..][0] == requests[1];
      LostReadsNeverSucceed(s', copy, copy, n, later, tries - 1);
    }
  }

  /** The API server's copy of the old controller, with what other clients will do. */
  class RcServer {
    var state: Stored
    var requests: seq<Request>

    constructor (state: Stored, requests: seq<Request>)
      ensures this.state == state && this.requests == requests
    {
      this.state, this.requests := state, requests;
    }

    method Await() returns (r: Request)
      modifies this
      ensures r == First(old(requests)) && requests == Later(old(requests)) && state == Edited(old(state), r)
    {
      r := if requests == [] then Request(None, false, false) else requests[0];
      requests := if requests == [] then [] else requests[1..];
      if r.edited.Some? {
        state := Stored(r.edited.value.0, r.edited.value.1, state.version + 1);
      }
    }

    method UpdateRcWithRetries(start: Stored, n: int32) returns (answer: Option<Stored>, ghost found: Stored)
      modifies this
      ensures Record(old(state), start, start, n, old(requests), RETRIES) == Recorded(found, state, answer)
    {
      var rc, copy := start, start;
      for i := 0 to RETRIES
        invariant Record(old(state), start, start, n, old(requests), RETRIES) ==
          Record(state, rc, copy, n, requests, RETRIES - i)
      {
        rc := rc.(originalReplicas := Number(n));
        var put := Await();
        found := state;
        if put.fails { return None, found; }
        if rc.version == state.version {
          state := Stored(rc.replicas, rc.originalReplicas, state.version + 1);
          return if put.answerLost then None else Some(state), found;
        }
        var get := Await();
        rc := if get.fails || get.answerLost then copy else state;
      }
      answer, found := None, state;
    }
  }

  datatype UpdateOutcome = BadDesiredAnnotation | ServerError | BadFenceposts | NoLimits | Ran(verdict: Verdict)

  /** The old controller's size cannot be recorded. */
  predicate CannotRecord(annotation: Annotation, state: Stored, requests: seq<Request>) {
    annotation == Absent && RecordOriginal(state, requests).answer.None?
  }

  /** The size of the old controller that the rollout starts from. */
  function StartSize(annotation: Annotation, size: int32, state: Stored, requests: seq<Request>): int32 {
    var r := RecordOriginal(state, requests);
    if annotation == Absent && r.answer.Some? then r.answer.value.Size() else size
  }

  /** An update that records the size starts from what the server had by then,
      and a continued one from the size at hand. */
  lemma StartsFromServer(annotation: Annotation, size: int32, state: Stored, requests: seq<Request>)
    ensures annotation != Absent ==> StartSize(annotation, size, state, requests) == size
    ensures annotation == Absent && !CannotRecord(annotation, state, requests) ==>
      StartSize(annotation, size, state, requests) == RecordOriginal(state, requests).found.Size()
  {
    var s := Edited(state, First(requests));
    RecordLosesNothing(s, s, s, s.Size(), Later(requests), RETRIES);
  }

  /** Update up to its cleanup. `fenceposts` resolves the configured surge and
      unavailability for a desired size. */
  method Update(oldRc: Controller, newRc: Controller, server: RcServer,
                fenceposts: int32 -> Option<(int32, int32)>, script: seq<Round>)
    returns (outcome: UpdateOutcome, reports: seq<Report>, oldEnd: Controller, newEnd: Controller)
    requires newRc != oldRc
    requires newRc.desiredReplicas.Number? ==>
      var limits := fenceposts(newRc.desiredReplicas.n);
      limits.Some? ==>
        var p := Params(newRc.desiredReplicas.n as int, limits.value.0 as int, limits.value.1 as int);
        var start := StartSize(oldRc.originalReplicas, oldRc.Size(), server.state, server.requests) as int;
        && InRange(p, start, newRc.Size() as int)
        && forall i :: 0 <= i < |script| ==>
             UnreadyInRange(p, Max(start + newRc.Size() as int, p.desired + p.maxSurge), script[i].unready)
    modifies oldRc`replicas, newRc`replicas, server
    ensures outcome == BadDesiredAnnotation <==> !old(newRc.desiredReplicas).Number?
    ensures outcome == ServerError <==>
      && old(newRc.desiredReplicas).Number?
      && CannotRecord(old(oldRc.originalReplicas), old(server.state), old(server.requests))
    ensures outcome == BadFenceposts <==>
      && old(newRc.desiredReplicas).Number?
      && !CannotRecord(old(oldRc.originalReplicas), old(server.state), old(server.requests))
      && fenceposts(old(newRc.desiredReplicas).n).None?
    ensures outcome == NoLimits <==>
      && old(newRc.desiredReplicas).Number?
      && !CannotRecord(old(oldRc.originalReplicas), old(server.state), old(server.requests))
      && fenceposts(old(newRc.desiredReplicas).n) == Some((0, 0)) && old(newRc.desiredReplicas).n > 0
    ensures outcome.Ran? ==>
      var limits := fenceposts(old(newRc.desiredReplicas).n);
      && limits.Some?
      && var p := Params(old(newRc.desiredReplicas).n as int, limits.value.0 as int, limits.value.1 as int);
         var start :=
           StartSize(old(oldRc.originalReplicas), old(oldRc.Size()), old(server.state), old(server.requests));
         && p.CanMove()
         && Trace(reports, outcome.verdict, oldEnd.Size() as int, newEnd.Size() as int) ==
            Rollout(p, start as int, old(newRc.Size()) as int, script)
    ensures outcome.Ran? && old(oldRc.originalReplicas) == Absent ==>
      && server.state == RecordOriginal(old(server.state), old(server.requests)).server
      && server.state.originalReplicas == Number(Edited(old(server.state), First(old(server.requests))).Size())
  {
    outcome, reports, oldEnd, newEnd := BadDesiredAnnotation, [], oldRc, newRc;
    if !newRc.desiredReplicas.Number? { return; }
    var desired := newRc.desiredReplicas.n;
    if oldRc.originalReplicas == Absent {
      outcome := ServerError;
      var get := server.Await();
      if get.fails || get.answerLost { return; }
      var existing := server.state;
      RecordLosesNothing(existing, existing, existing, existing.Size(), server.requests, RETRIES);
      var answer, _ := server.UpdateRcWithRetries(existing, existing.Size());
      if answer.None? { return; }
      oldEnd := new Controller.Decode(oldRc, answer.value);
    }
    var limits := fenceposts(desired);
    if limits.None? {
      outcome := BadFenceposts;
      return;
    }
    var (maxSurge, maxUnavailable) := limits.value;
    if desired > 0 && maxUnavailable == 0 && maxSurge == 0 {
      outcome := NoLimits;
      return;
    }
    var minAvailable := if maxUnavailable < desired then desired - maxUnavailable else 0;
    if desired == 0 {
      minAvailable := 0;
    }
    var verdict;
    reports, verdict, oldEnd, newEnd := Run(oldEnd, newRc, desired, maxSurge, minAvailable, script,
                                            Params(desired as int, maxSurge as int, maxUnavailable as int));
    outcome := Ran(verdict);
  }

  class Config {
    var oldRc: Controller
    var newRc: Controller
    var deleteOldAfterwards: bool

    constructor (oldRc: Controller, newRc: Controller, deleteOldAfterwards: bool)
      ensures this.oldRc == oldRc && this.newRc == newRc && this.deleteOldAfterwards == deleteOldAfterwards
    {
      this.oldRc, this.newRc, this.deleteOldAfterwards := oldRc, newRc, deleteOldAfterwards;
    }

    /** AbortRollingUpdate: swap the roles and aim for the original size of the
        old controller. Even if that size is unknown the controllers stay swapped. */
    method Abort() returns (ok: bool)
      requires oldRc != newRc
      modifies this, oldRc`sourceId, oldRc`desiredReplicas
      ensures newRc == old(oldRc) && oldRc == old(newRc)
      ensures newRc.sourceId == Some(oldRc.name + ":" + oldRc.uid)
      ensures ok == (newRc.originalReplicas != Absent)
      ensures newRc.desiredReplicas == if ok then newRc.originalReplicas else old(oldRc.desiredReplicas)
      ensures deleteOldAfterwards == (ok || old(deleteOldAfterwards))
    {
      var tmp := oldRc;
      oldRc := newRc;
      newRc := tmp;
      newRc.sourceId := Some(oldRc.name + ":" + oldRc.uid);
      if tmp.originalReplicas == Absent { return false; }
      newRc.desiredReplicas := tmp.originalReplicas;
      deleteOldAfterwards := true;
      ok := true;
    }
  }
}
