/**
 kubectl's rolling update: the old replication controller is scaled down and
 the new one scaled up in turns, within a surge and an availability limit.

 `Rollout` is the main loop as a function of everything that happens outside
 of it (readiness of the new pods, failures, cancellation, timeout), given as a
 finite script of rounds. A script that ends early is the prefix of a longer run.
 */
module RollingUpdate {

  const INT32_MIN := -0x8000_0000
  const INT32_MAX := 0x7FFF_FFFF

  newtype int32 = x: int | -0x8000_0000 <= x <= 0x7FFF_FFFF

  /** Two's complement wrap-around of Go's int32 arithmetic. */
  function Wrap32(x: int): int {
    (x - INT32_MIN) % 0x1_0000_0000 + INT32_MIN
  }

  /** Go's division truncates toward zero. */
  function TruncDiv(x: int, y: int): int
    requires y > 0
  {
    if x >= 0 then x / y else -(-x / y)
  }

  function Abs(x: int): int { if x < 0 then -x else x }

  function Max(x: int, y: int): int { if x < y then y else x }

  function Min(x: int, y: int): int { if x < y then x else y }

  // ---------------------------------------------------------- one scaling

  datatype Params = Params(desired: int, maxSurge: int, maxUnavailable: int) {

    predicate Valid() {
      && desired >= 0 && maxSurge >= 0 && maxUnavailable >= 0
      && desired + maxSurge <= INT32_MAX && maxUnavailable <= INT32_MAX
    }

    /** The condition that Update checks before it starts. */
    predicate CanMove() {
      desired == 0 || maxSurge > 0 || maxUnavailable > 0
    }

    function MinAvailable(): int {
      if desired == 0 then 0 else Max(0, desired - maxUnavailable)
    }
  }

  function ScaledUp(p: Params, oldSize: int, newSize: int): int {
    var increment := if oldSize == 0 then p.desired - newSize else p.desired + p.maxSurge - (oldSize + newSize);
    if newSize == p.desired || increment <= 0 then newSize else Min(newSize + increment, p.desired)
  }

  function ScaledDown(p: Params, oldSize: int, newSize: int, newAvailable: int): int {
    var decrement := oldSize + newSize - p.MinAvailable() - (newSize - newAvailable);
    if oldSize == 0 || decrement <= 0 then oldSize
    else if newSize == p.desired && newAvailable == p.desired then 0
    else Max(0, oldSize - decrement)
  }

  lemma ScaledUpWithinSurge(p: Params, oldSize: int, newSize: int)
    requires p.Valid() && oldSize >= 0 && newSize >= 0
    ensures var n := ScaledUp(p, oldSize, newSize);
      && 0 <= n && oldSize + n <= Max(oldSize + newSize, p.desired + p.maxSurge)
      && Abs(p.desired - n) <= Abs(p.desired - newSize)
      && (n != newSize ==> Abs(p.desired - n) < Abs(p.desired - newSize))
      && (newSize <= p.desired ==> newSize <= n <= p.desired)
  {
  }

  lemma ScaledDownKeepsAvailable(p: Params, oldSize: int, newSize: int, newAvailable: int)
    requires p.Valid() && oldSize >= 0
    ensures var o := ScaledDown(p, oldSize, newSize, newAvailable);
      0 <= o <= oldSize && (o != oldSize ==> o + newAvailable >= p.MinAvailable())
  {
  }

  /** Scaling goes as far as the limits allow: up to the desired size or until the
      surge is used up, and down until no old pod is left, or exactly the minimum
      is available, or no more than that was available before. */
  lemma ScalingGoesToTheLimit(p: Params, oldSize: int, newSize: int, newAvailable: int)
    requires p.Valid() && oldSize >= 0 && 0 <= newSize <= p.desired
    ensures var n := ScaledUp(p, oldSize, newSize);
      && (n == p.desired || (oldSize > 0 && oldSize + n >= p.desired + p.maxSurge))
      && (oldSize > 0 && n != newSize ==> oldSize + n <= p.desired + p.maxSurge)
    ensures var o := ScaledDown(p, oldSize, newSize, newAvailable);
      if o == oldSize then oldSize == 0 || oldSize + newAvailable <= p.MinAvailable()
      else o == 0 || o + newAvailable == p.MinAvailable()
    ensures newSize == newAvailable == p.desired && oldSize > 0 && p.MinAvailable() < oldSize + p.desired ==>
      ScaledDown(p, oldSize, newSize, newAvailable) == 0
  {
  }

  // ------------------------------------------------------------- the loop

  /** What the world does during one turn of the loop; `unready` new pods are
      not available when the updater looks. */
  datatype Round = Round(
    scaleUpFails: bool,
    cancelAfterUp: bool,
    listFails: bool,
    unready: int,
    scaleDownFails: bool,
    cancelAfterDown: bool,
    deadlinePassed: bool)

  datatype Direction = Up | Down

  /** One call of OnProgress, with the counts it is given and, for a scale-down,
      the old count before it and the available new pods it was based on. */
  datatype Report = Report(dir: Direction, before: int, oldSize: int, newSize: int, newAvailable: int)

  datatype Verdict = Completed | ScaleError | ListError | Cancelled | TimedOut | Running

  datatype Trace = Trace(reports: seq<Report>, verdict: Verdict, oldSize: int, newSize: int)

  /** The percentage that OnProgress is given with the counts; `goal` is the
      distance between desired and the size of the new controller at the start. */
  function Percentage(p: Params, goal: int, newSize: int): int {
    if goal <= 0 then 100
    else TruncDiv(Wrap32((goal - Abs(p.desired - newSize)) * 100), goal)
  }

  predicate Finished(p: Params, oldSize: int, newSize: int) {
    newSize == p.desired && oldSize == 0
  }

  /** One turn of the loop; the verdict is Running if the loop goes on. */
  function Turn(p: Params, oldSize: int, newSize: int, r: Round): Trace {
    var n := ScaledUp(p, oldSize, newSize);
    if n != newSize && r.scaleUpFails then Trace([], ScaleError, oldSize, n)
    else
      var up := Report(Up, oldSize, oldSize, n, 0);
      if r.cancelAfterUp then Trace([up], Cancelled, oldSize, n)
      else if oldSize != 0 && r.listFails then Trace([up], ListError, oldSize, n)
      else
        var o := ScaledDown(p, oldSize, n, n - r.unready);
        if o != oldSize && r.scaleDownFails then Trace([up], ScaleError, o, n)
        else
          var down := Report(Down, oldSize, o, n, n - r.unready);
          Trace([up, down],
                if r.cancelAfterDown then Cancelled
                else if n == newSize && o == oldSize && r.deadlinePassed then TimedOut
                else Running, o, n)
  }

  function Rollout(p: Params, oldSize: int, newSize: int, script: seq<Round>): Trace
    decreases |script|
  {
    if Finished(p, oldSize, newSize) then Trace([], Completed, oldSize, newSize)
    else if script == [] then Trace([], Running, oldSize, newSize)
    else
      var turn := Turn(p, oldSize, newSize, script[0]);
      if turn.verdict != Running then turn
      else
        var rest := Rollout(p, turn.oldSize, turn.newSize, script[1..]);
        rest.(reports := turn.reports + rest.reports)
  }

  // --------------------------------------------------------------- safety

  ghost predicate ReportSafe(p: Params, oldSize: int, bound: int, r: Report) {
    && 0 <= r.oldSize <= r.before <= oldSize && 0 <= r.newSize
    && r.oldSize + r.newSize <= bound
    && (r.dir.Down? && r.oldSize != r.before ==> r.oldSize + r.newAvailable >= p.MinAvailable())
  }

  ghost predicate Falling(rs: seq<Report>) {
    forall i, j :: 0 <= i < j < |rs| ==> rs[j].oldSize <= rs[i].oldSize
  }

  /** What holds of a trace that starts at `oldSize` and `newSize`. */
  ghost predicate TraceSafe(p: Params, oldSize: int, newSize: int, bound: int, t: Trace) {
    && (forall i :: 0 <= i < |t.reports| ==>
          ReportSafe(p, oldSize, bound, t.reports[i]) && t.reports[i].oldSize >= t.oldSize)
    && Falling(t.reports)
    && 0 <= t.oldSize <= oldSize && 0 <= t.newSize && t.oldSize + t.newSize <= bound
    && (newSize <= p.desired ==> newSize <= t.newSize <= p.desired)
  }

  lemma TurnIsSafe(p: Params, oldSize: int, newSize: int, r: Round, bound: int)
    requires p.Valid() && oldSize >= 0 && newSize >= 0
    requires bound >= oldSize + newSize && bound >= p.desired + p.maxSurge
    ensures TraceSafe(p, oldSize, newSize, bound, Turn(p, oldSize, newSize, r))
  {
    ScaledUpWithinSurge(p, oldSize, newSize);
    var n := ScaledUp(p, oldSize, newSize);
    ScaledDownKeepsAvailable(p, oldSize, n, n - r.unready);
  }

  lemma SafeConcat(p: Params, oldSize: int, newSize: int, bound: int, t: Trace, rest: Trace)
    requires TraceSafe(p, oldSize, newSize, bound, t) && TraceSafe(p, t.oldSize, t.newSize, bound, rest)
    ensures TraceSafe(p, oldSize, newSize, bound, rest.(reports := t.reports + rest.reports))
  {
  }

  /** For every script: old never rises, the total stays within the larger of
      the initial total and desired + maxSurge, and every scale-down that
      changes old leaves old + available new pods at or above the minimum. */
  lemma {:induction false} RolloutIsSafe(p: Params, oldSize: int, newSize: int, script: seq<Round>, bound: int)
    requires p.Valid() && oldSize >= 0 && newSize >= 0
    requires bound >= oldSize + newSize && bound >= p.desired + p.maxSurge
    ensures TraceSafe(p, oldSize, newSize, bound, Rollout(p, oldSize, newSize, script))
    decreases |script|
  {
    if !Finished(p, oldSize, newSize) && script != [] {
      var t := Turn(p, oldSize, newSize, script[0]);
      TurnIsSafe(p, oldSize, newSize, script[0], bound);
      if t.verdict == Running {
        RolloutIsSafe(p, t.oldSize, t.newSize, script[1..], bound);
        SafeConcat(p, oldSize, newSize, bound, t, Rollout(p, t.oldSize, t.newSize, script[1..]));
      }
    }
  }

  // ------------------------------------------------------------- liveness

  function Remaining(p: Params, oldSize: int, newSize: int): int {
    Abs(p.desired - newSize) + oldSize
  }

  /** When a turn without failures changes nothing: new cannot move, because it
      is complete, the surge is used up, or it is too large with no old pods
      left; and too few new pods are available to take an old one away. */
  predicate Stalls(p: Params, oldSize: int, newSize: int, unready: int) {
    && (newSize == p.desired ||
        if oldSize == 0 then newSize > p.desired else oldSize + newSize >= p.desired + p.maxSurge)
    && (oldSize == 0 || oldSize + newSize - unready <= p.MinAvailable())
  }

  lemma StallsExactly(p: Params, oldSize: int, newSize: int, unready: int)
    requires p.Valid() && oldSize >= 0 && newSize >= 0 && !Finished(p, oldSize, newSize)
    ensures var n := ScaledUp(p, oldSize, newSize);
      var o := ScaledDown(p, oldSize, n, n - unready);
      && (n == newSize && o == oldSize <==> Stalls(p, oldSize, newSize, unready))
      && (!Stalls(p, oldSize, newSize, unready) ==> Remaining(p, o, n) < Remaining(p, oldSize, newSize))
  {
  }

  /** With all new pods ready the loop stalls for no pair of counts up to the
      desired size exactly when Update's validation accepts the limits. */
  lemma ReadyNeverStallsIffCanMove(p: Params)
    requires p.Valid()
    ensures p.CanMove() <==>
      forall oldSize: int, newSize: int ::
        oldSize >= 0 && 0 <= newSize <= p.desired && !Finished(p, oldSize, newSize) ==> !Stalls(p, oldSize, newSize, 0)
  {
    if !p.CanMove() {
      assert Stalls(p, p.desired, 0, 0) && !Finished(p, p.desired, 0);
    }
  }

  // ------------------------------------------------------- how a run ends

  /** Scaling up would change the new controller. */
  predicate UpMoves(p: Params, oldSize: int, newSize: int) {
    newSize != p.desired && if oldSize == 0 then newSize < p.desired else oldSize + newSize < p.desired + p.maxSurge
  }

  /** Scaling down would change the old controller, when the new one has `n` pods. */
  predicate DownMoves(p: Params, oldSize: int, n: int, unready: int) {
    oldSize > 0 && oldSize + n - unready > p.MinAvailable()
  }

  /** When a turn ends with a verdict, said of the counts and of what happens. */
  predicate Ends(p: Params, oldSize: int, newSize: int, n: int, r: Round, v: Verdict) {
    var upFails := UpMoves(p, oldSize, newSize) && r.scaleUpFails;
    var cannotList := oldSize > 0 && r.listFails;
    var downFails := DownMoves(p, oldSize, n, r.unready) && r.scaleDownFails;
    match v
    case ScaleError => upFails || (!r.cancelAfterUp && !cannotList && downFails)
    case ListError => !upFails && !r.cancelAfterUp && cannotList
    case Cancelled => !upFails && (r.cancelAfterUp || (!cannotList && !downFails && r.cancelAfterDown))
    case TimedOut =>
      && Stalls(p, oldSize, newSize, r.unready) && r.deadlinePassed
      && !r.cancelAfterUp && !cannotList && !r.cancelAfterDown
    case Running =>
      && !upFails && !r.cancelAfterUp && !cannotList && !downFails && !r.cancelAfterDown
      && !(Stalls(p, oldSize, newSize, r.unready) && r.deadlinePassed)
    case Completed => false
  }

  /** Each verdict of a turn has its exact condition. */
  lemma TurnEndsIff(p: Params, oldSize: int, newSize: int, r: Round, v: Verdict)
    requires p.Valid() && oldSize >= 0 && newSize >= 0 && !Finished(p, oldSize, newSize)
    ensures Turn(p, oldSize, newSize, r).verdict == v <==>
      Ends(p, oldSize, newSize, ScaledUp(p, oldSize, newSize), r, v)
  {
    var n := ScaledUp(p, oldSize, newSize);
    assert n != newSize <==> UpMoves(p, oldSize, newSize);
    assert ScaledDown(p, oldSize, n, n - r.unready) != oldSize <==> DownMoves(p, oldSize, n, r.unready);
  }

  /** The counts at the start of turn `k`, if nothing has ended the run before. */
  function CountsAt(p: Params, oldSize: int, newSize: int, script: seq<Round>, k: nat): (int, int)
    requires k <= |script|
    decreases k
  {
    if k == 0 then (oldSize, newSize)
    else
      var n := ScaledUp(p, oldSize, newSize);
      CountsAt(p, ScaledDown(p, oldSize, n, n - script[0].unready), n, script[1..], k - 1)
  }

  /** In turn `k` the run ends with verdict `v`. */
  predicate EndsAt(p: Params, oldSize: int, newSize: int, script: seq<Round>, k: nat, v: Verdict)
    requires k < |script|
  {
    var (o, n) := CountsAt(p, oldSize, newSize, script, k);
    !Finished(p, o, n) && Ends(p, o, n, ScaledUp(p, o, n), script[k], v)
  }

  /** Some turn ends the run with verdict `v`, after turns that all went on. */
  ghost predicate EndsSomewhere(p: Params, oldSize: int, newSize: int, script: seq<Round>, v: Verdict) {
    exists k :: 0 <= k < |script| && EndsAt(p, oldSize, newSize, script, k, v) &&
      forall j :: 0 <= j < k ==> EndsAt(p, oldSize, newSize, script, j, Running)
  }

  /** Over all scripts: a run ends with an error, a cancellation or a timeout if
      and only if some turn meets that verdict's condition after turns that all
      went on without completing. In particular it times out exactly when it gets
      to a stall with the deadline passed. */
  lemma {:induction false} RolloutEndsIff(p: Params, oldSize: int, newSize: int, script: seq<Round>, v: Verdict)
    requires p.Valid() && oldSize >= 0 && newSize >= 0 && v != Completed && v != Running
    ensures Rollout(p, oldSize, newSize, script).verdict == v <==> EndsSomewhere(p, oldSize, newSize, script, v)
    decreases |script|
  {
    if script != [] && !Finished(p, oldSize, newSize) {
      var t := Turn(p, oldSize, newSize, script[0]);
      TurnEndsIff(p, oldSize, newSize, script[0], v);
      TurnEndsIff(p, oldSize, newSize, script[0], Running);
      assert forall w :: EndsAt(p, oldSize, newSize, script, 0, w) <==>
        Ends(p, oldSize, newSize, ScaledUp(p, oldSize, newSize), script[0], w);
      if t.verdict == Running {
        TurnIsSafe(p, oldSize, newSize, script[0], oldSize + newSize + p.desired + p.maxSurge);
        RolloutEndsIff(p, t.oldSize, t.newSize, script[1..], v);
        LaterTurns(p, oldSize, newSize, script, v);
      }
    } else if script != [] {
      assert !EndsAt(p, oldSize, newSize, script, 0, v) && !EndsAt(p, oldSize, newSize, script, 0, Running);
    }
  }

  /** After a first turn that goes on, the rest of the run decides. */
  lemma LaterTurns(p: Params, oldSize: int, newSize: int, script: seq<Round>, v: Verdict)
    requires script != [] && v != Running && EndsAt(p, oldSize, newSize, script, 0, Running)
    requires !EndsAt(p, oldSize, newSize, script, 0, v)
    ensures var n := ScaledUp(p, oldSize, newSize);
      var o := ScaledDown(p, oldSize, n, n - script[0].unready);
      EndsSomewhere(p, oldSize, newSize, script, v) <==> EndsSomewhere(p, o, n, script[1..], v)
  {
    var n := ScaledUp(p, oldSize, newSize);
    var o := ScaledDown(p, oldSize, n, n - script[0].unready);
    var rest := script[1..];
    assert forall k, w :: 0 < k < |script| ==>
      (EndsAt(p, oldSize, newSize, script, k, w) <==> EndsAt(p, o, n, rest, k - 1, w));
    if EndsSomewhere(p, oldSize, newSize, script, v) {
      var k :| 0 <= k < |script| && EndsAt(p, oldSize, newSize, script, k, v) &&
        forall j :: 0 <= j < k ==> EndsAt(p, oldSize, newSize, script, j, Running);
      forall j | 0 <= j < k - 1 ensures EndsAt(p, o, n, rest, j, Running) {
        assert EndsAt(p, oldSize, newSize, script, j + 1, Running);
      }
      assert EndsAt(p, o, n, rest, k - 1, v);
    }
    if EndsSomewhere(p, o, n, rest, v) {
      var k :| 0 <= k < |rest| && EndsAt(p, o, n, rest, k, v) &&
        forall j :: 0 <= j < k ==> EndsAt(p, o, n, rest, j, Running);
      forall j | 0 <= j < k + 1 ensures EndsAt(p, oldSize, newSize, script, j, Running) {
        if j > 0 { assert EndsAt(p, o, n, rest, j - 1, Running); }
      }
      assert EndsAt(p, oldSize, newSize, script, k + 1, v);
    }
  }

  // -------------------------------------------------------------- the reports

  /** The reports tell the run: up and down in turns, each down report from the
      old size of the up report before it to its own, both with the same new
      size, and the next turn from there. */
  ghost predicate TellsRun(oldSize: int, t: Trace) {
    && (forall i :: 0 <= i < |t.reports| ==> (t.reports[i].dir.Up? <==> i % 2 == 0))
    && (forall i :: 0 <= i < |t.reports| && t.reports[i].dir.Up? ==> t.reports[i].oldSize == t.reports[i].before)
    && (forall i :: 0 < i < |t.reports| ==> t.reports[i].before == t.reports[i - 1].oldSize)
    && (forall i :: 0 < i < |t.reports| && t.reports[i].dir.Down? ==> t.reports[i].newSize == t.reports[i - 1].newSize)
    && (t.reports != [] ==> t.reports[0].before == oldSize)
  }

  /** Every turn that goes on, completes or times out has both its reports, and the last one has the final sizes. */
  ghost predicate Whole(t: Trace) {
    t.verdict in {Running, Completed, TimedOut} ==>
      && |t.reports| % 2 == 0
      && (t.reports != [] ==>
            var last := t.reports[|t.reports| - 1]; last.oldSize == t.oldSize && last.newSize == t.newSize)
  }

  lemma TurnTells(p: Params, oldSize: int, newSize: int, r: Round)
    ensures var t := Turn(p, oldSize, newSize, r);
      && TellsRun(oldSize, t) && Whole(t)
      && (t.verdict in {Running, TimedOut} ==> |t.reports| == 2)
  {
  }

  lemma TellsConcat(oldSize: int, t: Trace, rest: Trace)
    requires TellsRun(oldSize, t) && Whole(t) && |t.reports| == 2 && t.verdict == Running
    requires TellsRun(t.oldSize, rest)
    ensures TellsRun(oldSize, rest.(reports := t.reports + rest.reports))
  {
    var all := t.reports + rest.reports;
    assert forall i :: 2 <= i < |all| ==> all[i] == rest.reports[i - 2];
  }

  lemma WholeConcat(t: Trace, rest: Trace)
    requires Whole(t) && |t.reports| == 2 && t.verdict == Running && Whole(rest)
    requires rest.reports == [] ==> rest.oldSize == t.oldSize && rest.newSize == t.newSize
    ensures Whole(rest.(reports := t.reports + rest.reports))
  {
  }

  lemma {:induction false} ReportsTellTheRun(p: Params, oldSize: int, newSize: int, script: seq<Round>)
    ensures var t := Rollout(p, oldSize, newSize, script);
      && TellsRun(oldSize, t)
      && (t.verdict == Running ==> |t.reports| == 2 * |script|)
    decreases |script|
  {
    if script != [] && !Finished(p, oldSize, newSize) {
      var t := Turn(p, oldSize, newSize, script[0]);
      TurnTells(p, oldSize, newSize, script[0]);
      if t.verdict == Running {
        ReportsTellTheRun(p, t.oldSize, t.newSize, script[1..]);
        TellsConcat(oldSize, t, Rollout(p, t.oldSize, t.newSize, script[1..]));
      }
    }
  }

  lemma {:induction false} LastReportIsFinal(p: Params, oldSize: int, newSize: int, script: seq<Round>)
    ensures var t := Rollout(p, oldSize, newSize, script);
      && Whole(t)
      && (t.reports == [] && t.verdict in {Running, Completed, TimedOut} ==>
        t.oldSize == oldSize && t.newSize == newSize)
    decreases |script|
  {
    if script != [] && !Finished(p, oldSize, newSize) {
      var t := Turn(p, oldSize, newSize, script[0]);
      TurnTells(p, oldSize, newSize, script[0]);
      if t.verdict == Running {
        LastReportIsFinal(p, t.oldSize, t.newSize, script[1..]);
        var rest := Rollout(p, t.oldSize, t.newSize, script[1..]);
        if rest.verdict in {Running, Completed, TimedOut} { WholeConcat(t, rest); }
      }
    }
  }

  predicate Quiet(r: Round) {
    !r.scaleUpFails && !r.cancelAfterUp && !r.listFails && !r.scaleDownFails && !r.cancelAfterDown
  }

  predicate AllReady(script: seq<Round>) {
    forall i :: 0 <= i < |script| ==> Quiet(script[i]) && script[i].unready == 0
  }

  /** The counts from which a rollout gets through: a new controller above the
      desired size is only brought down while old pods and some surge are left. */
  predicate CanComplete(p: Params, oldSize: int, newSize: int) {
    newSize <= p.desired || (oldSize > 0 && oldSize + newSize < p.desired + p.maxSurge)
  }

  /** With ready pods and no failures the loop completes exactly from these
      counts, within as many turns as there are replicas left to move; then the
      new controller has the desired size and the old one no pods. */
  lemma {:induction false} ReadyRolloutCompletesIff(p: Params, oldSize: int, newSize: int, script: seq<Round>)
    requires p.Valid() && p.CanMove() && oldSize >= 0 && newSize >= 0
    requires AllReady(script) && |script| >= Remaining(p, oldSize, newSize)
    ensures var t := Rollout(p, oldSize, newSize, script);
      && (t.verdict == Completed <==> CanComplete(p, oldSize, newSize))
      && (t.verdict == Completed ==> t.oldSize == 0 && t.newSize == p.desired)
    decreases |script|
  {
    if !CanComplete(p, oldSize, newSize) {
      StuckAbove(p, oldSize, newSize, script);
    } else if !Finished(p, oldSize, newSize) {
      StallsExactly(p, oldSize, newSize, 0);
      ReadyNeverStallsIffCanMove(p);
      assert !Stalls(p, oldSize, newSize, 0);
      var n := ScaledUp(p, oldSize, newSize);
      ReadyRolloutCompletesIff(p, ScaledDown(p, oldSize, n, n), n, script[1..]);
    }
  }

  lemma {:induction false} StuckAbove(p: Params, oldSize: int, newSize: int, script: seq<Round>)
    requires p.Valid() && oldSize >= 0 && newSize >= 0 && AllReady(script) && !CanComplete(p, oldSize, newSize)
    ensures Rollout(p, oldSize, newSize, script).verdict != Completed
    decreases |script|
  {
    if script != [] {
      var t := Turn(p, oldSize, newSize, script[0]);
      assert t.newSize == newSize && t.oldSize == 0;
      if t.verdict == Running { StuckAbove(p, t.oldSize, t.newSize, script[1..]); }
    }
  }

  // ------------------------------------------------------------- progress

  /** How far the new controller has come on its way of length `goal`. */
  function Covered(p: Params, goal: int, newSize: int): int {
    goal - Abs(p.desired - newSize)
  }

  lemma WrapFits(x: int)
    requires 0 <= x <= INT32_MAX
    ensures Wrap32(x) == x
  {
  }

  lemma WrapLowers(x: int)
    requires x > INT32_MAX
    ensures Wrap32(x) <= x - 0x1_0000_0000
  {
  }

  /** The percentage is the exact one if and only if the covered way times 100 still fits an int32. */
  lemma PercentageExactIff(p: Params, goal: int, newSize: int)
    requires 0 < goal <= INT32_MAX && Abs(p.desired - newSize) <= goal
    ensures var x := Covered(p, goal, newSize) * 100; Percentage(p, goal, newSize) == x / goal <==> x <= INT32_MAX
  {
    var x := Covered(p, goal, newSize) * 100;
    if x <= INT32_MAX {
      WrapFits(x);
    } else {
      WrapLowers(x);
      TruncBelow(Wrap32(x), x, goal);
    }
  }

  lemma TruncBelow(w: int, x: int, goal: int)
    requires 0 < goal <= INT32_MAX && x > 0 && w <= x - 0x1_0000_0000
    ensures TruncDiv(w, goal) < x / goal
  {
    var a, b := TruncDiv(w, goal), x / goal;
    assert x < goal * b + goal;
    if w >= 0 {
      assert goal * a <= w;
    } else {
      var d := -w / goal;
      assert -w < goal * d + goal;
      assert a == -d;
      assert goal * a == -(goal * d);
    }
    MulMonotone(goal, b, a);
  }

  lemma MulMonotone(d: int, x: int, y: int)
    requires d > 0
    ensures x <= y ==> d * x <= d * y
  {
  }

  lemma DivMonotone(a: int, b: int, d: int)
    requires 0 <= a <= b && d > 0
    ensures 0 <= a / d <= b / d
  {
    var x, y := a / d, b / d;
    assert a == d * x + a % d && b == d * y + b % d;
    MulMonotone(d, y + 1, x);
  }

  lemma Hundredfold(d: int)
    requires d > 0
    ensures d * 100 / d == 100
  {
  }

  /** While the goal times 100 fits an int32, percentages lie in 0..100 and grow as the distance shrinks. */
  lemma PercentageBounds(p: Params, goal: int, m: int, n: int)
    requires 0 <= Abs(p.desired - n) <= Abs(p.desired - m) <= goal && goal * 100 <= INT32_MAX
    ensures 0 <= Percentage(p, goal, m) <= Percentage(p, goal, n) <= 100
  {
    if goal > 0 {
      var a, b := Covered(p, goal, m) * 100, Covered(p, goal, n) * 100;
      PercentageExactIff(p, goal, m);
      PercentageExactIff(p, goal, n);
      DivMonotone(a, b, goal);
      DivMonotone(b, goal * 100, goal);
      Hundredfold(goal);
    }
  }

  /** The values of `f` fall, not strictly, from at most `hi` to at least `lo`. */
  ghost predicate Descends<T>(f: T -> int, s: seq<T>, hi: int, lo: int) {
    && lo <= hi
    && (forall i :: 0 <= i < |s| ==> lo <= f(s[i]) <= hi)
    && (forall i, j :: 0 <= i < j < |s| ==> f(s[j]) <= f(s[i]))
  }

  lemma DescendsConcat<T>(f: T -> int, a: seq<T>, b: seq<T>, hi: int, mid: int, lo: int)
    requires Descends(f, a, hi, mid) && Descends(f, b, mid, lo)
    ensures Descends(f, a + b, hi, lo)
  {
  }

  function Distance(p: Params): Report -> int {
    (r: Report) => Abs(p.desired - r.newSize)
  }

  /** From `newSize` on, through the reports, to the end, the distance to the desired size never grows. */
  ghost predicate Closing(p: Params, newSize: int, t: Trace) {
    Descends(Distance(p), t.reports, Abs(p.desired - newSize), Abs(p.desired - t.newSize))
  }

  lemma TurnCloses(p: Params, oldSize: int, newSize: int, r: Round)
    requires p.Valid() && oldSize >= 0 && newSize >= 0
    ensures Closing(p, newSize, Turn(p, oldSize, newSize, r))
  {
    ScaledUpWithinSurge(p, oldSize, newSize);
  }

  lemma {:induction false} SizesClose(p: Params, oldSize: int, newSize: int, script: seq<Round>)
    requires p.Valid() && oldSize >= 0 && newSize >= 0
    ensures Closing(p, newSize, Rollout(p, oldSize, newSize, script))
    decreases |script|
  {
    if !Finished(p, oldSize, newSize) && script != [] {
      var t := Turn(p, oldSize, newSize, script[0]);
      TurnCloses(p, oldSize, newSize, script[0]);
      if t.verdict == Running {
        TurnIsSafe(p, oldSize, newSize, script[0], oldSize + newSize + p.desired + p.maxSurge);
        SizesClose(p, t.oldSize, t.newSize, script[1..]);
        var rest := Rollout(p, t.oldSize, t.newSize, script[1..]);
        DescendsConcat(Distance(p), t.reports, rest.reports,
                       Abs(p.desired - newSize), Abs(p.desired - t.newSize), Abs(p.desired - rest.newSize));
      }
    }
  }

  ghost predicate PercentagesInRange(p: Params, goal: int, t: Trace) {
    forall i :: 0 <= i < |t.reports| ==> 0 <= Percentage(p, goal, t.reports[i].newSize) <= 100
  }

  ghost predicate PercentagesRise(p: Params, goal: int, t: Trace) {
    forall i, j :: 0 <= i < j < |t.reports| ==>
      Percentage(p, goal, t.reports[i].newSize) <= Percentage(p, goal, t.reports[j].newSize)
  }

  /** As long as the goal times 100 fits an int32, the percentages reported over
      a whole run lie in 0..100 and never fall. */
  lemma ProgressNeverFalls(p: Params, oldSize: int, start: int, script: seq<Round>)
    requires p.Valid() && oldSize >= 0 && start >= 0 && Abs(p.desired - start) * 100 <= INT32_MAX
    ensures var goal, t := Abs(p.desired - start), Rollout(p, oldSize, start, script);
      PercentagesInRange(p, goal, t) && PercentagesRise(p, goal, t)
  {
    var goal, t := Abs(p.desired - start), Rollout(p, oldSize, start, script);
    SizesClose(p, oldSize, start, script);
    forall i, j | 0 <= i <= j < |t.reports|
      ensures 0 <= Percentage(p, goal, t.reports[i].newSize) <= Percentage(p, goal, t.reports[j].newSize) <= 100
    {
      var d := Distance(p);
      assert d(t.reports[j]) <= d(t.reports[i]) <= goal;
      PercentageBounds(p, goal, t.reports[i].newSize, t.reports[j].newSize);
    }
  }

  const READY := Round(false, false, false, 0, false, false, false)

  /** A run that reports a negative percentage: its first turn creates just so
      many pods, 21474837 or 2^29, that the product wraps around to at most minus the goal. */
  lemma ReportsNegative(p: Params, start: int) returns (oldSize: int)
    requires p.Valid() && 0 <= start && (p.desired - start) * 100 > INT32_MAX
    ensures 0 <= oldSize && oldSize + start <= INT32_MAX
    ensures !PercentagesInRange(p, p.desired - start, Rollout(p, oldSize, start, [READY]))
  {
    var goal := p.desired - start;
    var n := start + if goal <= 0x2000_0000 then 21_474_837 else 0x2000_0000;
    NegativeAt(p, start, n);
    oldSize := p.desired + p.maxSurge - n;
    var t := Turn(p, oldSize, start, READY);
    assert ScaledUp(p, oldSize, start) == n;
    assert t.reports[0].newSize == n;
    var r := Rollout(p, oldSize, start, [READY]);
    assert r.reports[0] == t.reports[0];
  }

  lemma NegativeAt(p: Params, start: int, n: int)
    requires 0 <= start && p.desired <= INT32_MAX && (p.desired - start) * 100 > INT32_MAX
    requires n == start + if p.desired - start <= 0x2000_0000 then 21_474_837 else 0x2000_0000
    ensures start < n <= p.desired && Percentage(p, p.desired - start, n) < 0
  {
    var goal, x := p.desired - start, (n - start) * 100;
    assert Wrap32(x) == if goal <= 0x2000_0000 then -2_147_483_596 else INT32_MIN;
    DivMonotone(goal, -Wrap32(x), goal);
    assert goal / goal == 1;
  }

  /** For a new controller that has to grow: every run, from any old size and
      under any circumstances, reports percentages in 0..100 if and only if the
      number of pods to create times 100 fits an int32. */
  lemma ProgressInRangeIff(p: Params, start: int)
    requires p.Valid() && 0 <= start <= p.desired
    ensures (p.desired - start) * 100 <= INT32_MAX <==>
      forall oldSize: nat, script: seq<Round> :: oldSize + start <= INT32_MAX ==>
        PercentagesInRange(p, p.desired - start, Rollout(p, oldSize, start, script))
  {
    if (p.desired - start) * 100 <= INT32_MAX {
      forall oldSize: nat, script: seq<Round>
        ensures PercentagesInRange(p, p.desired - start, Rollout(p, oldSize, start, script))
      {
        ProgressNeverFalls(p, oldSize, start, script);
      }
    } else {
      var oldSize := ReportsNegative(p, start);
    }
  }

  /** A controller above the desired size stays where it is or jumps to the desired size. */
  lemma {:induction false} OversizedJumps(p: Params, start: int, oldSize: int, newSize: int, script: seq<Round>)
    requires p.Valid() && p.desired < start && oldSize >= 0 && newSize in {start, p.desired}
    ensures forall r :: r in Rollout(p, oldSize, newSize, script).reports ==> r.newSize in {start, p.desired}
    ensures newSize == start && start + 1 >= p.desired + p.maxSurge ==>
      forall r :: r in Rollout(p, oldSize, newSize, script).reports ==> r.newSize == start
    decreases |script|
  {
    if !Finished(p, oldSize, newSize) && script != [] {
      var t := Turn(p, oldSize, newSize, script[0]);
      if t.verdict == Running {
        OversizedJumps(p, start, t.oldSize, t.newSize, script[1..]);
      }
    }
  }

  lemma QuotientInRange(w: int, goal: int)
    requires 0 < goal && w <= goal * 100
    ensures 0 <= TruncDiv(w, goal) <= 100 <==> w > -goal
  {
    if w >= 0 {
      DivMonotone(w, goal * 100, goal);
      Hundredfold(goal);
    } else if w <= -goal {
      DivMonotone(goal, -w, goal);
      assert goal / goal == 1;
    } else {
      assert -w / goal == 0;
    }
  }

  lemma PercentageAtGoal(p: Params, goal: int, w: int)
    requires 0 < goal <= INT32_MAX && w == Wrap32(goal * 100)
    ensures 0 <= Percentage(p, goal, p.desired) <= 100 <==> w > -goal
  {
    if goal * 100 <= INT32_MAX { WrapFits(goal * 100); } else { WrapLowers(goal * 100); }
    QuotientInRange(w, goal);
  }

  lemma StartIsZero(p: Params, goal: int, start: int)
    requires 0 < goal == Abs(p.desired - start)
    ensures Percentage(p, goal, start) == 0
  {
    assert Wrap32(0) == 0;
  }

  lemma OversizedReports(p: Params, start: int, oldSize: nat, script: seq<Round>)
    requires p.Valid() && p.desired < start <= INT32_MAX
    requires start + 1 >= p.desired + p.maxSurge || 0 <= Percentage(p, start - p.desired, p.desired) <= 100
    ensures PercentagesInRange(p, start - p.desired, Rollout(p, oldSize, start, script))
  {
    StartIsZero(p, start - p.desired, start);
    OversizedJumps(p, start, oldSize, start, script);
    var t := Rollout(p, oldSize, start, script);
    forall i | 0 <= i < |t.reports| ensures 0 <= Percentage(p, start - p.desired, t.reports[i].newSize) <= 100 {
      assert t.reports[i] in t.reports;
    }
  }

  lemma OversizedComesDown(p: Params, start: int)
    requires p.Valid() && p.desired < start && start + 1 < p.desired + p.maxSurge
    ensures var t := Rollout(p, 1, start, [READY]); t.reports != [] && t.reports[0].newSize == p.desired
  {
    var t := Turn(p, 1, start, READY);
    assert t.reports[0].newSize == p.desired;
    assert Rollout(p, 1, start, [READY]).reports[0] == t.reports[0];
  }

  /** For a new controller above the desired size: every run reports percentages
      in 0..100 if and only if no run brings it down, or the wrapped product
      exceeds minus the goal. */
  lemma OversizedInRangeIff(p: Params, start: int, w: int)
    requires p.Valid() && p.desired < start <= INT32_MAX && w == Wrap32((start - p.desired) * 100)
    ensures start + 1 >= p.desired + p.maxSurge || w > -(start - p.desired) <==>
      forall oldSize: nat, script: seq<Round> :: oldSize + start <= INT32_MAX ==>
        PercentagesInRange(p, start - p.desired, Rollout(p, oldSize, start, script))
  {
    PercentageAtGoal(p, start - p.desired, w);
    if start + 1 >= p.desired + p.maxSurge || w > -(start - p.desired) {
      forall oldSize: nat, script: seq<Round>
        ensures PercentagesInRange(p, start - p.desired, Rollout(p, oldSize, start, script))
      {
        OversizedReports(p, start, oldSize, script);
      }
    } else {
      OversizedComesDown(p, start);
      assert !PercentagesInRange(p, start - p.desired, Rollout(p, 1, start, [READY]));
    }
  }

  // ---------------------------------------------------------------- abort

  /** Rolling back from wherever a run stopped, also one that continued an
      interrupted update: roles swapped, the recorded original size as the new
      target, any limits. The counts again meet the preconditions of a rollout,
      and with ready pods the old controller is restored to its original size
      and the new one removed. */
  lemma AbortRestores(p: Params, original: int, oldSize: int, newSize: int, script: seq<Round>,
                      q: Params, script': seq<Round>)
    requires p.Valid() && 0 <= oldSize <= original && 0 <= newSize
    requires q.Valid() && q.CanMove() && q.desired == original && AllReady(script')
    requires var t := Rollout(p, oldSize, newSize, script); |script'| >= Remaining(q, t.newSize, t.oldSize)
    ensures var t := Rollout(p, oldSize, newSize, script);
      && 0 <= t.oldSize <= q.desired && 0 <= t.newSize
      && var back := Rollout(q, t.newSize, t.oldSize, script');
         back.verdict == Completed && back.newSize == original && back.oldSize == 0
  {
    RolloutIsSafe(p, oldSize, newSize, script, Max(oldSize + newSize, p.desired + p.maxSurge));
    var t := Rollout(p, oldSize, newSize, script);
    ReadyRolloutCompletesIff(q, t.newSize, t.oldSize, script');
  }
}
