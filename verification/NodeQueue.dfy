/**
 The kubemark controller's node creation queue: callers enlarge a node group by
 counting and enqueuing nodes under a lock, one worker takes entries from the
 bounded channel without the lock and then needs the lock to create the node.
 */
module NodeQueue {
  import opened Wrappers

  type Group = string

  /** The capacity of createNodeQueue. */
  const CAPACITY := 1000

  /** The worker waits for an entry, or has taken one and waits for the lock. */
  datatype Worker = Idle | Took(group: Group)

  /** Who holds the lock: nobody, or a caller that still has to enqueue
      `remaining` nodes and, if `counted`, has already counted the next one. */
  datatype Lock = Free | Held(group: Group, remaining: nat, counted: bool)

  /** What has happened so far, group by group: nodes counted, created and
      failed, listed now, and vanished from the listing again. */
  datatype Books = Books(
    grown: map<Group, int>,
    created: map<Group, int>,
    failed: map<Group, int>,
    listed: map<Group, int>,
    gone: map<Group, int>)

  /** `queueSize` is the controller's counter. */
  datatype State = State(
    queue: seq<Group>,
    queueSize: map<Group, int>,
    lock: Lock,
    worker: Worker,
    books: Books)

  const INITIAL := State([], map[], Free, Idle, Books(map[], map[], map[], map[], map[]))

  datatype Step =
    | Lock(group: Group, delta: nat)
    | CountNext
    | Send
    | Unlock
    | Take
    | CreateNode(succeeds: bool)
    | List(group: Group)
    | Vanish(group: Group)

  function Bump(m: map<Group, int>, g: Group, d: int): map<Group, int> {
    m[g := Get(m, g, 0) + d]
  }

  /** The steps that the threads can make; a send into a full channel blocks. */
  predicate Enabled(s: State, step: Step) {
    match step
    case Lock(_, _) => s.lock.Free?
    case CountNext => s.lock.Held? && s.lock.remaining > 0 && !s.lock.counted
    case Send => s.lock.Held? && s.lock.remaining > 0 && s.lock.counted && |s.queue| < CAPACITY
    case Unlock => s.lock.Held? && s.lock.remaining == 0
    case Take => s.worker.Idle? && s.queue != []
    case CreateNode(_) => s.lock.Free? && s.worker.Took?
    case List(g) => Get(s.books.listed, g, 0) + Get(s.books.gone, g, 0) < Get(s.books.created, g, 0)
    case Vanish(g) => Get(s.books.listed, g, 0) > 0
  }

  /** The node that the worker has taken is created, or not. */
  function Create(s: State, g: Group, succeeds: bool): State {
    if succeeds then
      s.(worker := Idle, queueSize := Bump(s.queueSize, g, -1),
         books := s.books.(created := Bump(s.books.created, g, 1)))
    else s.(worker := Idle, books := s.books.(failed := Bump(s.books.failed, g, 1)))
  }

  function Next(s: State, step: Step): State
    requires Enabled(s, step)
  {
    match step
    case Lock(g, delta) => s.(lock := Held(g, delta, false))
    case CountNext =>
      s.(queueSize := Bump(s.queueSize, s.lock.group, 1), lock := s.lock.(counted := true),
         books := s.books.(grown := Bump(s.books.grown, s.lock.group, 1)))
    case Send =>
      s.(queue := s.queue + [s.lock.group], lock := Held(s.lock.group, s.lock.remaining - 1, false))
    case Unlock => s.(lock := Free)
    case Take => s.(queue := s.queue[1..], worker := Took(s.queue[0]))
    case CreateNode(succeeds) => Create(s, s.worker.group, succeeds)
    case List(g) => s.(books := s.books.(listed := Bump(s.books.listed, g, 1)))
    case Vanish(g) =>
      s.(books := s.books.(listed := Bump(s.books.listed, g, -1), gone := Bump(s.books.gone, g, 1)))
  }

  predicate Runs(s: State, steps: seq<Step>)
    decreases |steps|
  {
    steps == [] || (Enabled(s, steps[0]) && Runs(Next(s, steps[0]), steps[1..]))
  }

  function Exec(s: State, steps: seq<Step>): State
    requires Runs(s, steps)
    decreases |steps|
  {
    if steps == [] then s else Exec(Next(s, steps[0]), steps[1..])
  }

  // -------------------------------------------------------- conservation

  function Bit(b: bool): int { if b then 1 else 0 }

  /** Entries of group `g` on their way: in the channel or taken. */
  function InTransit(s: State, g: Group): int {
    multiset(s.queue)[g] + Bit(s.worker == Took(g))
  }

  ghost predicate Counted(s: State, g: Group) {
    Get(s.queueSize, g, 0) ==
      InTransit(s, g) + Get(s.books.failed, g, 0) + Bit(s.lock.Held? && s.lock.counted && s.lock.group == g)
  }

  ghost predicate Balanced(s: State, g: Group) {
    Get(s.queueSize, g, 0) == Get(s.books.grown, g, 0) - Get(s.books.created, g, 0)
  }

  ghost predicate Inv(s: State) {
    && |s.queue| <= CAPACITY
    && (s.lock.Held? && s.lock.counted ==> s.lock.remaining > 0)
    && forall g :: Counted(s, g) && Balanced(s, g)
  }

  lemma TakeKeepsCounted(s: State, g: Group)
    requires Counted(s, g) && Enabled(s, Take)
    ensures Counted(Next(s, Take), g)
  {
    assert s.queue == [s.queue[0]] + s.queue[1..];
  }

  lemma SendKeepsCounted(s: State, g: Group)
    requires Counted(s, g) && Enabled(s, Send)
    ensures Counted(Next(s, Send), g)
  {
    assert multiset(s.queue + [s.lock.group]) == multiset(s.queue) + multiset{s.lock.group};
  }

  lemma CreateKeepsCounted(s: State, succeeds: bool, g: Group)
    requires Counted(s, g) && Enabled(s, CreateNode(succeeds))
    ensures Counted(Next(s, CreateNode(succeeds)), g)
  {
  }

  lemma NextKeepsCounted(s: State, step: Step, g: Group)
    requires Counted(s, g) && Enabled(s, step) && (s.lock.Held? && s.lock.counted ==> s.lock.remaining > 0)
    ensures Counted(Next(s, step), g)
  {
    match step
    case Take => TakeKeepsCounted(s, g);
    case Send => SendKeepsCounted(s, g);
    case CreateNode(succeeds) => CreateKeepsCounted(s, succeeds, g);
    case _ =>
  }

  lemma NextKeepsInv(s: State, step: Step)
    requires Inv(s) && Enabled(s, step)
    ensures Inv(Next(s, step))
  {
    forall g ensures Counted(Next(s, step), g) && Balanced(Next(s, step), g) {
      NextKeepsCounted(s, step, g);
      NextKeepsBalanced(s, step, g);
    }
  }

  lemma CreateKeepsBalanced(s: State, h: Group, succeeds: bool, g: Group)
    requires Balanced(s, g)
    ensures Balanced(Create(s, h, succeeds), g)
  {
  }

  lemma NextKeepsBalanced(s: State, step: Step, g: Group)
    requires Balanced(s, g) && Enabled(s, step)
    ensures Balanced(Next(s, step), g)
  {
    match step
    case CreateNode(succeeds) => CreateKeepsBalanced(s, s.worker.group, succeeds, g);
    case _ =>
  }

  /** Whenever the lock is free the counter of a group is the number of its
      entries in the channel or taken, plus the creations that ever failed. */
  lemma {:induction false} CounterIsExact(s: State, steps: seq<Step>)
    requires Inv(s) && Runs(s, steps)
    ensures var t := Exec(s, steps);
      && Inv(t)
      && (t.lock.Free? ==> forall g :: Get(t.queueSize, g, 0) == InTransit(t, g) + Get(t.books.failed, g, 0))
    decreases |steps|
  {
    if steps == [] {
      forall g | s.lock.Free? ensures Get(s.queueSize, g, 0) == InTransit(s, g) + Get(s.books.failed, g, 0) {
        assert Counted(s, g);
      }
    } else {
      NextKeepsInv(s, steps[0]);
      CounterIsExact(Next(s, steps[0]), steps[1..]);
    }
  }

  // --------------------------------------------------- what a run adds up to

  datatype Deed = Counting | Creating | Failing | Listing | Vanishing

  /** Is the step such a deed for group `g`? */
  predicate Does(s: State, step: Step, g: Group, deed: Deed)
    requires Enabled(s, step)
  {
    match deed
    case Counting => step.CountNext? && s.lock.group == g
    case Creating => step == CreateNode(true) && s.worker.group == g
    case Failing => step == CreateNode(false) && s.worker.group == g
    case Listing => step == List(g)
    case Vanishing => step == Vanish(g)
  }

  function Times(s: State, steps: seq<Step>, g: Group, deed: Deed): nat
    requires Runs(s, steps)
    decreases |steps|
  {
    if steps == [] then 0
    else Bit(Does(s, steps[0], g, deed)) + Times(Next(s, steps[0]), steps[1..], g, deed)
  }

  lemma StepAddsUp(s: State, step: Step, g: Group)
    requires Enabled(s, step)
    ensures var t := Next(s, step);
      && Get(t.queueSize, g, 0) ==
           Get(s.queueSize, g, 0) + Bit(Does(s, step, g, Counting)) - Bit(Does(s, step, g, Creating))
      && Get(t.books.listed, g, 0) ==
           Get(s.books.listed, g, 0) + Bit(Does(s, step, g, Listing)) - Bit(Does(s, step, g, Vanishing))
      && Get(t.books.created, g, 0) == Get(s.books.created, g, 0) + Bit(Does(s, step, g, Creating))
      && Get(t.books.failed, g, 0) == Get(s.books.failed, g, 0) + Bit(Does(s, step, g, Failing))
  {
  }

  /** Over every run a group's counter rises with each node asked for and falls
      with each one created; a creation that fails never comes off it again. */
  lemma {:induction false} RunAddsUp(s: State, steps: seq<Step>, g: Group)
    requires Runs(s, steps)
    ensures var t := Exec(s, steps);
      && Get(t.queueSize, g, 0) ==
           Get(s.queueSize, g, 0) + Times(s, steps, g, Counting) - Times(s, steps, g, Creating)
      && Get(t.books.listed, g, 0) ==
           Get(s.books.listed, g, 0) + Times(s, steps, g, Listing) - Times(s, steps, g, Vanishing)
      && Get(t.books.created, g, 0) == Get(s.books.created, g, 0) + Times(s, steps, g, Creating)
      && Get(t.books.failed, g, 0) == Get(s.books.failed, g, 0) + Times(s, steps, g, Failing)
    decreases |steps|
  {
    if steps != [] {
      StepAddsUp(s, steps[0], g);
      RunAddsUp(Next(s, steps[0]), steps[1..], g);
    }
  }

  // ------------------------------------------------------------ blocking

  /** If what is left to send fits the channel, the caller's send never blocks,
      whatever the worker does in between. */
  lemma {:induction false} SendNeverBlocks(s: State, steps: seq<Step>)
    requires Inv(s) && Runs(s, steps) && s.lock.Held? && |s.queue| + s.lock.remaining <= CAPACITY
    requires forall i :: 0 <= i < |steps| ==> !steps[i].Unlock?
    ensures var t := Exec(s, steps);
      && t.lock.Held? && |t.queue| + t.lock.remaining <= CAPACITY
      && (t.lock.counted ==> Enabled(t, Send))
    decreases |steps|
  {
    if steps != [] {
      NextKeepsInv(s, steps[0]);
      SendNeverBlocks(Next(s, steps[0]), steps[1..]);
    }
  }

  /** Free slots, counting the entry that an idle worker can still take, less
      what the caller has to send. No step made while the lock is held changes it. */
  function Slack(s: State): int
    requires s.lock.Held?
  {
    CAPACITY - |s.queue| + Bit(s.worker.Idle?) - s.lock.remaining
  }

  lemma SlackIsKept(s: State, step: Step)
    requires s.lock.Held? && Slack(s) < 0 && |s.queue| <= CAPACITY && Enabled(s, step)
    ensures var t := Next(s, step);
      t.lock.Held? && t.lock.group == s.lock.group && Slack(t) == Slack(s) && |t.queue| <= CAPACITY
  {
  }

  /** A caller with negative slack never gives the lock back: with the taken
      entry the worker waits for the lock, and the caller waits for the worker. */
  lemma {:induction false} NegativeSlackNeverUnlocks(s: State, steps: seq<Step>)
    requires Runs(s, steps) && s.lock.Held? && Slack(s) < 0 && |s.queue| <= CAPACITY
    ensures var t := Exec(s, steps);
      t.lock.Held? && t.lock.group == s.lock.group && t.lock.remaining > 0 && Slack(t) == Slack(s)
    decreases |steps|
  {
    if steps != [] {
      SlackIsKept(s, steps[0]);
      NegativeSlackNeverUnlocks(Next(s, steps[0]), steps[1..]);
    }
  }

  /** Steps of the lister, not of the controller's threads. */
  predicate IsLister(step: Step) {
    step.List? || step.Vanish?
  }

  function Work(s: State): nat
    requires s.lock.Held? && (s.lock.counted ==> s.lock.remaining > 0)
  {
    2 * s.lock.remaining - Bit(s.lock.counted) + Bit(s.worker.Idle?)
  }

  function NextInSection(s: State): Step
    requires s.lock.Held?
  {
    if s.lock.remaining == 0 then Unlock
    else if !s.lock.counted then CountNext
    else if |s.queue| < CAPACITY then Send
    else Take
  }

  /** With non-negative slack some step is always possible, and every step of the
      threads made while the lock is held brings the unlocking nearer. */
  lemma SlackMeansProgress(s: State)
    requires Inv(s) && s.lock.Held? && Slack(s) >= 0
    ensures Enabled(s, NextInSection(s))
    ensures forall step :: Enabled(s, step) && !step.Unlock? && !IsLister(step) ==>
      var t := Next(s, step); Inv(t) && t.lock.Held? && Slack(t) == Slack(s) && Work(t) < Work(s)
  {
    forall step | Enabled(s, step) && !step.Unlock? && !IsLister(step)
      ensures var t := Next(s, step); Inv(t) && t.lock.Held? && Slack(t) == Slack(s) && Work(t) < Work(s)
    {
      NextKeepsInv(s, step);
    }
  }

  lemma ExecCons(s: State, step: Step, steps: seq<Step>)
    requires Enabled(s, step) && Runs(Next(s, step), steps)
    ensures Runs(s, [step] + steps) && Exec(s, [step] + steps) == Exec(Next(s, step), steps)
  {
    assert ([step] + steps)[1..] == steps;
  }

  /** The steps up to the first unlocking. */
  predicate IsSection(steps: seq<Step>) {
    steps != [] && steps[|steps| - 1].Unlock? && forall i :: 0 <= i < |steps| - 1 ==> !steps[i].Unlock?
  }

  /** Free slots, counting the entry that an idle worker can still take. */
  function Room(s: State): int {
    CAPACITY - |s.queue| + Bit(s.worker.Idle?)
  }

  predicate Releases(s: State, steps: seq<Step>) {
    Runs(s, steps) && Exec(s, steps).lock.Free?
  }

  /** Steps that lead from a held lock with slack to its release. */
  ghost function Release(s: State): (steps: seq<Step>)
    requires Inv(s) && s.lock.Held? && Slack(s) >= 0
    ensures Releases(s, steps) && IsSection(steps)
    ensures var t := Exec(s, steps);
      Room(t) == Slack(s) && t.books.(grown := s.books.grown) == s.books
    decreases Work(s)
  {
    SlackMeansProgress(s);
    var step := NextInSection(s);
    var rest := if step.Unlock? then [] else Release(Next(s, step));
    assert step.Unlock? ==> Exec(Next(s, step), rest) == s.(lock := Free);
    ExecCons(s, step, rest);
    [step] + rest
  }

  /** The lock can be released again exactly when the slack is not negative. */
  lemma UnlocksIff(s: State)
    requires Inv(s) && s.lock.Held?
    ensures Slack(s) >= 0 <==> exists steps :: Releases(s, steps)
  {
    if Slack(s) >= 0 {
      assert Releases(s, Release(s));
    } else {
      forall steps ensures !Releases(s, steps) {
        if Runs(s, steps) { NegativeSlackNeverUnlocks(s, steps); }
      }
    }
  }

  /** Enlarging a group by more than 1001 nodes locks a fresh controller up for good. */
  lemma FreshControllerLocksUpIff(g: Group, delta: nat)
    ensures Inv(Next(INITIAL, Lock(g, delta)))
    ensures delta > 1001 <==> forall steps :: !Releases(Next(INITIAL, Lock(g, delta)), steps)
  {
    var s := Next(INITIAL, Lock(g, delta));
    NextKeepsInv(INITIAL, Lock(g, delta));
    UnlocksIff(s);
    assert Slack(s) == 1001 - delta;
  }

  // ------------------------------------------------------ the target size

  /** What GetNodeGroupTargetSize reports. */
  function Target(s: State, g: Group): int {
    Get(s.books.listed, g, 0) + Get(s.queueSize, g, 0)
  }

  /** Nodes that were created but are not listed, not yet or not any more. */
  function Unlisted(s: State, g: Group): int {
    Get(s.books.created, g, 0) - Get(s.books.listed, g, 0)
  }

  /** Only created nodes are listed, and each of them once. */
  ghost predicate ListingIsSane(s: State, g: Group) {
    0 <= Get(s.books.listed, g, 0) && 0 <= Get(s.books.gone, g, 0) <= Unlisted(s, g)
  }

  lemma StepKeepsListingSane(s: State, step: Step, g: Group)
    requires ListingIsSane(s, g) && Enabled(s, step)
    ensures ListingIsSane(Next(s, step), g)
  {
  }

  /** Over every run the reported target never exceeds what the group was grown
      to, and falls short of it by the created nodes that are not listed. */
  lemma {:induction false} TargetIsBounded(s: State, steps: seq<Step>, g: Group)
    requires Inv(s) && ListingIsSane(s, g) && Runs(s, steps)
    ensures var t := Exec(s, steps);
      && ListingIsSane(t, g)
      && Target(t, g) == Get(t.books.grown, g, 0) - Unlisted(t, g) <= Get(t.books.grown, g, 0)
    decreases |steps|
  {
    if steps == [] {
      assert Balanced(s, g);
    } else {
      NextKeepsInv(s, steps[0]);
      StepKeepsListingSane(s, steps[0], g);
      TargetIsBounded(Next(s, steps[0]), steps[1..], g);
    }
  }

  /** What the group will have grown to at the end of the critical section. */
  function Due(s: State, g: Group): int
    requires s.lock.Held?
  {
    Get(s.books.grown, g, 0) + if g == s.lock.group then s.lock.remaining - Bit(s.lock.counted) else 0
  }

  lemma StepKeepsDue(s: State, step: Step, g: Group)
    requires s.lock.Held? && Enabled(s, step) && !step.Unlock?
    ensures var t := Next(s, step); t.lock.Held? && t.lock.group == s.lock.group && Due(t, g) == Due(s, g)
  {
  }

  /** A critical section that the lock's holder ends has counted all its nodes. */
  lemma {:induction false} SectionGrows(s: State, steps: seq<Step>, g: Group)
    requires Inv(s) && Runs(s, steps) && s.lock.Held? && IsSection(steps)
    ensures Inv(Exec(s, steps)) && Get(Exec(s, steps).books.grown, g, 0) == Due(s, g)
    decreases |steps|
  {
    NextKeepsInv(s, steps[0]);
    if |steps| > 1 {
      StepKeepsDue(s, steps[0], g);
      SectionGrows(Next(s, steps[0]), steps[1..], g);
    } else {
      assert steps[1..] == [];
    }
  }

  lemma {:induction false} RunKeepsInv(s: State, steps: seq<Step>)
    requires Inv(s) && Runs(s, steps)
    ensures Inv(Exec(s, steps))
    decreases |steps|
  {
    if steps != [] {
      NextKeepsInv(s, steps[0]);
      RunKeepsInv(Next(s, steps[0]), steps[1..]);
    }
  }

  /** SetNodeGroupSize reads the target size in one critical section and grows the
      group by the difference in another one. After both the target is the
      requested size if and only if what other callers added to the group in
      between equals what has been created but is not listed, or has vanished
      from the listing, since the reading. */
  lemma TargetIsRequestedIff(read: State, before: seq<Step>, g: Group, size: int, section: seq<Step>)
    requires Inv(read) && Runs(read, before) && Exec(read, before).lock.Free? && size > Target(read, g)
    requires var locked := Next(Exec(read, before), Lock(g, size - Target(read, g)));
      Runs(locked, section) && IsSection(section)
    ensures var start := Exec(read, before);
      var t := Exec(Next(start, Lock(g, size - Target(read, g))), section);
      Target(t, g) == size <==>
        Get(start.books.grown, g, 0) - Get(read.books.grown, g, 0) == Unlisted(t, g) - Unlisted(read, g)
  {
    var start := Exec(read, before);
    RunKeepsInv(read, before);
    var locked := Next(start, Lock(g, size - Target(read, g)));
    NextKeepsInv(start, Lock(g, size - Target(read, g)));
    SectionGrows(locked, section, g);
    assert Balanced(read, g) && Balanced(Exec(locked, section), g);
  }

  /** With nobody in between and a lister that stands still for the group, the
      target is the requested size: no node can be created in the critical section. */
  lemma UndisturbedReaches(read: State, g: Group, size: int, section: seq<Step>)
    requires Inv(read) && read.lock.Free? && size > Target(read, g)
    requires Runs(Next(read, Lock(g, size - Target(read, g))), section) && IsSection(section)
    requires List(g) !in section && Vanish(g) !in section
    ensures Target(Exec(Next(read, Lock(g, size - Target(read, g))), section), g) == size
  {
    TargetIsRequestedIff(read, [], g, size, section);
    UnlistedStays(Next(read, Lock(g, size - Target(read, g))), g, section);
  }

  lemma StepKeepsUnlisted(s: State, step: Step, g: Group)
    requires s.lock.Held? && Enabled(s, step) && step != List(g) && step != Vanish(g)
    ensures var t := Next(s, step); Unlisted(t, g) == Unlisted(s, g) && (!step.Unlock? ==> t.lock.Held?)
  {
  }

  lemma {:induction false} UnlistedStays(s: State, g: Group, steps: seq<Step>)
    requires Runs(s, steps) && s.lock.Held? && List(g) !in steps && Vanish(g) !in steps
    requires forall i :: 0 <= i < |steps| - 1 ==> !steps[i].Unlock?
    ensures Unlisted(Exec(s, steps), g) == Unlisted(s, g)
    decreases |steps|
  {
    if steps != [] {
      assert steps[0] in steps;
      StepKeepsUnlisted(s, steps[0], g);
      if |steps| == 1 {
        assert steps[1..] == [];
      } else {
        UnlistedStays(Next(s, steps[0]), g, steps[1..]);
      }
    }
  }

  /** It does fail: two callers that both read the target of an empty group and
      ask for the same size add twice as many nodes. */
  lemma TwoCallersOvershoot(g: Group, size: nat) returns (first: seq<Step>, second: seq<Step>)
    requires 0 < size <= 500
    ensures IsSection(first) && Releases(Next(INITIAL, Lock(g, size)), first)
    ensures var s := Exec(Next(INITIAL, Lock(g, size)), first);
      && IsSection(second) && Releases(Next(s, Lock(g, size)), second)
      && Target(INITIAL, g) == 0 && Target(Exec(Next(s, Lock(g, size)), second), g) == 2 * size
  {
    var locked := Next(INITIAL, Lock(g, size));
    NextKeepsInv(INITIAL, Lock(g, size));
    first := Release(locked);
    SectionGrows(locked, first, g);
    var s := Exec(locked, first);
    NextKeepsInv(s, Lock(g, size));
    second := Release(Next(s, Lock(g, size)));
    SectionGrows(Next(s, Lock(g, size)), second, g);
    assert Balanced(Exec(Next(s, Lock(g, size)), second), g);
  }

  // ----------------------------------------------------------- the object

  lemma {:induction false} ExecSnoc(s: State, steps: seq<Step>, step: Step)
    requires Runs(s, steps) && Enabled(Exec(s, steps), step)
    ensures Runs(s, steps + [step]) && Exec(s, steps + [step]) == Next(Exec(s, steps), step)
    decreases |steps|
  {
    if steps == [] {
      ExecCons(s, step, []);
      assert steps + [step] == [step] + [];
    } else {
      ExecSnoc(Next(s, steps[0]), steps[1..], step);
      assert (steps + [step])[0] == steps[0] && (steps + [step])[1..] == steps[1..] + [step];
    }
  }

  datatype Outcome = Reached | Removed | ListError | NotEnoughNodes | RemoveError | Blocked

  /** The controller with its worker. A caller runs until it is done or blocked;
      in between the worker takes an entry only when the caller needs the slot. */
  class Controller {
    var createNodeQueue: seq<Group>
    var nodeGroupQueueSize: map<Group, int>
    var listing: map<Group, int>
    var worker: Worker
    ghost var books: Books
    ghost var lock: Lock

    ghost function View(): State
      reads this
    {
      State(createNodeQueue, nodeGroupQueueSize, lock, worker, books.(listed := listing))
    }

    ghost predicate Valid()
      reads this
    {
      Inv(View())
    }

    constructor ()
      ensures Valid() && View() == INITIAL
    {
      createNodeQueue, nodeGroupQueueSize, listing, worker := [], map[], map[], Idle;
      books, lock := INITIAL.books, Free;
      new;
      assert View() == INITIAL;
    }

    /** GetNodeGroupTargetSize, given what the lister shows: the listed nodes, the
        entries on their way, and every creation that ever failed. */
    method GetNodeGroupTargetSize(nodeGroup: Group, listed: Option<nat>) returns (size: Option<int>)
      requires Valid() && lock.Free?
      ensures size.None? <==> listed.None?
      ensures size.Some? ==> size.value == listed.value + InTransit(View(), nodeGroup) + Get(books.failed, nodeGroup, 0)
    {
      assert Counted(View(), nodeGroup);
      if listed.None? { return None; }
      size := Some(listed.value + Get(nodeGroupQueueSize, nodeGroup, 0));
    }

    method CountOne(nodeGroup: Group)
      requires Enabled(View(), CountNext) && lock.group == nodeGroup
      modifies this`nodeGroupQueueSize, this`books, this`lock
      ensures View() == Next(old(View()), CountNext)
      ensures lock == old(lock).(counted := true) && Counts(old(nodeGroupQueueSize), nodeGroupQueueSize, nodeGroup, 1)
    {
      nodeGroupQueueSize := nodeGroupQueueSize[nodeGroup := Get(nodeGroupQueueSize, nodeGroup, 0) + 1];
      books := books.(grown := Bump(books.grown, nodeGroup, 1));
      lock := lock.(counted := true);
    }

    method SendOne(nodeGroup: Group)
      requires Enabled(View(), Send) && lock.group == nodeGroup
      modifies this`createNodeQueue, this`lock
      ensures View() == Next(old(View()), Send)
      ensures |createNodeQueue| == old(|createNodeQueue|) + 1 && lock == Held(nodeGroup, old(lock.remaining) - 1, false)
    {
      createNodeQueue := createNodeQueue + [nodeGroup];
      lock := Held(nodeGroup, lock.remaining - 1, false);
    }

    /** The worker's receive. */
    method TakeOne()
      requires Enabled(View(), Take)
      modifies this`createNodeQueue, this`worker
      ensures View() == Next(old(View()), Take)
      ensures |createNodeQueue| == old(|createNodeQueue|) - 1 && worker.Took?
    {
      worker := Took(createNodeQueue[0]);
      createNodeQueue := createNodeQueue[1..];
    }

    /** One turn of the growing loop. The worker takes an entry only if the caller
        needs the slot; if it has taken one already, the caller blocks for ever. */
    method GrowOne(nodeGroup: Group, ghost start: State, ghost steps: seq<Step>)
      returns (blocked: bool, ghost more: seq<Step>)
      requires |createNodeQueue| <= CAPACITY
      requires lock.Held? && lock.group == nodeGroup && lock.remaining > 0 && !lock.counted
      requires Runs(start, steps) && Exec(start, steps) == View()
      modifies this
      ensures |createNodeQueue| <= CAPACITY
      ensures Runs(start, more) && Exec(start, more) == View()
      ensures lock == old(lock).(counted := blocked, remaining := old(lock).remaining - if blocked then 0 else 1)
      ensures Slack(View()) == old(Slack(View())) && (blocked ==> Slack(View()) < 0)
      ensures View().books.listed == old(View()).books.listed &&
        Counts(old(nodeGroupQueueSize), nodeGroupQueueSize, nodeGroup, 1)
    {
      more := Continued(start, steps, CountNext);
      CountOne(nodeGroup);
      if |createNodeQueue| == CAPACITY {
        if worker.Took? {
          return true, more;
        }
        more := Continued(start, more, Take);
        TakeOne();
      }
      more := Continued(start, more, Send);
      SendOne(nodeGroup);
      blocked := false;
    }

    /** The growing branch of SetNodeGroupSize, for any difference. It is a run of
        the state machine, and blocks exactly when the slack is negative. */
    method Grow(nodeGroup: Group, delta: nat) returns (blocked: bool, ghost steps: seq<Step>)
      requires Valid() && lock.Free?
      modifies this
      ensures Valid() && Runs(old(View()), steps) && Exec(old(View()), steps) == View()
      ensures blocked <==> delta > CAPACITY - old(|createNodeQueue|) + Bit(old(worker).Idle?)
      ensures if blocked then lock.Held? && Slack(View()) < 0 else lock.Free?
      ensures !blocked ==>
        forall g :: Target(View(), g) == Target(old(View()), g) + if g == nodeGroup then delta else 0
    {
      blocked := false;
      ghost var start := View();
      steps := Continued(start, [], Lock(nodeGroup, delta));
      lock := Held(nodeGroup, delta, false);
      for i := 0 to delta
        invariant !blocked && lock == Held(nodeGroup, delta - i, false) && |createNodeQueue| <= CAPACITY
        invariant Runs(start, steps) && Exec(start, steps) == View()
        invariant Slack(View()) == CAPACITY - |start.queue| + Bit(start.worker.Idle?) - delta
        invariant View().books.listed == start.books.listed && Counts(start.queueSize, nodeGroupQueueSize, nodeGroup, i)
      {
        blocked, steps := GrowOne(nodeGroup, start, steps);
        if blocked {
          RunKeepsInv(start, steps);
          return;
        }
      }
      steps := Continued(start, steps, Unlock);
      lock := Free;
      RunKeepsInv(start, steps);
    }

    /** SetNodeGroupSize by one caller, with what the lister shows of the group and
        its pods, and the index of a removal that fails, if any. A growing group
        reaches the requested target or the caller blocks; of a shrinking one the
        first pods are removed, as many as are too many, or none if there are too few. */
    method SetNodeGroupSize(nodeGroup: Group, size: int, listed: bool, pods: Option<seq<string>>, failsAt: Option<nat>)
      returns (outcome: Outcome, removed: seq<string>, ghost steps: seq<Step>)
      requires Valid() && lock.Free? && Get(listing, nodeGroup, 0) >= 0
      modifies this
      ensures Valid() && Runs(old(View()), steps) && Exec(old(View()), steps) == View()
      ensures outcome == ListError <==> !listed || (size < Target(old(View()), nodeGroup) && pods.None?)
      ensures outcome == Blocked <==>
        listed && size - Target(old(View()), nodeGroup) > CAPACITY - old(|createNodeQueue|) + Bit(old(worker).Idle?)
      ensures outcome == Reached ==> Target(View(), nodeGroup) == size
      ensures outcome == NotEnoughNodes <==>
        listed && pods.Some? && |pods.value| < Target(old(View()), nodeGroup) - size
      ensures outcome == Removed <==>
        && listed && pods.Some? && 0 < Target(old(View()), nodeGroup) - size <= |pods.value|
        && (failsAt.Some? ==> failsAt.value >= Target(old(View()), nodeGroup) - size)
      ensures outcome == RemoveError <==>
        && listed && pods.Some? && 0 < Target(old(View()), nodeGroup) - size <= |pods.value|
        && failsAt.Some? && failsAt.value < Target(old(View()), nodeGroup) - size
      ensures outcome == Removed ==> removed == pods.value[..Target(old(View()), nodeGroup) - size]
      ensures outcome == RemoveError ==> removed == pods.value[..failsAt.value]
      ensures outcome != Removed && outcome != RemoveError ==> removed == []
      ensures outcome != Blocked && outcome != Reached ==> View() == old(View())
    {
      outcome, removed, steps := ListError, [], [];
      var target := GetNodeGroupTargetSize(nodeGroup, if listed then Some(Get(listing, nodeGroup, 0)) else None);
      if target.None? { return; }
      assert Target(View(), nodeGroup) == target.value by { assert Counted(View(), nodeGroup); }
      if size < target.value {
        var absDelta := target.value - size;
        if pods.None? { return; }
        if |pods.value| < absDelta {
          outcome := NotEnoughNodes;
          return;
        }
        for i := 0 to absDelta
          invariant removed == pods.value[..i] && (failsAt.Some? ==> failsAt.value >= i)
        {
          if failsAt == Some(i) {
            outcome := RemoveError;
            return;
          }
          removed := removed + [pods.value[i]];
        }
        outcome := Removed;
      } else if size > target.value {
        var blocked;
        blocked, steps := Grow(nodeGroup, size - target.value);
        outcome := if blocked then Blocked else Reached;
      } else {
        outcome := Reached;
      }
    }
  }

  /** The counter of one group has grown by `n`. */
  ghost predicate Counts(before: map<Group, int>, after: map<Group, int>, group: Group, n: int) {
    forall g :: Get(after, g, 0) == Get(before, g, 0) + if g == group then n else 0
  }

  /** A run with one more step. */
  ghost function Continued(s: State, steps: seq<Step>, step: Step): (r: seq<Step>)
    requires Runs(s, steps) && Enabled(Exec(s, steps), step)
    ensures Runs(s, r) && Exec(s, r) == Next(Exec(s, steps), step)
  {
    ExecSnoc(s, steps, step);
    steps + [step]
  }
}
