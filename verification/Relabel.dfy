/**
 Adding the deployment key to a running replication controller: first the pod
 template, then the labels of the controller's pods, then its selector, and
 last a clean-up of the pods that were created from the old template meanwhile.

 Label maps are Go maps, that is references: the client's decoded objects hold
 `LabelMap` objects which are changed in place, while the server stores values
 with a resource version and refuses an update made from another version.
 Before each request other clients may create, delete and relabel pods and edit
 the controller, all as a script says, but they leave the deployment key alone.
 */
module Relabel {
  import opened Wrappers

  type Labels = map<string, string>

  type PodId = nat

  /** labels.SelectorFromSet(selector).Matches(labels); an empty selector matches everything. */
  predicate Matches(selector: Labels, labels: Labels) {
    forall k :: k in selector ==> k in labels && labels[k] == selector[k]
  }

  predicate Carries(labels: Labels, key: string, value: string) {
    key in labels && labels[key] == value
  }

  /** Relabelling keeps every pod of the controller exactly when the selector
      does not ask for another value of the key. */
  lemma RelabelKeepsPodsIff(selector: Labels, key: string, value: string)
    ensures (key in selector ==> selector[key] == value) <==>
      forall labels: Labels :: Matches(selector, labels) ==> Matches(selector, labels[key := value])
  {
    if key in selector && selector[key] != value {
      assert Matches(selector, selector) && !Matches(selector, selector[key := value]);
    }
  }

  /** The extended selector keeps, of the controller's pods, exactly those with
      the label. So the pods have to be relabelled first, and the clean-up needs
      an unchanged copy of the old selector to find the others. */
  lemma ExtendedSelectorKeepsIff(selector: Labels, labels: Labels, key: string, value: string)
    requires key !in selector && Matches(selector, labels)
    ensures Matches(selector[key := value], labels) <==> Carries(labels, key, value)
  {
  }

  // ------------------------------------------------------------ the server

  datatype Pod = Pod(labels: Labels, version: nat)

  type Pods = map<PodId, Pod>

  /** What other clients make of labels: anything, but the key stays as it is. */
  function Foreign(have: Labels, want: Labels, key: string): Labels {
    if key in have then want[key := have[key]] else want - {key}
  }

  /** What happens before one request, and whether the request or its answer gets lost. */
  datatype Interference = Interference(
    created: map<PodId, Labels>,
    gone: set<PodId>,
    relabelled: map<PodId, Labels>,
    edited: Option<(Labels, Labels)>,
    fails: bool,
    answerLost: bool)

  /** The server's state when a request comes in. */
  datatype Moment = Moment(template: Labels, selector: Labels, pods: Pods)

  datatype Snapshot = Snapshot(selector: Labels, pods: Pods)

  /** A write of our client, with the state before and after it. */
  datatype Write = Write(before: Snapshot, after: Snapshot)

  /** Labels under versions: a later state may differ, except for the key, and the same version is the same state. */
  predicate Since(have: Labels, from: nat, labels: Labels, version: nat, key: string) {
    && from <= version && (from == version ==> labels == have)
    && (key in labels <==> key in have) && (key in have ==> labels[key] == have[key])
  }

  /** What other clients do to the pods: new ones get new ids. */
  ghost predicate Evolves(before: Pods, used: set<PodId>, after: Pods, key: string) {
    forall p :: p in after && p in used ==>
      p in before && Since(before[p].labels, before[p].version, after[p].labels, after[p].version, key)
  }

  /** Nothing fails and nobody touches the pods; the controller may be edited. */
  predicate Calm(script: seq<Interference>) {
    forall i :: 0 <= i < |script| ==>
      && !script[i].fails && !script[i].answerLost
      && script[i].created == map[] && script[i].gone == {} && script[i].relabelled == map[]
  }

  function Rest(script: seq<Interference>): seq<Interference> {
    if script == [] then [] else script[1..]
  }

  /** What the others' next turn makes of the selector. */
  function Turned(script: seq<Interference>, selector: Labels, key: string): Labels {
    if script != [] && script[0].edited.Some? then Foreign(selector, script[0].edited.value.1, key) else selector
  }

  class Server {
    var template: Labels
    var selector: Labels
    var version: nat
    var pods: Pods
    var used: set<PodId>
    var script: seq<Interference>
    ghost var history: seq<Moment>
    ghost var writes: seq<Write>
    ghost var removed: set<PodId>

    ghost predicate Valid()
      reads this
    {
      pods.Keys <= used
    }

    ghost function Now(): Snapshot
      reads this
    {
      Snapshot(selector, pods)
    }

    constructor (template: Labels, selector: Labels, pods: Pods, script: seq<Interference>)
      ensures Valid() && this.template == template && this.selector == selector && this.pods == pods
      ensures writes == [] && removed == {} && this.script == script
    {
      this.template, this.selector, this.pods, this.script := template, selector, pods, script;
      version, used, history, writes, removed := 0, pods.Keys, [], [], {};
    }

    /** The other clients' turn. */
    method Interfere(key: string) returns (fails: bool, answerLost: bool)
      requires Valid()
      modifies this`template, this`selector, this`version, this`pods, this`used, this`script, this`history
      ensures Valid() && old(used) <= used && Evolves(old(pods), old(used), pods, key)
      ensures Since(old(template), old(version), template, version, key)
      ensures Since(old(selector), old(version), selector, version, key)
      ensures history == old(history) + [Moment(template, selector, pods)]
      ensures script == Rest(old(script)) && selector == Turned(old(script), old(selector), key)
      ensures old(script) == [] ==> version == old(version)
      ensures Calm(old(script)) ==> !fails && !answerLost && pods == old(pods)
    {
      fails, answerLost := false, false;
      if script != [] {
        var i := script[0];
        assert Calm(script) ==> Calm([i]);
        script := script[1..];
        fails, answerLost := i.fails, i.answerLost;
        OthersEvolve(pods, used, i, key);
        pods := Others(pods, used, i, key);
        used := used + i.created.Keys;
        if i.edited.Some? {
          template := Foreign(template, i.edited.value.0, key);
          selector := Foreign(selector, i.edited.value.1, key);
          version := version + 1;
        }
      }
      history := history + [Moment(template, selector, pods)];
    }
  }

  /** The pods after the others' turn. */
  function Others(pods: Pods, used: set<PodId>, i: Interference, key: string): Pods {
    (map p | p in pods && p !in i.gone :: Touched(pods[p], p, i.relabelled, key)) +
    (map p | p in i.created && p !in used :: Pod(i.created[p], 0))
  }

  lemma OthersEvolve(pods: Pods, used: set<PodId>, i: Interference, key: string)
    requires pods.Keys <= used
    ensures Evolves(pods, used, Others(pods, used, i, key), key)
    ensures Others(pods, used, i, key).Keys <= used + i.created.Keys
    ensures Calm([i]) ==> Others(pods, used, i, key) == pods
  {
    if Calm([i]) {
      assert [i][0] == i;
      assert Others(pods, used, i, key) == pods;
    }
  }

  function Touched(pod: Pod, p: PodId, relabelled: map<PodId, Labels>, key: string): (r: Pod)
    ensures Since(pod.labels, pod.version, r.labels, r.version, key)
  {
    if p in relabelled then Pod(Foreign(pod.labels, relabelled[p], key), pod.version + 1) else pod
  }

  // ----------------------------------------------- what the client relies on

  /** The write deletes none of the pods `mine` and orphans none that the controller had. */
  ghost predicate Harmless(w: Write, mine: set<PodId>) {
    forall p :: p in mine && p in w.before.pods ==>
      && p in w.after.pods
      && (Matches(w.before.selector, w.before.pods[p].labels) ==> Matches(w.after.selector, w.after.pods[p].labels))
  }

  ghost predicate AllHarmless(writes: seq<Write>, mine: set<PodId>) {
    forall i :: 0 <= i < |writes| ==> Harmless(writes[i], mine)
  }

  /** The write is harmless to all pods there are. */
  ghost predicate HarmlessToAll(writes: seq<Write>) {
    forall i :: 0 <= i < |writes| ==> Harmless(writes[i], writes[i].before.pods.Keys)
  }

  lemma HarmlessToAny(writes: seq<Write>, mine: set<PodId>)
    requires HarmlessToAll(writes)
    ensures AllHarmless(writes, mine)
  {
    forall i | 0 <= i < |writes| ensures Harmless(writes[i], mine) {
      assert Harmless(writes[i], writes[i].before.pods.Keys);
    }
  }

  ghost predicate Labelled(pods: Pods, done: set<PodId>, key: string, value: string) {
    forall p :: p in done && p in pods ==> Carries(pods[p].labels, key, value)
  }

  /** `mine` are pods known to the client, those of `done` are relabelled, and no
      write so far has done harm to `mine`. */
  ghost predicate Holding(server: Server, mine: set<PodId>, done: set<PodId>, key: string, value: string)
    reads server
  {
    && server.Valid() && mine <= server.used && done <= mine && server.removed !! mine
    && Labelled(server.pods, done, key, value)
    && AllHarmless(server.writes, mine)
    && (key in server.selector ==> server.selector[key] == value)
  }

  /** Only other clients have edited the controller. */
  twostate predicate Drifts(server: Server, key: string)
    reads server
  {
    && Since(old(server.template), old(server.version), server.template, server.version, key)
    && Since(old(server.selector), old(server.version), server.selector, server.version, key)
  }

  /** The other clients cannot break what the client relies on. */
  method Wait(server: Server, ghost mine: set<PodId>, ghost done: set<PodId>, key: string, ghost value: string)
    returns (fails: bool, answerLost: bool)
    requires Holding(server, mine, done, key, value)
    modifies server`template, server`selector, server`version, server`pods, server`used, server`script, server`history
    ensures Holding(server, mine, done, key, value)
    ensures old(server.used) <= server.used && Evolves(old(server.pods), old(server.used), server.pods, key)
    ensures Drifts(server, key)
    ensures server.history == old(server.history) + [Moment(server.template, server.selector, server.pods)]
    ensures server.script == Rest(old(server.script)) &&
      server.selector == Turned(old(server.script), old(server.selector), key)
    ensures old(server.script) == [] ==> server.version == old(server.version)
    ensures Calm(old(server.script)) ==> !fails && !answerLost && server.pods == old(server.pods)
  {
    fails, answerLost := server.Interfere(key);
  }

  // ------------------------------------------------- updating the controller

  /** A Go map of labels. */
  class LabelMap {
    var m: Labels

    constructor (m: Labels)
      ensures this.m == m
    {
      this.m := m;
    }
  }

  /** The client's decoded copy of the controller; a nil map of template labels is an empty one. */
  class Controller {
    var template: Labels
    var selector: LabelMap
    var version: nat

    constructor (template: Labels, selector: Labels, version: nat)
      ensures this.template == template && fresh(this.selector) && this.selector.m == selector &&
        this.version == version
    {
      this.template, this.version := template, version;
      this.selector := new LabelMap(selector);
    }
  }

  datatype Edit = TemplateLabel | SelectorLabel

  function Template(edit: Edit, m: Labels, key: string, value: string): Labels {
    if edit.TemplateLabel? then m[key := value] else m
  }

  function Selector(edit: Edit, m: Labels, key: string, value: string): Labels {
    if edit.SelectorLabel? then m[key := value] else m
  }

  /** The closure that changes the client's object in place. */
  method Apply(rc: Controller, edit: Edit, key: string, value: string)
    modifies rc`template, rc.selector
    ensures rc.template == Template(edit, old(rc.template), key, value)
    ensures rc.selector.m == Selector(edit, old(rc.selector.m), key, value)
  {
    match edit
    case TemplateLabel => rc.template := rc.template[key := value];
    case SelectorLabel => rc.selector.m := rc.selector.m[key := value];
  }

  /** If the object has the server's version, it is the server's state, edited or not. */
  ghost predicate Current(rc: Controller, server: Server, edit: Edit, key: string, value: string)
    reads rc, rc.selector, server
  {
    && rc.version <= server.version
    && (rc.version == server.version ==>
          && Template(edit, rc.template, key, value) == Template(edit, server.template, key, value)
          && Selector(edit, rc.selector.m, key, value) == Selector(edit, server.selector, key, value))
  }

  /** The server has the edit, and `rc` is what it answered. */
  ghost predicate Stored(rc: Controller, server: Server, edit: Edit, key: string, value: string)
    reads rc, rc.selector, server
  {
    && rc.version == server.version && rc.template == server.template && rc.selector.m == server.selector
    && server.template == Template(edit, server.template, key, value)
    && server.selector == Selector(edit, server.selector, key, value)
    && server.writes != [] && server.writes[|server.writes| - 1].after == server.Now()
  }

  datatype Answer = Ok | Conflict | Error

  /** Keys that are there stay there. */
  twostate predicate KeepsKeys(server: Server, key: string, value: string)
    reads server
  {
    && (Carries(old(server.template), key, value) ==> Carries(server.template, key, value))
    && (Carries(old(server.selector), key, value) ==> Carries(server.selector, key, value))
  }

  /** The store of an edited object is harmless: the template touches no pod, and
      all of `mine` are relabelled before the selector is extended. */
  lemma StoreIsHarmless(selector: Labels, pods: Pods, edit: Edit, mine: set<PodId>, key: string, value: string)
    requires edit.SelectorLabel? ==> Labelled(pods, mine, key, value)
    requires key in selector ==> selector[key] == value
    ensures Harmless(Write(Snapshot(selector, pods), Snapshot(Selector(edit, selector, key, value), pods)), mine)
  {
  }

  /** What the client needs of the others, exactly: extending the selector does
      harm unless every pod of `mine` that the controller has carries the label
      at that moment. */
  lemma ExtensionIsHarmlessIff(selector: Labels, pods: Pods, mine: set<PodId>, key: string, value: string)
    requires key !in selector
    ensures Harmless(Write(Snapshot(selector, pods), Snapshot(selector[key := value], pods)), mine) <==>
      forall p :: p in mine && p in pods && Matches(selector, pods[p].labels) ==> Carries(pods[p].labels, key, value)
  {
    forall p | p in mine && p in pods && Matches(selector, pods[p].labels)
      ensures Matches(selector[key := value], pods[p].labels) <==> Carries(pods[p].labels, key, value)
    {
      ExtendedSelectorKeepsIff(selector, pods[p].labels, key, value);
    }
  }

  /** The server accepts an edited object of its own version. */
  method StoreController(server: Server, rc: Controller, edit: Edit, key: string, value: string,
                         ghost mine: set<PodId>, ghost done: set<PodId>)
    requires Holding(server, mine, done, key, value) && (edit.SelectorLabel? ==> done == mine)
    requires rc.template == Template(edit, server.template, key, value)
    requires rc.selector.m == Selector(edit, server.selector, key, value)
    modifies server`template, server`selector, server`version, server`writes
    ensures Holding(server, mine, done, key, value) && server.version == old(server.version) + 1
    ensures server.template == rc.template && server.selector == rc.selector.m
    ensures old(server.writes) < server.writes && server.writes[|server.writes| - 1].after == server.Now()
    ensures edit.TemplateLabel? && HarmlessToAll(old(server.writes)) ==> HarmlessToAll(server.writes)
  {
    StoreIsHarmless(server.selector, server.pods, edit, mine, key, value);
    if edit.TemplateLabel? {
      StoreIsHarmless(server.selector, server.pods, edit, server.pods.Keys, key, value);
    }
    ghost var before := server.Now();
    server.template, server.selector, server.version := rc.template, rc.selector.m, server.version + 1;
    server.writes := server.writes + [Write(before, server.Now())];
  }

  /** An update request for the controller. */
  method PutController(server: Server, rc: Controller, edit: Edit, key: string, value: string,
                       ghost mine: set<PodId>, ghost done: set<PodId>)
    returns (answer: Answer, stored: Controller)
    requires Holding(server, mine, done, key, value) && (edit.SelectorLabel? ==> done == mine)
    requires Current(rc, server, edit, key, value)
    requires rc.template == Template(edit, rc.template, key, value)
    requires rc.selector.m == Selector(edit, rc.selector.m, key, value)
    modifies server
    ensures Holding(server, mine, done, key, value) && KeepsKeys(server, key, value)
    ensures server.removed == old(server.removed) && old(server.used) <= server.used
    ensures old(server.writes) <= server.writes && old(server.history) <= server.history
    ensures edit.TemplateLabel? && HarmlessToAll(old(server.writes)) ==> HarmlessToAll(server.writes)
    ensures edit.TemplateLabel? && key !in old(server.selector) ==> key !in server.selector
    ensures answer == Ok ==> fresh(stored) && fresh(stored.selector) && Stored(stored, server, edit, key, value)
    ensures answer == Conflict ==> Drifts(server, key)
    ensures old(server.script) == [] && rc.version == old(server.version) ==> answer == Ok && server.script == []
  {
    stored := rc;
    var fails, answerLost := Wait(server, mine, done, key, value);
    if fails { return Error, stored; }
    if rc.version != server.version { return Conflict, stored; }
    StoreController(server, rc, edit, key, value, mine, done);
    if answerLost { return Error, stored; }
    stored := new Controller(server.template, server.selector, server.version);
    answer := Ok;
  }

  method GetController(server: Server, edit: Edit, key: string, value: string, ghost mine: set<PodId>,
                       ghost done: set<PodId>)
    returns (rc: Controller?)
    requires Holding(server, mine, done, key, value)
    modifies server`template, server`selector, server`version, server`pods, server`used, server`script, server`history
    ensures Holding(server, mine, done, key, value) && Drifts(server, key)
    ensures old(server.used) <= server.used && old(server.history) <= server.history
    ensures rc != null ==> fresh(rc) && fresh(rc.selector) && Current(rc, server, edit, key, value)
  {
    var fails, answerLost := Wait(server, mine, done, key, value);
    if fails || answerLost { return null; }
    rc := new Controller(server.template, server.selector, server.version);
  }

  /** The steps of retry.DefaultBackoff. */
  const RETRIES := 4

  /** One attempt; after a conflict the object of the next one is read, or is the copy. */
  method TryUpdate(server: Server, rc: Controller, copy: Controller, edit: Edit, key: string, value: string,
                   ghost mine: set<PodId>, ghost done: set<PodId>)
    returns (answer: Answer, next: Controller)
    requires Holding(server, mine, done, key, value) && (edit.SelectorLabel? ==> done == mine)
    requires rc == copy || rc.selector != copy.selector
    requires Current(rc, server, edit, key, value) && Current(copy, server, edit, key, value)
    modifies server, rc, rc.selector
    ensures Holding(server, mine, done, key, value) && KeepsKeys(server, key, value)
    ensures server.removed == old(server.removed) && old(server.used) <= server.used
    ensures old(server.writes) <= server.writes && old(server.history) <= server.history
    ensures edit.TemplateLabel? && HarmlessToAll(old(server.writes)) ==> HarmlessToAll(server.writes)
    ensures edit.TemplateLabel? && key !in old(server.selector) ==> key !in server.selector
    ensures rc.selector == old(rc.selector)
    ensures answer != Error ==> next == copy || (fresh(next) && fresh(next.selector))
    ensures answer == Ok ==> next != copy && Stored(next, server, edit, key, value)
    ensures answer == Conflict ==> Current(next, server, edit, key, value) && Current(copy, server, edit, key, value)
    ensures old(server.script) == [] && old(rc.version) == old(server.version) ==> answer == Ok && server.script == []
  {
    Apply(rc, edit, key, value);
    answer, next := PutController(server, rc, edit, key, value, mine, done);
    if answer == Conflict {
      var latest := GetController(server, edit, key, value, mine, done);
      next := if latest == null then copy else latest;
    }
  }

  /** updateRcWithRetries: change the object in place and store it; after a
      conflict read the controller again, or fall back on a copy made in advance,
      and repeat, at most four times in all. */
  method UpdateController(server: Server, start: Controller, edit: Edit, key: string, value: string,
                          ghost mine: set<PodId>, ghost done: set<PodId>)
    returns (ok: bool, rc: Controller)
    requires Holding(server, mine, done, key, value) && (edit.SelectorLabel? ==> done == mine)
    requires Current(start, server, edit, key, value)
    modifies server, start, start.selector
    ensures Holding(server, mine, done, key, value) && KeepsKeys(server, key, value)
    ensures server.removed == old(server.removed) && old(server.used) <= server.used
    ensures old(server.writes) <= server.writes && old(server.history) <= server.history
    ensures edit.TemplateLabel? && HarmlessToAll(old(server.writes)) ==> HarmlessToAll(server.writes)
    ensures edit.TemplateLabel? && key !in old(server.selector) ==> key !in server.selector
    ensures ok ==> fresh(rc) && fresh(rc.selector) && Stored(rc, server, edit, key, value)
    ensures old(server.script) == [] && old(start.version) == old(server.version) ==> ok && server.script == []
  {
    rc := start;
    var copy := new Controller(start.template, start.selector.m, start.version);
    for attempt := 0 to RETRIES
      invariant Holding(server, mine, done, key, value) && KeepsKeys(server, key, value)
      invariant server.removed == old(server.removed) && old(server.used) <= server.used
      invariant old(server.writes) <= server.writes && old(server.history) <= server.history
      invariant edit.TemplateLabel? && HarmlessToAll(old(server.writes)) ==> HarmlessToAll(server.writes)
      invariant edit.TemplateLabel? && key !in old(server.selector) ==> key !in server.selector
      invariant fresh(copy) && fresh(copy.selector) && (rc == copy || rc.selector != copy.selector)
      invariant (rc == start && rc.selector == old(start.selector)) || (fresh(rc) && fresh(rc.selector))
      invariant Current(rc, server, edit, key, value) && Current(copy, server, edit, key, value)
      invariant old(server.script) == [] && old(start.version) == old(server.version) ==>
        attempt == 0 && server.script == [] && rc.version == server.version
    {
      var answer;
      answer, rc := TryUpdate(server, rc, copy, edit, key, value, mine, done);
      if answer == Ok { return true, rc; }
      if answer == Error { return false, rc; }
    }
    ok := false;
  }

  // ------------------------------------------------------- relabelling pods

  ghost predicate SincePod(pod: Pod, server: Server, p: PodId, key: string)
    reads server
  {
    p in server.pods ==> Since(pod.labels, pod.version, server.pods[p].labels, server.pods[p].version, key)
  }

  /** If a decoded pod has the server's version, it is the server's pod, relabelled or not. */
  ghost predicate CurrentPod(pod: Pod, server: Server, p: PodId, key: string, value: string)
    reads server
  {
    p in server.pods ==>
      && pod.version <= server.pods[p].version
      && (pod.version == server.pods[p].version ==>
            pod.labels[key := value] == server.pods[p].labels[key := value])
  }

  /** What happened to the other pods. */
  ghost predicate EvolvesBut(before: Pods, used: set<PodId>, after: Pods, key: string, but: PodId) {
    forall p :: p in after && p in used && p != but ==>
      p in before && Since(before[p].labels, before[p].version, after[p].labels, after[p].version, key)
  }

  lemma RelabelIsHarmless(selector: Labels, pods: Pods, p: PodId, pod: Pod, mine: set<PodId>, key: string,
                          value: string)
    requires p in pods && pod.labels == pods[p].labels[key := value]
    requires key in selector ==> selector[key] == value
    ensures Harmless(Write(Snapshot(selector, pods), Snapshot(selector, pods[p := pod])), mine)
  {
  }

  /** Nobody else has done anything, and the client has changed pod `p` only. */
  twostate predicate Steady(server: Server, p: PodId)
    reads server
  {
    && server.script == [] && server.version == old(server.version)
    && server.pods.Keys == old(server.pods).Keys
    && forall q :: q in server.pods && q != p ==> server.pods[q] == old(server.pods)[q]
  }

  /** The server accepts a relabelled pod. */
  method StorePod(server: Server, p: PodId, pod: Pod, key: string, value: string,
                  ghost mine: set<PodId>, ghost done: set<PodId>)
    requires Holding(server, mine, done, key, value) && p in mine
    requires p in server.pods && pod.labels == server.pods[p].labels[key := value]
    modifies server`pods, server`writes
    ensures Holding(server, mine, done + {p}, key, value)
    ensures server.pods == old(server.pods)[p := pod] && old(server.writes) <= server.writes
  {
    RelabelIsHarmless(server.selector, server.pods, p, pod, mine, key, value);
    ghost var before := server.Now();
    server.pods := server.pods[p := pod];
    server.writes := server.writes + [Write(before, server.Now())];
  }

  /** An update request for a pod. */
  method PutPod(server: Server, p: PodId, pod: Pod, key: string, value: string,
                ghost mine: set<PodId>, ghost done: set<PodId>)
    returns (answer: Answer)
    requires Holding(server, mine, done, key, value) && p in mine
    requires CurrentPod(pod, server, p, key, value) && pod.labels == pod.labels[key := value]
    modifies server
    ensures Holding(server, mine, if answer == Ok then done + {p} else done, key, value)
    ensures Drifts(server, key)
    ensures server.removed == old(server.removed) && old(server.used) <= server.used
    ensures old(server.writes) <= server.writes && old(server.history) <= server.history
    ensures EvolvesBut(old(server.pods), old(server.used), server.pods, key, p)
    ensures answer == Conflict ==> Evolves(old(server.pods), old(server.used), server.pods, key)
    ensures old(server.script) == [] && p in old(server.pods) && pod.version == old(server.pods)[p].version ==>
      answer == Ok && Steady(server, p)
  {
    var fails, answerLost := Wait(server, mine, done, key, value);
    if fails || p !in server.pods { return Error; }
    if pod.version != server.pods[p].version { return Conflict; }
    StorePod(server, p, Pod(pod.labels, pod.version + 1), key, value, mine, done);
    answer := if answerLost then Error else Ok;
  }

  /** updatePodWithRetries with the new label, from the pod as it was listed. */
  method RelabelPod(server: Server, p: PodId, listed: Pod, key: string, value: string,
                    ghost mine: set<PodId>, ghost done: set<PodId>)
    returns (ok: bool)
    requires Holding(server, mine, done, key, value) && p in mine && SincePod(listed, server, p, key)
    modifies server
    ensures Holding(server, mine, if ok then done + {p} else done, key, value)
    ensures Drifts(server, key)
    ensures server.removed == old(server.removed) && old(server.used) <= server.used
    ensures old(server.writes) <= server.writes && old(server.history) <= server.history
    ensures EvolvesBut(old(server.pods), old(server.used), server.pods, key, p)
    ensures old(server.script) == [] && p in old(server.pods) && listed.version == old(server.pods)[p].version ==>
      ok && Steady(server, p)
  {
    var pod := listed;
    ghost var easy := server.script == [] && p in server.pods && listed.version == server.pods[p].version;
    for attempt := 0 to RETRIES
      invariant Holding(server, mine, done, key, value) && Drifts(server, key)
      invariant server.removed == old(server.removed) && old(server.used) <= server.used
      invariant old(server.writes) <= server.writes && old(server.history) <= server.history
      invariant EvolvesBut(old(server.pods), old(server.used), server.pods, key, p)
      invariant CurrentPod(pod, server, p, key, value) && CurrentPod(listed, server, p, key, value)
      invariant easy ==> attempt == 0 && server.script == [] && server.version == old(server.version)
      invariant easy ==> server.pods == old(server.pods) && pod == listed
    {
      pod := pod.(labels := pod.labels[key := value]);
      var answer := PutPod(server, p, pod, key, value, mine, done);
      if answer != Conflict { return answer == Ok; }
      var fails, answerLost := Wait(server, mine, done, key, value);
      pod := if fails || answerLost || p !in server.pods then listed else server.pods[p];
    }
    ok := false;
  }

  /** Give all listed pods the new label, one after the other. */
  method RelabelAll(server: Server, listing: Pods, mine: set<PodId>, key: string, value: string) returns (ok: bool)
    requires Holding(server, mine, {}, key, value) && mine <= listing.Keys
    requires forall p :: p in mine ==> SincePod(listing[p], server, p, key)
    modifies server
    ensures Holding(server, mine, if ok then mine else {}, key, value) && Drifts(server, key)
    ensures server.removed == old(server.removed) && old(server.writes) <= server.writes &&
      old(server.history) <= server.history
    ensures old(server.script) == [] && listing == old(server.pods) ==>
      ok && server.script == [] && server.version == old(server.version)
  {
    var todo := mine;
    while todo != {}
      invariant todo <= mine && Holding(server, mine, mine - todo, key, value) && Drifts(server, key)
      invariant forall p :: p in todo ==> SincePod(listing[p], server, p, key)
      invariant server.removed == old(server.removed) && old(server.writes) <= server.writes &&
        old(server.history) <= server.history
      invariant old(server.script) == [] && listing == old(server.pods) ==>
        && server.script == [] && server.version == old(server.version)
        && forall p :: p in todo ==> p in server.pods && server.pods[p] == listing[p]
      decreases todo
    {
      var p :| p in todo;
      ok := RelabelPod(server, p, listing[p], key, value, mine, mine - todo);
      if !ok { return; }
      assert mine - todo + {p} == mine - (todo - {p});
      todo := todo - {p};
    }
    assert mine - todo == mine;
    ok := true;
  }

  // ------------------------------------------------------------ the clean-up

  ghost predicate ListedBy(selector: Labels, pods: Pods, listed: set<PodId>) {
    forall p :: p in listed <==> p in pods && Matches(selector, pods[p].labels)
  }

  method DeletePod(server: Server, p: PodId, key: string, value: string, ghost mine: set<PodId>)
    returns (ok: bool)
    requires Holding(server, mine, mine, key, value) && p !in mine
    modifies server
    ensures Holding(server, mine, mine, key, value) && KeepsKeys(server, key, value)
    ensures old(server.used) <= server.used && Evolves(old(server.pods), old(server.used), server.pods, key)
    ensures ok ==> p !in server.pods
    ensures server.removed <= old(server.removed) + {p} && old(server.writes) <= server.writes &&
      old(server.history) <= server.history
    ensures server.script == Rest(old(server.script)) &&
      server.selector == Turned(old(server.script), old(server.selector), key)
    ensures Calm(old(server.script)) && p in old(server.pods) ==>
      ok && server.pods == old(server.pods) - {p} && server.removed == old(server.removed) + {p}
  {
    var fails, answerLost := Wait(server, mine, mine, key, value);
    if fails || p !in server.pods { return false; }
    ghost var before := server.Now();
    server.pods := server.pods - {p};
    server.removed := server.removed + {p};
    server.writes := server.writes + [Write(before, server.Now())];
    ok := !answerLost;
  }

  /** Delete the listed pods that do not carry the label in the listing. */
  method DeleteUnlabelled(server: Server, seen: Pods, listed: set<PodId>, key: string, value: string,
                          ghost mine: set<PodId>)
    returns (ok: bool)
    requires Holding(server, mine, mine, key, value)
    requires listed <= seen.Keys && seen.Keys <= server.used && server.pods == seen
    modifies server
    ensures Holding(server, mine, mine, key, value) && KeepsKeys(server, key, value)
    ensures old(server.writes) <= server.writes && old(server.history) <= server.history
    ensures forall p :: p in server.removed && p !in old(server.removed) ==>
      p in listed && !Carries(seen[p].labels, key, value)
    ensures ok ==> Labelled(server.pods, listed, key, value)
    ensures Calm(old(server.script)) ==>
      ok && server.removed == old(server.removed) + set p | p in listed && !Carries(seen[p].labels, key, value)
    ensures old(server.script) == [] ==> server.selector == old(server.selector)
  {
    var todo := listed;
    while todo != {}
      invariant todo <= listed && Holding(server, mine, mine, key, value) && KeepsKeys(server, key, value)
      invariant old(server.writes) <= server.writes && old(server.history) <= server.history
      invariant seen.Keys <= server.used && Evolves(seen, seen.Keys, server.pods, key)
      invariant forall p :: p in server.removed && p !in old(server.removed) ==>
        p in listed && !Carries(seen[p].labels, key, value)
      invariant Labelled(server.pods, listed - todo, key, value)
      invariant Calm(old(server.script)) ==>
        && Calm(server.script) && todo <= server.pods.Keys
        && server.removed == old(server.removed) + set p | p in listed - todo && !Carries(seen[p].labels, key, value)
      invariant old(server.script) == [] ==> server.script == [] && server.selector == old(server.selector)
      decreases todo
    {
      var p :| p in todo;
      if !Carries(seen[p].labels, key, value) {
        ok := DeletePod(server, p, key, value, mine);
        if !ok { return; }
      }
      todo := todo - {p};
    }
    assert listed - todo == listed;
    ok := true;
  }

  /** The first listing, by the selector of the client's object. */
  method ListPods(server: Server, rc: Controller, key: string, value: string)
    returns (ok: bool, listing: Pods, mine: set<PodId>)
    requires Holding(server, {}, {}, key, value) && server.removed == {}
    requires HarmlessToAll(server.writes)
    modifies server`template, server`selector, server`version, server`pods, server`used, server`script, server`history
    ensures Drifts(server, key) && listing == server.pods && old(server.history) <= server.history
    ensures server.history != [] &&
      server.history[|server.history| - 1] == Moment(server.template, server.selector, listing)
    ensures ok ==> ListedBy(rc.selector.m, listing, mine)
    ensures Holding(server, mine, {}, key, value) && mine <= listing.Keys
    ensures unchanged(rc.selector)
    ensures old(server.script) == [] ==> ok && server.script == [] && server.version == old(server.version)
  {
    var fails, answerLost := Wait(server, {}, {}, key, value);
    listing, mine := server.pods, {};
    if fails || answerLost { return false, listing, mine; }
    mine := set p | p in listing && Matches(rc.selector.m, listing[p].labels);
    HarmlessToAny(server.writes, mine);
    ok := true;
  }

  /** The client removed only unlabelled pods that it saw matching `selector`,
      and if it got through, none of those it saw is left without the label. */
  ghost predicate CleanedUp(server: Server, selector: Labels, key: string, value: string, ok: bool, seen: Pods)
    reads server
  {
    && (forall p :: p in server.removed ==>
          p in seen && Matches(selector, seen[p].labels) && !Carries(seen[p].labels, key, value))
    && (ok ==> forall p :: p in seen && p in server.pods && Matches(selector, seen[p].labels) ==>
          Carries(server.pods[p].labels, key, value))
  }

  /** At some moment, with the key in the template and not in the selector, the
      server had the pods `listed`, of which `first` match the copied selector. */
  ghost predicate FirstListing(server: Server, copied: Labels, listed: Pods, first: set<PodId>, key: string,
                               value: string)
    reads server
  {
    && key !in copied && ListedBy(copied, listed, first)
    && exists i :: 0 <= i < |server.history| && server.history[i].pods == listed &&
         Carries(server.history[i].template, key, value) && key !in server.history[i].selector
  }

  /** At some moment, with the key in the selector, the server had the pods `seen`. */
  ghost predicate SecondListing(server: Server, seen: Pods, key: string, value: string)
    reads server
  {
    exists j :: 0 <= j < |server.history| && server.history[j].pods == seen &&
      Carries(server.history[j].selector, key, value)
  }

  predicate Unlabelled(selector: Labels, labels: Labels, key: string, value: string) {
    Matches(selector, labels) && !Carries(labels, key, value)
  }

  /** The server had this selector after a write of the client. */
  ghost predicate WasSelector(server: Server, copied: Labels)
    reads server
  {
    exists i :: 0 <= i < |server.writes| && server.writes[i].after.selector == copied
  }

  /** The second listing, by a label map of the client, and the deletion of what it finds unlabelled. */
  method CleanUp(server: Server, selector: LabelMap, key: string, value: string, ghost mine: set<PodId>)
    returns (ok: bool, ghost seen: Pods)
    requires Holding(server, mine, mine, key, value) && server.removed == {}
    requires Carries(server.selector, key, value)
    modifies server
    ensures Holding(server, mine, mine, key, value) && KeepsKeys(server, key, value)
    ensures old(server.writes) <= server.writes && old(server.history) <= server.history
    ensures CleanedUp(server, selector.m, key, value, ok, seen)
    ensures SecondListing(server, seen, key, value) || (!ok && seen == map[])
    ensures Calm(old(server.script)) ==>
      && ok && seen == old(server.pods)
      && server.removed == set p | p in seen && Unlabelled(selector.m, seen[p].labels, key, value)
    ensures |old(server.script)| <= 1 ==> server.selector == Turned(old(server.script), old(server.selector), key)
  {
    seen := map[];
    var fails, answerLost := Wait(server, mine, mine, key, value);
    if fails || answerLost { return false, seen; }
    var second := server.pods;
    var orphans := set p | p in second && Matches(selector.m, second[p].labels);
    seen := second;
    ghost var j := |server.history| - 1;
    ok := DeleteUnlabelled(server, second, orphans, key, value, mine);
    assert server.history[j].pods == seen;
  }

  // ------------------------------------------------------------ the whole

  /** AddDeploymentKeyToReplicationController, for a selector without the key
      (UpdateExistingReplicationController checks that). `first` are the pods of
      the first listing, `listed` the pods there were then, `copied` the selector
      that the client copied, and `seen` the pods at the second listing.

      The listings are of moments of the server: the first with the key in the
      template and not yet in the selector, the second with the key in the
      selector. In every run, also one that stops halfway, no write of the client
      deletes a pod of the first listing or takes one away from the controller,
      and it deletes only unlabelled pods that match the copied selector; before
      the first listing it harms no pod at all. If it gets through, template and
      selector have the key, the pods of the first listing carry the label, and no
      pod that it saw matching the copied selector is left without it. With nobody
      else about and an up-to-date object it does get through. */
  method AddDeploymentKey(server: Server, oldRc: Controller, key: string, value: string)
    returns (ok: bool, ghost first: set<PodId>, ghost listed: Pods, ghost copied: Labels, ghost seen: Pods)
    requires server.Valid() && server.writes == [] && server.removed == {}
    requires key !in server.selector && Current(oldRc, server, TemplateLabel, key, value)
    modifies server, oldRc, oldRc.selector
    ensures (FirstListing(server, copied, listed, first, key, value) && WasSelector(server, copied)) ||
      (!ok && HarmlessToAll(server.writes))
    ensures SecondListing(server, seen, key, value) || (!ok && seen == map[])
    ensures AllHarmless(server.writes, first) && server.removed !! first
    ensures CleanedUp(server, copied, key, value, ok, seen)
    ensures ok ==> Carries(server.template, key, value) && Carries(server.selector, key, value)
    ensures ok ==> Labelled(server.pods, first, key, value)
    ensures old(server.script) == [] && old(oldRc.version) == old(server.version) ==> ok
  {
    first, listed, copied, seen := {}, map[], map[], map[];
    var rc;
    ok, rc := UpdateController(server, oldRc, TemplateLabel, key, value, {}, {});
    if !ok { return; }
    ghost var n := |server.writes| - 1;
    copied := server.selector;
    var listing, mine;
    ok, listing, mine := ListPods(server, rc, key, value);
    first, listed := mine, listing;
    if !ok { return; }
    ghost var i := |server.history| - 1;
    assert server.history[i].pods == listed;
    ok := RelabelAll(server, listing, mine, key, value);
    assert server.history[i].pods == listed && server.writes[n].after.selector == copied;
    if !ok { return; }
    // a copy: the object's own map is about to be changed in place
    var selectorCopy := new LabelMap(rc.selector.m);
    ok, rc := UpdateController(server, rc, SelectorLabel, key, value, mine, mine);
    assert server.history[i].pods == listed && server.writes[n].after.selector == copied;
    if !ok { return; }
    ok, seen := CleanUp(server, selectorCopy, key, value, mine);
    assert server.history[i].pods == listed && server.writes[n].after.selector == copied;
  }

  // ------------------------------------------- a selector changed meanwhile

  /** The clean-up lists by the selector copied after the first update. It deletes
      only pods that the controller had before its selector was extended, whatever
      pods there are, if and only if what that selector asked for, the copied one
      asks for too. */
  lemma CleanUpIsOwnIff(copied: Labels, current: Labels, key: string, value: string)
    requires key !in copied && key !in current
    ensures (forall labels: Labels :: Unlabelled(copied, labels, key, value) ==> Matches(current, labels)) <==>
      forall k :: k in current ==> k in copied && copied[k] == current[k]
  {
    if forall labels: Labels :: Unlabelled(copied, labels, key, value) ==> Matches(current, labels) {
      assert Unlabelled(copied, copied, key, value);
    }
  }

  /** A run in which it takes a foreign pod: the selector is replaced by others
      before the second listing, and pod 0, which the controller does not select
      any more, is deleted. */
  method CleanUpTakesForeignPods(key: string, value: string) returns (server: Server, ghost seen: Pods)
    requires key != "a" && key != "b"
    ensures fresh(server) && SecondListing(server, seen, key, value)
    ensures server.removed == {0} && server.selector == map["b" := "2", key := value]
    ensures 0 in seen && !Matches(server.selector, seen[0].labels)
  {
    var copied := map["a" := "1"];
    var replace := Interference(map[], {}, map[], Some((map[], map["b" := "2"])), false, false);
    server := new Server(map[], copied[key := value], map[0 := Pod(copied, 0)], [replace]);
    var selectorCopy := new LabelMap(copied);
    var ok;
    assert Calm([replace]);
    ok, seen := CleanUp(server, selectorCopy, key, value, {});
    assert Unlabelled(copied, seen[0].labels, key, value);
    assert "b" in server.selector && "b" !in seen[0].labels;
  }
}
