/**
 Reconciling ElastiServices: which informer watches the scale target of each, through spec edits,
 failing starts and finalizations. The start of an informer is guarded by a `sync.Once` that is
 dropped to allow a new start. Reconciles of one ElastiService are serialised by a lock.
 */
module Lifecycle {
  import opened Informers
  import opened Strings

  /** Names a custom resource or a service. */
  datatype NamespacedName = NamespacedName(namespace: string, name: string)

  datatype TargetRef = TargetRef(apiVersion: string, kind: string, name: string)

  /** The answers of the cluster during one reconcile. */
  datatype Answers = Answers(finalizerAdded: bool, versionParses: bool, found: bool, handled: bool, synced: bool)

  function KindToResource(kind: string): string {
    var k := ToLower(kind);
    if k != "" && k[|k| - 1] == 's' then k else k + "s"
  }

  /** Kubernetes object names: lower case, no slash. */
  predicate IsName(s: string) { '/' !in s && ToLower(s) == s }

  predicate IsNamespacedName(r: NamespacedName) { IsName(r.namespace) && IsName(r.name) }

  predicate Complete(t: TargetRef) { t.name != "" && t.kind != "" && t.apiVersion != "" }

  /** What the CRD schema admits as a target. */
  predicate Admitted(t: TargetRef) {
    IsName(t.name) && t.kind in {"deployments", "rollouts", "Deployment", "StatefulSet", "Rollout"}
  }

  function WatchOf(r: NamespacedName, t: TargetRef): Watch {
    Watch(r.name, r.namespace, KindToResource(t.kind), t.name, t.apiVersion)
  }

  /** The watch is on a scale target of `r`, not on its public service. */
  predicate TargetOf(w: Watch, r: NamespacedName) {
    w.crd == r.name && w.namespace == r.namespace && w.resource != "services"
  }

  /** The scale-target informers that run for `r`. */
  ghost function Mine(m: map<string, Info>, r: NamespacedName): map<string, Info> {
    map k | k in m && TargetOf(m[k].watch, r) :: m[k]
  }

  lemma ResourceIs(kind: string)
    requires kind in {"deployments", "rollouts", "Deployment", "StatefulSet", "Rollout"}
    ensures KindToResource(kind) in {"deployments", "rollouts", "statefulsets"}
  {
    assert ToLower("deployments") == "deployments" && ToLower("rollouts") == "rollouts";
    assert ToLower("Deployment") == "deployment" && ToLower("Rollout") == "rollout";
    assert ToLower("StatefulSet") == "statefulset";
    assert "deployment" + "s" == "deployments" && "rollout" + "s" == "rollouts" && "statefulset" + "s" == "statefulsets";
  }

  lemma ResourceName(kind: string)
    requires kind in {"deployments", "rollouts", "Deployment", "StatefulSet", "Rollout"}
    ensures IsName(KindToResource(kind)) && KindToResource(kind) != "services"
  {
    ResourceIs(kind);
    var s := KindToResource(kind);
    assert "services"[0] == 's' && "services"[1] == 'e';
    if s == "deployments" {
      assert ToLower(s) == s && s[0] == 'd';
    } else if s == "rollouts" {
      assert ToLower(s) == s && s[0] == 'r';
    } else {
      assert ToLower(s) == s && s[1] == 't';
    }
  }

  lemma WatchOk(r: NamespacedName, t: TargetRef)
    requires IsNamespacedName(r) && Admitted(t)
    ensures SlashFree(WatchOf(r, t)) && TargetOf(WatchOf(r, t), r)
  {
    ResourceName(t.kind);
  }

  /** An informer under the key of a target of `r` is one of `r`, if all names are in lower case. */
  lemma KeyIsMine(r: NamespacedName, t: TargetRef, w: Watch)
    requires IsNamespacedName(r) && Admitted(t) && SlashFree(w) && LowerCase(w)
    requires KeyOf(w) == KeyOf(WatchOf(r, t))
    ensures TargetOf(w, r)
  {
    WatchOk(r, t);
    ResourceName(t.kind);
    KeyIff(w, WatchOf(r, t));
  }

  predicate LowerCase(w: Watch) {
    IsName(w.crd) && IsName(w.namespace) && IsName(w.resource)
  }

  ghost predicate AllLower(m: map<string, Info>) {
    forall k :: k in m ==> LowerCase(m[k].watch)
  }

  /** Removing the key of a target of `r` touches only the informers of `r`. */
  lemma MineWithout(m: map<string, Info>, r: NamespacedName, t: TargetRef, q: NamespacedName)
    requires IsNamespacedName(r) && Admitted(t) && Keyed(m) && AllLower(m)
    ensures Mine(m - {KeyOf(WatchOf(r, t))}, q) == if q == r then Mine(m, r) - {KeyOf(WatchOf(r, t))} else Mine(m, q)
  {
    var key := KeyOf(WatchOf(r, t));
    if key in m {
      KeyIsMine(r, t, m[key].watch);
    }
  }

  /** A start for `r` adds to the informers of `r` only. */
  lemma MineWith(m: map<string, Info>, r: NamespacedName, t: TargetRef, c: nat, q: NamespacedName)
    requires IsNamespacedName(r) && Admitted(t) && KeyOf(WatchOf(r, t)) !in m
    ensures var w := WatchOf(r, t);
            Mine(m[KeyOf(w) := Info(c, w)], q) == if q == r then Mine(m, r)[KeyOf(w) := Info(c, w)] else Mine(m, q)
  {
    WatchOk(r, t);
  }

  // ----- the operator's state and what one reconcile makes of it

  /** `guards` holds the `sync.Once` objects of the target informers, with whether each is spent;
      `directory` the target each service had when it was last reconciled. */
  datatype View = View(informers: map<string, Info>, guards: map<NamespacedName, bool>,
                       directory: map<NamespacedName, TargetRef>)

  /** An ElastiService as a reconcile reads it. */
  datatype Spec = Spec(self: NamespacedName, service: string, target: TargetRef) {
    function ServiceName(): NamespacedName { NamespacedName(self.namespace, service) }
  }

  /** If the recorded target is another one, its informer is stopped and the guard dropped. */
  function Stopped(v: View, e: Spec): View {
    var s := e.ServiceName();
    if s in v.directory && v.directory[s] != e.target then
      v.(informers := v.informers - {KeyOf(WatchOf(e.self, v.directory[s]))}, guards := v.guards - {e.self})
    else v
  }

  /** A start behind the guard, with `stopCh` the next stop channel; a failure drops the guard. */
  function Started(v: View, e: Spec, a: Answers, stopCh: nat): (View, bool) {
    var w := WatchOf(e.self, e.target);
    if e.self in v.guards && v.guards[e.self] then (v, true)
    else if a.versionParses && KeyOf(w) in v.informers then (v.(guards := v.guards[e.self := true]), true)
    else if a.versionParses && a.found && a.handled && a.synced then
      (v.(informers := v.informers[KeyOf(w) := Info(stopCh, w)], guards := v.guards[e.self := true]), true)
    else (v.(guards := v.guards - {e.self}), false)
  }

  function Watched(v: View, e: Spec, a: Answers, stopCh: nat): (View, bool) {
    if !Complete(e.target) then (v, false) else Started(Stopped(v, e), e, a, stopCh)
  }

  /** A reconcile of a live ElastiService, and whether it returns nil. */
  function Reconciled(v: View, e: Spec, a: Answers, stopCh: nat): (View, bool) {
    if !a.finalizerAdded then (v, false)
    else
      var (u, ok) := Watched(v, e, a, stopCh);
      if ok then (u.(directory := u.directory[e.ServiceName() := e.target]), true) else (u, false)
  }

  /** A finalization pass, whatever of its other parts fails. */
  function Finalized(v: View, e: Spec): View {
    View(map k | k in v.informers && !BelongsTo(v.informers[k].watch, e.self.name, e.self.namespace) :: v.informers[k],
         v.guards - {e.self}, v.directory - {e.ServiceName()})
  }

  /** A start of the informer on the public service, which shares the map. */
  function PublicWatched(v: View, e: Spec, started: bool, stopCh: nat): View {
    var w := Watch(e.self.name, e.self.namespace, "services", e.service, "v1");
    if started && KeyOf(w) !in v.informers then v.(informers := v.informers[KeyOf(w) := Info(stopCh, w)]) else v
  }

  // ----- what every run keeps

  /** Exactly one scale-target informer runs for `r`, and it watches `t`. */
  ghost predicate WatchesOnly(v: View, r: NamespacedName, t: TargetRef) {
    var w := WatchOf(r, t);
    KeyOf(w) in v.informers && v.informers[KeyOf(w)].watch == w
    && Mine(v.informers, r) == map[KeyOf(w) := v.informers[KeyOf(w)]]
  }

  /** The service of each ElastiService is fixed, and of one ElastiService only. */
  ghost predicate OnePerService(serviceOf: NamespacedName -> string) {
    forall a: NamespacedName, b: NamespacedName ::
      a.namespace == b.namespace && serviceOf(a) == serviceOf(b) ==> a == b
  }

  /** A guard is spent only while the informer of the recorded target runs, and it alone; without
      a guard none runs. */
  ghost predicate Settled(v: View, r: NamespacedName, service: string) {
    if r in v.guards then
      var s := NamespacedName(r.namespace, service);
      v.guards[r] && s in v.directory && WatchesOnly(v, r, v.directory[s])
    else Mine(v.informers, r) == map[]
  }

  ghost predicate WellFormed(v: View) {
    && Keyed(v.informers) && AllLower(v.informers)
    && (forall s :: s in v.directory ==> Admitted(v.directory[s]))
  }

  ghost predicate Inv(v: View, serviceOf: NamespacedName -> string) {
    WellFormed(v) && forall r :: IsNamespacedName(r) ==> Settled(v, r, serviceOf(r))
  }

  ghost predicate SpecOk(e: Spec, serviceOf: NamespacedName -> string) {
    IsNamespacedName(e.self) && e.service == serviceOf(e.self) && IsName(e.service) && (Complete(e.target) ==> Admitted(e.target))
  }

  lemma StoppedOwn(v: View, e: Spec)
    requires WellFormed(v) && IsNamespacedName(e.self) && Settled(v, e.self, e.service)
    ensures var u := Stopped(v, e);
            && WellFormed(u) && Settled(u, e.self, e.service)
            && (e.self in u.guards ==> u.directory[e.ServiceName()] == e.target)
  {
    var s := e.ServiceName();
    if s in v.directory && v.directory[s] != e.target {
      MineWithout(v.informers, e.self, v.directory[s], e.self);
    }
  }

  lemma RunsIsMine(m: map<string, Info>, r: NamespacedName, t: TargetRef)
    requires IsNamespacedName(r) && Admitted(t) && Keyed(m) && AllLower(m)
    ensures KeyOf(WatchOf(r, t)) in m ==> KeyOf(WatchOf(r, t)) in Mine(m, r)
  {
    if KeyOf(WatchOf(r, t)) in m {
      KeyIsMine(r, t, m[KeyOf(WatchOf(r, t))].watch);
    }
  }

  lemma StartedOwn(v: View, e: Spec, a: Answers, stopCh: nat)
    requires WellFormed(v) && IsNamespacedName(e.self) && Admitted(e.target)
    requires Settled(v, e.self, e.service) && (e.self in v.guards ==> v.directory[e.ServiceName()] == e.target)
    ensures var (u, ok) := Started(v, e, a, stopCh);
            && WellFormed(u) && u.directory == v.directory
            && (ok ==> e.self in u.guards && u.guards[e.self] && WatchesOnly(u, e.self, e.target))
            && (!ok ==> e.self !in u.guards && Mine(u.informers, e.self) == map[])
  {
    var w := WatchOf(e.self, e.target);
    WatchOk(e.self, e.target);
    ResourceName(e.target.kind);
    RunsIsMine(v.informers, e.self, e.target);
    if e.self !in v.guards {
      MineWith(v.informers, e.self, e.target, stopCh, e.self);
    }
  }

  /** Another ElastiService keeps its informer, its guard and its directory entry. */
  lemma StaysSettled(v: View, u: View, q: NamespacedName, service: string)
    requires Settled(v, q, service) && Mine(u.informers, q) == Mine(v.informers, q)
    requires (q in u.guards <==> q in v.guards) && (q in v.guards ==> u.guards[q] == v.guards[q])
    requires var s := NamespacedName(q.namespace, service);
             s in v.directory ==> s in u.directory && u.directory[s] == v.directory[s]
    ensures Settled(u, q, service)
  {
    if q in v.guards {
      var w := WatchOf(q, v.directory[NamespacedName(q.namespace, service)]);
      assert KeyOf(w) in Mine(v.informers, q);
      assert KeyOf(w) in Mine(u.informers, q);
    }
  }

  lemma WatchedOwn(v: View, e: Spec, a: Answers, stopCh: nat)
    requires WellFormed(v) && IsNamespacedName(e.self) && Admitted(e.target) && Complete(e.target)
    requires Settled(v, e.self, e.service)
    ensures var (u, ok) := Watched(v, e, a, stopCh);
            && WellFormed(u)
            && (ok ==> e.self in u.guards && u.guards[e.self] && WatchesOnly(u, e.self, e.target))
            && (!ok ==> e.self !in u.guards && Mine(u.informers, e.self) == map[])
  {
    StoppedOwn(v, e);
    StartedOwn(Stopped(v, e), e, a, stopCh);
  }

  lemma ReconciledOwn(v: View, e: Spec, a: Answers, stopCh: nat)
    requires WellFormed(v) && IsNamespacedName(e.self) && (Complete(e.target) ==> Admitted(e.target))
    requires Settled(v, e.self, e.service)
    ensures var (u, ok) := Reconciled(v, e, a, stopCh);
            && WellFormed(u) && Settled(u, e.self, e.service)
            && (ok ==> WatchesOnly(u, e.self, e.target))
            && (!ok && a.finalizerAdded && Complete(e.target) ==> e.self !in u.guards)
  {
    if a.finalizerAdded && Complete(e.target) {
      WatchedOwn(v, e, a, stopCh);
      var (w, ok) := Watched(v, e, a, stopCh);
      var u := Reconciled(v, e, a, stopCh).0;
      assert u == if ok then w.(directory := w.directory[e.ServiceName() := e.target]) else w;
      assert ok ==> WatchesOnly(u, e.self, e.target);
    }
  }

  lemma StoppedOther(v: View, e: Spec, q: NamespacedName, service: string)
    requires WellFormed(v) && IsNamespacedName(e.self) && q != e.self && Settled(v, q, service)
    ensures Settled(Stopped(v, e), q, service)
  {
    var s := e.ServiceName();
    if s in v.directory && v.directory[s] != e.target {
      MineWithout(v.informers, e.self, v.directory[s], q);
      StaysSettled(v, Stopped(v, e), q, service);
    }
  }

  lemma StartedOther(v: View, e: Spec, a: Answers, stopCh: nat, q: NamespacedName, service: string)
    requires IsNamespacedName(e.self) && Admitted(e.target) && q != e.self && Settled(v, q, service)
    ensures Settled(Started(v, e, a, stopCh).0, q, service)
  {
  }

  lemma ReconciledOther(v: View, e: Spec, a: Answers, stopCh: nat, q: NamespacedName, service: string)
    requires WellFormed(v) && IsNamespacedName(e.self) && (Complete(e.target) ==> Admitted(e.target))
    requires q != e.self && NamespacedName(q.namespace, service) != e.ServiceName() && Settled(v, q, service)
    ensures Settled(Reconciled(v, e, a, stopCh).0, q, service)
  {
    if a.finalizerAdded && Complete(e.target) {
      StoppedOther(v, e, q, service);
      StartedOther(Stopped(v, e), e, a, stopCh, q, service);
      StaysSettled(Watched(v, e, a, stopCh).0, Reconciled(v, e, a, stopCh).0, q, service);
    }
  }

  /** The guards and the informers of every other ElastiService are as they were, and so are all
      informers on public services. */
  ghost predicate OthersKept(v: View, u: View, self: NamespacedName) {
    && u.guards - {self} == v.guards - {self}
    && (forall k :: k in v.informers && !TargetOf(v.informers[k].watch, self) ==>
          k in u.informers && u.informers[k] == v.informers[k])
    && (forall k :: k in u.informers && !TargetOf(u.informers[k].watch, self) ==>
          k in v.informers && v.informers[k] == u.informers[k])
  }

  lemma StoppedFrame(v: View, e: Spec)
    requires WellFormed(v) && IsNamespacedName(e.self) && e.ServiceName() in v.directory
    ensures OthersKept(v, Stopped(v, e), e.self)
  {
    var key := KeyOf(WatchOf(e.self, v.directory[e.ServiceName()]));
    if key in v.informers {
      KeyIsMine(e.self, v.directory[e.ServiceName()], v.informers[key].watch);
    }
  }

  lemma StartedFrame(v: View, e: Spec, a: Answers, stopCh: nat)
    requires IsNamespacedName(e.self) && Admitted(e.target)
    ensures OthersKept(v, Started(v, e, a, stopCh).0, e.self) && Started(v, e, a, stopCh).0.directory == v.directory
  {
    WatchOk(e.self, e.target);
  }

  lemma OthersKeptOn(v: View, u: View, w: View, self: NamespacedName)
    requires OthersKept(v, u, self) && OthersKept(u, w, self)
    ensures OthersKept(v, w, self)
  {
  }

  lemma WatchedFrame(v: View, e: Spec, a: Answers, stopCh: nat)
    requires WellFormed(v) && IsNamespacedName(e.self) && (Complete(e.target) ==> Admitted(e.target))
    ensures OthersKept(v, Watched(v, e, a, stopCh).0, e.self) && Watched(v, e, a, stopCh).0.directory == v.directory
  {
    if Complete(e.target) {
      if e.ServiceName() in v.directory {
        StoppedFrame(v, e);
      }
      StartedFrame(Stopped(v, e), e, a, stopCh);
      OthersKeptOn(v, Stopped(v, e), Watched(v, e, a, stopCh).0, e.self);
    }
  }

  lemma ReconciledFrame(v: View, e: Spec, a: Answers, stopCh: nat)
    requires WellFormed(v) && IsNamespacedName(e.self) && (Complete(e.target) ==> Admitted(e.target))
    ensures var (u, ok) := Reconciled(v, e, a, stopCh);
            && u.directory == (if ok then v.directory[e.ServiceName() := e.target] else v.directory)
            && OthersKept(v, u, e.self)
  {
    WatchedFrame(v, e, a, stopCh);
  }

  /** A reconcile keeps the invariant; one that returns nil leaves exactly one scale-target informer,
      on the current target, and records it; one whose start fails leaves no guard, so the next one tries
      again, and what is recorded as it was. */
  lemma ReconciledInv(v: View, e: Spec, a: Answers, stopCh: nat, serviceOf: NamespacedName -> string)
    requires Inv(v, serviceOf) && OnePerService(serviceOf) && SpecOk(e, serviceOf)
    ensures var (u, ok) := Reconciled(v, e, a, stopCh);
            && Inv(u, serviceOf)
            && (ok ==> WatchesOnly(u, e.self, e.target))
            && (!ok && a.finalizerAdded && Complete(e.target) ==> e.self !in u.guards)
            && u.directory == (if ok then v.directory[e.ServiceName() := e.target] else v.directory)
            && OthersKept(v, u, e.self)
  {
    ReconciledOwn(v, e, a, stopCh);
    ReconciledFrame(v, e, a, stopCh);
    forall q | IsNamespacedName(q) ensures Settled(Reconciled(v, e, a, stopCh).0, q, serviceOf(q)) {
      if q != e.self {
        ReconciledOther(v, e, a, stopCh, q, serviceOf(q));
      }
    }
  }

  lemma FinalizedOwn(v: View, e: Spec)
    requires WellFormed(v)
    ensures WellFormed(Finalized(v, e)) && Mine(Finalized(v, e).informers, e.self) == map[]
  {
  }

  lemma FinalizedOther(v: View, e: Spec, q: NamespacedName, service: string)
    requires WellFormed(v) && IsNamespacedName(e.self) && IsNamespacedName(q)
    requires q != e.self && NamespacedName(q.namespace, service) != e.ServiceName() && Settled(v, q, service)
    ensures Settled(Finalized(v, e), q, service)
  {
  }

  lemma FinalizedInv(v: View, e: Spec, serviceOf: NamespacedName -> string)
    requires Inv(v, serviceOf) && OnePerService(serviceOf) && IsNamespacedName(e.self) && e.service == serviceOf(e.self)
    ensures var u := Finalized(v, e);
            && Inv(u, serviceOf) && Mine(u.informers, e.self) == map[]
            && e.self !in u.guards && u.guards == v.guards - {e.self}
            && e.ServiceName() !in u.directory && u.directory == v.directory - {e.ServiceName()}
            && (forall k :: k in u.informers ==> !BelongsTo(u.informers[k].watch, e.self.name, e.self.namespace))
            && (forall k :: k in v.informers && !BelongsTo(v.informers[k].watch, e.self.name, e.self.namespace) ==>
                  k in u.informers && u.informers[k] == v.informers[k])
  {
    FinalizedOwn(v, e);
    forall q | IsNamespacedName(q) ensures Settled(Finalized(v, e), q, serviceOf(q)) {
      if q != e.self {
        FinalizedOther(v, e, q, serviceOf(q));
      }
    }
  }

  lemma PublicWatchedForm(v: View, e: Spec, started: bool, stopCh: nat)
    requires WellFormed(v) && IsNamespacedName(e.self) && IsName(e.service)
    ensures WellFormed(PublicWatched(v, e, started, stopCh))
  {
    assert ToLower("services") == "services";
  }

  lemma PublicWatchedAny(v: View, e: Spec, started: bool, stopCh: nat, q: NamespacedName, service: string)
    requires Settled(v, q, service)
    ensures Settled(PublicWatched(v, e, started, stopCh), q, service)
  {
  }

  lemma PublicWatchedInv(v: View, e: Spec, started: bool, stopCh: nat, serviceOf: NamespacedName -> string)
    requires Inv(v, serviceOf) && SpecOk(e, serviceOf)
    ensures var u := PublicWatched(v, e, started, stopCh);
            && Inv(u, serviceOf) && u.guards == v.guards && u.directory == v.directory
            && (forall k :: k in v.informers ==> k in u.informers && u.informers[k] == v.informers[k])
            && (forall k :: k in u.informers && k !in v.informers ==>
                  started && u.informers[k].watch == Watch(e.self.name, e.self.namespace, "services", e.service, "v1"))
            && (started ==> KeyOf(Watch(e.self.name, e.self.namespace, "services", e.service, "v1")) in u.informers)
  {
    PublicWatchedForm(v, e, started, stopCh);
    forall q | IsNamespacedName(q) ensures Settled(PublicWatched(v, e, started, stopCh), q, serviceOf(q)) {
      PublicWatchedAny(v, e, started, stopCh, q, serviceOf(q));
    }
  }

  // ----- runs

  /** A reconcile of an ElastiService as it is then, a finalization pass of a deleted one, or a start
      of the public-service informer. */
  datatype Event =
    | Reconcile(spec: Spec, answers: Answers, stopCh: nat)
    | Finalize(spec: Spec)
    | WatchPublic(spec: Spec, started: bool, stopCh: nat)

  function Step(v: View, ev: Event): View {
    match ev
    case Reconcile(e, a, c) => Reconciled(v, e, a, c).0
    case Finalize(e) => Finalized(v, e)
    case WatchPublic(e, started, c) => PublicWatched(v, e, started, c)
  }

  function Run(events: seq<Event>): View {
    if events == [] then View(map[], map[], map[]) else Step(Run(events[..|events| - 1]), events[|events| - 1])
  }

  ghost predicate EventsOk(events: seq<Event>, serviceOf: NamespacedName -> string) {
    forall k :: 0 <= k < |events| ==> SpecOk(events[k].spec, serviceOf)
  }

  lemma {:induction false} RunInv(events: seq<Event>, serviceOf: NamespacedName -> string)
    requires OnePerService(serviceOf) && EventsOk(events, serviceOf)
    ensures Inv(Run(events), serviceOf)
  {
    if events == [] {
    } else {
      var v, ev := Run(events[..|events| - 1]), events[|events| - 1];
      RunInv(events[..|events| - 1], serviceOf);
      match ev
      case Reconcile(e, a, c) => ReconciledInv(v, e, a, c, serviceOf);
      case Finalize(e) => FinalizedInv(v, e, serviceOf);
      case WatchPublic(e, started, c) => PublicWatchedInv(v, e, started, c, serviceOf);
    }
  }

  /** A run is its events. */
  lemma RunSteps(events: seq<Event>, ev: Event)
    ensures Run([]) == View(map[], map[], map[]) && Run(events + [ev]) == Step(Run(events), ev)
  {
    assert (events + [ev])[..|events|] == events;
  }

  /** A reconcile of an incomplete target fails and changes nothing, and so does one that cannot add its
      finalizer; any other ends with its guard spent if it returns nil, and without a guard if not. */
  lemma ReconcileEnds(v: View, e: Spec, a: Answers, stopCh: nat)
    ensures var (u, ok) := Reconciled(v, e, a, stopCh);
            && (!a.finalizerAdded || e.target.name == "" || e.target.kind == "" || e.target.apiVersion == "" ==> !ok && u == v)
            && (ok ==> e.self in u.guards && u.guards[e.self])
            && (!ok && u != v ==> e.self !in u.guards)
            && (!ok && a.finalizerAdded && Complete(e.target) ==> e.self !in u.guards)
  {
  }

  /** Nothing in the past keeps a reconcile from succeeding: if the cluster answers, it returns nil. */
  lemma GoodAnswersSucceed(v: View, e: Spec, a: Answers, stopCh: nat)
    requires e.target.name != "" && e.target.kind != "" && e.target.apiVersion != ""
    requires a == Answers(true, true, true, true, true)
    ensures Reconciled(v, e, a, stopCh).1 && Reconciled(v, e, a, stopCh).0.directory[e.ServiceName()] == e.target
  {
  }

  /** After every run of edits, failing and succeeding reconciles and finalizations, a reconcile that
      returns nil leaves exactly one scale-target informer, and it watches the current target. */
  lemma NilMeansWatched(events: seq<Event>, e: Spec, a: Answers, stopCh: nat, serviceOf: NamespacedName -> string)
    requires OnePerService(serviceOf) && EventsOk(events, serviceOf) && SpecOk(e, serviceOf)
    ensures var (u, ok) := Reconciled(Run(events), e, a, stopCh);
            && (ok ==> WatchesOnly(u, e.self, e.target) && |Mine(u.informers, e.self)| == 1)
            && (!ok && a.finalizerAdded && Complete(e.target) ==> e.self !in u.guards)
  {
    RunInv(events, serviceOf);
    ReconciledInv(Run(events), e, a, stopCh, serviceOf);
  }

  /** After every run, a finalization leaves no trace of its ElastiService: no informer, no guard, and no
      directory entry by which a notification could find it. */
  lemma FinalizedLeavesNoTrace(events: seq<Event>, e: Spec, serviceOf: NamespacedName -> string)
    requires OnePerService(serviceOf) && EventsOk(events, serviceOf) && SpecOk(e, serviceOf)
    ensures var u := Run(events + [Finalize(e)]);
            && e.ServiceName() !in u.directory && e.self !in u.guards
            && (forall k :: k in u.informers ==> !BelongsTo(u.informers[k].watch, e.self.name, e.self.namespace))
            && (forall s :: s != e.ServiceName() ==>
                  (s in u.directory <==> s in Run(events).directory)
                  && (s in u.directory ==> u.directory[s] == Run(events).directory[s]))
  {
    RunInv(events, serviceOf);
    FinalizedInv(Run(events), e, serviceOf);
    assert (events + [Finalize(e)])[..|events|] == events;
  }

  // ----- the reconciler

  class Reconciler {
    const manager: Manager
    var guards: map<NamespacedName, bool>
    var directory: map<NamespacedName, TargetRef>

    ghost function Now(): View
      reads this, manager
    {
      View(manager.informers, guards, directory)
    }

    constructor (manager: Manager)
      requires manager.Valid()
      ensures this.manager == manager && Now() == View(manager.informers, map[], map[])
    {
      this.manager := manager;
      guards, directory := map[], map[];
    }

    method WatchScaleTargetRef(e: Spec, a: Answers) returns (ok: bool)
      requires manager.Valid() && SlashFree(WatchOf(e.self, e.target))
      modifies this, manager
      ensures manager.Valid() && (Now(), ok) == Watched(old(Now()), e, a, old(manager.next))
    {
      if e.target.name == "" || e.target.kind == "" || e.target.apiVersion == "" {
        return false;
      }
      StopPrevious(e);
      ok := StartOnce(e, a);
    }

    method StopPrevious(e: Spec)
      requires manager.Valid()
      modifies this, manager
      ensures manager.Valid() && Now() == Stopped(old(Now()), e) && manager.next == old(manager.next)
    {
      var s := e.ServiceName();
      if s in directory && directory[s] != e.target {
        var stopped := manager.StopInformer(KeyOf(WatchOf(e.self, directory[s])));
        guards := guards - {e.self};
      }
    }

    method StartOnce(e: Spec, a: Answers) returns (ok: bool)
      requires manager.Valid() && SlashFree(WatchOf(e.self, e.target))
      modifies this, manager
      ensures manager.Valid() && (Now(), ok) == Started(old(Now()), e, a, old(manager.next))
    {
      if e.self in guards && guards[e.self] {
        return true;
      }
      guards := guards[e.self := true];
      ok := a.versionParses;
      if ok {
        ok := manager.Add(WatchOf(e.self, e.target), a.found, a.handled, a.synced);
      }
      if !ok {
        guards := guards - {e.self};
        assert guards == old(guards) - {e.self};
      }
    }

    method ReconcileLive(e: Spec, a: Answers) returns (ok: bool)
      requires manager.Valid() && SlashFree(WatchOf(e.self, e.target))
      modifies this, manager
      ensures manager.Valid() && (Now(), ok) == Reconciled(old(Now()), e, a, old(manager.next))
    {
      if !a.finalizerAdded {
        return false;
      }
      ok := WatchScaleTargetRef(e, a);
      if ok {
        directory := directory[e.ServiceName() := e.target];
      }
    }

    method FinalizeInformers(e: Spec)
      requires manager.Valid() && IsNamespacedName(e.self)
      modifies this, manager
      ensures manager.Valid() && Now() == Finalized(old(Now()), e)
    {
      manager.StopForCRD(e.self.name, e.self.namespace);
      guards := guards - {e.self};
      directory := directory - {e.ServiceName()};
    }
  }
}
