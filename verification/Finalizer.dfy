/**
 Finalizing a deleted ElastiService: passes that each try to undo what Elasti did to the cluster,
 with any of their API calls failing, repeated until one succeeds in full and the finalizer goes.
 The four clean-ups of a pass touch different objects, so their order does not matter; the informers
 are in `Lifecycle`.
 */
module Finalizer {
  import opened MergePatch
  import opened Options
  import opened Scaling

  /** The objects a finalization is about. `slice` and `privateService` say whether they exist. */
  datatype Cluster = Cluster(slice: bool, privateService: bool, scaledObject: Option<map<string, Json>>,
                             target: Option<Target>, finalizer: bool)

  /** Which API calls of a pass go through; an object that is missing is an answer, not a failure. */
  datatype Answers = Answers(sliceGot: bool, sliceDeleted: bool, privateGot: bool, privateDeleted: bool,
                             kedaAnswered: bool, versionParses: bool, scale: ScaleApi, finalizerUpdated: bool)

  /** Get, then delete if there; whether it is still there, and whether that was without error. */
  function Deleted(present: bool, got: bool, deleted: bool): (bool, bool) {
    if !got then (present, false) else if !present then (false, true) else (!deleted, deleted)
  }

  function Unpaused(c: Config, so: Option<map<string, Json>>, answered: bool): (Option<map<string, Json>>, bool) {
    if !c.keda then (so, true)
    else if !answered then (so, false)
    else (if so.Some? then Some(Repaused(so.value, false)) else None, true)
  }

  function Restored(c: Config, t: Option<Target>, versionParses: bool, api: ScaleApi): (Option<Target>, bool) {
    if !versionParses then (t, false)
    else
      var (u, r) := Scaled(t, MinReplicas(c), api);
      (u, !r.Failed?)
  }

  /** The four clean-ups, and whether all went without error. */
  function CleanedUp(c: Config, k: Cluster, a: Answers): (Cluster, bool) {
    var (slice, ok1) := Deleted(k.slice, a.sliceGot, a.sliceDeleted);
    var (private, ok2) := Deleted(k.privateService, a.privateGot, a.privateDeleted);
    var (so, ok3) := Unpaused(c, k.scaledObject, a.kedaAnswered);
    var (t, ok4) := Restored(c, k.target, a.versionParses, a.scale);
    (Cluster(slice, private, so, t, k.finalizer), ok1 && ok2 && ok3 && ok4)
  }

  /** One pass over a deleted ElastiService that still has its finalizer. */
  function Pass(c: Config, k: Cluster, a: Answers): Cluster {
    if !k.finalizer then k
    else
      var (u, ok) := CleanedUp(c, k, a);
      u.(finalizer := !(ok && a.finalizerUpdated))
  }

  /** Between passes the target's controller brings the status to the spec. */
  function Settled(k: Cluster): Cluster {
    k.(target := if k.target.Some? then Some(Settle(k.target.value)) else None)
  }

  function Passes(c: Config, k: Cluster, passes: seq<Answers>): Cluster {
    if passes == [] then k else Settled(Pass(c, Passes(c, k, passes[..|passes| - 1]), passes[|passes| - 1]))
  }

  /** What a finalized ElastiService leaves behind: nothing of Elasti's, and the target running. */
  function Clean(c: Config, k: Cluster): Cluster {
    Cluster(false, false,
            if c.keda && k.scaledObject.Some? then Some(Repaused(k.scaledObject.value, false)) else k.scaledObject,
            if k.target.Some? then var n := Max(k.target.value.spec, MinReplicas(c)); Some(Target(n, n)) else None,
            false)
  }

  predicate IsSettled(k: Cluster) { k.target.Some? ==> k.target.value.spec == k.target.value.status }

  lemma UnpauseTwice(a: map<string, Json>)
    ensures Repaused(Repaused(a, false), false) == Repaused(a, false)
  {
  }

  /** A pass, however much of it fails, does not change what finalization ends in; and if it removes
      the finalizer, that end is reached. */
  lemma PassAbsorbs(c: Config, k: Cluster, a: Answers)
    requires k.finalizer && IsSettled(k)
    ensures var r := Settled(Pass(c, k, a));
            && IsSettled(r) && Clean(c, r) == Clean(c, k)
            && (!r.finalizer ==> r == Clean(c, k))
  {
    if k.scaledObject.Some? {
      UnpauseTwice(k.scaledObject.value);
    }
  }

  /** A pass in which everything goes through removes the finalizer. */
  lemma CleanPassFinishes(c: Config, k: Cluster, a: Answers)
    requires k.finalizer && IsSettled(k)
    requires a.sliceGot && a.sliceDeleted && a.privateGot && a.privateDeleted && a.kedaAnswered && a.versionParses
    requires Gets(a.scale) && a.scale.updated && a.finalizerUpdated
    ensures Settled(Pass(c, k, a)) == Clean(c, k)
  {
  }

  lemma {:induction false} PassesAbsorb(c: Config, k: Cluster, passes: seq<Answers>)
    requires k.finalizer && IsSettled(k)
    ensures var r := Passes(c, k, passes);
            if r.finalizer then IsSettled(r) && Clean(c, r) == Clean(c, k) else r == Clean(c, k)
  {
    if passes == [] {
    } else {
      var m := Passes(c, k, passes[..|passes| - 1]);
      PassesAbsorb(c, k, passes[..|passes| - 1]);
      if m.finalizer {
        PassAbsorbs(c, m, passes[|passes| - 1]);
      }
    }
  }

  /** A run of passes is its passes, with the target settling after each. */
  lemma PassesStep(c: Config, k: Cluster, passes: seq<Answers>, a: Answers)
    ensures Passes(c, k, passes + [a]) == Settled(Pass(c, Passes(c, k, passes), a))
  {
    assert (passes + [a])[..|passes|] == passes;
  }

  /** For every sequence of passes with every pattern of failures: when the finalizer is gone, so are
      the slice and the private service, the ScaledObject is not paused, the target runs, and the
      state is the one a single clean pass would have reached. */
  lemma RemovedOnlyWhenClean(c: Config, k: Cluster, passes: seq<Answers>, clean: Answers)
    requires k.finalizer && IsSettled(k) && !Passes(c, k, passes).finalizer
    requires clean.sliceGot && clean.sliceDeleted && clean.privateGot && clean.privateDeleted && clean.kedaAnswered
    requires clean.versionParses && Gets(clean.scale) && clean.scale.updated && clean.finalizerUpdated
    ensures var r := Passes(c, k, passes);
            && !r.slice && !r.privateService
            && (c.keda ==> r.scaledObject.None? || PausedAs(r.scaledObject, false))
            && (r.target.None? || r.target.value.spec >= MinReplicas(c))
            && r == Settled(Pass(c, k, clean))
  {
    PassesAbsorb(c, k, passes);
    CleanPassFinishes(c, k, clean);
    assert PAUSED != PAUSED_REPLICAS;
  }

  /** On a target still in motion the pass can succeed and leave it at too few replicas: exactly if
      enough are still running while the spec already asks for fewer. */
  lemma UnsettledIff(c: Config, k: Cluster, t: Target, a: Answers)
    requires k.finalizer && k.target == Some(t) && !Pass(c, k, a).finalizer
    ensures Pass(c, k, a).target.value.spec < MinReplicas(c) <==> t.spec < MinReplicas(c) <= t.status
  {
  }

  // ----- the reconciler's side

  /** The same annotations, apart from the two of the pause. */
  ghost predicate SameOtherwise(a: map<string, Json>, b: map<string, Json>) {
    forall k :: k != PAUSED && k != PAUSED_REPLICAS ==> (k in a <==> k in b) && (k in a ==> a[k] == b[k])
  }

  /** Resumed and otherwise the same: that is the merge patch's result, and no other. */
  lemma ResumedIs(a: map<string, Json>, b: map<string, Json>)
    requires PausedAs(Some(a), false) && SameOtherwise(a, b)
    ensures a == Repaused(b, false)
  {
    assert PAUSED != PAUSED_REPLICAS;
  }

  /** Unpausing is told by what it leaves: without an error a KEDA ScaledObject that exists is resumed
      with its other annotations kept; missing, without KEDA, or with an error, it is as it was. */
  lemma UnpauseIff(c: Config, before: Option<map<string, Json>>, answered: bool, after: Option<map<string, Json>>, ok: bool)
    ensures (after, ok) == Unpaused(c, before, answered) <==>
            && (ok <==> c.keda ==> answered)
            && if ok && c.keda && before.Some?
               then PausedAs(after, false) && SameOtherwise(after.value, before.value)
               else after == before
  {
    assert PAUSED != PAUSED_REPLICAS;
    if c.keda && before.Some? && PausedAs(after, false) && SameOtherwise(after.value, before.value) {
      ResumedIs(after.value, before.value);
    }
  }

  /** What a pass leaves of each object depends on that object's own calls alone, whatever else fails; and
      the finalizer goes exactly if no call that was needed fails. */
  lemma PassPerObject(c: Config, k: Cluster, a: Answers)
    requires k.finalizer
    ensures var r := Pass(c, k, a);
            && r.slice == (k.slice && !(a.sliceGot && a.sliceDeleted))
            && r.privateService == (k.privateService && !(a.privateGot && a.privateDeleted))
            && (if c.keda && a.kedaAnswered && k.scaledObject.Some?
                then PausedAs(r.scaledObject, false) && SameOtherwise(r.scaledObject.value, k.scaledObject.value)
                else r.scaledObject == k.scaledObject)
            && r.target == (if k.target.Some? && a.versionParses && Gets(a.scale) && a.scale.updated
                               && k.target.value.status < MinReplicas(c)
                            then Some(k.target.value.(spec := MinReplicas(c))) else k.target)
            && (!r.finalizer <==> && a.sliceGot && (k.slice ==> a.sliceDeleted)
                                  && a.privateGot && (k.privateService ==> a.privateDeleted)
                                  && (c.keda ==> a.kedaAnswered)
                                  && a.versionParses && Gets(a.scale)
                                  && (k.target.Some? && k.target.value.status < MinReplicas(c) ==> a.scale.updated)
                                  && a.finalizerUpdated)
  {
    UnpauseIff(c, k.scaledObject, a.kedaAnswered, Unpaused(c, k.scaledObject, a.kedaAnswered).0, Unpaused(c, k.scaledObject, a.kedaAnswered).1);
  }

  class Finalization {
    const config: Config
    var cluster: Cluster

    constructor (config: Config, cluster: Cluster)
      ensures this.config == config && this.cluster == cluster
    {
      this.config, this.cluster := config, cluster;
    }

    /** Without an error the slice is gone and nothing else changed; with one nothing changed. The
        calls that matter are the get, and the delete only if there is something to delete. */
    method DeleteEndpointslice(a: Answers) returns (ok: bool)
      modifies this
      ensures ok ==> cluster == old(cluster).(slice := false)
      ensures !ok ==> cluster == old(cluster)
      ensures ok <==> a.sliceGot && (old(cluster.slice) ==> a.sliceDeleted)
    {
      if !a.sliceGot {
        return false;
      }
      if !cluster.slice {
        return true;
      }
      if !a.sliceDeleted {
        return false;
      }
      cluster := cluster.(slice := false);
      return true;
    }

    method DeletePrivateService(a: Answers) returns (ok: bool)
      modifies this
      ensures ok ==> cluster == old(cluster).(privateService := false)
      ensures !ok ==> cluster == old(cluster)
      ensures ok <==> a.privateGot && (old(cluster.privateService) ==> a.privateDeleted)
    {
      if !a.privateGot {
        return false;
      }
      if !cluster.privateService {
        return true;
      }
      if !a.privateDeleted {
        return false;
      }
      cluster := cluster.(privateService := false);
      return true;
    }

    /** What this leaves is characterised by `UnpauseIff`. */
    method Unpause(a: Answers) returns (ok: bool)
      modifies this
      ensures (cluster.scaledObject, ok) == Unpaused(config, old(cluster.scaledObject), a.kedaAnswered)
      ensures cluster == old(cluster).(scaledObject := cluster.scaledObject)
    {
      if !config.keda {
        return true;
      }
      if a.kedaAnswered && cluster.scaledObject.Some? {
        cluster := cluster.(scaledObject := Some(Repaused(cluster.scaledObject.value, false)));
      }
      return a.kedaAnswered;
    }

    /** `finalizeCRD`: all four clean-ups are tried, whatever fails before them. */
    method FinalizeCRD(a: Answers) returns (ok: bool)
      modifies this
      ensures (cluster, ok) == CleanedUp(config, old(cluster), a)
    {
      var ok1 := DeleteEndpointslice(a);
      var ok2 := DeletePrivateService(a);
      var ok3 := Unpause(a);
      var (t, ok4) := Restored(config, cluster.target, a.versionParses, a.scale);
      cluster := cluster.(target := t);
      return ok1 && ok2 && ok3 && ok4;
    }

    /** `finalizeCRDIfDeleted` on a deleted ElastiService; true if it returns no error. */
    method FinalizeIfDeleted(a: Answers) returns (ok: bool)
      modifies this
      ensures cluster == Pass(config, old(cluster), a) && ok == !cluster.finalizer
    {
      if !cluster.finalizer {
        return true;
      }
      var done := FinalizeCRD(a);
      if !done {
        return false;
      }
      if a.finalizerUpdated {
        cluster := cluster.(finalizer := false);
      }
      return a.finalizerUpdated;
    }
  }
}
