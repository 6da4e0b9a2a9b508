/** JSON merge patch, section 2 of RFC 7396, and the patch that pauses or resumes a ScaledObject. */
module MergePatch {

  /** Numbers are integers here; only their identity matters to a patch. */
  datatype Json = Null | Bool(truth: bool) | Num(n: int) | Str(text: string) | Arr(items: seq<Json>)
                | Obj(fields: map<string, Json>)

  function Fields(j: Json): map<string, Json> {
    if j.Obj? then j.fields else map[]
  }

  function Apply(target: Json, patch: Json): Json
    decreases patch
  {
    if !patch.Obj? then patch
    else
      var t := Fields(target);
      Obj(map k | k in t.Keys + patch.fields.Keys && !(k in patch.fields && patch.fields[k].Null?) ::
            if k in patch.fields then Apply(if k in t then t[k] else Null, patch.fields[k]) else t[k])
  }

  const PAUSED := "autoscaling.keda.sh/paused"
  const PAUSED_REPLICAS := "autoscaling.keda.sh/paused-replicas"

  function PausePatch(paused: bool): Json {
    Obj(map["metadata" := Obj(map["annotations" := Obj(
      map[PAUSED := Str(if paused then "true" else "false"),
          PAUSED_REPLICAS := if paused then Str("0") else Null])])])
  }

  /** The annotations of the patch: a pause holds the replicas at zero, a resume says so and drops that. */
  lemma PausePatchIs(paused: bool)
    ensures var meta := Member(PausePatch(paused), "metadata");
            Fields(Member(meta, "annotations")) ==
            if paused then map["autoscaling.keda.sh/paused" := Str("true"), "autoscaling.keda.sh/paused-replicas" := Str("0")]
            else map["autoscaling.keda.sh/paused" := Str("false"), "autoscaling.keda.sh/paused-replicas" := Null]
  {
  }

  function Member(j: Json, key: string): Json {
    if key in Fields(j) then Fields(j)[key] else Null
  }

  function Annotations(doc: Json): map<string, Json> {
    Fields(Member(Member(doc, "metadata"), "annotations"))
  }

  /** The annotations of a paused or resumed ScaledObject. */
  function Repaused(a: map<string, Json>, paused: bool): map<string, Json> {
    if paused then a[PAUSED := Str("true")][PAUSED_REPLICAS := Str("0")]
    else a[PAUSED := Str("false")] - {PAUSED_REPLICAS}
  }

  /** A patch of one member patches that member and keeps all others. */
  lemma PatchMember(target: Json, key: string, patch: Json)
    requires patch.Obj?
    ensures Apply(target, Obj(map[key := patch])) == Obj(Fields(target)[key := Apply(Member(target, key), patch)])
  {
  }

  lemma PatchAnnotations(a: Json, paused: bool)
    ensures Apply(a, PausePatch(paused).fields["metadata"].fields["annotations"]) == Obj(Repaused(Fields(a), paused))
  {
  }

  /** The patch sets or removes its two annotations and changes nothing else in the document. */
  lemma PauseTouchesOnly(doc: Json, paused: bool)
    ensures var r := Apply(doc, PausePatch(paused));
            && r.Obj? && Annotations(r) == Repaused(Annotations(doc), paused)
            && Fields(r) - {"metadata"} == Fields(doc) - {"metadata"}
            && Fields(Member(r, "metadata")) - {"annotations"} == Fields(Member(doc, "metadata")) - {"annotations"}
  {
    var meta := PausePatch(paused).fields["metadata"];
    var ann := meta.fields["annotations"];
    assert PausePatch(paused) == Obj(map["metadata" := meta]) && meta == Obj(map["annotations" := ann]);
    PatchMember(doc, "metadata", meta);
    PatchMember(Member(doc, "metadata"), "annotations", ann);
    PatchAnnotations(Member(Member(doc, "metadata"), "annotations"), paused);
  }

  /** Resuming undoes pausing, up to the explicit "false". */
  lemma ResumeAfterPause(a: map<string, Json>)
    ensures Repaused(Repaused(a, true), false) == Repaused(a, false)
  {
  }
}
