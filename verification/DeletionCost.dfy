/** The one write the pod client may make: a merge patch of the deletion-cost annotation, and the costs it carries. */
module DeletionCost {
  import opened GoInt
  import opened Wrappers
  import opened IntText

  /** A JSON document after decoding: a repeated key has already been resolved to its last value. */
  datatype Json =
    | Null
    | Bool(b: bool)
    | Number(text: string)
    | Text(s: string)
    | List(items: seq<Json>)
    | Object(members: map<string, Json>)

  const ANNOTATION := "controller.kubernetes.io/pod-deletion-cost"

  // ---- Validation

  /** The members of an object that has exactly the one member `key`. */
  predicate OnlyMember(j: Json, key: string) {
    j.Object? && j.members.Keys == {key}
  }

  predicate IsCost(value: string) {
    ParseInt(value, -0x8000_0000, MAX_INT32).Some?
  }

  /** What the transport lets through. */
  predicate Accepts(patch: Json) {
    && OnlyMember(patch, "metadata")
    && OnlyMember(patch.members["metadata"], "annotations")
    && OnlyMember(patch.members["metadata"].members["annotations"], ANNOTATION)
    && var value := patch.members["metadata"].members["annotations"].members[ANNOTATION];
       value.Text? && IsCost(value.s)
  }

  function Patch(cost: Int32): Json {
    Object(map["metadata" := Object(map["annotations" := Object(map[ANNOTATION := Text(FormatInt(cost))])])])
  }

  // ---- Applying a merge patch: section 2 of RFC 7396

  function Members(target: Option<Json>): map<string, Json> {
    if target.Some? && target.value.Object? then target.value.members else map[]
  }

  function Lookup(m: map<string, Json>, key: string): Option<Json> {
    if key in m then Some(m[key]) else None
  }

  function Merge(target: Option<Json>, patch: Json): Json
    decreases patch
  {
    if !patch.Object? then patch
    else
      var before := Members(target);
      Object(map key | key in before.Keys + patch.members.Keys && Kept(patch, key) ::
        if key in patch.members then Merge(Lookup(before, key), patch.members[key]) else before[key])
  }

  /** A null member of the patch removes the target's. */
  predicate Kept(patch: Json, key: string)
    requires patch.Object?
  {
    key in patch.members ==> !patch.members[key].Null?
  }

  // ---- What an accepted patch does

  /** A pod as the API stores it: metadata is an object, annotations are absent or an object. */
  predicate IsPod(pod: Json) {
    && pod.Object? && "metadata" in pod.members && pod.members["metadata"].Object?
    && var metadata := pod.members["metadata"].members;
       "annotations" in metadata ==> metadata["annotations"].Object?
  }

  function With(j: Json, key: string, value: Json): Json
    requires j.Object?
  {
    Object(j.members[key := value])
  }

  function Annotations(pod: Json): Json
    requires IsPod(pod)
  {
    Lookup(pod.members["metadata"].members, "annotations").GetOr(Object(map[]))
  }

  /** The pod with its deletion-cost annotation set and nothing else touched. */
  function WithCost(pod: Json, value: string): Json
    requires IsPod(pod)
  {
    With(pod, "metadata", With(pod.members["metadata"], "annotations", With(Annotations(pod), ANNOTATION, Text(value))))
  }

  lemma MergeOne(target: Json, key: string, patch: Json)
    requires target.Object? && OnlyMember(patch, key) && !patch.members[key].Null?
    ensures Merge(Some(target), patch) == With(target, key, Merge(Lookup(target.members, key), patch.members[key]))
  {
    assert Merge(Some(target), patch).members
           == target.members[key := Merge(Lookup(target.members, key), patch.members[key])];
  }

  lemma MergeNone(patch: Json)
    ensures Merge(None, patch) == Merge(Some(Object(map[])), patch)
    decreases patch
  {
  }

  /** The text an accepted patch carries. */
  function CostText(patch: Json): string
    requires Accepts(patch)
  {
    patch.members["metadata"].members["annotations"].members[ANNOTATION].s
  }

  /** An accepted patch sets that one annotation to a 32-bit integer and leaves everything else as it was. */
  lemma AcceptedSetsOnlyTheCost(patch: Json, pod: Json)
    requires Accepts(patch) && IsPod(pod)
    ensures IsCost(CostText(patch)) && Merge(Some(pod), patch) == WithCost(pod, CostText(patch))
  {
    var metadata := patch.members["metadata"];
    var annotations := metadata.members["annotations"];
    MergeOne(pod, "metadata", patch);
    MergeOne(pod.members["metadata"], "annotations", metadata);
    MergeNone(annotations);
    MergeOne(Annotations(pod), ANNOTATION, annotations);
  }

  /** The patch built for a cost is accepted and sets exactly that cost. */
  lemma BuiltPatchIsAccepted(cost: Int32, pod: Json)
    requires IsPod(pod)
    ensures Accepts(Patch(cost))
    ensures Merge(Some(pod), Patch(cost)) == WithCost(pod, FormatInt(cost))
    ensures ParseInt(FormatInt(cost), -0x8000_0000, MAX_INT32) == Some(cost)
  {
    ParseFormat(cost, -0x8000_0000, MAX_INT32);
    AcceptedSetsOnlyTheCost(Patch(cost), pod);
  }

  // ---- Nothing less would do: the validator refuses every other patch

  /** The patch does to every pod what setting the annotation to `value` does. */
  ghost predicate OnlySets(patch: Json, value: string) {
    forall pod :: IsPod(pod) ==> Merge(Some(pod), patch) == WithCost(pod, value)
  }

  /** On this object the patch changes the one member and nothing else. */
  predicate SetsMember(patch: Json, key: string, target: Json) {
    && target.Object?
    && var merged := Merge(Some(target), patch);
       merged.Object? && key in merged.members && merged.members == target.members[key := merged.members[key]]
  }

  function Marked(base: Json, other: string, b: bool): Json
    requires base.Object?
  {
    With(base, other, Bool(b))
  }

  lemma MergeAt(target: Json, patch: Json, key: string)
    requires target.Object? && patch.Object?
    ensures var merged := Merge(Some(target), patch).members;
            key in patch.members ==>
              && (key in merged <==> !patch.members[key].Null?)
              && (key in merged ==> merged[key] == Merge(Lookup(target.members, key), patch.members[key]))
  {
  }

  /** No patch leaves both booleans as they are. */
  lemma PatchTouches(patch: Json)
    ensures !(Merge(Some(Bool(true)), patch) == Bool(true) && Merge(Some(Bool(false)), patch) == Bool(false))
  {
  }

  lemma MarkIsKept(patch: Json, key: string, base: Json, other: string)
    requires base.Object? && other != key && patch.Object? && other in patch.members
    ensures !(SetsMember(patch, key, Marked(base, other, true)) && SetsMember(patch, key, Marked(base, other, false)))
  {
    MergeAt(Marked(base, other, true), patch, other);
    MergeAt(Marked(base, other, false), patch, other);
    PatchTouches(patch.members[other]);
  }

  /** A patch that sets one member of an object, whatever other members it is given, has that member alone. */
  lemma OneMember(patch: Json, key: string, base: Json)
    requires base.Object? && SetsMember(patch, key, base)
    requires Lookup(base.members, key) != Lookup(Merge(Some(base), patch).members, key)
    requires forall other, b :: other != key ==> SetsMember(patch, key, Marked(base, other, b))
    ensures OnlyMember(patch, key) && !patch.members[key].Null?
  {
    forall other | other in patch.members
      ensures other == key
    {
      if other != key {
        MarkIsKept(patch, key, base, other);
      }
    }
    assert key in patch.members;
  }

  const NO_MEMBERS := Object(map[])
  const BARE_POD := Object(map["metadata" := NO_MEMBERS])

  lemma PatchesMetadata(patch: Json, value: string)
    requires OnlySets(patch, value)
    ensures OnlyMember(patch, "metadata") && !patch.members["metadata"].Null?
  {
    forall other, b | other != "metadata"
      ensures SetsMember(patch, "metadata", Marked(BARE_POD, other, b))
    {
      assert IsPod(Marked(BARE_POD, other, b));
    }
    assert IsPod(BARE_POD);
    assert "annotations" in WithCost(BARE_POD, value).members["metadata"].members;
    OneMember(patch, "metadata", BARE_POD);
  }

  /** What OnlySets says of the metadata alone. */
  lemma MetadataMerge(patch: Json, value: string, metadata: Json)
    requires OnlySets(patch, value) && metadata.Object?
    requires "annotations" in metadata.members ==> metadata.members["annotations"].Object?
    ensures OnlyMember(patch, "metadata") && !patch.members["metadata"].Null?
    ensures var pod := Object(map["metadata" := metadata]);
            && IsPod(pod)
            && Merge(Some(metadata), patch.members["metadata"])
               == With(metadata, "annotations", With(Annotations(pod), ANNOTATION, Text(value)))
  {
    PatchesMetadata(patch, value);
    var pod := Object(map["metadata" := metadata]);
    assert IsPod(pod);
    MergeOne(pod, "metadata", patch);
    assert Merge(Some(pod), patch).members["metadata"] == WithCost(pod, value).members["metadata"];
  }

  lemma PatchesAnnotations(patch: Json, value: string)
    requires OnlySets(patch, value)
    ensures OnlyMember(patch, "metadata")
    ensures OnlyMember(patch.members["metadata"], "annotations")
    ensures !patch.members["metadata"].members["annotations"].Null?
  {
    MetadataMerge(patch, value, NO_MEMBERS);
    forall other, b | other != "annotations"
      ensures SetsMember(patch.members["metadata"], "annotations", Marked(NO_MEMBERS, other, b))
    {
      MetadataMerge(patch, value, Marked(NO_MEMBERS, other, b));
    }
    OneMember(patch.members["metadata"], "annotations", NO_MEMBERS);
  }

  /** And of the annotations alone. */
  lemma AnnotationsMerge(patch: Json, value: string, annotations: Json)
    requires OnlySets(patch, value) && annotations.Object?
    ensures OnlyMember(patch, "metadata") && OnlyMember(patch.members["metadata"], "annotations")
    ensures Merge(Some(annotations), patch.members["metadata"].members["annotations"])
            == With(annotations, ANNOTATION, Text(value))
  {
    PatchesAnnotations(patch, value);
    var metadata := Object(map["annotations" := annotations]);
    MetadataMerge(patch, value, metadata);
    MergeOne(metadata, "annotations", patch.members["metadata"]);
    assert Merge(Some(metadata), patch.members["metadata"]).members["annotations"]
           == With(annotations, ANNOTATION, Text(value));
  }

  lemma PatchesTheCost(patch: Json, value: string)
    requires OnlySets(patch, value)
    ensures OnlyMember(patch, "metadata") && OnlyMember(patch.members["metadata"], "annotations")
    ensures var annotations := patch.members["metadata"].members["annotations"];
            OnlyMember(annotations, ANNOTATION) && annotations.members[ANNOTATION] == Text(value)
  {
    AnnotationsMerge(patch, value, NO_MEMBERS);
    var annotations := patch.members["metadata"].members["annotations"];
    forall other, b | other != ANNOTATION
      ensures SetsMember(annotations, ANNOTATION, Marked(NO_MEMBERS, other, b))
    {
      AnnotationsMerge(patch, value, Marked(NO_MEMBERS, other, b));
    }
    OneMember(annotations, ANNOTATION, NO_MEMBERS);
    MergeOne(NO_MEMBERS, ANNOTATION, annotations);
  }

  /** The validator accepts a patch if and only if all it does, to any pod, is set the cost to a 32-bit integer. */
  lemma AcceptsExactly(patch: Json)
    ensures Accepts(patch) <==> exists value :: IsCost(value) && OnlySets(patch, value)
  {
    if Accepts(patch) {
      var value := CostText(patch);
      forall pod | IsPod(pod)
        ensures Merge(Some(pod), patch) == WithCost(pod, value)
      {
        AcceptedSetsOnlyTheCost(patch, pod);
      }
      assert OnlySets(patch, value);
    }
    if value :| IsCost(value) && OnlySets(patch, value) {
      PatchesTheCost(patch, value);
    }
  }
}
