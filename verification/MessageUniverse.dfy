/**
 The message classes that carry cross-field checks and every class they contain,
 field by field.  Fields whose default is made by a factory take it from the
 parameters.
 */
module MessageUniverse {
  import opened Wrappers
  import opened Lists
  import opened Messages
  import opened MessagesProofs

  function Optional(t: Ty): Ty { TUnion([t, TNone]) }

  function Required(name: string, ty: Ty): (f: Field)
    ensures f.name == name && f.ty == ty && f.default.None?
  {
    Field(name, ty, None)
  }

  function Nullable(name: string, ty: Ty): (f: Field)
    ensures f.name == name && f.ty == Optional(ty) && f.default == Some(VNone)
  {
    Field(name, Optional(ty), Some(VNone))
  }

  predicate DistinctNames(fields: seq<Field>) {
    forall i, j :: 0 <= i < j < |fields| ==> fields[i].name != fields[j].name
  }

  predicate GoodDefaults(fields: seq<Field>) {
    forall i :: 0 <= i < |fields| && fields[i].default.Some? ==> GoodDefault(fields[i].ty, fields[i].default.value)
  }

  // A default that is a value of its type whatever the classes are.
  predicate GoodDefault(t: Ty, d: Val) {
    match d
    case VNone => t.TUnion? && TNone in t.arms
    case VStr(s) => t.TStr? || (t.TLiteral? && s in t.words)
    case VInt(_) => t.TInt?
    case VFloat(_) => t.TFloat?
    case VList(items) => t.TList? && items == []
    case VTuple(items) => t.TTuple? && items == []
    case VDict(keys, items) => t.TDict? && items == []
    case _ => false
  }

  // No union but an optional of a type without unions.
  predicate NoUnion(t: Ty) {
    match t
    case TUnion(_) => false
    case TList(e) => NoUnion(e)
    case TTuple(e) => NoUnion(e)
    case _ => true
  }

  predicate OnlyOptional(fields: seq<Field>) {
    forall i :: 0 <= i < |fields| ==>
      NoUnion(fields[i].ty)
      || (fields[i].ty.TUnion? && |fields[i].ty.arms| == 2 && fields[i].ty.arms[1] == TNone && NoUnion(fields[i].ty.arms[0]))
  }

  const METADATA := Field("metadata", TDict, Some(VDict([], [])))

  const PREDICATE := TLiteral(["equals", "at", "near", "inside", "held_by", "observed"])

  function EnvelopeFields(traceId: string, now: real): (fields: seq<Field>)
    ensures GoodDefaults(fields) && OnlyOptional(fields)
  {
    [
      Field("trace_id", TStr, Some(VStr(traceId))),
      Nullable("episode_id", TStr), Nullable("turn_id", TStr), Nullable("channel", TStr),
      Nullable("account_id", TStr), Nullable("user_id", TStr), Nullable("chat_id", TStr),
      Nullable("chat_type", TStr), Nullable("sender_id", TStr), Nullable("message_id", TStr),
      Nullable("reply_to_id", TStr), Nullable("robot_id", TStr), Nullable("agent_id", TStr),
      Nullable("deployment_id", TStr), Field("timestamp", TFloat, Some(VFloat(now)))]
  }

  function ImageRefFields(): (fields: seq<Field>)
    ensures GoodDefaults(fields) && OnlyOptional(fields)
  {
    [
      Required("uri", TStr), Nullable("camera", TStr), Nullable("width", TInt), Nullable("height", TInt),
      Nullable("timestamp", TFloat), Nullable("content_type", TStr), Nullable("size_bytes", TInt),
      Nullable("sha256", TStr), METADATA]
  }

  function ArtifactRefFields(): (fields: seq<Field>)
    ensures GoodDefaults(fields) && OnlyOptional(fields)
  {
    [
      Required("uri", TStr), Required("artifact_type", TStr), Nullable("role", TStr), Nullable("name", TStr),
      Nullable("content_type", TStr), Nullable("size_bytes", TInt), Nullable("sha256", TStr), METADATA]
  }

  function EvidenceFactFields(): (fields: seq<Field>)
    ensures GoodDefaults(fields)
  {
    [
      Required("evidence_id", TStr), Required("task_id", TStr),
      Required("source_kind", TLiteral(["robot_status", "skill_result"])), Required("source_id", TStr),
      Required("observed_at", TFloat), Required("frame_id", Optional(TInt)), Required("subject_id", TStr),
      Required("predicate", PREDICATE), Required("object_id", TStr),
      Field("artifacts", TTuple(TUnion([TRec("ArtifactRef"), TRec("ImageRef")])), Some(VTuple([])))]
  }

  function SkillResultFields(): (fields: seq<Field>)
    ensures GoodDefaults(fields)
  {
    [
      Required("envelope", TRec("Envelope")), Required("skill_id", TStr), Field("name", TStr, Some(VStr(""))),
      Field("status", TLiteral(["completed", "failed", "interrupted", "unknown"]), Some(VStr("unknown"))),
      Nullable("success", TBool), Field("steps_executed", TInt, Some(VInt(0))),
      Field("progress", TFloat, Some(VFloat(0.0))), Nullable("summary", TStr), Nullable("failure_mode", TStr),
      Nullable("frame_id", TInt), Nullable("error", TStr),
      Field("observations", TList(TRec("ImageRef")), Some(VList([]))),
      Field("evidence", TTuple(TRec("EvidenceFact")), Some(VTuple([]))), METADATA]
  }

  function SkillControlResultFields(): (fields: seq<Field>)
    ensures GoodDefaults(fields) && OnlyOptional(fields)
  {
    [
      Required("envelope", TRec("Envelope")), Required("control_id", TStr),
      Required("action", TLiteral(["interrupt", "emergency_stop"])),
      Required("target_skill_id", Optional(TStr)),
      Required("status", TLiteral(["completed", "failed", "unknown"])),
      Required("robot_idle_confirmed", TBool), Nullable("error", TStr)]
  }

  function Universe(traceId: string, now: real): Classes {
    ClassTable(EnvelopeFields(traceId, now), ImageRefFields(), ArtifactRefFields(), EvidenceFactFields(),
               SkillResultFields(), SkillControlResultFields())
  }

  function ClassTable(envelope: seq<Field>, image: seq<Field>, artifact: seq<Field>, evidence: seq<Field>,
                      skill: seq<Field>, control: seq<Field>): (env: Classes)
    ensures forall cls :: cls in env ==> env[cls] in [envelope, image, artifact, evidence, skill, control]
    ensures "ImageRef" in env && env["ImageRef"] == image
    ensures "ArtifactRef" in env && env["ArtifactRef"] == artifact
    ensures "Envelope" in env && env["Envelope"] == envelope
    ensures "EvidenceFact" in env && env["EvidenceFact"] == evidence
    ensures "SkillResult" in env && env["SkillResult"] == skill
    ensures "SkillControlResult" in env && env["SkillControlResult"] == control
  {
    map[
      "Envelope" := envelope,
      "ImageRef" := image,
      "ArtifactRef" := artifact,
      "EvidenceFact" := evidence,
      "SkillResult" := skill,
      "SkillControlResult" := control
    ]
  }

  lemma DistinctByNames(fields: seq<Field>)
    requires Distinct(Names(fields))
    ensures DistinctNames(fields)
  {
    forall i, j | 0 <= i < j < |fields| ensures fields[i].name != fields[j].name {
      assert Names(fields)[i] != Names(fields)[j];
    }
  }

  // The field names of each class, in order.
  const ENVELOPE_NAMES: seq<string> := [
    "trace_id", "episode_id", "turn_id", "channel", "account_id", "user_id",
    "chat_id", "chat_type", "sender_id", "message_id", "reply_to_id", "robot_id",
    "agent_id", "deployment_id", "timestamp"]

  const IMAGE_REF_NAMES: seq<string> := [
    "uri", "camera", "width", "height", "timestamp", "content_type",
    "size_bytes", "sha256", "metadata"]

  const ARTIFACT_REF_NAMES: seq<string> := [
    "uri", "artifact_type", "role", "name", "content_type", "size_bytes",
    "sha256", "metadata"]

  const EVIDENCE_FACT_NAMES: seq<string> := [
    "evidence_id", "task_id", "source_kind", "source_id", "observed_at", "frame_id",
    "subject_id", "predicate", "object_id", "artifacts"]

  const SKILL_RESULT_NAMES: seq<string> := [
    "envelope", "skill_id", "name", "status", "success", "steps_executed",
    "progress", "summary", "failure_mode", "frame_id", "error", "observations",
    "evidence", "metadata"]

  const SKILL_CONTROL_RESULT_NAMES: seq<string> := [
    "envelope", "control_id", "action", "target_skill_id", "status", "robot_idle_confirmed",
    "error"]

  lemma NamesAreDistinct()
    ensures Distinct(ENVELOPE_NAMES) && Distinct(IMAGE_REF_NAMES) && Distinct(ARTIFACT_REF_NAMES)
    ensures Distinct(EVIDENCE_FACT_NAMES) && Distinct(SKILL_RESULT_NAMES) && Distinct(SKILL_CONTROL_RESULT_NAMES)
  {
    ReferenceNamesAreDistinct();
  }

  lemma ReferenceNamesAreDistinct()
    ensures Distinct(IMAGE_REF_NAMES) && Distinct(ARTIFACT_REF_NAMES) && Distinct(EVIDENCE_FACT_NAMES)
  {
  }

  lemma EnvelopeNames(traceId: string, now: real)
    ensures DistinctNames(EnvelopeFields(traceId, now))
  {
    NamesAreDistinct();
    assert Names(EnvelopeFields(traceId, now)) == ENVELOPE_NAMES;
    DistinctByNames(EnvelopeFields(traceId, now));
  }

  lemma ImageRefNames()
    ensures DistinctNames(ImageRefFields())
  {
    NamesAreDistinct();
    assert Names(ImageRefFields()) == IMAGE_REF_NAMES;
    DistinctByNames(ImageRefFields());
  }

  lemma ArtifactRefNames()
    ensures DistinctNames(ArtifactRefFields())
  {
    NamesAreDistinct();
    assert Names(ArtifactRefFields()) == ARTIFACT_REF_NAMES;
    DistinctByNames(ArtifactRefFields());
  }

  lemma EvidenceFactNames()
    ensures DistinctNames(EvidenceFactFields())
  {
    NamesAreDistinct();
    assert Names(EvidenceFactFields()) == EVIDENCE_FACT_NAMES;
    DistinctByNames(EvidenceFactFields());
  }

  lemma SkillResultNames()
    ensures DistinctNames(SkillResultFields())
  {
    NamesAreDistinct();
    assert Names(SkillResultFields()) == SKILL_RESULT_NAMES;
    DistinctByNames(SkillResultFields());
  }

  lemma SkillControlResultNames()
    ensures DistinctNames(SkillControlResultFields())
  {
    NamesAreDistinct();
    assert Names(SkillControlResultFields()) == SKILL_CONTROL_RESULT_NAMES;
    DistinctByNames(SkillControlResultFields());
  }

  lemma GoodDefaultsAreTyped(env: Classes, fields: seq<Field>)
    requires GoodDefaults(fields)
    ensures forall i :: 0 <= i < |fields| && fields[i].default.Some? ==>
              WellTyped(env, fields[i].ty, fields[i].default.value)
  {
  }

  predicate GoodClass(fields: seq<Field>) { DistinctNames(fields) && GoodDefaults(fields) }

  lemma TableIsWellFormed(envelope: seq<Field>, image: seq<Field>, artifact: seq<Field>, evidence: seq<Field>,
                          skill: seq<Field>, control: seq<Field>)
    requires GoodClass(envelope) && GoodClass(image) && GoodClass(artifact)
    requires GoodClass(evidence) && GoodClass(skill) && GoodClass(control)
    ensures WellFormed(ClassTable(envelope, image, artifact, evidence, skill, control))
  {
    var env := ClassTable(envelope, image, artifact, evidence, skill, control);
    forall cls: string | cls in env
      ensures DistinctNames(env[cls])
      ensures forall i :: 0 <= i < |env[cls]| && env[cls][i].default.Some? ==>
                WellTyped(env, env[cls][i].ty, env[cls][i].default.value)
    {
      GoodDefaultsAreTyped(env, env[cls]);
    }
  }

  lemma UniverseIsWellFormed(traceId: string, now: real)
    ensures WellFormed(Universe(traceId, now))
  {
    EnvelopeNames(traceId, now);
    ImageRefNames();
    ArtifactRefNames();
    EvidenceFactNames();
    SkillResultNames();
    SkillControlResultNames();
    TableIsWellFormed(EnvelopeFields(traceId, now), ImageRefFields(), ArtifactRefFields(), EvidenceFactFields(),
                      SkillResultFields(), SkillControlResultFields());
  }

  lemma {:induction false} NoUnionIsSeparated(env: Classes, t: Ty)
    requires NoUnion(t)
    ensures SeparatedType(env, t)
  {
    match t {
      case TList(e) => NoUnionIsSeparated(env, e);
      case TTuple(e) => NoUnionIsSeparated(env, e);
      case _ =>
    }
  }

  lemma OnlyOptionalIsSeparated(env: Classes, fields: seq<Field>)
    requires OnlyOptional(fields)
    ensures forall i :: 0 <= i < |fields| ==> SeparatedType(env, fields[i].ty)
  {
    forall i | 0 <= i < |fields| ensures SeparatedType(env, fields[i].ty) {
      if NoUnion(fields[i].ty) {
        NoUnionIsSeparated(env, fields[i].ty);
      } else {
        NoUnionIsSeparated(env, fields[i].ty.arms[0]);
        assert SeparatedType(env, TNone);
      }
    }
  }

  lemma SkillOnlyOptional()
    ensures OnlyOptional(SkillResultFields())
  {
  }

  lemma ArtifactHasNoCamera()
    ensures "camera" !in Names(ArtifactRefFields())
  {
    var names := Names(ArtifactRefFields());
    assert names == ["uri", "artifact_type", "role", "name", "content_type", "size_bytes", "sha256", "metadata"];
  }

  // An artifact arm refuses every image: images have a camera.
  lemma ArtifactRefusesImage(traceId: string, now: real)
    ensures Refuses(Universe(traceId, now), TRec("ArtifactRef"), TRec("ImageRef"))
  {
    ArtifactHasNoCamera();
    RefusesByField(Universe(traceId, now), "ArtifactRef", "ImageRef", 1);
  }

  lemma RefusesByField(env: Classes, a: string, b: string, i: nat)
    requires a in env && b in env && i < |env[b]| && env[b][i].name !in Names(env[a])
    ensures Refuses(env, TRec(a), TRec(b))
  {
  }

  lemma EvidenceFieldsAreSeparated(env: Classes)
    requires Refuses(env, TRec("ArtifactRef"), TRec("ImageRef"))
    ensures forall i :: 0 <= i < |EvidenceFactFields()| ==> SeparatedType(env, EvidenceFactFields()[i].ty)
  {
    var fields := EvidenceFactFields();
    OnlyOptionalIsSeparated(env, fields[..9]);
    assert forall i :: 0 <= i < 9 ==> fields[i] == fields[..9][i];
    var arms := [TRec("ArtifactRef"), TRec("ImageRef")];
    assert SeparatedType(env, arms[0]) && SeparatedType(env, arms[1]);
    assert SeparatedType(env, TUnion(arms));
    assert fields[9].ty == TTuple(TUnion(arms));
  }

  ghost predicate SeparatedFields(env: Classes, fields: seq<Field>) {
    forall i :: 0 <= i < |fields| ==> SeparatedType(env, fields[i].ty)
  }

  lemma TableIsSeparated(envelope: seq<Field>, image: seq<Field>, artifact: seq<Field>, evidence: seq<Field>,
                         skill: seq<Field>, control: seq<Field>)
    requires OnlyOptional(envelope) && OnlyOptional(image) && OnlyOptional(artifact)
    requires OnlyOptional(skill) && OnlyOptional(control)
    requires SeparatedFields(ClassTable(envelope, image, artifact, evidence, skill, control), evidence)
    ensures Separated(ClassTable(envelope, image, artifact, evidence, skill, control))
  {
    var env := ClassTable(envelope, image, artifact, evidence, skill, control);
    forall cls: string | cls in env ensures SeparatedFields(env, env[cls]) {
      if env[cls] != evidence { OnlyOptionalIsSeparated(env, env[cls]); }
    }
  }

  lemma UniverseIsSeparated(traceId: string, now: real)
    ensures Separated(Universe(traceId, now))
  {
    ArtifactRefusesImage(traceId, now);
    EvidenceFieldsAreSeparated(Universe(traceId, now));
    SkillOnlyOptional();
    TableIsSeparated(EnvelopeFields(traceId, now), ImageRefFields(), ArtifactRefFields(), EvidenceFactFields(),
                     SkillResultFields(), SkillControlResultFields());
  }

  // Evidence, skill results and control results survive the wire exactly when their
  // metadata dictionaries hold plain values.
  lemma ProtocolRoundTrip(traceId: string, now: real, cls: string, v: Val, json: bool)
    requires cls in Universe(traceId, now) && WellTyped(Universe(traceId, now), TRec(cls), v)
    ensures Decode(Universe(traceId, now), Encode(Universe(traceId, now), v, json), TRec(cls)) == Accept(v)
       <==> Carried(Universe(traceId, now), TRec(cls), v, json)
  {
    UniverseIsWellFormed(traceId, now);
    UniverseIsSeparated(traceId, now);
    RoundTrip(Universe(traceId, now), TRec(cls), v, json);
  }

  // ---------------------------------------------------------------- what JSON does to metadata

  const METADATA_INDEX := 13

  lemma TupleIsNotCarried(env: Classes, cls: string, v: Val, n: nat, i: nat)
    requires cls in env && v.VRec? && n < |v.items| == |env[cls]| && env[cls][n].ty == TDict
    requires v.items[n].VDict? && i < |v.items[n].items| && v.items[n].items[i].VTuple?
    ensures !Carried(env, TRec(cls), v, true)
  {
    assert !Plain(v.items[n].items[i], true);
    assert !Carried(env, env[cls][n].ty, v.items[n], true);
  }

  // What the lemmas below use of the skill result's fields.
  predicate SkillShaped(fields: seq<Field>) {
    && |fields| == 14 && fields[0].ty == TRec("Envelope") && fields[1].ty == TStr && fields[METADATA_INDEX].ty == TDict
    && fields[3].default == Some(VStr("unknown")) && fields[4].default == Some(VNone)
    && fields[12].default == Some(VTuple([]))
    && forall i :: 2 <= i < 14 ==> fields[i].default.Some?
  }

  predicate AllDefault(fields: seq<Field>) { forall i :: 0 <= i < |fields| ==> fields[i].default.Some? }

  lemma SkillIsShaped()
    ensures SkillShaped(SkillResultFields())
  {
  }

  // A tuple in the metadata of any skill result does not survive a trip through JSON.
  lemma MetadataTupleIsLost(traceId: string, now: real, v: Val, i: nat)
    requires WellTyped(Universe(traceId, now), TRec("SkillResult"), v)
    requires |v.items| > METADATA_INDEX && v.items[METADATA_INDEX].VDict?
    requires i < |v.items[METADATA_INDEX].items| && v.items[METADATA_INDEX].items[i].VTuple?
    ensures Decode(Universe(traceId, now), Encode(Universe(traceId, now), v, true), TRec("SkillResult")) != Accept(v)
  {
    SkillIsShaped();
    ProtocolRoundTrip(traceId, now, "SkillResult", v, true);
    TupleIsNotCarried(Universe(traceId, now), "SkillResult", v, METADATA_INDEX, i);
  }

  // A message most of whose fields have their default values.
  ghost predicate MostlyDefault(env: Classes, cls: string, items: seq<Val>, given: set<nat>) {
    && cls in env && |items| == |env[cls]| && GoodDefaults(env[cls])
    && forall i: nat :: i < |items| && i !in given ==> env[cls][i].default == Some(items[i])
  }

  lemma MostlyDefaultIsTyped(env: Classes, cls: string, items: seq<Val>, given: set<nat>)
    requires MostlyDefault(env, cls, items, given) && Validate(env, cls, items)
    requires forall i: nat :: i < |items| && i in given ==> WellTyped(env, env[cls][i].ty, items[i])
    ensures WellTyped(env, TRec(cls), VRec(cls, items))
  {
    GoodDefaultsAreTyped(env, env[cls]);
    forall i: nat | i < |items| ensures WellTyped(env, env[cls][i].ty, items[i]) {
      if i !in given { assert env[cls][i].default == Some(items[i]); }
    }
  }

  lemma MostlyDefaultIsCarried(env: Classes, cls: string, items: seq<Val>, given: set<nat>, json: bool)
    requires MostlyDefault(env, cls, items, given)
    requires forall i: nat :: i < |items| && i in given ==> Carried(env, env[cls][i].ty, items[i], json)
    ensures Carried(env, TRec(cls), VRec(cls, items), json)
  {
    forall i: nat | i < |items| ensures Carried(env, env[cls][i].ty, items[i], json) {
      if i !in given { DefaultIsCarried(env, env[cls][i].ty, items[i], json); }
    }
  }

  lemma DefaultIsCarried(env: Classes, t: Ty, d: Val, json: bool)
    requires GoodDefault(t, d)
    ensures Carried(env, t, d, json)
  {
  }

  function Defaults(fields: seq<Field>): (vs: seq<Val>)
    requires AllDefault(fields)
    ensures |vs| == |fields| && forall i :: 0 <= i < |fields| ==> fields[i].default == Some(vs[i])
  {
    seq(|fields|, i requires 0 <= i < |fields| => fields[i].default.value)
  }

  lemma EnvelopeHasDefaults(traceId: string, now: real)
    ensures AllDefault(EnvelopeFields(traceId, now))
  {
  }

  lemma {:induction false} IndexOfName(names: seq<string>, i: nat)
    requires Distinct(names) && i < |names|
    ensures IndexOf(names, names[i]) == i
  {
    if i > 0 {
      assert names[0] != names[i] && names[1..][i - 1] == names[i];
      IndexOfName(names[1..], i - 1);
    }
  }

  // A result of unknown status without evidence passes the cross-field checks.
  lemma UnknownIsValid(env: Classes, names: seq<string>, items: seq<Val>)
    requires "SkillResult" in env && Names(env["SkillResult"]) == names && Distinct(names)
    requires |names| == |items| == 14 && names[3] == "status" && names[4] == "success" && names[12] == "evidence"
    requires items[3] == VStr("unknown") && items[4].VNone? && items[12] == VTuple([])
    ensures Validate(env, "SkillResult", items)
  {
    IndexOfName(names, 3);
    IndexOfName(names, 4);
    IndexOfName(names, 12);
  }

  // A skill result with nothing set but its id and a point, kept as a tuple in its metadata.
  function PointResult(envelope: Val, x: int, y: int, fields: seq<Field>): (v: Val)
    requires |fields| == 14 && forall i :: 2 <= i < 14 ==> fields[i].default.Some?
    ensures v.VRec? && v.cls == "SkillResult" && |v.items| == 14
    ensures v.items[0] == envelope && v.items[1] == VStr("s")
    ensures v.items[METADATA_INDEX] == VDict(["point"], [VTuple([VInt(x), VInt(y)])])
    ensures forall i :: 2 <= i < METADATA_INDEX ==> fields[i].default == Some(v.items[i])
  {
    var rest := Defaults(fields[2..METADATA_INDEX]);
    VRec("SkillResult", [envelope, VStr("s")] + rest + [VDict(["point"], [VTuple([VInt(x), VInt(y)])])])
  }

  lemma EnvelopeIsFine(env: Classes, items: seq<Val>)
    requires MostlyDefault(env, "Envelope", items, {})
    ensures WellTyped(env, TRec("Envelope"), VRec("Envelope", items))
    ensures Carried(env, TRec("Envelope"), VRec("Envelope", items), false)
  {
    MostlyDefaultIsTyped(env, "Envelope", items, {});
    MostlyDefaultIsCarried(env, "Envelope", items, {}, false);
  }

  // The three fields that are given have values of their types.
  ghost predicate PointGiven(env: Classes, fields: seq<Field>, items: seq<Val>) {
    && SkillShaped(fields) && |items| == 14 && items[1] == VStr("s")
    && WellTyped(env, TRec("Envelope"), items[0]) && Carried(env, TRec("Envelope"), items[0], false)
    && items[METADATA_INDEX].VDict? && Plain(items[METADATA_INDEX], false)
  }

  lemma PointIsTyped(env: Classes, items: seq<Val>)
    requires MostlyDefault(env, "SkillResult", items, {0, 1, METADATA_INDEX})
    requires PointGiven(env, env["SkillResult"], items) && Validate(env, "SkillResult", items)
    ensures WellTyped(env, TRec("SkillResult"), VRec("SkillResult", items))
  {
    GivenIsTyped(env, env["SkillResult"], items);
    MostlyDefaultIsTyped(env, "SkillResult", items, {0, 1, METADATA_INDEX});
  }

  lemma GivenIsTyped(env: Classes, fields: seq<Field>, items: seq<Val>)
    requires PointGiven(env, fields, items)
    ensures WellTyped(env, fields[0].ty, items[0]) && WellTyped(env, fields[1].ty, items[1])
    ensures WellTyped(env, fields[METADATA_INDEX].ty, items[METADATA_INDEX])
  {
  }

  lemma PointIsCarried(env: Classes, items: seq<Val>)
    requires MostlyDefault(env, "SkillResult", items, {0, 1, METADATA_INDEX})
    requires PointGiven(env, env["SkillResult"], items)
    ensures Carried(env, TRec("SkillResult"), VRec("SkillResult", items), false)
  {
    GivenIsCarried(env, env["SkillResult"], items);
    MostlyDefaultIsCarried(env, "SkillResult", items, {0, 1, METADATA_INDEX}, false);
  }

  lemma GivenIsCarried(env: Classes, fields: seq<Field>, items: seq<Val>)
    requires PointGiven(env, fields, items)
    ensures Carried(env, fields[0].ty, items[0], false) && Carried(env, fields[1].ty, items[1], false)
    ensures Carried(env, fields[METADATA_INDEX].ty, items[METADATA_INDEX], false)
  {
  }

  // Such a result comes back whole when it is only copied, and not through JSON.
  lemma PointSurvivesUnlessJson(traceId: string, now: real, x: int, y: int)
    ensures exists v {:trigger WellTyped(Universe(traceId, now), TRec("SkillResult"), v)} ::
      && WellTyped(Universe(traceId, now), TRec("SkillResult"), v)
      && |v.items| == 14 && v.items[METADATA_INDEX] == VDict(["point"], [VTuple([VInt(x), VInt(y)])])
      && Decode(Universe(traceId, now), Encode(Universe(traceId, now), v, false), TRec("SkillResult")) == Accept(v)
      && Decode(Universe(traceId, now), Encode(Universe(traceId, now), v, true), TRec("SkillResult")) != Accept(v)
  {
    SkillIsShaped();
    SkillNameList();
    EnvelopeHasDefaults(traceId, now);
    var v := TypedPoint(Universe(traceId, now), SKILL_RESULT_NAMES, x, y);
    ProtocolRoundTrip(traceId, now, "SkillResult", v, false);
    MetadataTupleIsLost(traceId, now, v, 0);
  }

  lemma TypedPoint(env: Classes, names: seq<string>, x: int, y: int) returns (v: Val)
    requires "SkillResult" in env && SkillShaped(env["SkillResult"]) && GoodDefaults(env["SkillResult"])
    requires "Envelope" in env && AllDefault(env["Envelope"]) && GoodDefaults(env["Envelope"])
    requires Names(env["SkillResult"]) == names && Distinct(names) && |names| == 14
    requires names[3] == "status" && names[4] == "success" && names[12] == "evidence"
    ensures WellTyped(env, TRec("SkillResult"), v) && Carried(env, TRec("SkillResult"), v, false)
    ensures |v.items| == 14 && v.items[METADATA_INDEX] == VDict(["point"], [VTuple([VInt(x), VInt(y)])])
  {
    var envelope := Defaults(env["Envelope"]);
    EnvelopeIsFine(env, envelope);
    v := PointResult(VRec("Envelope", envelope), x, y, env["SkillResult"]);
    UnknownIsValid(env, names, v.items);
    PointIsTyped(env, v.items);
    PointIsCarried(env, v.items);
  }

  lemma SkillNameList()
    ensures Names(SkillResultFields()) == SKILL_RESULT_NAMES && Distinct(SKILL_RESULT_NAMES)
    ensures |SKILL_RESULT_NAMES| == 14 && SKILL_RESULT_NAMES[3] == "status"
            && SKILL_RESULT_NAMES[4] == "success" && SKILL_RESULT_NAMES[12] == "evidence"
  {
    NamesAreDistinct();
    assert Names(SkillResultFields()) == SKILL_RESULT_NAMES;
  }
}
