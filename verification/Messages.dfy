/**
 The typed message codec: dataclass types as data, `asdict` as the encoder and the
 type-directed decoder with its cross-field checks.  A payload may also travel
 through JSON, which turns every tuple into a list.
 */
module Messages {
  import opened Wrappers
  import opened Text

  datatype Ty =
    | TStr | TInt | TFloat | TBool
    | TLiteral(words: seq<string>)
    | TNone                      // the None arm of a union
    | TUnion(arms: seq<Ty>)
    | TList(elem: Ty)
    | TTuple(elem: Ty)           // tuple[X, ...]
    | TDict                      // dict[str, Any]
    | TAny
    | TRec(cls: string)

  datatype Val =
    | VNone
    | VStr(s: string)
    | VInt(i: int)
    | VFloat(r: real)
    | VBool(b: bool)
    | VList(items: seq<Val>)
    | VTuple(items: seq<Val>)
    | VDict(keys: seq<string>, items: seq<Val>)
    | VRec(cls: string, items: seq<Val>)  // a dataclass instance, fields in declaration order

  // A field with the value its default or default factory would give.
  datatype Field = Field(name: string, ty: Ty, default: Option<Val>)

  type Classes = map<string, seq<Field>>

  datatype Decoded<T> = Accept(value: T) | Reject

  // ---------------------------------------------------------------- encoding

  function Names(fields: seq<Field>): (r: seq<string>)
    ensures |r| == |fields| && forall i :: 0 <= i < |fields| ==> r[i] == fields[i].name
  {
    seq(|fields|, i requires 0 <= i < |fields| => fields[i].name)
  }

  // asdict, followed by JSON's loss of tuples when `json` is set.
  function Encode(env: Classes, v: Val, json: bool): Val {
    match v
    case VList(items) => VList(EncodeAll(env, items, json))
    case VTuple(items) => if json then VList(EncodeAll(env, items, json)) else VTuple(EncodeAll(env, items, json))
    case VDict(keys, items) => VDict(keys, EncodeAll(env, items, json))
    case VRec(cls, items) =>
      VDict(if cls in env then Names(env[cls]) else [], EncodeAll(env, items, json))
    case _ => v
  }

  function EncodeAll(env: Classes, vs: seq<Val>, json: bool): (r: seq<Val>)
    ensures |r| == |vs|
    ensures forall i :: 0 <= i < |vs| ==> r[i] == Encode(env, vs[i], json)
  {
    if vs == [] then [] else [Encode(env, vs[0], json)] + EncodeAll(env, vs[1..], json)
  }

  // ---------------------------------------------------------------- decoding

  function IndexOf(keys: seq<string>, name: string): (i: nat)
    ensures i <= |keys|
    ensures i < |keys| ==> keys[i] == name
    ensures forall j :: 0 <= j < i ==> keys[j] != name
  {
    if keys == [] || keys[0] == name then 0 else IndexOf(keys[1..], name) + 1
  }

  function Decode(env: Classes, v: Val, t: Ty): Decoded<Val>
    decreases v, t
  {
    if v.VNone? then
      if t.TUnion? && TNone in t.arms then Accept(VNone) else Reject
    else match t
      case TUnion(arms) => DecodeArms(env, v, arms)
      case TLiteral(words) => if v.VStr? && v.s in words then Accept(v) else Reject
      case TList(elem) =>
        if v.VList? || v.VTuple?
        then match DecodeAll(env, v.items, elem) case Accept(vs) => Accept(VList(vs)) case Reject => Reject
        else Reject
      case TTuple(elem) =>
        if v.VList? || v.VTuple?
        then match DecodeAll(env, v.items, elem) case Accept(vs) => Accept(VTuple(vs)) case Reject => Reject
        else Reject
      case TDict => if v.VDict? then Accept(v) else Reject
      case TAny => Accept(v)
      case TRec(cls) =>
        if v.VRec? && v.cls == cls then Accept(v)
        else if v.VDict? && |v.keys| == |v.items| && cls in env then DecodeRecord(env, cls, v.keys, v.items)
        else Reject
      case TFloat =>
        if v.VFloat? then Accept(v) else if v.VInt? then Accept(VFloat(v.i as real)) else Reject
      case TInt => if v.VInt? then Accept(v) else Reject
      case TBool => if v.VBool? then Accept(v) else Reject
      case TStr => if v.VStr? then Accept(v) else Reject
      case TNone => Reject
  }

  // The first arm that accepts wins.
  function DecodeArms(env: Classes, v: Val, arms: seq<Ty>): Decoded<Val>
    requires !v.VNone?
    decreases v, arms
  {
    if arms == [] then Reject
    else if arms[0].TNone? then DecodeArms(env, v, arms[1..])
    else match Decode(env, v, arms[0])
      case Accept(x) => Accept(x)
      case Reject => DecodeArms(env, v, arms[1..])
  }

  function DecodeAll(env: Classes, vs: seq<Val>, t: Ty): (r: Decoded<seq<Val>>)
    ensures r.Accept? ==> |r.value| == |vs| && forall i :: 0 <= i < |vs| ==> Decode(env, vs[i], t) == Accept(r.value[i])
    ensures r.Reject? ==> exists i :: 0 <= i < |vs| && Decode(env, vs[i], t).Reject?
    decreases vs, t
  {
    if vs == [] then Accept([])
    else match Decode(env, vs[0], t)
      case Reject => Reject
      case Accept(x) =>
        match DecodeAll(env, vs[1..], t)
        case Reject => assert exists i :: 0 <= i < |vs[1..]| && Decode(env, vs[1..][i], t).Reject?; Reject
        case Accept(xs) => Accept([x] + xs)
  }

  function DecodeFields(env: Classes, keys: seq<string>, vs: seq<Val>, fields: seq<Field>): Decoded<seq<Val>>
    requires |keys| == |vs|
    decreases vs, fields, 0
  {
    if fields == [] then Accept([])
    else
      var i := IndexOf(keys, fields[0].name);
      var first := if i < |keys| then Decode(env, vs[i], fields[0].ty)
                   else match fields[0].default case Some(d) => Accept(d) case None => Reject;
      if first.Reject? then Reject
      else match DecodeFields(env, keys, vs, fields[1..])
        case Reject => Reject
        case Accept(xs) => Accept([first.value] + xs)
  }

  // from_payload: unknown fields are refused, missing ones take their default, and
  // the finished message must pass its cross-field checks.
  function DecodeRecord(env: Classes, cls: string, keys: seq<string>, vs: seq<Val>): Decoded<Val>
    requires cls in env && |keys| == |vs|
    decreases vs, env[cls], 1
  {
    if exists i :: 0 <= i < |keys| && keys[i] !in Names(env[cls]) then Reject
    else match DecodeFields(env, keys, vs, env[cls])
      case Reject => Reject
      case Accept(xs) => if Validate(env, cls, xs) then Accept(VRec(cls, xs)) else Reject
  }

  // ---------------------------------------------------------------- cross-field checks

  function Get(env: Classes, cls: string, items: seq<Val>, name: string): Val {
    if cls in env then
      var i := IndexOf(Names(env[cls]), name);
      if i < |items| then items[i] else VNone
    else VNone
  }

  predicate Empty(v: Val) { v == VStr("") || v.VNone? }

  function UpTo(s: string, ch: char): (r: string)
    ensures r <= s && ch !in r && (r == s || s[|r|] == ch)
  {
    if s == "" || s[0] == ch then "" else [s[0]] + UpTo(s[1..], ch)
  }

  const STATUS := "status:"

  // The source id a robot_status fact must carry, rebuilt as the code rebuilds it:
  // from the text between the first and second colon.
  function ExpectedStatusSource(source: string, frame: int): string {
    STATUS + ExpectedSuffix(source) + ":" + Decimal(frame)
  }

  function ExpectedSuffix(source: string): (robot: string)
    ensures ':' !in robot
  {
    if STATUS <= source then UpTo(source[|STATUS|..], ':') else ""
  }

  predicate ValidEvidence(env: Classes, items: seq<Val>) {
    var get := name => Get(env, "EvidenceFact", items, name);
    && !Empty(get("evidence_id")) && !Empty(get("task_id")) && !Empty(get("source_id"))
    && (get("source_kind") == VStr("robot_status") ==>
          && get("frame_id").VInt?
          && get("source_id").VStr?
          && get("source_id").s == ExpectedStatusSource(get("source_id").s, get("frame_id").i))
  }

  predicate ValidResult(env: Classes, items: seq<Val>) {
    var get := name => Get(env, "SkillResult", items, name);
    && (get("status") == VStr("completed") ==> get("success") == VBool(true))
    && (get("status") in {VStr("failed"), VStr("interrupted")} ==> get("success") == VBool(false))
    && (get("status") == VStr("unknown") ==> get("success").VNone?)
    && (get("evidence").VTuple? ==>
          forall i :: 0 <= i < |get("evidence").items| ==>
            var fact := get("evidence").items[i];
            fact.VRec? ==>
              && Get(env, "EvidenceFact", fact.items, "source_kind") == VStr("skill_result")
              && Get(env, "EvidenceFact", fact.items, "source_id") == get("skill_id"))
  }

  predicate ValidControl(env: Classes, items: seq<Val>) {
    var get := name => Get(env, "SkillControlResult", items, name);
    get("status") == VStr("completed") <==> get("robot_idle_confirmed") == VBool(true)
  }

  predicate Validate(env: Classes, cls: string, items: seq<Val>) {
    && (cls == "EvidenceFact" ==> ValidEvidence(env, items))
    && (cls == "SkillResult" ==> ValidResult(env, items))
    && (cls == "SkillControlResult" ==> ValidControl(env, items))
  }

  // ---------------------------------------------------------------- well-typed values

  // Values that pass through undecoded: no dataclass instance, and no tuple when
  // the payload goes through JSON.
  predicate Plain(v: Val, json: bool) {
    match v
    case VRec(_, _) => false
    case VTuple(items) => !json && forall i :: 0 <= i < |items| ==> Plain(items[i], json)
    case VList(items) => forall i :: 0 <= i < |items| ==> Plain(items[i], json)
    case VDict(_, items) => forall i :: 0 <= i < |items| ==> Plain(items[i], json)
    case _ => true
  }

  // `v` is a value of type `t` whose messages all pass their checks.
  predicate WellTyped(env: Classes, t: Ty, v: Val)
    decreases v, t
  {
    match t
    case TUnion(arms) => if v.VNone? then TNone in arms else InSomeArm(env, arms, v)
    case TNone => false
    case TStr => v.VStr?
    case TInt => v.VInt?
    case TFloat => v.VFloat?
    case TBool => v.VBool?
    case TLiteral(words) => v.VStr? && v.s in words
    case TList(elem) => v.VList? && forall i :: 0 <= i < |v.items| ==> WellTyped(env, elem, v.items[i])
    case TTuple(elem) => v.VTuple? && forall i :: 0 <= i < |v.items| ==> WellTyped(env, elem, v.items[i])
    case TDict => v.VDict?
    case TAny => !v.VNone?
    case TRec(cls) =>
      && v.VRec? && v.cls == cls && cls in env && |v.items| == |env[cls]|
      && (forall i :: 0 <= i < |v.items| ==> WellTyped(env, env[cls][i].ty, v.items[i]))
      && Validate(env, cls, v.items)
  }

  predicate InSomeArm(env: Classes, arms: seq<Ty>, v: Val)
    decreases v, arms
  {
    arms != [] && (WellTyped(env, arms[0], v) || InSomeArm(env, arms[1..], v))
  }

  // Everything the decoder hands on undecoded, in dictionaries and under Any, is plain.
  predicate Carried(env: Classes, t: Ty, v: Val, json: bool)
    decreases v, t
  {
    match t
    case TUnion(arms) => v.VNone? || forall i :: 0 <= i < |arms| && WellTyped(env, arms[i], v) ==> Carried(env, arms[i], v, json)
    case TList(elem) => v.VList? ==> forall i :: 0 <= i < |v.items| ==> Carried(env, elem, v.items[i], json)
    case TTuple(elem) => v.VTuple? ==> forall i :: 0 <= i < |v.items| ==> Carried(env, elem, v.items[i], json)
    case TDict => Plain(v, json)
    case TAny => Plain(v, json)
    case TRec(cls) =>
      v.VRec? && cls in env && |v.items| == |env[cls]| ==>
        forall i :: 0 <= i < |v.items| ==> Carried(env, env[cls][i].ty, v.items[i], json)
    case _ => true
  }

  // Every message object already inside a payload is itself well typed and checked; a
  // payload made by the encoder holds none.
  predicate Trusted(env: Classes, v: Val)
    decreases v
  {
    match v
    case VRec(cls, _) => WellTyped(env, TRec(cls), v)
    case VList(items) => forall i :: 0 <= i < |items| ==> Trusted(env, items[i])
    case VTuple(items) => forall i :: 0 <= i < |items| ==> Trusted(env, items[i])
    case VDict(_, items) => forall i :: 0 <= i < |items| ==> Trusted(env, items[i])
    case _ => true
  }

  // Field names are distinct and every default is a value of its field's type.
  ghost predicate WellFormed(env: Classes) {
    forall cls {:trigger env[cls]} :: cls in env ==>
      && (forall i, j :: 0 <= i < j < |env[cls]| ==> env[cls][i].name != env[cls][j].name)
      && (forall i :: 0 <= i < |env[cls]| && env[cls][i].default.Some? ==>
            WellTyped(env, env[cls][i].ty, env[cls][i].default.value))
  }
}
