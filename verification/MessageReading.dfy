/**
 What the message decoder accepts and what it makes of a payload, field by field, and the
 cross-field checks in terms of the fields themselves.
 */
module MessageReading {
  import opened Wrappers
  import opened Lists
  import opened Text
  import opened Messages
  import opened MessagesProofs
  import opened MessageUniverse

  // ---------------------------------------------------------------- fields and defaults

  // The field's value is the decoded payload entry of its name, or its default where there is none.
  ghost predicate FieldRead(env: Classes, f: Field, keys: seq<string>, vs: seq<Val>, x: Val)
    requires |keys| == |vs|
  {
    if f.name in keys
    then exists j :: 0 <= j < |keys| && FirstAt(keys, f.name, j) && Decode(env, vs[j], f.ty) == Accept(x)
    else f.default == Some(x)
  }

  predicate FirstAt(keys: seq<string>, name: string, j: nat)
    requires j < |keys|
  {
    keys[j] == name && name !in keys[..j]
  }

  ghost predicate FieldsRead(env: Classes, fields: seq<Field>, keys: seq<string>, vs: seq<Val>, xs: seq<Val>)
    requires |keys| == |vs|
  {
    |xs| == |fields| && forall i :: 0 <= i < |fields| ==> FieldRead(env, fields[i], keys, vs, xs[i])
  }

  ghost predicate KeysKnown(fields: seq<Field>, keys: seq<string>) {
    forall k :: k in keys ==> exists i :: 0 <= i < |fields| && fields[i].name == k
  }

  lemma FieldReadIff(env: Classes, f: Field, keys: seq<string>, vs: seq<Val>, x: Val)
    requires |keys| == |vs|
    ensures var i := IndexOf(keys, f.name);
      FieldRead(env, f, keys, vs, x) <==>
        if i < |keys| then Decode(env, vs[i], f.ty) == Accept(x) else f.default == Some(x)
  {
    var i := IndexOf(keys, f.name);
    if i < |keys| {
      assert f.name in keys && FirstAt(keys, f.name, i);
      assert forall j :: i < j < |keys| ==> keys[..j][i] == f.name;
      assert forall j :: 0 <= j < |keys| && FirstAt(keys, f.name, j) ==> j == i;
    }
  }

  lemma {:induction false} FieldsReadIff(env: Classes, fields: seq<Field>, keys: seq<string>, vs: seq<Val>, xs: seq<Val>)
    requires |keys| == |vs|
    ensures DecodeFields(env, keys, vs, fields) == Accept(xs) <==> FieldsRead(env, fields, keys, vs, xs)
    decreases |fields|
  {
    if fields != [] && xs != [] {
      FieldReadIff(env, fields[0], keys, vs, xs[0]);
      FieldsReadIff(env, fields[1..], keys, vs, xs[1..]);
      FieldsReadFirst(env, fields, keys, vs, xs);
      var rest := DecodeFields(env, keys, vs, fields[1..]);
      if rest.Accept? { FirstAndRest(xs, rest.value); }
    }
  }

  lemma FirstAndRest(xs: seq<Val>, rest: seq<Val>)
    requires xs != []
    ensures forall x :: [x] + rest == xs <==> x == xs[0] && rest == xs[1..]
  {
    assert xs == [xs[0]] + xs[1..];
    forall x ensures [x] + rest == xs <==> x == xs[0] && rest == xs[1..] {
      if [x] + rest == xs { assert ([x] + rest)[0] == x && ([x] + rest)[1..] == rest; }
    }
  }

  lemma FieldsReadFirst(env: Classes, fields: seq<Field>, keys: seq<string>, vs: seq<Val>, xs: seq<Val>)
    requires |keys| == |vs| && fields != [] && xs != []
    ensures FieldsRead(env, fields, keys, vs, xs) <==>
              FieldRead(env, fields[0], keys, vs, xs[0]) && FieldsRead(env, fields[1..], keys, vs, xs[1..])
  {
    if FieldRead(env, fields[0], keys, vs, xs[0]) && FieldsRead(env, fields[1..], keys, vs, xs[1..]) {
      forall i | 0 <= i < |fields| ensures FieldRead(env, fields[i], keys, vs, xs[i]) {
        if i > 0 { assert fields[1..][i - 1] == fields[i] && xs[1..][i - 1] == xs[i]; }
      }
    }
  }

  // An object payload is accepted exactly when all its keys are fields, every field reads,
  // by its entry or by its default, and the message passes its checks.
  lemma RecordAcceptedIff(env: Classes, cls: string, keys: seq<string>, vs: seq<Val>, xs: seq<Val>)
    requires cls in env && |keys| == |vs|
    ensures Decode(env, VDict(keys, vs), TRec(cls)) == Accept(VRec(cls, xs)) <==>
              && KeysKnown(env[cls], keys)
              && FieldsRead(env, env[cls], keys, vs, xs)
              && Validate(env, cls, xs)
    ensures Decode(env, VDict(keys, vs), TRec(cls)).Accept? ==>
              Decode(env, VDict(keys, vs), TRec(cls)).value.VRec? && Decode(env, VDict(keys, vs), TRec(cls)).value.cls == cls
  {
    FieldsReadIff(env, env[cls], keys, vs, xs);
    KnownIff(env[cls], keys);
  }

  lemma KnownIff(fields: seq<Field>, keys: seq<string>)
    ensures KeysKnown(fields, keys) <==> !exists i :: 0 <= i < |keys| && keys[i] !in Names(fields)
  {
    forall k ensures k in Names(fields) <==> exists i :: 0 <= i < |fields| && fields[i].name == k {
      if k in Names(fields) {
        var i :| 0 <= i < |fields| && Names(fields)[i] == k;
        assert fields[i].name == k;
      }
      forall i | 0 <= i < |fields| && fields[i].name == k ensures k in Names(fields) { assert Names(fields)[i] == k; }
    }
    assert (forall k :: k in keys ==> k in Names(fields)) <==> forall i :: 0 <= i < |keys| ==> keys[i] in Names(fields);
  }

  // ---------------------------------------------------------------- values, arrays and unions

  // A value is accepted as it is exactly where it has the type asked for, an integer as a
  // float too, and None only where the union says so.
  lemma ScalarAcceptedIff(env: Classes, v: Val)
    ensures Decode(env, v, TStr) == (if v.VStr? then Accept(v) else Reject)
    ensures Decode(env, v, TInt) == (if v.VInt? then Accept(v) else Reject)
    ensures Decode(env, v, TBool) == (if v.VBool? then Accept(v) else Reject)
    ensures Decode(env, v, TFloat)
         == if v.VFloat? then Accept(v) else if v.VInt? then Accept(VFloat(v.i as real)) else Reject
    ensures Decode(env, v, TDict) == (if v.VDict? then Accept(v) else Reject)
    ensures Decode(env, v, TAny) == (if v.VNone? then Reject else Accept(v))
    ensures forall words :: Decode(env, v, TLiteral(words)) == if v.VStr? && v.s in words then Accept(v) else Reject
    ensures v.VNone? ==> forall arms :: Decode(env, v, TUnion(arms)) == if TNone in arms then Accept(v) else Reject
  {
  }

  // An array is accepted, from a list or a tuple, exactly when all its items are.
  lemma ArrayAcceptedIff(env: Classes, v: Val, elem: Ty, xs: seq<Val>)
    ensures Decode(env, v, TList(elem)) == Accept(VList(xs)) <==> ItemsAccepted(env, v, elem, xs)
    ensures Decode(env, v, TTuple(elem)) == Accept(VTuple(xs)) <==> ItemsAccepted(env, v, elem, xs)
    ensures Decode(env, v, TList(elem)).Accept? ==> Decode(env, v, TList(elem)).value.VList?
    ensures Decode(env, v, TTuple(elem)).Accept? ==> Decode(env, v, TTuple(elem)).value.VTuple?
  {
    if (v.VList? || v.VTuple?) && ItemsAccepted(env, v, elem, xs) {
      var r := DecodeAll(env, v.items, elem);
      assert r.Accept? && r.value == xs;
    }
  }

  ghost predicate ItemsAccepted(env: Classes, v: Val, elem: Ty, xs: seq<Val>) {
    && (v.VList? || v.VTuple?) && |xs| == |v.items|
    && forall i :: 0 <= i < |xs| ==> Decode(env, v.items[i], elem) == Accept(xs[i])
  }

  // A union takes what its first accepting arm makes of the payload.
  lemma UnionAcceptedIff(env: Classes, v: Val, arms: seq<Ty>, x: Val)
    requires !v.VNone?
    ensures Decode(env, v, TUnion(arms)) == Accept(x) <==> exists i :: FirstArm(env, v, arms, x, i)
  {
    ArmsAcceptedIff(env, v, arms, x);
  }

  ghost predicate FirstArm(env: Classes, v: Val, arms: seq<Ty>, x: Val, i: int) {
    && 0 <= i < |arms| && !arms[i].TNone? && Decode(env, v, arms[i]) == Accept(x)
    && AllSkipped(env, v, arms[..i])
  }

  ghost predicate AllSkipped(env: Classes, v: Val, arms: seq<Ty>) {
    forall j :: 0 <= j < |arms| ==> arms[j].TNone? || Decode(env, v, arms[j]).Reject?
  }

  lemma AllSkippedCons(env: Classes, v: Val, arms: seq<Ty>, i: nat)
    requires 0 < i <= |arms|
    ensures AllSkipped(env, v, arms[..i]) <==>
      (arms[0].TNone? || Decode(env, v, arms[0]).Reject?) && AllSkipped(env, v, arms[1..][..i - 1])
  {
    var some, rest := arms[..i], arms[1..][..i - 1];
    assert some[0] == arms[0];
    assert forall j :: 0 <= j < |rest| ==> rest[j] == some[j + 1];
    assert forall j :: 1 <= j < |some| ==> some[j] == rest[j - 1];
  }

  lemma FirstArmCons(env: Classes, v: Val, arms: seq<Ty>, x: Val, i: int)
    requires arms != [] && i != 0
    ensures FirstArm(env, v, arms, x, i) <==>
      (arms[0].TNone? || Decode(env, v, arms[0]).Reject?) && FirstArm(env, v, arms[1..], x, i - 1)
  {
    if 0 < i < |arms| {
      AllSkippedCons(env, v, arms, i);
      assert arms[1..][i - 1] == arms[i];
    }
  }

  lemma {:induction false} ArmsAcceptedIff(env: Classes, v: Val, arms: seq<Ty>, x: Val)
    requires !v.VNone?
    ensures DecodeArms(env, v, arms) == Accept(x) <==> exists i :: FirstArm(env, v, arms, x, i)
    decreases arms
  {
    if arms == [] {
    } else if arms[0].TNone? || Decode(env, v, arms[0]).Reject? {
      ArmsAcceptedIff(env, v, arms[1..], x);
      if DecodeArms(env, v, arms) == Accept(x) {
        var i :| FirstArm(env, v, arms[1..], x, i);
        FirstArmCons(env, v, arms, x, i + 1);
      }
      forall i | FirstArm(env, v, arms, x, i) ensures exists k :: FirstArm(env, v, arms[1..], x, k) {
        FirstArmCons(env, v, arms, x, i);
      }
    } else {
      var first := Decode(env, v, arms[0]).value;
      if first == x { assert FirstArm(env, v, arms, x, 0); }
      forall i | FirstArm(env, v, arms, x, i) ensures i == 0 {
        if i != 0 { FirstArmCons(env, v, arms, x, i); }
      }
    }
  }

  // ---------------------------------------------------------------- content is kept

  // `x` has the content of the payload `v`: the same value, a float for an integer, a list
  // or tuple for an array with the same content, or a message whose fields have the content
  // of the entries of their names, and their defaults where there are none.
  ghost predicate Mirrors(env: Classes, v: Val, x: Val)
    decreases v
  {
    || v == x
    || (v.VInt? && x == VFloat(v.i as real))
    || ((v.VList? || v.VTuple?) && (x.VList? || x.VTuple?) && |x.items| == |v.items|
        && forall i :: 0 <= i < |v.items| ==> Mirrors(env, v.items[i], x.items[i]))
    || (v.VDict? && x.VRec? && x.cls in env && |v.keys| == |v.items| && |x.items| == |env[x.cls]|
        && forall i :: 0 <= i < |x.items| ==> FieldMirrors(env, env[x.cls][i], v, x.items[i]))
  }

  ghost predicate FieldMirrors(env: Classes, f: Field, v: Val, x: Val)
    requires v.VDict? && |v.keys| == |v.items|
    decreases v, 0
  {
    if f.name in v.keys
    then exists j :: 0 <= j < |v.keys| && FirstAt(v.keys, f.name, j) && Mirrors(env, v.items[j], x)
    else f.default == Some(x)
  }

  // Whatever is accepted has the content of its payload.
  lemma {:induction false} DecodeMirrors(env: Classes, v: Val, t: Ty)
    requires Decode(env, v, t).Accept?
    ensures Mirrors(env, v, Decode(env, v, t).value)
    decreases v, t
  {
    if !v.VNone? {
      match t {
        case TUnion(arms) => ArmsMirror(env, v, arms);
        case TList(elem) => ItemsMirror(env, v.items, elem);
        case TTuple(elem) => ItemsMirror(env, v.items, elem);
        case TRec(cls) => if v.VDict? { RecordMirrors(env, cls, v); }
        case _ =>
      }
    }
  }

  lemma {:induction false} ItemsMirror(env: Classes, vs: seq<Val>, t: Ty)
    requires DecodeAll(env, vs, t).Accept?
    ensures var xs := DecodeAll(env, vs, t).value;
      |xs| == |vs| && forall i :: 0 <= i < |vs| ==> Mirrors(env, vs[i], xs[i])
    decreases vs, t
  {
    var xs := DecodeAll(env, vs, t).value;
    forall i | 0 <= i < |vs| ensures Mirrors(env, vs[i], xs[i]) {
      assert Decode(env, vs[i], t) == Accept(xs[i]);
      DecodeMirrors(env, vs[i], t);
    }
  }

  lemma {:induction false} ArmsMirror(env: Classes, v: Val, arms: seq<Ty>)
    requires !v.VNone? && DecodeArms(env, v, arms).Accept?
    ensures Mirrors(env, v, DecodeArms(env, v, arms).value)
    decreases v, arms
  {
    if !arms[0].TNone? && Decode(env, v, arms[0]).Accept? { DecodeMirrors(env, v, arms[0]); }
    else { ArmsMirror(env, v, arms[1..]); }
  }

  lemma {:induction false} RecordMirrors(env: Classes, cls: string, v: Val)
    requires v.VDict? && Decode(env, v, TRec(cls)).Accept?
    ensures Mirrors(env, v, Decode(env, v, TRec(cls)).value)
    decreases v, TRec(cls), 0
  {
    var x := Decode(env, v, TRec(cls)).value;
    RecordAcceptedIff(env, cls, v.keys, v.items, x.items);
    forall i | 0 <= i < |x.items| ensures FieldMirrors(env, env[cls][i], v, x.items[i]) {
      var f := env[cls][i];
      assert FieldRead(env, f, v.keys, v.items, x.items[i]);
      if f.name in v.keys {
        var j :| 0 <= j < |v.keys| && FirstAt(v.keys, f.name, j) && Decode(env, v.items[j], f.ty) == Accept(x.items[i]);
        DecodeMirrors(env, v.items[j], f.ty);
      }
    }
  }

  // ---------------------------------------------------------------- the checks, by field

  lemma {:induction false} TupleOfRecords(env: Classes, v: Val, cls: string, x: Val)
    requires Decode(env, v, TTuple(TRec(cls))) == Accept(x)
    ensures x.VTuple? && forall i :: 0 <= i < |x.items| ==> x.items[i].VRec? && x.items[i].cls == cls
  {
    assert !v.VNone? && x == VTuple(DecodeAll(env, v.items, TRec(cls)).value);
    forall i | 0 <= i < |x.items| ensures x.items[i].VRec? && x.items[i].cls == cls {
      RecordOnly(env, v.items[i], cls, x.items[i]);
    }
  }

  lemma RecordOnly(env: Classes, v: Val, cls: string, x: Val)
    requires Decode(env, v, TRec(cls)) == Accept(x)
    ensures x.VRec? && x.cls == cls
  {
    assert !v.VNone?;
    if v.VDict? && |v.keys| == |v.items| && cls in env { RecordAcceptedIff(env, cls, v.keys, v.items, []); }
  }

  // What a skill result's fields must agree on: 1 is skill_id, 3 status, 4 success and 12
  // evidence; 2 and 3 of an evidence fact are source_kind and source_id.
  predicate ResultAgrees(xs: seq<Val>)
    requires |xs| == 14
  {
    && (xs[3] == VStr("completed") ==> xs[4] == VBool(true))
    && (xs[3] == VStr("failed") || xs[3] == VStr("interrupted") ==> xs[4] == VBool(false))
    && (xs[3] == VStr("unknown") ==> xs[4] == VNone)
    && xs[12].VTuple?
    && forall i :: 0 <= i < |xs[12].items| ==>
         var fact := xs[12].items[i];
         fact.VRec? && |fact.items| > 3 && fact.items[2] == VStr("skill_result") && fact.items[3] == xs[1]
  }

  // 4 is status and 5 is robot_idle_confirmed.
  predicate ControlAgrees(xs: seq<Val>)
    requires |xs| == 7
  {
    xs[4] == VStr("completed") <==> xs[5] == VBool(true)
  }

  // 0 is evidence_id, 1 task_id, 2 source_kind, 3 source_id and 5 frame_id.
  ghost predicate EvidenceAgrees(xs: seq<Val>)
    requires |xs| == 10
  {
    && xs[0] != VStr("") && xs[1] != VStr("") && xs[3] != VStr("")
    && (xs[2] == VStr("robot_status") ==>
          && xs[5].VInt?
          && exists robot: string {:trigger "status:" + robot} ::
               ':' !in robot && xs[3] == VStr("status:" + robot + ":" + Decimal(xs[5].i)))
  }

  // Where all keys are fields and every field reads, the checks alone decide.
  lemma ChecksDecide(env: Classes, cls: string, keys: seq<string>, vs: seq<Val>, xs: seq<Val>)
    requires cls in env && |keys| == |vs| && KeysKnown(env[cls], keys) && FieldsRead(env, env[cls], keys, vs, xs)
    ensures Decode(env, VDict(keys, vs), TRec(cls)) == if Validate(env, cls, xs) then Accept(VRec(cls, xs)) else Reject
  {
    FieldsReadIff(env, env[cls], keys, vs, xs);
    KnownIff(env[cls], keys);
    ObjectDecides(env, cls, keys, vs, xs);
  }

  lemma ObjectDecides(env: Classes, cls: string, keys: seq<string>, vs: seq<Val>, xs: seq<Val>)
    requires cls in env && |keys| == |vs| && DecodeFields(env, keys, vs, env[cls]) == Accept(xs)
    requires !exists i :: 0 <= i < |keys| && keys[i] !in Names(env[cls])
    ensures Decode(env, VDict(keys, vs), TRec(cls)) == if Validate(env, cls, xs) then Accept(VRec(cls, xs)) else Reject
  {
  }

  lemma GetAt(env: Classes, cls: string, names: seq<string>, items: seq<Val>, i: nat)
    requires cls in env && Names(env[cls]) == names && Distinct(names) && i < |names|
    ensures Get(env, cls, items, names[i]) == if i < |items| then items[i] else VNone
  {
    IndexOfName(names, i);
  }

  // The names of the fields that the checks look at, by their places.
  predicate ResultNames(names: seq<string>) {
    && Distinct(names) && |names| == 14
    && names[1] == "skill_id" && names[3] == "status" && names[4] == "success" && names[12] == "evidence"
  }

  predicate ControlNames(names: seq<string>) {
    Distinct(names) && |names| == 7 && names[4] == "status" && names[5] == "robot_idle_confirmed"
  }

  predicate EvidenceNames(names: seq<string>) {
    && Distinct(names) && |names| == 10
    && names[0] == "evidence_id" && names[1] == "task_id" && names[2] == "source_kind"
    && names[3] == "source_id" && names[5] == "frame_id"
  }

  lemma CheckedNames()
    ensures ResultNames(SKILL_RESULT_NAMES) && ControlNames(SKILL_CONTROL_RESULT_NAMES)
    ensures EvidenceNames(EVIDENCE_FACT_NAMES)
  {
    NamesAreDistinct();
  }

  lemma FactAgrees(env: Classes, names: seq<string>, fact: Val, skillId: Val)
    requires "EvidenceFact" in env && Names(env["EvidenceFact"]) == names && EvidenceNames(names)
    requires fact.VRec? && skillId.VStr?
    ensures (Get(env, "EvidenceFact", fact.items, "source_kind") == VStr("skill_result")
             && Get(env, "EvidenceFact", fact.items, "source_id") == skillId)
       <==> |fact.items| > 3 && fact.items[2] == VStr("skill_result") && fact.items[3] == skillId
  {
    GetAt(env, "EvidenceFact", names, fact.items, 2);
    GetAt(env, "EvidenceFact", names, fact.items, 3);
  }

  lemma ResultChecks(env: Classes, names: seq<string>, facts: seq<string>, xs: seq<Val>)
    requires "SkillResult" in env && Names(env["SkillResult"]) == names && ResultNames(names)
    requires "EvidenceFact" in env && Names(env["EvidenceFact"]) == facts && EvidenceNames(facts)
    requires |xs| == 14 && xs[1].VStr? && xs[12].VTuple?
    requires forall i :: 0 <= i < |xs[12].items| ==> xs[12].items[i].VRec?
    ensures Validate(env, "SkillResult", xs) <==> ResultAgrees(xs)
  {
    GetAt(env, "SkillResult", names, xs, 1);
    GetAt(env, "SkillResult", names, xs, 3);
    GetAt(env, "SkillResult", names, xs, 4);
    GetAt(env, "SkillResult", names, xs, 12);
    forall i | 0 <= i < |xs[12].items| {
      FactAgrees(env, facts, xs[12].items[i], xs[1]);
    }
  }

  lemma ControlChecks(env: Classes, names: seq<string>, xs: seq<Val>)
    requires "SkillControlResult" in env && Names(env["SkillControlResult"]) == names && ControlNames(names)
    requires |xs| == 7
    ensures Validate(env, "SkillControlResult", xs) <==> ControlAgrees(xs)
  {
    GetAt(env, "SkillControlResult", names, xs, 4);
    GetAt(env, "SkillControlResult", names, xs, 5);
  }

  lemma EvidenceChecks(env: Classes, names: seq<string>, xs: seq<Val>)
    requires "EvidenceFact" in env && Names(env["EvidenceFact"]) == names && EvidenceNames(names)
    requires |xs| == 10 && xs[0].VStr? && xs[1].VStr? && xs[3].VStr?
    ensures Validate(env, "EvidenceFact", xs) <==> EvidenceAgrees(xs)
  {
    GetAt(env, "EvidenceFact", names, xs, 0);
    GetAt(env, "EvidenceFact", names, xs, 1);
    GetAt(env, "EvidenceFact", names, xs, 2);
    GetAt(env, "EvidenceFact", names, xs, 3);
    GetAt(env, "EvidenceFact", names, xs, 5);
    if xs[5].VInt? { StatusSourceIff(xs[3].s, xs[5].i); }
  }

  // The types of the fields that the checks look at.
  lemma ResultTypes()
    ensures |SkillResultFields()| == 14
    ensures SkillResultFields()[1].ty == TStr && SkillResultFields()[1].default.None?
    ensures SkillResultFields()[12].ty == TTuple(TRec("EvidenceFact"))
    ensures SkillResultFields()[12].default == Some(VTuple([]))
  {
  }

  lemma EvidenceTypes()
    ensures |EvidenceFactFields()| == 10
    ensures forall i :: i in {0, 1, 3} ==> EvidenceFactFields()[i].ty == TStr && EvidenceFactFields()[i].default.None?
  {
  }

  lemma StringRead(env: Classes, f: Field, keys: seq<string>, vs: seq<Val>, x: Val)
    requires |keys| == |vs| && FieldRead(env, f, keys, vs, x) && f.ty == TStr && f.default.None?
    ensures x.VStr?
  {
  }

  lemma EvidenceRead(env: Classes, f: Field, keys: seq<string>, vs: seq<Val>, x: Val)
    requires |keys| == |vs| && FieldRead(env, f, keys, vs, x)
    requires f.ty == TTuple(TRec("EvidenceFact")) && f.default == Some(VTuple([]))
    ensures x.VTuple? && forall i :: 0 <= i < |x.items| ==> x.items[i].VRec?
  {
    if f.name in keys {
      var j :| 0 <= j < |keys| && FirstAt(keys, f.name, j) && Decode(env, vs[j], f.ty) == Accept(x);
      TupleOfRecords(env, vs[j], "EvidenceFact", x);
    }
  }

  // A skill result whose fields read is accepted exactly when its status and success agree
  // and every evidence fact names the result itself as its source.
  lemma ResultAcceptedIff(traceId: string, now: real, keys: seq<string>, vs: seq<Val>, xs: seq<Val>)
    requires |keys| == |vs| && KeysKnown(SkillResultFields(), keys)
    requires FieldsRead(Universe(traceId, now), SkillResultFields(), keys, vs, xs)
    ensures |xs| == 14
    ensures Decode(Universe(traceId, now), VDict(keys, vs), TRec("SkillResult"))
         == if ResultAgrees(xs) then Accept(VRec("SkillResult", xs)) else Reject
  {
    var env, fields := Universe(traceId, now), SkillResultFields();
    ResultTypes();
    CheckedNames();
    SkillNameList();
    EvidenceNameList();
    assert FieldRead(env, fields[1], keys, vs, xs[1]) && FieldRead(env, fields[12], keys, vs, xs[12]);
    StringRead(env, fields[1], keys, vs, xs[1]);
    EvidenceRead(env, fields[12], keys, vs, xs[12]);
    ResultChecks(env, SKILL_RESULT_NAMES, EVIDENCE_FACT_NAMES, xs);
    ChecksDecide(env, "SkillResult", keys, vs, xs);
  }

  // A control result whose fields read is accepted exactly when it is completed if and only
  // if the robot was confirmed idle.
  lemma ControlAcceptedIff(traceId: string, now: real, keys: seq<string>, vs: seq<Val>, xs: seq<Val>)
    requires |keys| == |vs| && KeysKnown(SkillControlResultFields(), keys)
    requires FieldsRead(Universe(traceId, now), SkillControlResultFields(), keys, vs, xs)
    ensures |xs| == 7
    ensures Decode(Universe(traceId, now), VDict(keys, vs), TRec("SkillControlResult"))
         == if ControlAgrees(xs) then Accept(VRec("SkillControlResult", xs)) else Reject
  {
    CheckedNames();
    ControlNameList();
    ControlChecks(Universe(traceId, now), SKILL_CONTROL_RESULT_NAMES, xs);
    ChecksDecide(Universe(traceId, now), "SkillControlResult", keys, vs, xs);
  }

  // An evidence fact whose fields read is accepted exactly when its three ids are not
  // empty and a robot status names robot and frame in its source id.
  lemma EvidenceAcceptedIff(traceId: string, now: real, keys: seq<string>, vs: seq<Val>, xs: seq<Val>)
    requires |keys| == |vs| && KeysKnown(EvidenceFactFields(), keys)
    requires FieldsRead(Universe(traceId, now), EvidenceFactFields(), keys, vs, xs)
    ensures |xs| == 10
    ensures Decode(Universe(traceId, now), VDict(keys, vs), TRec("EvidenceFact"))
         == if EvidenceAgrees(xs) then Accept(VRec("EvidenceFact", xs)) else Reject
  {
    var env, fields := Universe(traceId, now), EvidenceFactFields();
    EvidenceTypes();
    CheckedNames();
    EvidenceNameList();
    forall i | i in {0, 1, 3} ensures xs[i].VStr? {
      StringRead(env, fields[i], keys, vs, xs[i]);
    }
    EvidenceChecks(env, EVIDENCE_FACT_NAMES, xs);
    ChecksDecide(env, "EvidenceFact", keys, vs, xs);
  }

  lemma EvidenceNameList()
    ensures Names(EvidenceFactFields()) == EVIDENCE_FACT_NAMES
  {
  }

  lemma ControlNameList()
    ensures Names(SkillControlResultFields()) == SKILL_CONTROL_RESULT_NAMES
  {
  }
}
