/** Soundness of the message decoder, and exactly when it inverts the encoder. */
module MessagesProofs {
  import opened Wrappers
  import opened Text
  import opened Messages

  // ---------------------------------------------------------------- soundness

  // Whatever a payload decodes to is well typed, and every message inside it passed its
  // cross-field checks, provided that message objects already in it did.
  lemma {:induction false} DecodeSound(env: Classes, v: Val, t: Ty)
    requires WellFormed(env) && Trusted(env, v) && Decode(env, v, t).Accept?
    ensures WellTyped(env, t, Decode(env, v, t).value)
    decreases v, t
  {
    if !v.VNone? {
      match t {
        case TUnion(arms) => ArmsSound(env, v, arms);
        case TList(elem) => AllSound(env, v.items, elem);
        case TTuple(elem) => AllSound(env, v.items, elem);
        case TRec(cls) => if v.VDict? { FieldsSound(env, v.keys, v.items, env[cls]); }
        case _ =>
      }
    }
  }

  lemma {:induction false} ArmsSound(env: Classes, v: Val, arms: seq<Ty>)
    requires WellFormed(env) && Trusted(env, v) && !v.VNone? && DecodeArms(env, v, arms).Accept?
    ensures InSomeArm(env, arms, DecodeArms(env, v, arms).value)
    ensures !DecodeArms(env, v, arms).value.VNone?
    decreases v, arms
  {
    if !arms[0].TNone? && Decode(env, v, arms[0]).Accept? {
      DecodeSound(env, v, arms[0]);
      NotNone(env, v, arms[0]);
    } else {
      ArmsSound(env, v, arms[1..]);
    }
  }

  lemma {:induction false} NotNone(env: Classes, v: Val, t: Ty)
    requires !v.VNone? && Decode(env, v, t).Accept?
    ensures !Decode(env, v, t).value.VNone?
    decreases v, t
  {
    if t.TUnion? { ArmsNotNone(env, v, t.arms); }
  }

  lemma {:induction false} ArmsNotNone(env: Classes, v: Val, arms: seq<Ty>)
    requires !v.VNone? && DecodeArms(env, v, arms).Accept?
    ensures !DecodeArms(env, v, arms).value.VNone?
    decreases v, arms
  {
    if !arms[0].TNone? && Decode(env, v, arms[0]).Accept? { NotNone(env, v, arms[0]); }
    else { ArmsNotNone(env, v, arms[1..]); }
  }

  lemma {:induction false} AllSound(env: Classes, vs: seq<Val>, t: Ty)
    requires WellFormed(env) && DecodeAll(env, vs, t).Accept?
    requires forall i :: 0 <= i < |vs| ==> Trusted(env, vs[i])
    ensures forall i :: 0 <= i < |vs| ==> WellTyped(env, t, DecodeAll(env, vs, t).value[i])
    decreases vs, t
  {
    forall i | 0 <= i < |vs| ensures WellTyped(env, t, DecodeAll(env, vs, t).value[i]) {
      DecodeSound(env, vs[i], t);
    }
  }

  lemma {:induction false} FieldsSound(env: Classes, keys: seq<string>, vs: seq<Val>, fields: seq<Field>)
    requires WellFormed(env) && |keys| == |vs| && DecodeFields(env, keys, vs, fields).Accept?
    requires forall i :: 0 <= i < |vs| ==> Trusted(env, vs[i])
    requires forall i :: 0 <= i < |fields| && fields[i].default.Some? ==>
               WellTyped(env, fields[i].ty, fields[i].default.value)
    ensures var xs := DecodeFields(env, keys, vs, fields).value;
      |xs| == |fields| && forall i :: 0 <= i < |fields| ==> WellTyped(env, fields[i].ty, xs[i])
    decreases vs, fields, 0
  {
    if fields != [] {
      var i := IndexOf(keys, fields[0].name);
      if i < |keys| { DecodeSound(env, vs[i], fields[0].ty); }
      FieldsSound(env, keys, vs, fields[1..]);
      assert forall j :: 0 < j < |fields| ==> fields[j] == fields[1..][j - 1];
    }
  }

  // ---------------------------------------------------------------- encodings

  lemma {:induction false} PlainEncodesToItself(env: Classes, v: Val, json: bool)
    requires Plain(v, json)
    ensures Encode(env, v, json) == v
    decreases v
  {
    match v {
      case VList(items) => PlainAll(env, items, json);
      case VTuple(items) => PlainAll(env, items, json);
      case VDict(_, items) => PlainAll(env, items, json);
      case _ =>
    }
  }

  lemma {:induction false} PlainAll(env: Classes, vs: seq<Val>, json: bool)
    requires forall i :: 0 <= i < |vs| ==> Plain(vs[i], json)
    ensures EncodeAll(env, vs, json) == vs
    decreases vs
  {
    forall i | 0 <= i < |vs| ensures EncodeAll(env, vs, json)[i] == vs[i] {
      PlainEncodesToItself(env, vs[i], json);
    }
  }

  lemma {:induction false} EncodingIsPlain(env: Classes, v: Val, json: bool)
    ensures Plain(Encode(env, v, json), json)
    ensures Encode(env, v, json).VNone? <==> v.VNone?
    decreases v
  {
    if v.VList? || v.VTuple? || v.VDict? || v.VRec? {
      forall i | 0 <= i < |v.items| ensures Plain(Encode(env, v.items[i], json), json) {
        EncodingIsPlain(env, v.items[i], json);
      }
    }
  }

  lemma {:induction false} PlainIsTrusted(env: Classes, v: Val, json: bool)
    requires Plain(v, json)
    ensures Trusted(env, v)
    decreases v
  {
    if v.VList? || v.VTuple? || v.VDict? {
      forall i | 0 <= i < |v.items| ensures Trusted(env, v.items[i]) { PlainIsTrusted(env, v.items[i], json); }
    }
  }

  // ---------------------------------------------------------------- inversion

  // At every union inside `v`, the first arm that accepts the encoding is an arm the
  // value itself belongs to, and what is handed on undecoded is plain.
  predicate Unambiguous(env: Classes, t: Ty, v: Val, json: bool)
    decreases v, t
  {
    match t
    case TUnion(arms) => v.VNone? || FirstArmFits(env, arms, v, json)
    case TList(elem) => v.VList? && forall i :: 0 <= i < |v.items| ==> Unambiguous(env, elem, v.items[i], json)
    case TTuple(elem) => v.VTuple? && forall i :: 0 <= i < |v.items| ==> Unambiguous(env, elem, v.items[i], json)
    case TRec(cls) =>
      v.VRec? && cls in env && |v.items| == |env[cls]|
      && forall i :: 0 <= i < |v.items| ==> Unambiguous(env, env[cls][i].ty, v.items[i], json)
    case TDict => Plain(v, json)
    case TAny => Plain(v, json)
    case _ => true
  }

  predicate FirstArmFits(env: Classes, arms: seq<Ty>, v: Val, json: bool)
    decreases v, arms
  {
    if arms == [] then false
    else if arms[0].TNone? || Decode(env, Encode(env, v, json), arms[0]).Reject?
    then FirstArmFits(env, arms[1..], v, json)
    else WellTyped(env, arms[0], v) && Unambiguous(env, arms[0], v, json)
  }

  // Decoding the payload of a well-typed value returns that value exactly when no
  // union inside it is ambiguous.
  lemma {:induction false} RoundTripIff(env: Classes, t: Ty, v: Val, json: bool)
    requires WellFormed(env) && WellTyped(env, t, v)
    ensures Decode(env, Encode(env, v, json), t) == Accept(v) <==> Unambiguous(env, t, v, json)
    decreases v, t
  {
    EncodingIsPlain(env, v, json);
    match t {
      case TUnion(arms) => if !v.VNone? { ArmsIff(env, arms, v, json); }
      case TDict => if Plain(v, json) { PlainEncodesToItself(env, v, json); }
      case TAny => if Plain(v, json) { PlainEncodesToItself(env, v, json); }
      case TList(elem) => AllIff(env, elem, v.items, json);
      case TTuple(elem) => AllIff(env, elem, v.items, json);
      case TRec(cls) => RecordIff(env, cls, v, json);
      case _ =>
    }
  }

  lemma {:induction false} ArmsIff(env: Classes, arms: seq<Ty>, v: Val, json: bool)
    requires WellFormed(env) && !v.VNone? && !Encode(env, v, json).VNone?
    ensures DecodeArms(env, Encode(env, v, json), arms) == Accept(v) <==> FirstArmFits(env, arms, v, json)
    decreases v, arms
  {
    if arms != [] {
      var p := Encode(env, v, json);
      if arms[0].TNone? || Decode(env, p, arms[0]).Reject? {
        ArmsIff(env, arms[1..], v, json);
      } else {
        EncodingIsPlain(env, v, json);
        PlainIsTrusted(env, p, json);
        DecodeSound(env, p, arms[0]);
        if WellTyped(env, arms[0], v) { RoundTripIff(env, arms[0], v, json); }
      }
    }
  }

  lemma {:induction false} AllIff(env: Classes, t: Ty, vs: seq<Val>, json: bool)
    requires WellFormed(env) && forall i :: 0 <= i < |vs| ==> WellTyped(env, t, vs[i])
    ensures DecodeAll(env, EncodeAll(env, vs, json), t) == Accept(vs)
       <==> forall i :: 0 <= i < |vs| ==> Unambiguous(env, t, vs[i], json)
    decreases vs, t
  {
    var ps := EncodeAll(env, vs, json);
    AllByElement(env, t, ps, vs);
    forall i | 0 <= i < |vs|
      ensures Decode(env, ps[i], t) == Accept(vs[i]) <==> Unambiguous(env, t, vs[i], json)
    {
      RoundTripIff(env, t, vs[i], json);
    }
  }

  lemma AllByElement(env: Classes, t: Ty, ps: seq<Val>, vs: seq<Val>)
    requires |ps| == |vs|
    ensures DecodeAll(env, ps, t) == Accept(vs) <==> forall i :: 0 <= i < |vs| ==> Decode(env, ps[i], t) == Accept(vs[i])
  {
    var r := DecodeAll(env, ps, t);
    if r.Accept? && forall i :: 0 <= i < |vs| ==> Decode(env, ps[i], t) == Accept(vs[i]) {
      assert r.value == vs;
    }
  }

  lemma IndexOfDistinct(keys: seq<string>, i: nat)
    requires i < |keys| && forall a, b :: 0 <= a < b < |keys| ==> keys[a] != keys[b]
    ensures IndexOf(keys, keys[i]) == i
  {
  }

  // The fields of a record decode one by one from the encoded record.
  lemma {:induction false} FieldsIff(env: Classes, fields: seq<Field>, keys: seq<string>, ps: seq<Val>,
                                     vs: seq<Val>, from: nat, json: bool)
    requires |keys| == |ps| == |fields| == |vs| && from <= |fields|
    requires forall i, j :: 0 <= i < j < |fields| ==> fields[i].name != fields[j].name
    requires keys == Names(fields)
    ensures DecodeFields(env, keys, ps, fields[from..]) == Accept(vs[from..])
       <==> forall i :: from <= i < |vs| ==> Decode(env, ps[i], fields[i].ty) == Accept(vs[i])
    decreases |fields| - from
  {
    if from < |fields| {
      FieldsIff(env, fields, keys, ps, vs, from + 1, json);
      IndexOfDistinct(keys, from);
      SplitFirst(fields, from);
      DecodePresentField(env, keys, ps, fields[from], fields[from + 1..]);
      SplitFirst(vs, from);
      SplitAccept(Decode(env, ps[from], fields[from].ty), DecodeFields(env, keys, ps, fields[from + 1..]),
                  vs[from], vs[from + 1..]);
    } else {
      assert vs[from..] == [];
    }
  }

  lemma SplitFirst<T>(s: seq<T>, from: nat)
    requires from < |s|
    ensures s[from..] == [s[from]] + s[from + 1..]
  {
  }

  // Decoded results of a head and a tail, put together.
  function Together(first: Decoded<Val>, rest: Decoded<seq<Val>>): Decoded<seq<Val>> {
    if first.Accept? && rest.Accept? then Accept([first.value] + rest.value) else Reject
  }

  lemma SplitAccept(first: Decoded<Val>, rest: Decoded<seq<Val>>, v: Val, vs: seq<Val>)
    ensures Together(first, rest) == Accept([v] + vs) <==> first == Accept(v) && rest == Accept(vs)
  {
    if Together(first, rest) == Accept([v] + vs) {
      assert ([first.value] + rest.value)[1..] == ([v] + vs)[1..];
      assert ([first.value] + rest.value)[0] == ([v] + vs)[0];
    }
  }

  lemma DecodePresentField(env: Classes, keys: seq<string>, ps: seq<Val>, f: Field, rest: seq<Field>)
    requires |keys| == |ps| && f.name in keys && IndexOf(keys, f.name) < |keys|
    ensures DecodeFields(env, keys, ps, [f] + rest)
         == Together(Decode(env, ps[IndexOf(keys, f.name)], f.ty), DecodeFields(env, keys, ps, rest))
  {
    assert ([f] + rest)[1..] == rest;
  }

  lemma {:induction false} RecordIff(env: Classes, cls: string, v: Val, json: bool)
    requires WellFormed(env) && WellTyped(env, TRec(cls), v)
    ensures Decode(env, Encode(env, v, json), TRec(cls)) == Accept(v) <==> Unambiguous(env, TRec(cls), v, json)
    decreases v, TRec(cls), 0
  {
    var fields := env[cls];
    var keys, ps := Names(fields), EncodeAll(env, v.items, json);
    assert Encode(env, v, json) == VDict(keys, ps);
    forall i | 0 <= i < |v.items|
      ensures Decode(env, ps[i], fields[i].ty) == Accept(v.items[i])
         <==> Unambiguous(env, fields[i].ty, v.items[i], json)
    {
      RoundTripIff(env, fields[i].ty, v.items[i], json);
    }
    FieldsIff(env, fields, keys, ps, v.items, 0, json);
    assert fields[0..] == fields && v.items[0..] == v.items;
    assert Decode(env, VDict(keys, ps), TRec(cls)) == DecodeRecord(env, cls, keys, ps);
  }

  // ---------------------------------------------------------------- unambiguous type universes

  datatype Shape = Text | Whole | Real | Truth | Array | Object

  function ShapeOf(t: Ty): Option<Shape> {
    match t
    case TStr => Some(Text)
    case TLiteral(_) => Some(Text)
    case TInt => Some(Whole)
    case TFloat => Some(Real)
    case TBool => Some(Truth)
    case TList(_) => Some(Array)
    case TTuple(_) => Some(Array)
    case TDict => Some(Object)
    case TRec(_) => Some(Object)
    case _ => None
  }

  // Arm `a` refuses the payload of every value of arm `b`, by shape or because a
  // field of b's class is unknown to a's class.
  predicate Refuses(env: Classes, a: Ty, b: Ty) {
    && ShapeOf(a).Some? && ShapeOf(b).Some?
    && if a.TRec? && b.TRec? then
         a.cls in env && b.cls in env && exists i :: 0 <= i < |env[b.cls]| && env[b.cls][i].name !in Names(env[a.cls])
       else ShapeOf(a) != ShapeOf(b) && !(a.TFloat? && b.TInt?)
  }

  predicate SeparatedType(env: Classes, t: Ty) {
    match t
    case TUnion(arms) =>
      && (forall i, j :: 0 <= i < j < |arms| && !arms[i].TNone? && !arms[j].TNone? ==> Refuses(env, arms[i], arms[j]))
      && (forall i :: 0 <= i < |arms| ==> SeparatedType(env, arms[i]))
    case TList(elem) => SeparatedType(env, elem)
    case TTuple(elem) => SeparatedType(env, elem)
    case _ => true
  }

  predicate Separated(env: Classes) {
    forall cls {:trigger env[cls]} :: cls in env ==>
      forall i :: 0 <= i < |env[cls]| ==> SeparatedType(env, env[cls][i].ty)
  }

  lemma RefusesIsSound(env: Classes, a: Ty, b: Ty, v: Val, json: bool)
    requires Refuses(env, a, b) && WellTyped(env, b, v)
    ensures Decode(env, Encode(env, v, json), a).Reject?
  {
    if a.TRec? && b.TRec? {
      RecordRefuses(env, a.cls, b.cls, v, json);
    }
  }

  lemma RecordRefuses(env: Classes, a: string, b: string, v: Val, json: bool)
    requires Refuses(env, TRec(a), TRec(b)) && WellTyped(env, TRec(b), v)
    ensures Decode(env, Encode(env, v, json), TRec(a)).Reject?
  {
    var i :| 0 <= i < |env[b]| && env[b][i].name !in Names(env[a]);
    var keys, ps := Names(env[b]), EncodeAll(env, v.items, json);
    assert Encode(env, v, json) == VDict(keys, ps);
    UnknownFieldRejected(env, a, keys, ps, i);
  }

  lemma UnknownFieldRejected(env: Classes, cls: string, keys: seq<string>, ps: seq<Val>, i: nat)
    requires cls in env && |keys| == |ps| && i < |keys| && keys[i] !in Names(env[cls])
    ensures Decode(env, VDict(keys, ps), TRec(cls)).Reject?
  {
    assert DecodeRecord(env, cls, keys, ps).Reject?;
  }

  // A payload without a required field is refused.
  lemma {:induction false} MissingFieldRejected(env: Classes, keys: seq<string>, ps: seq<Val>, fields: seq<Field>, i: nat)
    requires |keys| == |ps| && i < |fields| && fields[i].default.None? && fields[i].name !in keys
    ensures DecodeFields(env, keys, ps, fields).Reject?
    decreases |fields|
  {
    if i > 0 { MissingFieldRejected(env, keys, ps, fields[1..], i - 1); }
  }

  // In a separated universe no value is ambiguous, however its classes refer to each other.
  lemma {:induction false} SeparatedIsUnambiguous(env: Classes, t: Ty, v: Val, json: bool)
    requires WellFormed(env) && Separated(env) && SeparatedType(env, t) && WellTyped(env, t, v)
    requires Carried(env, t, v, json)
    ensures Unambiguous(env, t, v, json)
    decreases v, t
  {
    match t {
      case TUnion(arms) => if !v.VNone? { SeparatedArms(env, arms, v, json); }
      case TList(elem) =>
        forall i | 0 <= i < |v.items| ensures Unambiguous(env, elem, v.items[i], json) {
          SeparatedIsUnambiguous(env, elem, v.items[i], json);
        }
      case TTuple(elem) =>
        forall i | 0 <= i < |v.items| ensures Unambiguous(env, elem, v.items[i], json) {
          SeparatedIsUnambiguous(env, elem, v.items[i], json);
        }
      case TRec(cls) =>
        forall i | 0 <= i < |v.items| ensures Unambiguous(env, env[cls][i].ty, v.items[i], json) {
          SeparatedIsUnambiguous(env, env[cls][i].ty, v.items[i], json);
        }
      case _ =>
    }
  }

  lemma {:induction false} SeparatedArms(env: Classes, arms: seq<Ty>, v: Val, json: bool)
    requires WellFormed(env) && Separated(env) && SeparatedType(env, TUnion(arms))
    requires !v.VNone? && InSomeArm(env, arms, v)
    requires forall i :: 0 <= i < |arms| && WellTyped(env, arms[i], v) ==> Carried(env, arms[i], v, json)
    ensures FirstArmFits(env, arms, v, json)
    decreases v, arms
  {
    if WellTyped(env, arms[0], v) {
      SeparatedIsUnambiguous(env, arms[0], v, json);
      RoundTripIff(env, arms[0], v, json);
    } else {
      var b := ArmOf(env, arms[1..], v);
      if !arms[0].TNone? {
        assert arms[1..][b] == arms[b + 1];
        RefusesIsSound(env, arms[0], arms[b + 1], v, json);
      }
      assert forall i :: 0 <= i < |arms[1..]| ==> arms[1..][i] == arms[i + 1];
      SeparatedArms(env, arms[1..], v, json);
    }
  }

  lemma {:induction false} ArmOf(env: Classes, arms: seq<Ty>, v: Val) returns (i: nat)
    requires InSomeArm(env, arms, v)
    ensures i < |arms| && !arms[i].TNone? && WellTyped(env, arms[i], v)
    decreases |arms|
  {
    if WellTyped(env, arms[0], v) { i := 0; }
    else {
      var k := ArmOf(env, arms[1..], v);
      i := k + 1;
    }
  }

  // A value belongs to at most one arm of a separated union.
  lemma OneArm(env: Classes, a: Ty, b: Ty, v: Val)
    requires (Refuses(env, a, b) || Refuses(env, b, a)) && WellTyped(env, a, v)
    ensures !WellTyped(env, b, v)
  {
  }

  lemma {:induction false} UnambiguousIsCarried(env: Classes, t: Ty, v: Val, json: bool)
    requires Separated(env) && SeparatedType(env, t) && WellTyped(env, t, v) && Unambiguous(env, t, v, json)
    ensures Carried(env, t, v, json)
    decreases v, t
  {
    match t {
      case TUnion(arms) =>
        if !v.VNone? {
          var k := FittingArm(env, arms, v, json);
          forall i | 0 <= i < |arms| && WellTyped(env, arms[i], v) ensures Carried(env, arms[i], v, json) {
            if i != k { OneArm(env, arms[i], arms[k], v); }
            UnambiguousIsCarried(env, arms[k], v, json);
          }
        }
      case TList(elem) =>
        forall i | 0 <= i < |v.items| ensures Carried(env, elem, v.items[i], json) {
          UnambiguousIsCarried(env, elem, v.items[i], json);
        }
      case TTuple(elem) =>
        forall i | 0 <= i < |v.items| ensures Carried(env, elem, v.items[i], json) {
          UnambiguousIsCarried(env, elem, v.items[i], json);
        }
      case TRec(cls) =>
        forall i | 0 <= i < |v.items| ensures Carried(env, env[cls][i].ty, v.items[i], json) {
          UnambiguousIsCarried(env, env[cls][i].ty, v.items[i], json);
        }
      case _ =>
    }
  }

  lemma {:induction false} FittingArm(env: Classes, arms: seq<Ty>, v: Val, json: bool) returns (k: nat)
    requires FirstArmFits(env, arms, v, json)
    ensures k < |arms| && !arms[k].TNone? && WellTyped(env, arms[k], v) && Unambiguous(env, arms[k], v, json)
    decreases |arms|
  {
    if arms[0].TNone? || Decode(env, Encode(env, v, json), arms[0]).Reject? {
      var i := FittingArm(env, arms[1..], v, json);
      k := i + 1;
    } else {
      k := 0;
    }
  }

  // A well-typed message of a separated universe survives the wire, with or without JSON,
  // exactly when its untyped parts are plain.
  lemma RoundTrip(env: Classes, t: Ty, v: Val, json: bool)
    requires WellFormed(env) && Separated(env) && SeparatedType(env, t) && WellTyped(env, t, v)
    ensures Decode(env, Encode(env, v, json), t) == Accept(v) <==> Carried(env, t, v, json)
  {
    RoundTripIff(env, t, v, json);
    if Unambiguous(env, t, v, json) { UnambiguousIsCarried(env, t, v, json); }
    if Carried(env, t, v, json) { SeparatedIsUnambiguous(env, t, v, json); }
  }

  // A float arm before an int arm swallows the int: the decoded value is not the one sent.
  lemma FloatBeforeIntIsAmbiguous(env: Classes, i: int, json: bool)
    ensures var t := TUnion([TFloat, TInt]);
      && WellTyped(env, t, VInt(i))
      && Decode(env, Encode(env, VInt(i), json), t) == Accept(VFloat(i as real))
  {
    var arms := [TFloat, TInt];
    assert arms[1..] == [TInt];
    assert WellTyped(env, arms[1..][0], VInt(i));
    assert InSomeArm(env, arms, VInt(i));
    assert Decode(env, VInt(i), arms[0]) == Accept(VFloat(i as real));
    assert DecodeArms(env, VInt(i), arms) == Accept(VFloat(i as real));
  }

  // ---------------------------------------------------------------- status evidence

  lemma {:induction false} UpToOf(r: string, rest: string, ch: char)
    requires ch !in r
    ensures UpTo(r + [ch] + rest, ch) == r
  {
    var s := r + [ch] + rest;
    if r == "" {
      assert s[0] == ch && UpTo(s, ch) == "";
    } else {
      UpToOf(r[1..], rest, ch);
      assert s[1..] == r[1..] + [ch] + rest;
      assert r[0] in r && s[0] == r[0];
      assert UpTo(s, ch) == [r[0]] + r[1..];
    }
  }

  lemma StatusSourceSplits(robot: string, tail: string)
    requires ':' !in robot
    ensures ExpectedSuffix(STATUS + robot + ":" + tail) == robot
  {
    var source := STATUS + robot + ":" + tail;
    assert source[|STATUS|..] == robot + [':'] + tail;
    UpToOf(robot, tail, ':');
  }

  // The split-and-rebuild test accepts exactly status:<robot>:<frame> with a robot
  // id that contains no colon.
  lemma StatusSourceIff(source: string, frame: int)
    ensures source == ExpectedStatusSource(source, frame)
       <==> exists robot: string {:trigger STATUS + robot} :: ':' !in robot && source == STATUS + robot + ":" + Decimal(frame)
  {
    var tail := Decimal(frame);
    if source == ExpectedStatusSource(source, frame) {
      var robot := ExpectedSuffix(source);
      assert ':' !in robot && source == STATUS + robot + ":" + tail;
    }
    forall robot: string | ':' !in robot && source == STATUS + robot + ":" + tail
      ensures source == ExpectedStatusSource(source, frame)
    {
      StatusSourceSplits(robot, tail);
    }
  }
}
