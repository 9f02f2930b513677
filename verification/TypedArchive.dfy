/** The typed tree archive: a manifest tree beside a table of named arrays. */
module TypedArchive {
  import opened Wrappers
  import opened Text

  // `POther` is what only a NumPy scalar can hold: a Python object that is no JSON value.
  datatype Prim = PNull | PStr(s: string) | PInt(i: int) | PFloat(r: real) | PBool(b: bool) | POther(tag: string)

  // What a caller may hand to the archive; `Foreign` is any value it refuses.
  datatype Tree<A> =
    | Dict(keys: seq<string>, items: seq<Tree<A>>)
    | Tuple(items: seq<Tree<A>>)
    | List(items: seq<Tree<A>>)
    | Array(a: A)
    | NumpyScalar(dtype: string, value: Prim)
    | Plain(value: Prim)
    | Foreign

  datatype Node =
    | NDict(keys: seq<string>, nodes: seq<Node>)
    | NTuple(nodes: seq<Node>)
    | NList(nodes: seq<Node>)
    | NArray(key: string)
    | NScalar(dtype: string, value: Prim)
    | NJson(value: Prim)

  datatype Entry<A> = Data(content: A) | Manifest(text: string)

  type Archive<A> = map<string, Entry<A>>

  // JSON of a manifest and its reader, numpy's conversion of a plain value to a dtype and
  // back, and an array after it was stored and loaded; None where the call raises.
  datatype Codec<!A> = Codec(
    dumps: Node -> Option<string>, loads: string -> Option<Node>,
    cast: (string, Prim) -> Option<Prim>, restore: A -> Option<A>)

  const MANIFEST := "__manifest__"

  function Name(k: nat): string { "arr_" + Digits(k) }

  // ---------------------------------------------------------------- encoding

  predicate Encodable<A>(t: Tree<A>) {
    match t
    case Foreign => false
    case Plain(v) => !v.POther?
    case Dict(keys, items) => |keys| == |items| && forall i :: 0 <= i < |items| ==> Encodable(items[i])
    case Tuple(items) => forall i :: 0 <= i < |items| ==> Encodable(items[i])
    case List(items) => forall i :: 0 <= i < |items| ==> Encodable(items[i])
    case _ => true
  }

  // `part` is the tree itself or stands somewhere in it.
  ghost predicate Within<A(!new)>(part: Tree<A>, t: Tree<A>)
    decreases t
  {
    || part == t
    || match t
       case Dict(_, items) => exists i :: 0 <= i < |items| && Within(part, items[i])
       case Tuple(items) => exists i :: 0 <= i < |items| && Within(part, items[i])
       case List(items) => exists i :: 0 <= i < |items| && Within(part, items[i])
       case _ => false
  }

  // What a tree must not hold: a value of another type, a plain value that JSON does not
  // know, or a dictionary without a value for every key.
  predicate Refused<A>(part: Tree<A>) {
    part.Foreign? || (part.Plain? && part.value.POther?) || (part.Dict? && |part.keys| != |part.items|)
  }

  // A tree encodes exactly when nothing in it is refused.
  lemma {:induction false} EncodableIff<A(!new)>(t: Tree<A>)
    ensures Encodable(t) <==> forall part :: Within(part, t) ==> !Refused(part)
    decreases t
  {
    match t {
      case Dict(_, items) => ItemsEncodableIff(t, items);
      case Tuple(items) => ItemsEncodableIff(t, items);
      case List(items) => ItemsEncodableIff(t, items);
      case _ =>
    }
    assert Within(t, t);
  }

  lemma {:induction false} ItemsEncodableIff<A(!new)>(t: Tree<A>, items: seq<Tree<A>>)
    requires (t.Dict? || t.Tuple? || t.List?) && t.items == items
    ensures (forall i :: 0 <= i < |items| ==> Encodable(items[i])) <==>
              forall i, part :: 0 <= i < |items| && Within(part, items[i]) ==> !Refused(part)
    decreases t, 0
  {
    forall i | 0 <= i < |items| ensures Encodable(items[i]) <==> forall part :: Within(part, items[i]) ==> !Refused(part) {
      EncodableIff(items[i]);
    }
  }

  // The arrays of a tree, in the order the encoder meets them.
  function ArraysOf<A>(t: Tree<A>): seq<A> {
    match t
    case Array(a) => [a]
    case Dict(_, items) => ArraysOfAll(items)
    case Tuple(items) => ArraysOfAll(items)
    case List(items) => ArraysOfAll(items)
    case _ => []
  }

  function ArraysOfAll<A>(ts: seq<Tree<A>>): seq<A> {
    if ts == [] then [] else ArraysOf(ts[0]) + ArraysOfAll(ts[1..])
  }

  // The manifest of a tree when the name counter stands at k.
  function NodeOf<A>(t: Tree<A>, k: nat): Node {
    match t
    case Dict(keys, items) => NDict(keys, NodesOf(items, k))
    case Tuple(items) => NTuple(NodesOf(items, k))
    case List(items) => NList(NodesOf(items, k))
    case Array(_) => NArray(Name(k))
    case NumpyScalar(dtype, v) => NScalar(dtype, v)
    case Plain(v) => NJson(v)
    case Foreign => NJson(PNull)
  }

  function NodesOf<A>(ts: seq<Tree<A>>, k: nat): (r: seq<Node>)
    ensures |r| == |ts|
  {
    if ts == [] then [] else [NodeOf(ts[0], k)] + NodesOf(ts[1..], k + |ArraysOf(ts[0])|)
  }

  // Storing arrays under consecutive names.
  function Put<A>(table: map<string, A>, k: nat, arrays: seq<A>): map<string, A>
    decreases |arrays|
  {
    if arrays == [] then table else Put(table[Name(k) := arrays[0]], k + 1, arrays[1..])
  }

  lemma {:induction false} PutConcat<A>(table: map<string, A>, k: nat, a: seq<A>, b: seq<A>)
    ensures Put(table, k, a + b) == Put(Put(table, k, a), k + |a|, b)
    decreases |a|
  {
    if a == [] {
      assert a + b == b;
    } else {
      PutConcat(table[Name(k) := a[0]], k + 1, a[1..], b);
      assert (a + b)[1..] == a[1..] + b;
    }
  }

  lemma NamesDistinct(i: nat, j: nat)
    ensures Name(i) == Name(j) <==> i == j
    ensures Name(i) != MANIFEST
  {
    if Name(i) == Name(j) {
      assert Name(i)[4..] == Digits(i) && Name(j)[4..] == Digits(j);
      DigitsInjective(i, j);
    }
    assert Name(i)[0] == 'a' && MANIFEST[0] == '_';
  }

  // `key` is one of the n names from k on.
  ghost predicate Named(key: string, k: nat, n: nat) { exists j: nat :: k <= j < k + n && key == Name(j) }

  // Storing `arrays` from name k on: every array sits under its own name, and nothing
  // stored under another name changes.
  ghost predicate Placed<A>(table: map<string, A>, k: nat, arrays: seq<A>, after: map<string, A>) {
    && (forall j: nat :: k <= j < k + |arrays| ==> Name(j) in after && after[Name(j)] == arrays[j - k])
    && (forall key :: key in after ==> key in table || Named(key, k, |arrays|))
    && (forall key :: key in table && !Named(key, k, |arrays|) ==> key in after && after[key] == table[key])
  }

  lemma {:induction false} PutFacts<A>(table: map<string, A>, k: nat, arrays: seq<A>)
    ensures Placed(table, k, arrays, Put(table, k, arrays))
    decreases |arrays|
  {
    if arrays != [] {
      PutFacts(table[Name(k) := arrays[0]], k + 1, arrays[1..]);
      PlacedFirst(table, k, arrays, Put(table, k, arrays));
    }
  }

  lemma PlacedFirst<A>(table: map<string, A>, k: nat, arrays: seq<A>, after: map<string, A>)
    requires arrays != [] && Placed(table[Name(k) := arrays[0]], k + 1, arrays[1..], after)
    ensures Placed(table, k, arrays, after)
  {
    var n := |arrays| - 1;
    NamedFirst(Name(k), k, n);
    forall j: nat | k + 1 <= j < k + |arrays| ensures Name(j) in after && after[Name(j)] == arrays[j - k] {
      assert arrays[j - k] == arrays[1..][j - (k + 1)];
    }
    forall key | key in after ensures key in table || Named(key, k, n + 1) { NamedFirst(key, k, n); }
    forall key | key in table && !Named(key, k, n + 1) ensures key in after && after[key] == table[key] {
      NamedFirst(key, k, n);
    }
  }

  // The n + 1 names from k on are Name(k) and the n names from k + 1 on.
  lemma NamedFirst(key: string, k: nat, n: nat)
    ensures Named(key, k, n + 1) <==> key == Name(k) || Named(key, k + 1, n)
    ensures !Named(Name(k), k + 1, n)
  {
    if Named(key, k + 1, n) {
      var j: nat :| k + 1 <= j < k + 1 + n && key == Name(j);
      assert k <= j < k + (n + 1);
    }
    forall j: nat | k + 1 <= j < k + 1 + n ensures Name(k) != Name(j) { NamesDistinct(k, j); }
  }

  // ---------------------------------------------------------------- decoding

  function DecodeNode<A>(c: Codec<A>, archive: Archive<A>, n: Node): Option<Tree<A>> {
    match n
    case NDict(keys, nodes) =>
      (match DecodeNodes(c, archive, nodes) case Some(ts) => Some(Dict(keys, ts)) case None => None)
    case NTuple(nodes) =>
      (match DecodeNodes(c, archive, nodes) case Some(ts) => Some(Tuple(ts)) case None => None)
    case NList(nodes) =>
      (match DecodeNodes(c, archive, nodes) case Some(ts) => Some(List(ts)) case None => None)
    case NArray(key) =>
      if key in archive && archive[key].Data?
      then (match c.restore(archive[key].content) case Some(a) => Some(Array(a)) case None => None)
      else None
    case NScalar(dtype, v) => (match c.cast(dtype, v) case Some(x) => Some(Plain(x)) case None => None)
    case NJson(v) => Some(Plain(v))
  }

  function DecodeNodes<A>(c: Codec<A>, archive: Archive<A>, ns: seq<Node>): Option<seq<Tree<A>>> {
    if ns == [] then Some([])
    else match DecodeNode(c, archive, ns[0])
      case None => None
      case Some(t) =>
        match DecodeNodes(c, archive, ns[1..]) case Some(ts) => Some([t] + ts) case None => None
  }

  function Decode<A>(c: Codec<A>, archive: Archive<A>): Option<Tree<A>> {
    if MANIFEST in archive && archive[MANIFEST].Manifest?
    then (match c.loads(archive[MANIFEST].text) case Some(n) => DecodeNode(c, archive, n) case None => None)
    else None
  }

  // ---------------------------------------------------------------- round trip

  // The tree with numpy scalars turned into plain values.
  function Simplified<A>(t: Tree<A>): Tree<A> {
    match t
    case Dict(keys, items) => Dict(keys, SimplifiedAll(items))
    case Tuple(items) => Tuple(SimplifiedAll(items))
    case List(items) => List(SimplifiedAll(items))
    case NumpyScalar(_, v) => Plain(v)
    case _ => t
  }

  function SimplifiedAll<A>(ts: seq<Tree<A>>): seq<Tree<A>> {
    if ts == [] then [] else [Simplified(ts[0])] + SimplifiedAll(ts[1..])
  }

  // Every array loads as it was, and casting the plain value of a scalar to the scalar's
  // own dtype changes nothing.
  ghost predicate Faithful<A>(c: Codec<A>, t: Tree<A>) {
    match t
    case Array(a) => c.restore(a) == Some(a)
    case NumpyScalar(dtype, v) => c.cast(dtype, v) == Some(v)
    case Dict(_, items) => forall i :: 0 <= i < |items| ==> Faithful(c, items[i])
    case Tuple(items) => forall i :: 0 <= i < |items| ==> Faithful(c, items[i])
    case List(items) => forall i :: 0 <= i < |items| ==> Faithful(c, items[i])
    case _ => true
  }

  // The archive stores `arrays` under the names from k on.
  ghost predicate Stores<A>(archive: Archive<A>, k: nat, arrays: seq<A>) {
    forall j: nat :: k <= j < k + |arrays| ==> Name(j) in archive && archive[Name(j)] == Data(arrays[j - k])
  }

  lemma StoresParts<A>(archive: Archive<A>, k: nat, a: seq<A>, b: seq<A>)
    requires Stores(archive, k, a + b)
    ensures Stores(archive, k, a) && Stores(archive, k + |a|, b)
  {
    forall j: nat | k <= j < k + |a| ensures Name(j) in archive && archive[Name(j)] == Data(a[j - k]) {
      assert (a + b)[j - k] == a[j - k];
    }
    forall j: nat | k + |a| <= j < k + |a| + |b|
      ensures Name(j) in archive && archive[Name(j)] == Data(b[j - (k + |a|)])
    {
      assert (a + b)[j - k] == b[j - k - |a|];
    }
  }

  // A node decodes to its tree exactly when the tree's arrays and scalars survive.
  lemma {:induction false} DecodeOfNodeIff<A>(c: Codec<A>, archive: Archive<A>, t: Tree<A>, k: nat)
    requires Encodable(t) && Stores(archive, k, ArraysOf(t))
    ensures DecodeNode(c, archive, NodeOf(t, k)) == Some(Simplified(t)) <==> Faithful(c, t)
    decreases t
  {
    match t {
      case Dict(keys, items) => DecodeOfNodesIff(c, archive, items, k);
      case Tuple(items) => DecodeOfNodesIff(c, archive, items, k);
      case List(items) => DecodeOfNodesIff(c, archive, items, k);
      case Array(a) => assert Name(k) in archive && archive[Name(k)] == Data([a][0]);
      case _ =>
    }
  }

  lemma {:induction false} DecodeOfNodesIff<A>(c: Codec<A>, archive: Archive<A>, ts: seq<Tree<A>>, k: nat)
    requires forall i :: 0 <= i < |ts| ==> Encodable(ts[i])
    requires Stores(archive, k, ArraysOfAll(ts))
    ensures DecodeNodes(c, archive, NodesOf(ts, k)) == Some(SimplifiedAll(ts))
       <==> forall i :: 0 <= i < |ts| ==> Faithful(c, ts[i])
    decreases ts
  {
    if ts != [] {
      var k1 := k + |ArraysOf(ts[0])|;
      StoresParts(archive, k, ArraysOf(ts[0]), ArraysOfAll(ts[1..]));
      DecodeOfNodeIff(c, archive, ts[0], k);
      DecodeOfNodesIff(c, archive, ts[1..], k1);
      DecodeCons(c, archive, NodeOf(ts[0], k), NodesOf(ts[1..], k1), Simplified(ts[0]), SimplifiedAll(ts[1..]));
      assert forall i :: 1 <= i < |ts| ==> ts[i] == ts[1..][i - 1];
    }
  }

  lemma DecodeCons<A>(c: Codec<A>, archive: Archive<A>, n: Node, ns: seq<Node>, t: Tree<A>, ts: seq<Tree<A>>)
    ensures DecodeNodes(c, archive, [n] + ns) == Some([t] + ts)
       <==> DecodeNode(c, archive, n) == Some(t) && DecodeNodes(c, archive, ns) == Some(ts)
  {
    assert ([n] + ns)[1..] == ns && ([t] + ts)[1..] == ts && ([t] + ts)[0] == t;
    match (DecodeNode(c, archive, n), DecodeNodes(c, archive, ns)) {
      case (Some(x), Some(xs)) => assert ([x] + xs)[1..] == xs && ([x] + xs)[0] == x;
      case _ =>
    }
  }

  // ---------------------------------------------------------------- the encoder as written

  class Encoder<A> {
    var counter: nat
    var arrays: map<string, A>

    constructor ()
      ensures counter == 0 && arrays == map[]
    {
      counter, arrays := 0, map[];
    }

    // None when some part of the tree cannot be encoded.
    method Encode(t: Tree<A>) returns (r: Option<Node>)
      modifies this
      ensures r.Some? <==> Encodable(t)
      ensures r.Some? ==> r.value == NodeOf(t, old(counter))
                          && counter == old(counter) + |ArraysOf(t)|
                          && arrays == Put(old(arrays), old(counter), ArraysOf(t))
      decreases t
    {
      match t {
        case Dict(keys, items) =>
          if |keys| != |items| { return None; }
          var nodes := EncodeAll(items);
          if nodes.Some? { return Some(NDict(keys, nodes.value)); }
          return None;
        case Tuple(items) =>
          var nodes := EncodeAll(items);
          if nodes.Some? { return Some(NTuple(nodes.value)); }
          return None;
        case List(items) =>
          var nodes := EncodeAll(items);
          if nodes.Some? { return Some(NList(nodes.value)); }
          return None;
        case Array(a) =>
          var key := Name(counter);
          counter := counter + 1;
          arrays := arrays[key := a];
          return Some(NArray(key));
        case NumpyScalar(dtype, v) => return Some(NScalar(dtype, v));
        case Plain(v) =>
          if v.POther? { return None; }
          return Some(NJson(v));
        case Foreign => return None;
      }
    }

    method EncodeAll(ts: seq<Tree<A>>) returns (r: Option<seq<Node>>)
      modifies this
      ensures r.Some? <==> forall i :: 0 <= i < |ts| ==> Encodable(ts[i])
      ensures r.Some? ==> r.value == NodesOf(ts, old(counter))
                          && counter == old(counter) + |ArraysOfAll(ts)|
                          && arrays == Put(old(arrays), old(counter), ArraysOfAll(ts))
      decreases ts
    {
      if ts == [] { return Some([]); }
      var first := Encode(ts[0]);
      if first.None? { return None; }
      var rest := EncodeAll(ts[1..]);
      if rest.None? {
        assert exists i :: 0 <= i < |ts[1..]| && !Encodable(ts[1..][i]);
        return None;
      }
      PutConcat(old(arrays), old(counter), ArraysOf(ts[0]), ArraysOfAll(ts[1..]));
      return Some([first.value] + rest.value);
    }
  }

  // Encodes a tree into an archive: exactly when nothing in it is foreign and JSON takes
  // its manifest.  The archive decodes to the tree exactly when its arrays and scalars
  // survive, and holds its arrays in order under arr_0, arr_1, ... beside the manifest
  // and nothing else.  Of JSON it is only assumed that it reads back this manifest.
  method EncodeTypedNpz<A>(c: Codec<A>, t: Tree<A>) returns (r: Option<Archive<A>>)
    requires ReadsBack(c, NodeOf(t, 0))
    ensures r.Some? <==> Encodable(t) && c.dumps(NodeOf(t, 0)).Some?
    ensures r.Some? ==> (Decode(c, r.value) == Some(Simplified(t)) <==> Faithful(c, t))
    ensures r.Some? ==> Stores(r.value, 0, ArraysOf(t))
    ensures r.Some? ==> forall key :: key in r.value <==>
              key == MANIFEST || Named(key, 0, |ArraysOf(t)|)
  {
    var encoder := new Encoder<A>();
    var node := encoder.Encode(t);
    if node.None? { return None; }
    var text := c.dumps(node.value);
    if text.None? { return None; }
    PutFacts(map[], 0, ArraysOf(t));
    ArchiveFacts(text.value, encoder.arrays, ArraysOf(t));
    var archive := ArchiveOf(text.value, encoder.arrays);
    DecodeOfNodeIff(c, archive, t, 0);
    return Some(archive);
  }

  predicate ReadsBack<A>(c: Codec<A>, n: Node) {
    match c.dumps(n) case Some(text) => c.loads(text) == Some(n) case None => true
  }

  // The array table and the manifest, in one archive.
  function ArchiveOf<A>(manifest: string, arrays: map<string, A>): Archive<A> {
    (map key | key in arrays :: Data(arrays[key]))[MANIFEST := Manifest(manifest)]
  }

  lemma ArchiveFacts<A>(manifest: string, table: map<string, A>, arrays: seq<A>)
    requires Placed(map[], 0, arrays, table)
    ensures var archive := ArchiveOf(manifest, table);
      && Stores(archive, 0, arrays)
      && (forall key :: key in archive <==> key == MANIFEST || Named(key, 0, |arrays|))
  {
    forall j: nat | 0 <= j < |arrays| ensures Name(j) != MANIFEST && Name(j) in table { NamesDistinct(j, j); }
  }
}
