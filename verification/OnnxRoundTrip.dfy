/**
  Writer and reader together: what the inspector sees in a message depends only on the fields of
  each kind it handles, and it reads back every model the script's functions can write.
*/
module OnnxRoundTrip {
  import opened Prelude
  import opened ProtoWire
  import R = OnnxReader
  import W = OnnxWriter

  // ---------------------------------------------------------------- fields by kind

  function AllBytes(fs: seq<Field>, num: nat): seq<seq<byte>> {
    if fs == [] then []
    else (if fs[0].Bytes? && fs[0].num == num then [fs[0].payload] else []) + AllBytes(fs[1..], num)
  }

  function AllVarints(fs: seq<Field>, num: nat): seq<nat> {
    if fs == [] then []
    else (if fs[0].Varint? && fs[0].num == num then [fs[0].v] else []) + AllVarints(fs[1..], num)
  }

  /** "Last One Wins" of the encoding specification. */
  function Last<A>(items: seq<A>, default: A): A {
    if items == [] then default else items[|items| - 1]
  }

  function MapOk<A>(items: seq<seq<byte>>, parse: seq<byte> -> Outcome<A>): Outcome<seq<A>> {
    if items == [] then Ok([])
    else
      var a :- parse(items[0]);
      var rest :- MapOk(items[1..], parse);
      Ok([a] + rest)
  }

  function ToInt64s(vs: seq<nat>): seq<int> { W.Map(R.ToInt64, vs) }

  lemma LastCons<A>(a: A, items: seq<A>, default: A)
    ensures Last([a] + items, default) == Last(items, a)
  {
  }

  lemma PushFront<A>(xs: seq<A>, a: A, ys: seq<A>)
    ensures xs + ([a] + ys) == xs + [a] + ys
  {
  }

  lemma {:induction false} NodeByKind(fs: seq<Field>, acc: R.NodeInfo)
    ensures FoldFields(fs, acc, R.NodeStep) ==
            Ok(R.NodeInfo(Last(AllBytes(fs, 3), acc.name), Last(AllBytes(fs, 4), acc.opType),
                          acc.inputs + AllBytes(fs, 1), acc.outputs + AllBytes(fs, 2)))
  {
    if fs == [] {
      assert acc.inputs + [] == acc.inputs && acc.outputs + [] == acc.outputs;
    } else {
      var f, rest := fs[0], fs[1..];
      NodeByKind(rest, R.NodeStep(acc, f).value);
      if f.Bytes? {
        LastCons(f.payload, AllBytes(rest, f.num), acc.name);
        LastCons(f.payload, AllBytes(rest, f.num), acc.opType);
        PushFront(acc.inputs, f.payload, AllBytes(rest, f.num));
        PushFront(acc.outputs, f.payload, AllBytes(rest, f.num));
      }
      forall n | n in {1, 2, 3, 4} && !(f.Bytes? && f.num == n) ensures AllBytes(fs, n) == AllBytes(rest, n) {
        assert [] + AllBytes(rest, n) == AllBytes(rest, n);
      }
    }
  }

  function ToInt32s(vs: seq<nat>): seq<int> { W.Map(R.ToInt32, vs) }

  function Length(p: seq<byte>): nat { |p| }

  function Lengths(ps: seq<seq<byte>>): seq<nat> { W.Map(Length, ps) }

  /** A tensor in terms of its fields of each kind. */
  function TensorOf(fs: seq<Field>, acc: R.TensorInfo): R.TensorInfo {
    R.TensorInfo(Last(AllBytes(fs, 8), acc.name), Last(ToInt32s(AllVarints(fs, 2)), acc.dataType),
                 acc.dims + ToInt64s(AllVarints(fs, 1)), Last(Lengths(AllBytes(fs, 9)), acc.rawBytes))
  }

  lemma KindsCons(f: Field, rest: seq<Field>, num: nat)
    ensures AllBytes([f] + rest, num) ==
            if f.Bytes? && f.num == num then [f.payload] + AllBytes(rest, num) else AllBytes(rest, num)
    ensures AllVarints([f] + rest, num) ==
            if f.Varint? && f.num == num then [f.v] + AllVarints(rest, num) else AllVarints(rest, num)
  {
    assert ([f] + rest)[1..] == rest;
    assert [] + AllBytes(rest, num) == AllBytes(rest, num);
    assert [] + AllVarints(rest, num) == AllVarints(rest, num);
  }

  lemma LengthsCons(p: seq<byte>, ps: seq<seq<byte>>)
    ensures Lengths([p] + ps) == [|p|] + Lengths(ps)
  {
    assert ([p] + ps)[1..] == ps;
  }

  lemma CastsCons(v: nat, vs: seq<nat>)
    ensures ToInt32s([v] + vs) == [R.ToInt32(v)] + ToInt32s(vs)
    ensures ToInt64s([v] + vs) == [R.ToInt64(v)] + ToInt64s(vs)
  {
    assert ([v] + vs)[1..] == vs;
  }

  lemma TensorOfCons(f: Field, rest: seq<Field>, acc: R.TensorInfo)
    ensures TensorOf([f] + rest, acc) == TensorOf(rest, R.TensorStep(acc, f).value)
  {
    hide R.ToInt64, R.ToInt32, AllBytes, AllVarints, ToInt64s, ToInt32s, Lengths;
    KindsCons(f, rest, 1);
    KindsCons(f, rest, 2);
    KindsCons(f, rest, 8);
    KindsCons(f, rest, 9);
    if f.Bytes? {
      LastCons(f.payload, AllBytes(rest, f.num), acc.name);
      LengthsCons(f.payload, AllBytes(rest, f.num));
      LastCons(|f.payload|, Lengths(AllBytes(rest, f.num)), acc.rawBytes);
    } else if f.Varint? {
      CastsCons(f.v, AllVarints(rest, f.num));
      LastCons(R.ToInt32(f.v), ToInt32s(AllVarints(rest, f.num)), acc.dataType);
      PushFront(acc.dims, R.ToInt64(f.v), ToInt64s(AllVarints(rest, f.num)));
    }
  }

  lemma {:induction false} TensorByKind(fs: seq<Field>, acc: R.TensorInfo)
    ensures FoldFields(fs, acc, R.TensorStep) == Ok(TensorOf(fs, acc))
  {
    if fs == [] {
      assert acc.dims + [] == acc.dims;
    } else {
      assert [fs[0]] + fs[1..] == fs;
      TensorOfCons(fs[0], fs[1..], acc);
      TensorByKind(fs[1..], R.TensorStep(acc, fs[0]).value);
    }
  }

  /** A graph in terms of its fields of each kind: everything nested must parse. */
  function GraphOf(fs: seq<Field>, m: R.ModelInfo): Outcome<R.ModelInfo> {
    var nodes :- MapOk(AllBytes(fs, 1), R.Node);
    var tensors :- MapOk(AllBytes(fs, 5), R.Tensor);
    var inputs :- MapOk(AllBytes(fs, 11), R.Value);
    var outputs :- MapOk(AllBytes(fs, 12), R.Value);
    Ok(m.(graphName := Last(AllBytes(fs, 2), m.graphName), nodes := m.nodes + nodes,
          initializers := m.initializers + tensors, inputs := m.inputs + inputs,
          outputs := m.outputs + outputs))
  }

  lemma MapOkCons<A>(p: seq<byte>, ps: seq<seq<byte>>, parse: seq<byte> -> Outcome<A>)
    ensures MapOk([p] + ps, parse) ==
            if parse(p).Throws? || MapOk(ps, parse).Throws? then Throws
            else Ok([parse(p).value] + MapOk(ps, parse).value)
  {
    assert ([p] + ps)[1..] == ps;
  }

  lemma GraphOfNothing(m: R.ModelInfo)
    ensures GraphOf([], m) == Ok(m)
  {
    assert m.nodes + [] == m.nodes && m.initializers + [] == m.initializers;
    assert m.inputs + [] == m.inputs && m.outputs + [] == m.outputs;
  }

  /** One more field in front: handled by the step, then by the rest. */
  lemma GraphOfCons(f: Field, rest: seq<Field>, m: R.ModelInfo)
    ensures GraphOf([f] + rest, m) ==
            match R.GraphStep(m, f) case Throws => Throws case Ok(m') => GraphOf(rest, m')
  {
    hide R.Node, R.Tensor, R.Value, MapOk, AllBytes;
    var fs := [f] + rest;
    assert fs[1..] == rest;
    forall n | n in {1, 2, 5, 11, 12}
      ensures AllBytes(fs, n) == if f.Bytes? && f.num == n then [f.payload] + AllBytes(rest, n) else AllBytes(rest, n)
    {
      KindsCons(f, rest, n);
    }
    if f.Bytes? {
      var p, ps := f.payload, AllBytes(rest, f.num);
      if f.num == 1 {
        MapOkCons(p, ps, R.Node);
        if R.Node(p).Ok? && MapOk(ps, R.Node).Ok? { PushFront(m.nodes, R.Node(p).value, MapOk(ps, R.Node).value); }
      } else if f.num == 2 {
        LastCons(p, ps, m.graphName);
      } else if f.num == 5 {
        MapOkCons(p, ps, R.Tensor);
        if R.Tensor(p).Ok? && MapOk(ps, R.Tensor).Ok? {
          PushFront(m.initializers, R.Tensor(p).value, MapOk(ps, R.Tensor).value);
        }
      } else if f.num == 11 || f.num == 12 {
        MapOkCons(p, ps, R.Value);
        if R.Value(p).Ok? && MapOk(ps, R.Value).Ok? {
          PushFront(m.inputs, R.Value(p).value, MapOk(ps, R.Value).value);
          PushFront(m.outputs, R.Value(p).value, MapOk(ps, R.Value).value);
        }
      }
    }
  }

  lemma {:induction false} GraphByKind(fs: seq<Field>, m: R.ModelInfo)
    ensures FoldFields(fs, m, R.GraphStep) == GraphOf(fs, m)
  {
    hide R.GraphStep, GraphOf;
    if fs == [] {
      GraphOfNothing(m);
    } else {
      assert [fs[0]] + fs[1..] == fs;
      GraphOfCons(fs[0], fs[1..], m);
      match R.GraphStep(m, fs[0])
      case Ok(m') => GraphByKind(fs[1..], m');
      case Throws =>
    }
  }

  // ---------------------------------------------------------------- order and unknown fields

  ghost predicate SameBytes(fs: seq<Field>, gs: seq<Field>, nums: set<nat>) {
    forall n :: n in nums ==> AllBytes(fs, n) == AllBytes(gs, n)
  }

  ghost predicate SameVarints(fs: seq<Field>, gs: seq<Field>, nums: set<nat>) {
    forall n :: n in nums ==> AllVarints(fs, n) == AllVarints(gs, n)
  }

  /**
    Order and unknown-field tolerance of parseGraph: two messages whose fields agree kind by kind,
    for the five kinds it handles, give the same outcome, however the kinds are interleaved and
    whatever other fields lie between.
  */
  lemma GraphTolerance(s: seq<byte>, t: seq<byte>, m: R.ModelInfo)
    requires Tokenize(s).Ok? && Tokenize(t).Ok?
    requires SameBytes(Tokenize(s).value, Tokenize(t).value, {1, 2, 5, 11, 12})
    ensures R.Graph(s, m) == R.Graph(t, m)
  {
    FoldIsTokens(s, m, R.GraphStep);
    FoldIsTokens(t, m, R.GraphStep);
    GraphByKind(Tokenize(s).value, m);
    GraphByKind(Tokenize(t).value, m);
  }

  lemma NodeTolerance(s: seq<byte>, t: seq<byte>)
    requires Tokenize(s).Ok? && Tokenize(t).Ok?
    requires SameBytes(Tokenize(s).value, Tokenize(t).value, {1, 2, 3, 4})
    ensures R.Node(s) == R.Node(t) && R.Node(s).Ok?
  {
    FoldIsTokens(s, R.NO_NODE, R.NodeStep);
    FoldIsTokens(t, R.NO_NODE, R.NodeStep);
    NodeByKind(Tokenize(s).value, R.NO_NODE);
    NodeByKind(Tokenize(t).value, R.NO_NODE);
  }

  lemma TensorTolerance(s: seq<byte>, t: seq<byte>)
    requires Tokenize(s).Ok? && Tokenize(t).Ok?
    requires SameBytes(Tokenize(s).value, Tokenize(t).value, {8, 9})
    requires SameVarints(Tokenize(s).value, Tokenize(t).value, {1, 2})
    ensures R.Tensor(s) == R.Tensor(t) && R.Tensor(s).Ok?
  {
    FoldIsTokens(s, R.NO_TENSOR, R.TensorStep);
    FoldIsTokens(t, R.NO_TENSOR, R.TensorStep);
    TensorByKind(Tokenize(s).value, R.NO_TENSOR);
    TensorByKind(Tokenize(t).value, R.NO_TENSOR);
  }

  predicate HandledByGraph(f: Field) { f.Bytes? && f.num in {1, 2, 5, 11, 12} }

  /**
    Bytes of one field that parseGraph does not handle, of any of the four wire types and however
    its numbers are encoded, can be inserted between two fields.
  */
  lemma GraphIgnoresUnknown(before: seq<byte>, field: seq<byte>, after: seq<byte>, f: Field, m: R.ModelInfo)
    requires Tokenize(before).Ok? && Tokenize(field) == Ok([f]) && !HandledByGraph(f)
    ensures R.Graph(before + field + after, m) == R.Graph(before + after, m)
  {
    IgnoredFieldChangesNothing(before, field, after, f, m, R.GraphStep);
  }

  predicate HandledByNode(f: Field) { f.Bytes? && 1 <= f.num <= 4 }

  lemma NodeIgnoresUnknown(before: seq<byte>, field: seq<byte>, after: seq<byte>, f: Field)
    requires Tokenize(before).Ok? && Tokenize(field) == Ok([f]) && !HandledByNode(f)
    ensures R.Node(before + field + after) == R.Node(before + after)
  {
    IgnoredFieldChangesNothing(before, field, after, f, R.NO_NODE, R.NodeStep);
  }

  predicate HandledByTensor(f: Field) { (f.Varint? && f.num in {1, 2}) || (f.Bytes? && f.num in {8, 9}) }

  lemma TensorIgnoresUnknown(before: seq<byte>, field: seq<byte>, after: seq<byte>, f: Field)
    requires Tokenize(before).Ok? && Tokenize(field) == Ok([f]) && !HandledByTensor(f)
    ensures R.Tensor(before + field + after) == R.Tensor(before + after)
  {
    IgnoredFieldChangesNothing(before, field, after, f, R.NO_TENSOR, R.TensorStep);
  }

  /** Every well-formed field, as the script's helpers write it, is such bytes. */
  lemma WrittenFieldStandsAlone(f: Field)
    requires ValidField(f)
    ensures Tokenize(EncodeField(f)) == Ok([f])
  {
    FieldRoundTrip(f, []);
    assert EncodeField(f) + [] == EncodeField(f);
    FieldAlone(EncodeField(f), |EncodeField(f)|, f);
    assert EncodeField(f)[..|EncodeField(f)|] == EncodeField(f);
  }

  // ---------------------------------------------------------------- round trips

  predicate SmallNumbers(vs: seq<nat>) { forall i :: 0 <= i < |vs| ==> vs[i] < TWO64 }

  /** The numbers of the model fit the 64 bits the reader has for a varint. */
  ghost predicate WellFormed(m: W.ModelAst) {
    && m.irVersion < TWO64 && m.opset < TWO64
    && (forall t :: t in m.graph.tensors ==> SmallNumbers(t.dims) && t.dataType < TWO64)
    && (forall v :: v in m.graph.inputs + m.graph.outputs ==> SmallNumbers(v.dims) && v.elemType < TWO64)
    && |W.EncodeModel(m)| < TWO64
  }

  ghost predicate Writable(f: Field) {
    f.num < 16 && !f.Fixed64? && !f.Fixed32? && (f.Varint? ==> f.v < TWO64)
  }

  /** A message below 2^64 bytes has only lengths the reader can take. */
  lemma {:induction false} SmallMessage(fs: seq<Field>)
    requires forall f :: f in fs ==> Writable(f)
    ensures forall f :: f in fs && f.Bytes? ==> |f.payload| <= |EncodeAll(fs)|
    ensures |EncodeAll(fs)| < TWO64 ==> forall f :: f in fs ==> ValidField(f)
  {
    if fs != [] {
      SmallMessage(fs[1..]);
      assert forall f :: f in fs ==> f == fs[0] || f in fs[1..];
    }
  }

  /** A written message tokenizes into the fields it was written from. */
  lemma Written(fs: seq<Field>)
    requires |EncodeAll(fs)| < TWO64 && forall f :: f in fs ==> Writable(f)
    ensures Tokenize(EncodeAll(fs)) == Ok(fs)
  {
    SmallMessage(fs);
    TokensRoundTrip(fs);
  }

  lemma NoKinds(num: nat)
    ensures AllBytes([], num) == [] && AllVarints([], num) == []
  {
  }

  lemma {:induction false} AllBytesConcat(fs: seq<Field>, gs: seq<Field>, num: nat)
    ensures AllBytes(fs + gs, num) == AllBytes(fs, num) + AllBytes(gs, num)
    ensures AllVarints(fs + gs, num) == AllVarints(fs, num) + AllVarints(gs, num)
  {
    hide AllBytes, AllVarints;
    if fs == [] {
      assert fs + gs == gs;
      NoKinds(num);
    } else {
      var f, rest := fs[0], fs[1..];
      assert [f] + rest == fs && [f] + (rest + gs) == fs + gs;
      KindsCons(f, rest, num);
      KindsCons(f, rest + gs, num);
      AllBytesConcat(rest, gs, num);
    }
  }

  lemma {:induction false} AllBytesOfMap(items: seq<seq<byte>>, k: nat, num: nat)
    ensures AllBytes(W.Map(W.BytesField(k), items), num) == if k == num then items else []
    ensures AllVarints(W.Map(W.BytesField(k), items), num) == []
  {
    if items != [] {
      var fs := W.Map(W.BytesField(k), items);
      assert fs[1..] == W.Map(W.BytesField(k), items[1..]);
      AllBytesOfMap(items[1..], k, num);
      assert [items[0]] + items[1..] == items;
    }
  }

  lemma {:induction false} AllVarintsOfMap(vs: seq<nat>, k: nat, num: nat)
    ensures AllVarints(W.Map(W.VarintField(k), vs), num) == if k == num then vs else []
    ensures AllBytes(W.Map(W.VarintField(k), vs), num) == []
  {
    if vs != [] {
      var fs := W.Map(W.VarintField(k), vs);
      assert fs[1..] == W.Map(W.VarintField(k), vs[1..]);
      AllVarintsOfMap(vs[1..], k, num);
      assert [vs[0]] + vs[1..] == vs;
    }
  }

  lemma OneField(f: Field, num: nat)
    ensures AllBytes([f], num) == if f.Bytes? && f.num == num then [f.payload] else []
    ensures AllVarints([f], num) == if f.Varint? && f.num == num then [f.v] else []
  {
  }

  lemma FourParts(a: seq<Field>, b: seq<Field>, c: seq<Field>, d: seq<Field>, num: nat)
    ensures AllBytes(a + b + c + d, num) ==
            AllBytes(a, num) + AllBytes(b, num) + AllBytes(c, num) + AllBytes(d, num)
    ensures AllVarints(a + b + c + d, num) ==
            AllVarints(a, num) + AllVarints(b, num) + AllVarints(c, num) + AllVarints(d, num)
  {
    hide AllBytes, AllVarints;
    AllBytesConcat(a + b + c, d, num);
    AllBytesConcat(a + b, c, num);
    AllBytesConcat(a, b, num);
  }

  lemma NodeKind(n: W.NodeAst, num: nat)
    ensures AllBytes(W.NodeFields(n), num) ==
            (if num == 1 then n.inputs else []) + (if num == 2 then n.outputs else [])
            + (if num == 3 then [n.name] else []) + (if num == 4 then [n.opType] else [])
  {
    hide AllBytes, W.Map;
    var a, b := W.Map(W.BytesField(1), n.inputs), W.Map(W.BytesField(2), n.outputs);
    var c, d := Bytes(3, n.name), Bytes(4, n.opType);
    assert W.NodeFields(n) == a + b + [c] + [d];
    FourParts(a, b, [c], [d], num);
    AllBytesOfMap(n.inputs, 1, num);
    AllBytesOfMap(n.outputs, 2, num);
    OneField(c, num);
    OneField(d, num);
  }

  lemma NodeKinds(n: W.NodeAst)
    ensures AllBytes(W.NodeFields(n), 1) == n.inputs && AllBytes(W.NodeFields(n), 2) == n.outputs
    ensures AllBytes(W.NodeFields(n), 3) == [n.name] && AllBytes(W.NodeFields(n), 4) == [n.opType]
  {
    hide AllBytes, W.NodeFields;
    NodeKind(n, 1);
    NodeKind(n, 2);
    NodeKind(n, 3);
    NodeKind(n, 4);
  }

  lemma NodeRoundTrip(n: W.NodeAst)
    requires |W.EncodeNode(n)| < TWO64
    ensures R.Node(W.EncodeNode(n)) == Ok(R.NodeInfo(n.name, n.opType, n.inputs, n.outputs))
  {
    hide EncodeAll, Tokenize, Fold, FoldFields, AllBytes;
    var fs := W.NodeFields(n);
    Written(fs);
    FoldIsTokens(W.EncodeNode(n), R.NO_NODE, R.NodeStep);
    NodeByKind(fs, R.NO_NODE);
    NodeKinds(n);
    assert [] + n.inputs == n.inputs && [] + n.outputs == n.outputs;
  }

  lemma TensorKind(t: W.TensorAst, num: nat)
    ensures AllBytes(W.TensorFields(t), num) ==
            if num == 8 then [t.name] else if num == 9 then [W.Pack(t.values)] else []
    ensures AllVarints(W.TensorFields(t), num) ==
            if num == 1 then t.dims else if num == 2 then [t.dataType] else []
  {
    hide AllBytes, AllVarints, W.Map;
    var a := W.Map(W.VarintField(1), t.dims);
    var b, c, d := Varint(2, t.dataType), Bytes(8, t.name), Bytes(9, W.Pack(t.values));
    assert W.TensorFields(t) == a + [b] + [c] + [d];
    FourParts(a, [b], [c], [d], num);
    AllVarintsOfMap(t.dims, 1, num);
    OneField(b, num);
    OneField(c, num);
    OneField(d, num);
  }

  lemma TensorRoundTrip(t: W.TensorAst)
    requires SmallNumbers(t.dims) && t.dataType < TWO64 && |W.EncodeTensor(t)| < TWO64
    ensures R.Tensor(W.EncodeTensor(t)) ==
            Ok(R.TensorInfo(t.name, R.ToInt32(t.dataType), ToInt64s(t.dims), 4 * |t.values|))
  {
    hide EncodeAll, Tokenize, Fold, FoldFields, AllBytes, AllVarints, R.ToInt32, R.ToInt64;
    var fs := W.TensorFields(t);
    Written(fs);
    FoldIsTokens(W.EncodeTensor(t), R.NO_TENSOR, R.TensorStep);
    TensorByKind(fs, R.NO_TENSOR);
    TensorKind(t, 1);
    TensorKind(t, 2);
    TensorKind(t, 8);
    TensorKind(t, 9);
    assert [] + ToInt64s(t.dims) == ToInt64s(t.dims);
  }

  lemma DimRoundTrip(dim: nat)
    requires dim < TWO64
    ensures R.Dimension(EncodeAll(W.DimFields(dim))) == Ok(R.ToInt64(dim))
  {
    W.EncodeOne(Varint(1, dim));
    FieldRoundTrip(Varint(1, dim), []);
    assert EncodeField(Varint(1, dim)) + [] == EncodeField(Varint(1, dim));
  }

  lemma {:induction false} ShapeFieldsRoundTrip(dims: seq<nat>, acc: seq<int>)
    requires SmallNumbers(dims)
    ensures FoldFields(W.ShapeFields(dims), acc, R.ShapeStep) == Ok(acc + ToInt64s(dims))
  {
    hide R.Dimension, R.ToInt64, EncodeAll;
    if dims == [] {
      assert acc + [] == acc;
    } else {
      DimRoundTrip(dims[0]);
      assert W.ShapeFields(dims)[1..] == W.ShapeFields(dims[1..]);
      ShapeFieldsRoundTrip(dims[1..], acc + [R.ToInt64(dims[0])]);
      PushFront(acc, R.ToInt64(dims[0]), ToInt64s(dims[1..]));
    }
  }

  lemma ShapeRoundTrip(dims: seq<nat>)
    requires SmallNumbers(dims) && |EncodeAll(W.ShapeFields(dims))| < TWO64
    ensures R.Shape(EncodeAll(W.ShapeFields(dims))) == Ok(ToInt64s(dims))
  {
    Written(W.ShapeFields(dims));
    FoldIsTokens(EncodeAll(W.ShapeFields(dims)), [], R.ShapeStep);
    ShapeFieldsRoundTrip(dims, []);
    assert [] + ToInt64s(dims) == ToInt64s(dims);
  }

  /** A message of one or two fields, folded. */
  lemma FoldOne<A>(f: Field, acc: A, step: (A, Field) -> Outcome<A>)
    ensures FoldFields([f], acc, step) == step(acc, f)
  {
  }

  lemma FoldTwo<A>(f: Field, g: Field, acc: A, step: (A, Field) -> Outcome<A>)
    requires step(acc, f).Ok?
    ensures FoldFields([f, g], acc, step) == step(step(acc, f).value, g)
  {
    FoldOne(g, step(acc, f).value, step);
    assert [f, g][1..] == [g];
  }

  lemma TypeRoundTrip(elemType: nat, dims: seq<nat>, value: R.ValueInfo)
    requires SmallNumbers(dims) && elemType < TWO64
    requires |EncodeAll(W.TypeFields(elemType, dims))| < TWO64
    ensures R.TypeOf(EncodeAll(W.TypeFields(elemType, dims)), value) ==
            Ok(value.(elemType := R.ToInt32(elemType), shape := ToInt64s(dims)))
  {
    hide EncodeAll, Tokenize, Fold, EncodeField;
    var shape := EncodeAll(W.ShapeFields(dims));
    var inner := W.TensorTypeFields(elemType, dims);
    var outer := W.TypeFields(elemType, dims);
    SmallMessage(outer);
    assert |EncodeAll(inner)| < TWO64 by { assert outer[0] in outer; }
    SmallMessage(inner);
    assert |shape| < TWO64 by { assert inner[1] in inner; }
    ShapeRoundTrip(dims);
    Written(inner);
    FoldIsTokens(EncodeAll(inner), value, R.TensorTypeStep);
    FoldTwo(Varint(1, elemType), Bytes(2, shape), value, R.TensorTypeStep);
    Written(outer);
    FoldIsTokens(EncodeAll(outer), value, R.TypeStep);
    FoldOne(outer[0], value, R.TypeStep);
  }

  function ExpectedValue(v: W.ValueInfoAst): R.ValueInfo {
    R.ValueInfo(v.name, R.ToInt32(v.elemType), ToInt64s(v.dims))
  }

  lemma ValueInfoRoundTrip(v: W.ValueInfoAst)
    requires SmallNumbers(v.dims) && v.elemType < TWO64 && |W.EncodeValueInfo(v)| < TWO64
    ensures R.Value(W.EncodeValueInfo(v)) == Ok(ExpectedValue(v))
  {
    hide EncodeAll, Tokenize, Fold, EncodeField;
    var fs := W.ValueInfoFields(v);
    SmallMessage(fs);
    assert fs[1] in fs;
    TypeRoundTrip(v.elemType, v.dims, R.NO_VALUE.(name := v.name));
    Written(fs);
    FoldIsTokens(W.EncodeValueInfo(v), R.NO_VALUE, R.ValueInfoStep);
    FoldTwo(fs[0], fs[1], R.NO_VALUE, R.ValueInfoStep);
  }

  function ExpectedNode(n: W.NodeAst): R.NodeInfo {
    R.NodeInfo(n.name, n.opType, n.inputs, n.outputs)
  }

  function ExpectedTensor(t: W.TensorAst): R.TensorInfo {
    R.TensorInfo(t.name, R.ToInt32(t.dataType), ToInt64s(t.dims), 4 * |t.values|)
  }

  /** If every item round-trips, so does the list. */
  lemma {:induction false} MapOkRoundTrip<A, B>(items: seq<A>, encode: A -> seq<byte>,
                                                parse: seq<byte> -> Outcome<B>, expected: A -> B)
    requires forall a :: a in items ==> parse(encode(a)) == Ok(expected(a))
    ensures MapOk(W.Map(encode, items), parse) == Ok(W.Map(expected, items))
  {
    if items != [] {
      assert W.Map(encode, items)[1..] == W.Map(encode, items[1..]);
      MapOkRoundTrip(items[1..], encode, parse, expected);
    }
  }

  lemma GraphKinds(g: W.GraphAst)
    ensures var fs := W.GraphFields(g);
            && AllBytes(fs, 1) == W.Map(W.EncodeNode, g.nodes) && AllBytes(fs, 2) == [g.name]
            && AllBytes(fs, 5) == W.Map(W.EncodeTensor, g.tensors)
            && AllBytes(fs, 11) == W.Map(W.EncodeValueInfo, g.inputs)
            && AllBytes(fs, 12) == W.Map(W.EncodeValueInfo, g.outputs)
  {
    hide W.Map, W.EncodeNode, W.EncodeTensor, W.EncodeValueInfo;
    var nodes, tensors := W.Map(W.EncodeNode, g.nodes), W.Map(W.EncodeTensor, g.tensors);
    var ins, outs := W.Map(W.EncodeValueInfo, g.inputs), W.Map(W.EncodeValueInfo, g.outputs);
    var a, b := W.Map(W.BytesField(1), nodes), [Bytes(2, g.name)];
    var c, d, e := W.Map(W.BytesField(5), tensors), W.Map(W.BytesField(11), ins), W.Map(W.BytesField(12), outs);
    forall num: nat | num in {1, 2, 5, 11, 12}
      ensures AllBytes(W.GraphFields(g), num) ==
              (if num == 1 then nodes else []) + (if num == 2 then [g.name] else [])
              + (if num == 5 then tensors else []) + (if num == 11 then ins else [])
              + (if num == 12 then outs else [])
    {
      AllBytesConcat(a + b + c + d, e, num);
      AllBytesConcat(a + b + c, d, num);
      AllBytesConcat(a + b, c, num);
      AllBytesConcat(a, b, num);
      AllBytesOfMap(nodes, 1, num);
      AllBytesOfMap(tensors, 5, num);
      AllBytesOfMap(ins, 11, num);
      AllBytesOfMap(outs, 12, num);
      OneField(Bytes(2, g.name), num);
    }
  }

  lemma GraphWritable(g: W.GraphAst)
    ensures forall f :: f in W.GraphFields(g) ==> Writable(f)
  {
  }

  lemma InMap<A>(items: seq<A>, encode: A -> seq<byte>, a: A)
    requires a in items
    ensures encode(a) in W.Map(encode, items)
  {
    var i :| 0 <= i < |items| && items[i] == a;
    assert W.Map(encode, items)[i] == encode(a);
  }

  lemma {:induction false} PayloadOf(fs: seq<Field>, num: nat, p: seq<byte>)
    requires p in AllBytes(fs, num)
    ensures Bytes(num, p) in fs
  {
    if !(fs[0].Bytes? && fs[0].num == num && fs[0].payload == p) {
      PayloadOf(fs[1..], num, p);
    }
  }

  /** Each nested message is a payload of the graph, so it is no longer than the graph. */
  lemma NestedFits(g: W.GraphAst)
    requires |EncodeAll(W.GraphFields(g))| < TWO64
    ensures forall n :: n in g.nodes ==> |W.EncodeNode(n)| < TWO64
    ensures forall t :: t in g.tensors ==> |W.EncodeTensor(t)| < TWO64
    ensures forall v :: v in g.inputs + g.outputs ==> |W.EncodeValueInfo(v)| < TWO64
  {
    hide W.EncodeNode, W.EncodeTensor, W.EncodeValueInfo, EncodeAll;
    var fs := W.GraphFields(g);
    GraphWritable(g);
    SmallMessage(fs);
    GraphKinds(g);
    forall n | n in g.nodes ensures |W.EncodeNode(n)| < TWO64 {
      InMap(g.nodes, W.EncodeNode, n);
      PayloadOf(fs, 1, W.EncodeNode(n));
    }
    forall t | t in g.tensors ensures |W.EncodeTensor(t)| < TWO64 {
      InMap(g.tensors, W.EncodeTensor, t);
      PayloadOf(fs, 5, W.EncodeTensor(t));
    }
    forall v | v in g.inputs + g.outputs ensures |W.EncodeValueInfo(v)| < TWO64 {
      if v in g.inputs {
        InMap(g.inputs, W.EncodeValueInfo, v);
        PayloadOf(fs, 11, W.EncodeValueInfo(v));
      } else {
        InMap(g.outputs, W.EncodeValueInfo, v);
        PayloadOf(fs, 12, W.EncodeValueInfo(v));
      }
    }
  }

  lemma GraphRoundTrip(g: W.GraphAst, m: R.ModelInfo)
    requires |EncodeAll(W.GraphFields(g))| < TWO64
    requires forall t :: t in g.tensors ==> SmallNumbers(t.dims) && t.dataType < TWO64
    requires forall v :: v in g.inputs + g.outputs ==> SmallNumbers(v.dims) && v.elemType < TWO64
    ensures R.Graph(EncodeAll(W.GraphFields(g)), m) ==
            Ok(m.(graphName := g.name,
                  nodes := m.nodes + W.Map(ExpectedNode, g.nodes),
                  initializers := m.initializers + W.Map(ExpectedTensor, g.tensors),
                  inputs := m.inputs + W.Map(ExpectedValue, g.inputs),
                  outputs := m.outputs + W.Map(ExpectedValue, g.outputs)))
  {
    hide R.Node, R.Tensor, R.Value, W.EncodeNode, W.EncodeTensor, W.EncodeValueInfo,
      EncodeAll, Tokenize, Fold, FoldFields, W.Map, W.GraphFields, AllBytes, MapOk;
    var fs := W.GraphFields(g);
    NestedFits(g);
    GraphWritable(g);
    Written(fs);
    FoldIsTokens(EncodeAll(fs), m, R.GraphStep);
    GraphByKind(fs, m);
    GraphKinds(g);
    forall n | n in g.nodes ensures R.Node(W.EncodeNode(n)) == Ok(ExpectedNode(n)) { NodeRoundTrip(n); }
    MapOkRoundTrip(g.nodes, W.EncodeNode, R.Node, ExpectedNode);
    forall t | t in g.tensors ensures R.Tensor(W.EncodeTensor(t)) == Ok(ExpectedTensor(t)) { TensorRoundTrip(t); }
    MapOkRoundTrip(g.tensors, W.EncodeTensor, R.Tensor, ExpectedTensor);
    forall v | v in g.inputs + g.outputs ensures R.Value(W.EncodeValueInfo(v)) == Ok(ExpectedValue(v)) {
      ValueInfoRoundTrip(v);
    }
    MapOkRoundTrip(g.inputs, W.EncodeValueInfo, R.Value, ExpectedValue);
    MapOkRoundTrip(g.outputs, W.EncodeValueInfo, R.Value, ExpectedValue);
  }

  function Expected(m: W.ModelAst): R.ModelInfo {
    R.ModelInfo(m.graph.name, R.ToInt64(m.irVersion), R.ToInt64(m.opset),
                W.Map(ExpectedValue, m.graph.inputs), W.Map(ExpectedValue, m.graph.outputs),
                W.Map(ExpectedTensor, m.graph.tensors), W.Map(ExpectedNode, m.graph.nodes))
  }

  lemma OpsetRoundTrip(version: nat)
    requires version < TWO64
    ensures R.Opset(EncodeAll(W.OpsetFields(version))) == Ok(R.ToInt64(version))
  {
    W.EncodeOne(Varint(2, version));
    FieldRoundTrip(Varint(2, version), []);
    assert EncodeField(Varint(2, version)) + [] == EncodeField(Varint(2, version));
  }

  lemma ModelFold(m: W.ModelAst, m1: R.ModelInfo)
    requires m1 == R.NO_MODEL.(irVersion := R.ToInt64(m.irVersion))
    requires R.Graph(EncodeAll(W.GraphFields(m.graph)), m1).Ok?
    requires R.Opset(EncodeAll(W.OpsetFields(m.opset))).Ok?
    ensures FoldFields(W.ModelFields(m), R.NO_MODEL, R.ModelStep) ==
            Ok(R.Graph(EncodeAll(W.GraphFields(m.graph)), m1).value.(
                 opsetVersion := R.Opset(EncodeAll(W.OpsetFields(m.opset))).value))
  {
    hide EncodeAll, W.GraphFields, W.OpsetFields, R.Graph, R.Opset;
    var fs := W.ModelFields(m);
    var m2 := R.Graph(EncodeAll(W.GraphFields(m.graph)), m1).value;
    FoldFieldsConcat([fs[0], fs[1]], [fs[2], fs[3]], R.NO_MODEL, R.ModelStep);
    assert [fs[0], fs[1]] + [fs[2], fs[3]] == fs;
    FoldTwo(fs[0], fs[1], R.NO_MODEL, R.ModelStep);
    FoldTwo(fs[2], fs[3], m1, R.ModelStep);
  }

  /**
    Whole-model round trip: parseModel reads every model the script's functions can write, and
    returns its names, versions, nodes, tensors, inputs and outputs, in order.
  */
  lemma ModelRoundTrip(m: W.ModelAst)
    requires WellFormed(m)
    ensures R.Model(W.EncodeModel(m)) == Ok(Expected(m))
  {
    hide EncodeAll, Tokenize, Fold, W.GraphFields, W.Map, R.Graph, R.Opset, EncodeField;
    var fs := W.ModelFields(m);
    SmallMessage(fs);
    assert |EncodeAll(W.GraphFields(m.graph))| < TWO64 by { assert fs[2] in fs; }
    Written(fs);
    FoldIsTokens(W.EncodeModel(m), R.NO_MODEL, R.ModelStep);
    var m1 := R.NO_MODEL.(irVersion := R.ToInt64(m.irVersion));
    GraphRoundTrip(m.graph, m1);
    OpsetRoundTrip(m.opset);
    ModelFold(m, m1);
    var e := Expected(m);
    assert [] + e.nodes == e.nodes && [] + e.initializers == e.initializers;
    assert [] + e.inputs == e.inputs && [] + e.outputs == e.outputs;
  }

  /** The casts change nothing for numbers in the range of the fields they are stored in. */
  lemma CastsKeepInRange(v: nat)
    ensures R.ToInt64(v) == v <==> v < 0x8000_0000_0000_0000
    ensures R.ToInt32(v) == v <==> v < 0x8000_0000
  {
  }

  /** Beyond the range the casts wrap: from 2^63 on a stored dimension is negative. */
  lemma CastsWrap(v: nat)
    requires v < TWO64
    ensures v >= 0x8000_0000_0000_0000 ==> R.ToInt64(v) == v - TWO64
    ensures R.ToInt64(TWO64 - 1) == -1
    ensures -0x8000_0000 <= R.ToInt32(v) < 0x8000_0000 && (v - R.ToInt32(v)) % 0x1_0000_0000 == 0
  {
    var q, m := v / 0x1_0000_0000, v % 0x1_0000_0000;
    assert v - m == q * 0x1_0000_0000 && v - (m - 0x1_0000_0000) == (q + 1) * 0x1_0000_0000;
  }

  /** The first varint in field `num` counts, whatever else the message holds; without one, the default. */
  lemma {:induction false} FirstVarintIs(s: seq<byte>, num: nat, default: int)
    requires Tokenize(s).Ok?
    ensures var values := AllVarints(Tokenize(s).value, num);
            R.FirstVarint(s, num, default) == Ok(if values == [] then default else R.ToInt64(values[0]))
    decreases |s|
  {
    hide R.ToInt64;
    if s != [] {
      var (f, n) := NextField(s).value;
      FirstVarintIs(s[n..], num, default);
      KindsCons(f, Tokenize(s[n..]).value, num);
    }
  }

  /** A dimension without a value in field 1 is -1; with values, the first. */
  lemma DimensionMeans(s: seq<byte>)
    requires Tokenize(s).Ok?
    ensures AllVarints(Tokenize(s).value, 1) == [] ==> R.Dimension(s) == Ok(-1)
    ensures AllVarints(Tokenize(s).value, 1) != [] ==>
              R.Dimension(s) == Ok(R.ToInt64(AllVarints(Tokenize(s).value, 1)[0]))
  {
    FirstVarintIs(s, 1, -1);
  }

  /** An operator set without a version in field 2 is 0; with versions, the first. */
  lemma OpsetMeans(s: seq<byte>)
    requires Tokenize(s).Ok?
    ensures AllVarints(Tokenize(s).value, 2) == [] ==> R.Opset(s) == Ok(0)
    ensures AllVarints(Tokenize(s).value, 2) != [] ==>
              R.Opset(s) == Ok(R.ToInt64(AllVarints(Tokenize(s).value, 2)[0]))
  {
    FirstVarintIs(s, 2, 0);
  }
}
