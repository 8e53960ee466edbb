/**
  What the script writes, field number by field number, independently of the inspector: which
  fields each message has and what is in them, down to the bits of the weights.
*/
module OnnxContents {
  import opened OnnxRoundTrip
  import opened OnnxWriter
  import opened Prelude
  import opened ProtoWire

  // ---------------------------------------------------------------- weights

  /** Four bytes as a 32-bit word, the lowest first. */
  function Word(raw: seq<byte>): nat
    requires |raw| == 4
  {
    var b0: nat, b1: nat, b2: nat, b3: nat := raw[0], raw[1], raw[2], raw[3];
    b0 + 0x100 * b1 + 0x1_0000 * b2 + 0x100_0000 * b3
  }

  /** Four bytes at a time. */
  function Unpack(raw: seq<byte>): seq<nat>
    requires |raw| % 4 == 0
  {
    if raw == [] then [] else [Word(raw[..4])] + Unpack(raw[4..])
  }

  lemma WordOf(w: Float32)
    ensures Word(LittleEndian(w)) == w
  {
    var a, b := w / 0x100, w / 0x1_0000;
    assert w == 0x100 * a + w % 0x100;
    assert a / 0x100 == b && a == 0x100 * b + a % 0x100;
    assert b / 0x100 == w / 0x100_0000 && b == 0x100 * (b / 0x100) + b % 0x100;
  }

  /** The packed values, unpacked. */
  lemma {:induction false} UnpackInvertsPack(values: seq<Float32>)
    ensures |Unpack(Pack(values))| == |values|
    ensures forall i :: 0 <= i < |values| ==> Unpack(Pack(values))[i] == values[i]
  {
    if values != [] {
      var front, rest := LittleEndian(values[0]), Pack(values[1..]);
      WordOf(values[0]);
      UnpackInvertsPack(values[1..]);
      assert (front + rest)[..4] == front && (front + rest)[4..] == rest;
      forall i | 0 <= i < |values| ensures Unpack(Pack(values))[i] == values[i] {
        if i > 0 { assert Unpack(Pack(values))[i] == Unpack(rest)[i - 1]; }
      }
    }
  }

  /** The four bytes at 4i are those of the i-th value. */
  lemma {:induction false} PackedAt(values: seq<Float32>, i: nat)
    requires i < |values|
    ensures Word(Pack(values)[4 * i..4 * i + 4]) == values[i]
  {
    var front, rest := LittleEndian(values[0]), Pack(values[1..]);
    if i == 0 {
      WordOf(values[0]);
      assert (front + rest)[0..4] == front;
    } else {
      PackedAt(values[1..], i - 1);
      assert (front + rest)[4 * i..4 * i + 4] == rest[4 * (i - 1)..4 * (i - 1) + 4];
    }
  }

  // ---------------------------------------------------------------- messages

  /**
    A written tensor: its dimensions in field 1, its type in field 2, its name in field 8, and in
    field 9, once, four little-endian bytes for each value.
  */
  lemma TensorHolds(t: TensorAst)
    requires SmallNumbers(t.dims) && t.dataType < TWO64 && |EncodeTensor(t)| < TWO64
    ensures Tokenize(EncodeTensor(t)).Ok?
    ensures var fs := Tokenize(EncodeTensor(t)).value;
            && AllVarints(fs, 1) == t.dims && AllVarints(fs, 2) == [t.dataType] && AllBytes(fs, 8) == [t.name]
            && |AllBytes(fs, 9)| == 1
            && var raw := AllBytes(fs, 9)[0];
               && |raw| == 4 * |t.values|
               && forall i :: 0 <= i < |t.values| ==> Word(raw[4 * i..4 * i + 4]) == t.values[i]
  {
    hide EncodeAll, Tokenize, AllBytes, AllVarints;
    Written(TensorFields(t));
    TensorKind(t, 1);
    TensorKind(t, 2);
    TensorKind(t, 8);
    TensorKind(t, 9);
    forall i | 0 <= i < |t.values| ensures Word(Pack(t.values)[4 * i..4 * i + 4]) == t.values[i] {
      PackedAt(t.values, i);
    }
  }

  /** A written node: inputs in field 1, outputs in 2, name in 3, operator in 4. */
  lemma NodeHolds(n: NodeAst)
    requires |EncodeNode(n)| < TWO64
    ensures Tokenize(EncodeNode(n)).Ok?
    ensures var fs := Tokenize(EncodeNode(n)).value;
            && AllBytes(fs, 1) == n.inputs && AllBytes(fs, 2) == n.outputs
            && AllBytes(fs, 3) == [n.name] && AllBytes(fs, 4) == [n.opType]
  {
    hide EncodeAll, Tokenize, AllBytes;
    Written(NodeFields(n));
    NodeKinds(n);
  }

  lemma TwoFields(f: Field, g: Field, num: nat)
    ensures AllBytes([f, g], num) ==
            (if f.Bytes? && f.num == num then [f.payload] else [])
            + (if g.Bytes? && g.num == num then [g.payload] else [])
    ensures AllVarints([f, g], num) ==
            (if f.Varint? && f.num == num then [f.v] else []) + (if g.Varint? && g.num == num then [g.v] else [])
  {
    assert [f] + [g] == [f, g];
    hide AllBytes, AllVarints;
    AllBytesConcat([f], [g], num);
    OneField(f, num);
    OneField(g, num);
  }

  lemma DimHolds(dim: nat)
    requires dim < TWO64
    ensures Tokenize(EncodeAll(DimFields(dim))) == Ok([Varint(1, dim)])
  {
    TokensRoundTrip([Varint(1, dim)]);
  }

  /** A written shape: in field 1 a message for each dimension, with the dimension in its field 1. */
  lemma ShapeHolds(dims: seq<nat>)
    requires SmallNumbers(dims) && |EncodeAll(ShapeFields(dims))| < TWO64
    ensures Tokenize(EncodeAll(ShapeFields(dims))) == Ok(ShapeFields(dims))
    ensures |ShapeFields(dims)| == |dims|
    ensures forall i :: 0 <= i < |dims| ==>
              var f := ShapeFields(dims)[i];
              f.Bytes? && f.num == 1 && Tokenize(f.payload) == Ok([Varint(1, dims[i])])
  {
    Written(ShapeFields(dims));
    forall i | 0 <= i < |dims|
      ensures var f := ShapeFields(dims)[i];
              f.Bytes? && f.num == 1 && Tokenize(f.payload) == Ok([Varint(1, dims[i])])
    {
      DimHolds(dims[i]);
    }
  }

  /** A written value info: its name in field 1, its type in field 2; the rest is nested there. */
  lemma ValueInfoHolds(v: ValueInfoAst) returns (typ: seq<byte>, tensorType: seq<byte>, shape: seq<byte>)
    requires SmallNumbers(v.dims) && v.elemType < TWO64 && |EncodeValueInfo(v)| < TWO64
    ensures Tokenize(EncodeValueInfo(v)) == Ok([Bytes(1, v.name), Bytes(2, typ)])
    ensures Tokenize(typ) == Ok([Bytes(1, tensorType)])
    ensures Tokenize(tensorType) == Ok([Varint(1, v.elemType), Bytes(2, shape)])
    ensures Tokenize(shape).Ok? && |Tokenize(shape).value| == |v.dims|
    ensures forall i :: 0 <= i < |v.dims| ==>
              var f := Tokenize(shape).value[i];
              f.Bytes? && f.num == 1 && Tokenize(f.payload) == Ok([Varint(1, v.dims[i])])
  {
    hide EncodeAll, Tokenize, EncodeField;
    var outer, middle := TypeFields(v.elemType, v.dims), TensorTypeFields(v.elemType, v.dims);
    typ, tensorType, shape := EncodeAll(outer), EncodeAll(middle), EncodeAll(ShapeFields(v.dims));
    var fs := ValueInfoFields(v);
    SmallMessage(fs);
    assert |typ| < TWO64 by { assert fs[1] in fs; }
    SmallMessage(outer);
    assert |tensorType| < TWO64 by { assert outer[0] in outer; }
    SmallMessage(middle);
    assert |shape| < TWO64 by { assert middle[1] in middle; }
    Written(fs);
    Written(outer);
    Written(middle);
    ShapeHolds(v.dims);
  }

  /** A written graph: nodes in field 1, name in 2, tensors in 5, inputs in 11, outputs in 12, in order. */
  lemma GraphHolds(g: GraphAst)
    requires |EncodeAll(GraphFields(g))| < TWO64
    ensures Tokenize(EncodeAll(GraphFields(g))).Ok?
    ensures var fs := Tokenize(EncodeAll(GraphFields(g))).value;
            && AllBytes(fs, 1) == Map(EncodeNode, g.nodes) && AllBytes(fs, 2) == [g.name]
            && AllBytes(fs, 5) == Map(EncodeTensor, g.tensors)
            && AllBytes(fs, 11) == Map(EncodeValueInfo, g.inputs)
            && AllBytes(fs, 12) == Map(EncodeValueInfo, g.outputs)
  {
    hide EncodeAll, Tokenize, AllBytes, GraphFields, EncodeNode, EncodeTensor, EncodeValueInfo;
    GraphWritable(g);
    Written(GraphFields(g));
    GraphKinds(g);
  }

  /** A written model: IR version in field 1, producer in 2, graph in 7, operator set in 8. */
  lemma ModelHolds(m: ModelAst) returns (graph: seq<byte>, opset: seq<byte>)
    requires WellFormed(m)
    ensures Tokenize(EncodeModel(m)) ==
            Ok([Varint(1, m.irVersion), Bytes(2, m.producer), Bytes(7, graph), Bytes(8, opset)])
    ensures graph == EncodeAll(GraphFields(m.graph)) && |graph| < TWO64
    ensures Tokenize(opset) == Ok([Varint(2, m.opset)])
  {
    hide EncodeAll, Tokenize, GraphFields, EncodeField;
    graph, opset := EncodeAll(GraphFields(m.graph)), EncodeAll(OpsetFields(m.opset));
    var fs := ModelFields(m);
    SmallMessage(fs);
    assert |graph| < TWO64 by { assert fs[2] in fs; }
    Written(fs);
    TokensRoundTrip([Varint(2, m.opset)]);
  }

  /** The message has exactly these payloads in field `num`, in order. */
  predicate Holds(message: seq<byte>, num: nat, payloads: seq<seq<byte>>) {
    Tokenize(message).Ok? && AllBytes(Tokenize(message).value, num) == payloads
  }

  lemma ModelGraphField(m: ModelAst, graph: seq<byte>, opset: seq<byte>)
    ensures AllBytes([Varint(1, m.irVersion), Bytes(2, m.producer), Bytes(7, graph), Bytes(8, opset)], 7) == [graph]
  {
    var a, b := [Varint(1, m.irVersion), Bytes(2, m.producer)], [Bytes(7, graph), Bytes(8, opset)];
    TwoFields(a[0], a[1], 7);
    TwoFields(b[0], b[1], 7);
    AllBytesConcat(a, b, 7);
    assert a + b == [a[0], a[1], b[0], b[1]];
  }

  lemma ModelHoldsGraph(m: ModelAst)
    requires WellFormed(m)
    ensures Holds(EncodeModel(m), 7, [EncodeAll(GraphFields(m.graph))])
    ensures Holds(EncodeAll(GraphFields(m.graph)), 5, Map(EncodeTensor, m.graph.tensors))
  {
    hide EncodeAll, Tokenize, GraphFields, EncodeTensor, EncodeNode, EncodeValueInfo, AllBytes;
    var graph, opset := ModelHolds(m);
    ModelGraphField(m, graph, opset);
    GraphHolds(m.graph);
  }

  lemma TensorHoldsRaw(t: TensorAst)
    requires SmallNumbers(t.dims) && t.dataType < TWO64 && |EncodeTensor(t)| < TWO64
    ensures Holds(EncodeTensor(t), 9, [Pack(t.values)])
  {
    hide EncodeAll, Tokenize, AllBytes, AllVarints;
    Written(TensorFields(t));
    TensorKind(t, 9);
  }

  lemma GraphIsSmall(m: ModelAst)
    requires WellFormed(m)
    ensures |EncodeAll(GraphFields(m.graph))| < TWO64
  {
    var _, _ := ModelHolds(m);
  }

  /** The weights of any tensor of a written model can be found in the file and unpacked. */
  lemma WeightsAreInFile(m: ModelAst, i: nat)
    returns (graph: seq<byte>, tensors: seq<seq<byte>>, raw: seq<byte>)
    requires WellFormed(m) && i < |m.graph.tensors|
    ensures Holds(EncodeModel(m), 7, [graph])
    ensures Holds(graph, 5, tensors) && |tensors| == |m.graph.tensors|
    ensures Holds(tensors[i], 9, [raw])
    ensures |raw| % 4 == 0 && Unpack(raw) == m.graph.tensors[i].values
  {
    hide Holds, EncodeAll, GraphFields, EncodeTensor;
    var t := m.graph.tensors[i];
    graph, tensors, raw := EncodeAll(GraphFields(m.graph)), Map(EncodeTensor, m.graph.tensors), Pack(t.values);
    ModelHoldsGraph(m);
    GraphIsSmall(m);
    NestedFits(m.graph);
    TensorHoldsRaw(t);
    UnpackInvertsPack(t.values);
  }
}
