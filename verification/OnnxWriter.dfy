/**
  The Python script that writes an ONNX model without a protobuf library.  A message is described
  by its list of fields, in the order in which the script appends them; the methods build the same
  bytes the way the script does, by appending to a buffer.
*/
module OnnxWriter {
  import opened Prelude
  import opened ProtoWire

  /** The 32 bits of a float; 0.05 is 0x3D4CCCCD. */
  type Float32 = w: int | 0 <= w < 0x1_0000_0000

  datatype ValueInfoAst = ValueInfoAst(name: Text, dims: seq<nat>, elemType: nat)

  datatype TensorAst = TensorAst(name: Text, dims: seq<nat>, values: seq<Float32>, dataType: nat)

  datatype NodeAst = NodeAst(opType: Text, inputs: seq<Text>, outputs: seq<Text>, name: Text)

  datatype GraphAst = GraphAst(
    nodes: seq<NodeAst>,
    name: Text,
    tensors: seq<TensorAst>,
    inputs: seq<ValueInfoAst>,
    outputs: seq<ValueInfoAst>)

  datatype ModelAst = ModelAst(irVersion: nat, producer: Text, graph: GraphAst, opset: nat)

  // ---------------------------------------------------------------- messages as field lists

  function Map<A, B>(f: A -> B, items: seq<A>): (r: seq<B>)
    ensures |r| == |items|
    ensures forall i :: 0 <= i < |items| ==> r[i] == f(items[i])
  {
    if items == [] then [] else [f(items[0])] + Map(f, items[1..])
  }

  function DimFields(dim: nat): seq<Field> { [Varint(1, dim)] }

  function DimField(dim: nat): Field { Bytes(1, EncodeAll(DimFields(dim))) }

  function ShapeFields(dims: seq<nat>): seq<Field> { Map(DimField, dims) }

  function TensorTypeFields(elemType: nat, dims: seq<nat>): seq<Field> {
    [Varint(1, elemType), Bytes(2, EncodeAll(ShapeFields(dims)))]
  }

  function TypeFields(elemType: nat, dims: seq<nat>): seq<Field> {
    [Bytes(1, EncodeAll(TensorTypeFields(elemType, dims)))]
  }

  function ValueInfoFields(v: ValueInfoAst): seq<Field> {
    [Bytes(1, v.name), Bytes(2, EncodeAll(TypeFields(v.elemType, v.dims)))]
  }

  /** The low byte first. */
  function LittleEndian(w: Float32): (r: seq<byte>)
    ensures |r| == 4
  {
    [w % 0x100, w / 0x100 % 0x100, w / 0x1_0000 % 0x100, w / 0x100_0000]
  }

  /** struct.pack of floats with "<" */
  function Pack(values: seq<Float32>): (r: seq<byte>)
    ensures |r| == 4 * |values|
  {
    if values == [] then [] else LittleEndian(values[0]) + Pack(values[1..])
  }

  function VarintField(num: nat): nat -> Field { (v: nat) => Varint(num, v) }

  function BytesField(num: nat): seq<byte> -> Field { (p: seq<byte>) => Bytes(num, p) }

  function TensorFields(t: TensorAst): seq<Field> {
    Map(VarintField(1), t.dims)
    + [Varint(2, t.dataType), Bytes(8, t.name), Bytes(9, Pack(t.values))]
  }

  function NodeFields(n: NodeAst): seq<Field> {
    Map(BytesField(1), n.inputs) + Map(BytesField(2), n.outputs)
    + [Bytes(3, n.name), Bytes(4, n.opType)]
  }

  function EncodeNode(n: NodeAst): seq<byte> { EncodeAll(NodeFields(n)) }

  function EncodeTensor(t: TensorAst): seq<byte> { EncodeAll(TensorFields(t)) }

  function EncodeValueInfo(v: ValueInfoAst): seq<byte> { EncodeAll(ValueInfoFields(v)) }

  function GraphFields(g: GraphAst): seq<Field> {
    Map(BytesField(1), Map(EncodeNode, g.nodes)) + [Bytes(2, g.name)]
    + Map(BytesField(5), Map(EncodeTensor, g.tensors))
    + Map(BytesField(11), Map(EncodeValueInfo, g.inputs))
    + Map(BytesField(12), Map(EncodeValueInfo, g.outputs))
  }

  function OpsetFields(version: nat): seq<Field> { [Varint(2, version)] }

  function ModelFields(m: ModelAst): seq<Field> {
    [Varint(1, m.irVersion), Bytes(2, m.producer), Bytes(7, EncodeAll(GraphFields(m.graph))),
     Bytes(8, EncodeAll(OpsetFields(m.opset)))]
  }

  function EncodeModel(m: ModelAst): seq<byte> { EncodeAll(ModelFields(m)) }

  lemma {:induction false} EncodeAllConcat(fs: seq<Field>, gs: seq<Field>)
    ensures EncodeAll(fs + gs) == EncodeAll(fs) + EncodeAll(gs)
  {
    if fs == [] {
      assert fs + gs == gs;
    } else {
      assert (fs + gs)[1..] == fs[1..] + gs;
      EncodeAllConcat(fs[1..], gs);
    }
  }

  /** Appending the bytes of one more field to a buffer. */
  lemma EncodeAllAppend(fs: seq<Field>, f: Field)
    ensures EncodeAll(fs + [f]) == EncodeAll(fs) + EncodeField(f)
  {
    EncodeAllConcat(fs, [f]);
    assert EncodeAll([f]) == EncodeField(f) + EncodeAll([]);
  }

  lemma EncodeOne(f: Field)
    ensures EncodeAll([f]) == EncodeField(f)
  {
    assert EncodeField(f) + [] == EncodeField(f);
  }

  lemma MapTake<A, B>(f: A -> B, items: seq<A>, i: nat)
    requires i < |items|
    ensures Map(f, items[..i + 1]) == Map(f, items[..i]) + [f(items[i])]
  {
  }

  // ---------------------------------------------------------------- the script's functions

  method WriteVarint(v: nat) returns (out: seq<byte>)
    ensures out == EncodeVarint(v)
  {
    out := [];
    var value := v;
    while value >= 0x80
      invariant EncodeVarint(v) == out + EncodeVarint(value)
    {
      out := out + [value % 0x80 + 0x80];
      value := value / 0x80;
    }
    out := out + [value];
  }

  method FieldVarint(num: nat, value: nat) returns (out: seq<byte>)
    ensures out == EncodeField(Varint(num, value))
  {
    var key := WriteVarint(num * 8 + 0);
    var code := WriteVarint(value);
    out := key + code;
  }

  method FieldBytes(num: nat, value: seq<byte>) returns (out: seq<byte>)
    ensures out == EncodeField(Bytes(num, value))
  {
    var key := WriteVarint(num * 8 + 2);
    var length := WriteVarint(|value|);
    out := key + length + value;
    assert out == key + (length + value);
  }

  method AppendVarint(message: seq<byte>, ghost fs: seq<Field>, num: nat, value: nat) returns (out: seq<byte>)
    requires message == EncodeAll(fs)
    ensures out == EncodeAll(fs + [Varint(num, value)])
  {
    var f := FieldVarint(num, value);
    out := message + f;
    EncodeAllAppend(fs, Varint(num, value));
  }

  method AppendBytes(message: seq<byte>, ghost fs: seq<Field>, num: nat, value: seq<byte>) returns (out: seq<byte>)
    requires message == EncodeAll(fs)
    ensures out == EncodeAll(fs + [Bytes(num, value)])
  {
    var f := FieldBytes(num, value);
    out := message + f;
    EncodeAllAppend(fs, Bytes(num, value));
  }

  /** One `for item in items: message += field_bytes(num, item)` loop. */
  method AppendEach(message: seq<byte>, ghost fs: seq<Field>, num: nat, items: seq<seq<byte>>)
    returns (out: seq<byte>)
    requires message == EncodeAll(fs)
    ensures out == EncodeAll(fs + Map(BytesField(num), items))
  {
    out := message;
    assert fs + Map(BytesField(num), items[..0]) == fs;
    for i := 0 to |items|
      invariant out == EncodeAll(fs + Map(BytesField(num), items[..i]))
    {
      out := AppendBytes(out, fs + Map(BytesField(num), items[..i]), num, items[i]);
      MapTake(BytesField(num), items, i);
      assert fs + Map(BytesField(num), items[..i]) + [Bytes(num, items[i])]
          == fs + Map(BytesField(num), items[..i + 1]);
    }
    assert items[..|items|] == items;
  }

  method TensorShape(dims: seq<nat>) returns (message: seq<byte>)
    ensures message == EncodeAll(ShapeFields(dims))
  {
    message := [];
    for i := 0 to |dims|
      invariant message == EncodeAll(ShapeFields(dims[..i]))
    {
      hide EncodeAll, EncodeField, Map;
      var dim := FieldVarint(1, dims[i]);
      EncodeOne(Varint(1, dims[i]));
      message := AppendBytes(message, ShapeFields(dims[..i]), 1, dim);
      MapTake(DimField, dims, i);
    }
    assert dims[..|dims|] == dims;
  }

  method WriteTensorType(elemType: nat, dims: seq<nat>) returns (message: seq<byte>)
    ensures message == EncodeAll(TensorTypeFields(elemType, dims))
  {
    message := AppendVarint([], [], 1, elemType);
    var shape := TensorShape(dims);
    message := AppendBytes(message, [] + [Varint(1, elemType)], 2, shape);
    assert [] + [Varint(1, elemType)] + [Bytes(2, shape)] == TensorTypeFields(elemType, dims);
  }

  method WriteValueInfo(v: ValueInfoAst) returns (message: seq<byte>)
    ensures message == EncodeValueInfo(v)
  {
    message := AppendBytes([], [], 1, v.name);
    var tensorType := WriteTensorType(v.elemType, v.dims);
    var inner := FieldBytes(1, tensorType);
    EncodeOne(Bytes(1, tensorType));
    message := AppendBytes(message, [] + [Bytes(1, v.name)], 2, inner);
    assert [] + [Bytes(1, v.name)] + [Bytes(2, inner)] == ValueInfoFields(v);
  }

  method WriteTensor(t: TensorAst) returns (message: seq<byte>)
    ensures message == EncodeTensor(t)
  {
    message := [];
    ghost var fs: seq<Field> := [];
    for i := 0 to |t.dims|
      invariant fs == Map(VarintField(1), t.dims[..i]) && message == EncodeAll(fs)
    {
      message := AppendVarint(message, fs, 1, t.dims[i]);
      MapTake(VarintField(1), t.dims, i);
      fs := fs + [Varint(1, t.dims[i])];
    }
    assert t.dims[..|t.dims|] == t.dims;
    message := AppendVarint(message, fs, 2, t.dataType);
    fs := fs + [Varint(2, t.dataType)];
    message := AppendBytes(message, fs, 8, t.name);
    fs := fs + [Bytes(8, t.name)];
    message := AppendBytes(message, fs, 9, Pack(t.values));
    assert fs + [Bytes(9, Pack(t.values))] == TensorFields(t);
  }

  method WriteNode(n: NodeAst) returns (message: seq<byte>)
    ensures message == EncodeNode(n)
  {
    hide EncodeField, Map;
    message := AppendEach([], [], 1, n.inputs);
    ghost var fs := [] + Map(BytesField(1), n.inputs);
    message := AppendEach(message, fs, 2, n.outputs);
    fs := fs + Map(BytesField(2), n.outputs);
    message := AppendBytes(message, fs, 3, n.name);
    fs := fs + [Bytes(3, n.name)];
    message := AppendBytes(message, fs, 4, n.opType);
    assert fs + [Bytes(4, n.opType)] == NodeFields(n);
  }

  method AppendNodes(message: seq<byte>, ghost fs: seq<Field>, nodes: seq<NodeAst>) returns (out: seq<byte>)
    requires message == EncodeAll(fs)
    ensures out == EncodeAll(fs + Map(BytesField(1), Map(EncodeNode, nodes)))
  {
    hide EncodeAll, EncodeField, EncodeNode;
    var codes: seq<seq<byte>> := [];
    for i := 0 to |nodes|
      invariant |codes| == i && forall j :: 0 <= j < i ==> codes[j] == EncodeNode(nodes[j])
    {
      var code := WriteNode(nodes[i]);
      codes := codes + [code];
    }
    assert codes == Map(EncodeNode, nodes);
    out := AppendEach(message, fs, 1, codes);
  }

  method AppendTensors(message: seq<byte>, ghost fs: seq<Field>, tensors: seq<TensorAst>) returns (out: seq<byte>)
    requires message == EncodeAll(fs)
    ensures out == EncodeAll(fs + Map(BytesField(5), Map(EncodeTensor, tensors)))
  {
    hide EncodeAll, EncodeField, EncodeTensor;
    var codes: seq<seq<byte>> := [];
    for i := 0 to |tensors|
      invariant |codes| == i && forall j :: 0 <= j < i ==> codes[j] == EncodeTensor(tensors[j])
    {
      var code := WriteTensor(tensors[i]);
      codes := codes + [code];
    }
    assert codes == Map(EncodeTensor, tensors);
    out := AppendEach(message, fs, 5, codes);
  }

  method AppendValueInfos(message: seq<byte>, ghost fs: seq<Field>, num: nat, values: seq<ValueInfoAst>)
    returns (out: seq<byte>)
    requires message == EncodeAll(fs)
    ensures out == EncodeAll(fs + Map(BytesField(num), Map(EncodeValueInfo, values)))
  {
    hide EncodeAll, EncodeField, EncodeValueInfo;
    var codes: seq<seq<byte>> := [];
    for i := 0 to |values|
      invariant |codes| == i && forall j :: 0 <= j < i ==> codes[j] == EncodeValueInfo(values[j])
    {
      var code := WriteValueInfo(values[i]);
      codes := codes + [code];
    }
    assert codes == Map(EncodeValueInfo, values);
    out := AppendEach(message, fs, num, codes);
  }

  lemma EmptyMessage()
    ensures EncodeAll([]) == []
  {
  }

  method WriteGraph(g: GraphAst) returns (graph: seq<byte>)
    ensures graph == EncodeAll(GraphFields(g))
  {
    hide EncodeAll, EncodeField, Map;
    ghost var fs: seq<Field> := [];
    assert [] == EncodeAll([]) by { EmptyMessage(); }
    graph := AppendNodes([], fs, g.nodes);
    fs := fs + Map(BytesField(1), Map(EncodeNode, g.nodes));
    graph := AppendBytes(graph, fs, 2, g.name);
    fs := fs + [Bytes(2, g.name)];
    graph := AppendTensors(graph, fs, g.tensors);
    fs := fs + Map(BytesField(5), Map(EncodeTensor, g.tensors));
    graph := AppendValueInfos(graph, fs, 11, g.inputs);
    fs := fs + Map(BytesField(11), Map(EncodeValueInfo, g.inputs));
    graph := AppendValueInfos(graph, fs, 12, g.outputs);
    fs := fs + Map(BytesField(12), Map(EncodeValueInfo, g.outputs));
    assert fs == GraphFields(g);
  }

  method WriteModel(m: ModelAst) returns (message: seq<byte>)
    ensures message == EncodeModel(m)
  {
    hide EncodeAll, EncodeField, GraphFields;
    assert [] == EncodeAll([]) by { EmptyMessage(); }
    var graph := WriteGraph(m.graph);
    message := AppendVarint([], [], 1, m.irVersion);
    message := AppendBytes(message, [] + [Varint(1, m.irVersion)], 2, m.producer);
    message := AppendBytes(message, [] + [Varint(1, m.irVersion)] + [Bytes(2, m.producer)], 7, graph);
    var opset := FieldVarint(2, m.opset);
    EncodeOne(Varint(2, m.opset));
    ghost var fs := [] + [Varint(1, m.irVersion)] + [Bytes(2, m.producer)] + [Bytes(7, graph)];
    message := AppendBytes(message, fs, 8, opset);
    assert fs + [Bytes(8, opset)] == ModelFields(m);
  }
}
