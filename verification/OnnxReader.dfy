/**
  What the bytes of an ONNX file mean to the C++ model inspector: for each of its parsers the fold
  of the loop body over the fields of a message, with lengths read as mathematical numbers.  A
  message that is not a sequence of fields has no meaning: Throws.
*/
module OnnxReader {
  import opened Prelude
  import opened ProtoWire

  datatype ValueInfo = ValueInfo(name: Text, elemType: int, shape: seq<int>)

  datatype TensorInfo = TensorInfo(name: Text, dataType: int, dims: seq<int>, rawBytes: nat)

  datatype NodeInfo = NodeInfo(name: Text, opType: Text, inputs: seq<Text>, outputs: seq<Text>)

  datatype ModelInfo = ModelInfo(
    graphName: Text,
    irVersion: int,
    opsetVersion: int,
    inputs: seq<ValueInfo>,
    outputs: seq<ValueInfo>,
    initializers: seq<TensorInfo>,
    nodes: seq<NodeInfo>)

  const NO_VALUE := ValueInfo([], 0, [])
  const NO_TENSOR := TensorInfo([], 0, [], 0)
  const NO_NODE := NodeInfo([], [], [], [])
  const NO_MODEL := ModelInfo([], 0, 0, [], [], [], [])

  /** static_cast from uint64_t to int64_t. */
  function ToInt64(v: nat): int {
    var w := v % TWO64;
    if w < 0x8000_0000_0000_0000 then w else w - TWO64
  }

  /** static_cast from uint64_t to int. */
  function ToInt32(v: nat): int {
    var w := v % 0x1_0000_0000;
    if w < 0x8000_0000 then w else w - 0x1_0000_0000
  }

  // ---------------------------------------------------------------- the parsers as functions

  /** Returns at the first varint field `num`; what follows it is not looked at. */
  function FirstVarint(s: seq<byte>, num: nat, default: int): Outcome<int>
    decreases |s|
  {
    if s == [] then Ok(default)
    else
      var (f, n) :- NextField(s);
      if f.Varint? && f.num == num then Ok(ToInt64(f.v)) else FirstVarint(s[n..], num, default)
  }

  function Dimension(s: seq<byte>): Outcome<int> { FirstVarint(s, 1, -1) }

  function Opset(s: seq<byte>): Outcome<int> { FirstVarint(s, 2, 0) }

  function ShapeStep(dims: seq<int>, f: Field): Outcome<seq<int>> {
    if f.Bytes? && f.num == 1 then
      var d :- Dimension(f.payload);
      Ok(dims + [d])
    else Ok(dims)
  }

  function Shape(s: seq<byte>): Outcome<seq<int>> { Fold(s, [], ShapeStep) }

  function TensorTypeStep(value: ValueInfo, f: Field): Outcome<ValueInfo> {
    if f.Varint? && f.num == 1 then Ok(value.(elemType := ToInt32(f.v)))
    else if f.Bytes? && f.num == 2 then
      var dims :- Shape(f.payload);
      Ok(value.(shape := dims))
    else Ok(value)
  }

  function TensorType(s: seq<byte>, value: ValueInfo): Outcome<ValueInfo> {
    Fold(s, value, TensorTypeStep)
  }

  function TypeStep(value: ValueInfo, f: Field): Outcome<ValueInfo> {
    if f.Bytes? && f.num == 1 then TensorType(f.payload, value) else Ok(value)
  }

  function TypeOf(s: seq<byte>, value: ValueInfo): Outcome<ValueInfo> { Fold(s, value, TypeStep) }

  function ValueInfoStep(value: ValueInfo, f: Field): Outcome<ValueInfo> {
    if f.Bytes? && f.num == 1 then Ok(value.(name := f.payload))
    else if f.Bytes? && f.num == 2 then TypeOf(f.payload, value)
    else Ok(value)
  }

  function Value(s: seq<byte>): Outcome<ValueInfo> { Fold(s, NO_VALUE, ValueInfoStep) }

  function TensorStep(t: TensorInfo, f: Field): Outcome<TensorInfo> {
    if f.Varint? && f.num == 1 then Ok(t.(dims := t.dims + [ToInt64(f.v)]))
    else if f.Varint? && f.num == 2 then Ok(t.(dataType := ToInt32(f.v)))
    else if f.Bytes? && f.num == 8 then Ok(t.(name := f.payload))
    else if f.Bytes? && f.num == 9 then Ok(t.(rawBytes := |f.payload|))
    else Ok(t)
  }

  function Tensor(s: seq<byte>): Outcome<TensorInfo> { Fold(s, NO_TENSOR, TensorStep) }

  function NodeStep(node: NodeInfo, f: Field): Outcome<NodeInfo> {
    if f.Bytes? && f.num == 1 then Ok(node.(inputs := node.inputs + [f.payload]))
    else if f.Bytes? && f.num == 2 then Ok(node.(outputs := node.outputs + [f.payload]))
    else if f.Bytes? && f.num == 3 then Ok(node.(name := f.payload))
    else if f.Bytes? && f.num == 4 then Ok(node.(opType := f.payload))
    else Ok(node)
  }

  function Node(s: seq<byte>): Outcome<NodeInfo> { Fold(s, NO_NODE, NodeStep) }

  function GraphStep(m: ModelInfo, f: Field): Outcome<ModelInfo> {
    if f.Bytes? && f.num == 1 then
      var node :- Node(f.payload);
      Ok(m.(nodes := m.nodes + [node]))
    else if f.Bytes? && f.num == 2 then Ok(m.(graphName := f.payload))
    else if f.Bytes? && f.num == 5 then
      var tensor :- Tensor(f.payload);
      Ok(m.(initializers := m.initializers + [tensor]))
    else if f.Bytes? && f.num == 11 then
      var value :- Value(f.payload);
      Ok(m.(inputs := m.inputs + [value]))
    else if f.Bytes? && f.num == 12 then
      var value :- Value(f.payload);
      Ok(m.(outputs := m.outputs + [value]))
    else Ok(m)
  }

  function Graph(s: seq<byte>, m: ModelInfo): Outcome<ModelInfo> { Fold(s, m, GraphStep) }

  function ModelStep(m: ModelInfo, f: Field): Outcome<ModelInfo> {
    if f.Varint? && f.num == 1 then Ok(m.(irVersion := ToInt64(f.v)))
    else if f.Bytes? && f.num == 7 then Graph(f.payload, m)
    else if f.Bytes? && f.num == 8 then
      var version :- Opset(f.payload);
      Ok(m.(opsetVersion := version))
    else Ok(m)
  }

  function Model(data: seq<byte>): Outcome<ModelInfo> { Fold(data, NO_MODEL, ModelStep) }
}
