/**
  The C++ inspector's parsers over slices of the file, in 64-bit arithmetic.

  A declared length can be so large that position plus length wraps: the bound check then passes,
  the nested slice ends before it begins, and the loop goes on at an earlier position, perhaps for
  ever.  So a parser is described by its runs: what it does within a given number of rounds of each
  loop.  A run also tells whether it has met a length that wraps.
*/
module OnnxParser {
  import opened OnnxReader
  import opened Prelude
  import opened ProtoWire

  /** The largest vector of bytes; positions in a file are below 2^63. */
  const MAX_SIZE: nat := 0x7FFF_FFFF_FFFF_FFFF

  type File = s: seq<byte> | |s| <= MAX_SIZE

  datatype Range = Range(data: File, begin: nat, end: nat) {
    /** What is left from `pos` on. */
    function From(pos: nat): seq<byte>
      requires pos <= end <= |data|
    {
      data[pos..end]
    }

    /** Only a wrapped length makes a slice that ends before it begins. */
    predicate Inverted() { end < begin }

    function Contents(): seq<byte>
      requires begin <= end <= |data|
    {
      data[begin..end]
    }
  }

  type Slice = r: Range | r.begin <= |r.data| && r.end <= |r.data| witness Range([], 0, 0)

  // ---------------------------------------------------------------- one field

  /** A field as a loop body meets it: a nested slice, or a field with its value. */
  datatype Item = Scalar(field: Field) | Nested(num: nat, slice: Slice)

  /** readBytes: the nested slice, and the position after it. */
  function BytesAt(slice: Slice, pos: nat): Outcome<(Slice, nat)>
    requires pos <= slice.end
  {
    var (length, n) :- DecodeVarint(slice.From(pos));
    DecodeVarintFits(slice.From(pos));
    var end := (pos + n + length) % TWO64;
    if end > slice.end then Throws else Ok((Range(slice.data, pos + n, end), end))
  }

  /** What follows a tag. */
  function BodyAt(slice: Slice, num: nat, wire: nat, pos: nat): Outcome<(Item, nat)>
    requires pos <= slice.end
  {
    if wire == 2 then
      var (nested, next) :- BytesAt(slice, pos);
      Ok((Nested(num, nested), next))
    else
      var (field, n) :- DecodeBody(num, wire, slice.From(pos));
      Ok((Scalar(field), pos + n))
  }

  function FieldAt(slice: Slice, pos: nat): Outcome<(Item, nat)>
    requires pos <= slice.end
  {
    var (tag, n) :- DecodeVarint(slice.From(pos));
    DecodeVarintFits(slice.From(pos));
    BodyAt(slice, tag / 8, tag % 8, pos + n)
  }

  // ---------------------------------------------------------------- runs

  /**
    How a loop or its body ends.  Returned leaves the loop early; Undefined is a string built from
    an inverted slice; Running has used up its rounds.
  */
  datatype Result<+A> = Done(value: A) | Returned(value: A) | Threw | Undefined | Running {
    predicate Fails() { Threw? || Undefined? || Running? }

    function Failure<B>(): (r: Result<B>)
      requires Fails()
      ensures r.Fails() && (r.Threw? <==> Threw?) && (r.Undefined? <==> Undefined?)
    {
      match this case Threw => Threw case Undefined => Undefined case _ => Running
    }
  }

  datatype Run<+A> = Run(result: Result<A>, wrapped: bool) {
    /** The same run, with what it has done put into `b`; a failure stays as it is. */
    function Into<B>(b: B): Run<B> {
      if result.Fails() then Run(result.Failure(), wrapped) else Run(Done(b), wrapped)
    }

    function After(met: bool): Run<A> { Run(result, met || wrapped) }
  }

  function Keep<A>(a: A): Run<A> { Run(Done(a), false) }

  predicate Wraps(item: Item) { item.Nested? && item.slice.Inverted() }

  /** Every parser's loop, from `pos` on, for at most `rounds` rounds. */
  function Loop<A>(slice: Slice, pos: nat, acc: A, body: (A, Item) -> Run<A>, rounds: nat): (r: Run<A>)
    ensures !r.result.Returned?
    decreases rounds
  {
    if pos >= slice.end then Keep(acc)
    else if rounds == 0 then Run(Running, false)
    else
      match FieldAt(slice, pos)
      case Throws => Run(Threw, false)
      case Ok((item, next)) =>
        var now := body(acc, item).After(Wraps(item));
        match now.result
        case Done(acc') => Loop(slice, next, acc', body, rounds - 1).After(now.wrapped)
        case Returned(value) => Run(Done(value), now.wrapped)
        case _ => now
  }

  // ---------------------------------------------------------------- the parsers

  function TextOf(slice: Slice): Text { if slice.Inverted() then [] else slice.Contents() }

  /** asString */
  function Text64(slice: Slice): Run<Text> {
    if slice.Inverted() then Run(Undefined, false) else Keep(TextOf(slice))
  }

  predicate IsVarint(item: Item, num: nat) { item.Scalar? && item.field.Varint? && item.field.num == num }

  predicate IsNested(item: Item, num: nat) { item.Nested? && item.num == num }

  /** Leaves the loop at the first varint field `num`. */
  function FirstItem(num: nat, default: int, item: Item): Run<int> {
    if IsVarint(item, num) then Run(Returned(ToInt64(item.field.v)), false) else Keep(default)
  }

  function FirstBody(num: nat): (int, Item) -> Run<int> {
    (default: int, item: Item) => FirstItem(num, default, item)
  }

  function Dimension64(slice: Slice, rounds: nat): Run<int> {
    Loop(slice, slice.begin, -1, FirstBody(1), rounds)
  }

  function Opset64(slice: Slice, rounds: nat): Run<int> {
    Loop(slice, slice.begin, 0, FirstBody(2), rounds)
  }

  function ShapeItem(dims: seq<int>, item: Item, rounds: nat): Run<seq<int>> {
    if IsNested(item, 1) then
      var d := Dimension64(item.slice, rounds);
      d.Into(if d.result.Done? then dims + [d.result.value] else dims)
    else Keep(dims)
  }

  function ShapeBody(rounds: nat): (seq<int>, Item) -> Run<seq<int>> {
    (dims: seq<int>, item: Item) => ShapeItem(dims, item, rounds)
  }

  function Shape64(slice: Slice, rounds: nat): Run<seq<int>> {
    Loop(slice, slice.begin, [], ShapeBody(rounds), rounds)
  }

  function TensorTypeItem(value: ValueInfo, item: Item, rounds: nat): Run<ValueInfo> {
    if IsVarint(item, 1) then Keep(value.(elemType := ToInt32(item.field.v)))
    else if IsNested(item, 2) then
      var dims := Shape64(item.slice, rounds);
      dims.Into(if dims.result.Done? then value.(shape := dims.result.value) else value)
    else Keep(value)
  }

  function TensorTypeBody(rounds: nat): (ValueInfo, Item) -> Run<ValueInfo> {
    (value: ValueInfo, item: Item) => TensorTypeItem(value, item, rounds)
  }

  function TensorType64(slice: Slice, value: ValueInfo, rounds: nat): Run<ValueInfo> {
    Loop(slice, slice.begin, value, TensorTypeBody(rounds), rounds)
  }

  function TypeItem(value: ValueInfo, item: Item, rounds: nat): Run<ValueInfo> {
    if IsNested(item, 1) then TensorType64(item.slice, value, rounds) else Keep(value)
  }

  function TypeBody(rounds: nat): (ValueInfo, Item) -> Run<ValueInfo> {
    (value: ValueInfo, item: Item) => TypeItem(value, item, rounds)
  }

  function Type64(slice: Slice, value: ValueInfo, rounds: nat): Run<ValueInfo> {
    Loop(slice, slice.begin, value, TypeBody(rounds), rounds)
  }

  function ValueInfoItem(value: ValueInfo, item: Item, rounds: nat): Run<ValueInfo> {
    if IsNested(item, 1) then
      Text64(item.slice).Into(value.(name := TextOf(item.slice)))
    else if IsNested(item, 2) then Type64(item.slice, value, rounds)
    else Keep(value)
  }

  function ValueInfoBody(rounds: nat): (ValueInfo, Item) -> Run<ValueInfo> {
    (value: ValueInfo, item: Item) => ValueInfoItem(value, item, rounds)
  }

  function Value64(slice: Slice, rounds: nat): Run<ValueInfo> {
    Loop(slice, slice.begin, NO_VALUE, ValueInfoBody(rounds), rounds)
  }

  /** end - begin, as size_t. */
  function Size64(slice: Slice): nat { (slice.end - slice.begin) % TWO64 }

  function TensorItem(t: TensorInfo, item: Item): Run<TensorInfo> {
    if IsVarint(item, 1) then Keep(t.(dims := t.dims + [ToInt64(item.field.v)]))
    else if IsVarint(item, 2) then Keep(t.(dataType := ToInt32(item.field.v)))
    else if IsNested(item, 8) then Text64(item.slice).Into(t.(name := TextOf(item.slice)))
    else if IsNested(item, 9) then Keep(t.(rawBytes := Size64(item.slice)))
    else Keep(t)
  }

  function TensorBody(): (TensorInfo, Item) -> Run<TensorInfo> {
    (t: TensorInfo, item: Item) => TensorItem(t, item)
  }

  function Tensor64(slice: Slice, rounds: nat): Run<TensorInfo> {
    Loop(slice, slice.begin, NO_TENSOR, TensorBody(), rounds)
  }

  function NodeItem(node: NodeInfo, item: Item): Run<NodeInfo> {
    if IsNested(item, 1) then
      Text64(item.slice).Into(node.(inputs := node.inputs + [TextOf(item.slice)]))
    else if IsNested(item, 2) then
      Text64(item.slice).Into(node.(outputs := node.outputs + [TextOf(item.slice)]))
    else if IsNested(item, 3) then Text64(item.slice).Into(node.(name := TextOf(item.slice)))
    else if IsNested(item, 4) then Text64(item.slice).Into(node.(opType := TextOf(item.slice)))
    else Keep(node)
  }

  function NodeBody(): (NodeInfo, Item) -> Run<NodeInfo> {
    (node: NodeInfo, item: Item) => NodeItem(node, item)
  }

  function Node64(slice: Slice, rounds: nat): Run<NodeInfo> {
    Loop(slice, slice.begin, NO_NODE, NodeBody(), rounds)
  }

  function GraphItem(m: ModelInfo, item: Item, rounds: nat): Run<ModelInfo> {
    if IsNested(item, 1) then
      var node := Node64(item.slice, rounds);
      node.Into(if node.result.Done? then m.(nodes := m.nodes + [node.result.value]) else m)
    else if IsNested(item, 2) then Text64(item.slice).Into(m.(graphName := TextOf(item.slice)))
    else if IsNested(item, 5) then
      var tensor := Tensor64(item.slice, rounds);
      tensor.Into(if tensor.result.Done? then m.(initializers := m.initializers + [tensor.result.value]) else m)
    else if IsNested(item, 11) then
      var value := Value64(item.slice, rounds);
      value.Into(if value.result.Done? then m.(inputs := m.inputs + [value.result.value]) else m)
    else if IsNested(item, 12) then
      var value := Value64(item.slice, rounds);
      value.Into(if value.result.Done? then m.(outputs := m.outputs + [value.result.value]) else m)
    else Keep(m)
  }

  function GraphBody(rounds: nat): (ModelInfo, Item) -> Run<ModelInfo> {
    (m: ModelInfo, item: Item) => GraphItem(m, item, rounds)
  }

  function Graph64(slice: Slice, m: ModelInfo, rounds: nat): Run<ModelInfo> {
    Loop(slice, slice.begin, m, GraphBody(rounds), rounds)
  }

  function ModelItem(m: ModelInfo, item: Item, rounds: nat): Run<ModelInfo> {
    if IsVarint(item, 1) then Keep(m.(irVersion := ToInt64(item.field.v)))
    else if IsNested(item, 7) then Graph64(item.slice, m, rounds)
    else if IsNested(item, 8) then
      var version := Opset64(item.slice, rounds);
      version.Into(if version.result.Done? then m.(opsetVersion := version.result.value) else m)
    else Keep(m)
  }

  function ModelBody(rounds: nat): (ModelInfo, Item) -> Run<ModelInfo> {
    (m: ModelInfo, item: Item) => ModelItem(m, item, rounds)
  }

  function Model64(data: File, rounds: nat): Run<ModelInfo> {
    Loop(Range(data, 0, |data|), 0, NO_MODEL, ModelBody(rounds), rounds)
  }

  // ---------------------------------------------------------------- the methods

  /** From `p` to `q` is exactly what `d` decoded at `p`, or both failed. */
  ghost predicate Matches<A>(p: nat, r: Outcome<A>, q: nat, d: Outcome<(A, nat)>) {
    if r.Throws? then d.Throws? else d == Ok((r.value, q - p)) && q >= p
  }

  lemma FirstWeight()
    ensures Weight(0) == 1
  {
  }

  lemma Advance(slice: Slice, pos: nat, n: nat)
    requires pos + n <= slice.end
    ensures slice.From(pos)[n..] == slice.From(pos + n)
  {
  }

  method ReadVarint(slice: Slice, pos: nat) returns (r: Outcome<nat>, next: nat)
    requires pos <= slice.end
    ensures Matches(pos, r, next, DecodeVarint(slice.From(pos)))
    ensures r.Ok? ==> r.value < TWO64 && pos < next <= slice.end && next <= pos + 10
  {
    hide Weight;
    var value: nat, shift: nat, weight: nat := 0, 0, 1;
    assert weight == Weight(0) by { FirstWeight(); }
    next := pos;
    ghost var k := 0;
    while next < slice.end && shift <= 63
      invariant pos <= next <= slice.end && shift == 7 * k && weight == Weight(k) && next == pos + k
      invariant DecodeVarint(slice.From(pos)).Ok? <==> DecodeFrom(slice.From(next), k, value).Ok?
      invariant DecodeVarint(slice.From(pos)).Ok? ==>
                  DecodeVarint(slice.From(pos)).value ==
                  (DecodeFrom(slice.From(next), k, value).value.0,
                   DecodeFrom(slice.From(next), k, value).value.1 + k)
      decreases slice.end - next
    {
      var byte := slice.data[next];
      Advance(slice, next, 1);
      NextWeight(k);
      next := next + 1;
      value := value + ((byte % 0x80) * weight) % TWO64;
      if byte < 0x80 {
        DecodeVarintFits(slice.From(pos));
        return Ok(value), next;
      }
      shift, weight, k := shift + 7, 0x80 * weight, k + 1;
    }
    r := Throws;
  }

  method ReadBytes(slice: Slice, pos: nat) returns (r: Outcome<Slice>, next: nat)
    requires pos <= slice.end
    ensures BytesAt(slice, pos) == if r.Throws? then Throws else Ok((r.value, next))
  {
    var length;
    length, next := ReadVarint(slice, pos);
    if length.Throws? || (next + length.value) % TWO64 > slice.end {
      return Throws, next;
    }
    r := Ok(Range(slice.data, next, (next + length.value) % TWO64));
    next := (next + length.value) % TWO64;
  }

  method SkipField(slice: Slice, pos: nat, ghost num: nat, wire: nat) returns (ok: bool, next: nat, ghost wraps: bool)
    requires pos <= slice.end
    ensures ok <==> BodyAt(slice, num, wire, pos).Ok?
    ensures ok ==> next == BodyAt(slice, num, wire, pos).value.1
    ensures ok ==> wraps == Wraps(BodyAt(slice, num, wire, pos).value.0)
  {
    next, wraps := pos, false;
    if wire == 0 {
      var v;
      v, next := ReadVarint(slice, pos);
      return v.Ok?, next, false;
    } else if wire == 1 {
      next := pos + 8;
    } else if wire == 2 {
      var b;
      b, next := ReadBytes(slice, pos);
      return b.Ok?, next, b.Ok? && b.value.Inverted();
    } else if wire == 5 {
      next := pos + 4;
    } else {
      return false, next, false;
    }
    ok := next <= slice.end;
  }

  /** The lines at the head of every loop body. */
  method ReadTag(slice: Slice, pos: nat) returns (ok: bool, field: nat, wire: nat, next: nat)
    requires pos < slice.end
    ensures !ok ==> FieldAt(slice, pos).Throws?
    ensures ok ==> pos < next <= slice.end && FieldAt(slice, pos) == BodyAt(slice, field, wire, next)
  {
    var tag;
    tag, next := ReadVarint(slice, pos);
    if tag.Throws? {
      return false, 0, 0, next;
    }
    ok, field, wire := true, tag.value / 8, tag.value % 8;
  }

  /** The wire type decides what kind of item a body is. */
  lemma ItemKind(slice: Slice, num: nat, wire: nat, pos: nat)
    requires pos <= slice.end
    ensures BodyAt(slice, num, wire, pos).Ok? ==>
            var item := BodyAt(slice, num, wire, pos).value.0;
            forall k :: (IsVarint(item, k) <==> wire == 0 && num == k) && (IsNested(item, k) <==> wire == 2 && num == k)
    ensures BodyAt(slice, num, wire, pos).Ok? && BodyAt(slice, num, wire, pos).value.0.Nested? ==>
              wire == 2 && BodyAt(slice, num, wire, pos).value.0.num == num
  {
  }

  /** One round of a loop: the item at `pos`, and the rest from the position after it. */
  lemma LoopRound<A>(slice: Slice, pos: nat, acc: A, body: (A, Item) -> Run<A>, rounds: nat)
    requires pos < slice.end && rounds > 0
    ensures Loop(slice, pos, acc, body, rounds) ==
            match FieldAt(slice, pos)
            case Throws => Run(Threw, false)
            case Ok((item, next)) =>
              var now := body(acc, item).After(Wraps(item));
              match now.result
              case Done(acc') => Loop(slice, next, acc', body, rounds - 1).After(now.wrapped)
              case Returned(value) => Run(Done(value), now.wrapped)
              case _ => now
  {
  }

  lemma NoRoundsLeft<A>(slice: Slice, pos: nat, acc: A, body: (A, Item) -> Run<A>)
    requires pos < slice.end
    ensures Loop(slice, pos, acc, body, 0) == Run(Running, false)
  {
  }

  lemma LoopEnds<A>(slice: Slice, pos: nat, acc: A, body: (A, Item) -> Run<A>, rounds: nat)
    requires pos >= slice.end
    ensures Loop(slice, pos, acc, body, rounds) == Keep(acc)
  {
  }

  lemma VarintBody(slice: Slice, num: nat, pos: nat)
    requires pos <= slice.end
    ensures BodyAt(slice, num, 0, pos) ==
            match DecodeVarint(slice.From(pos))
            case Throws => Throws
            case Ok((v, n)) => Ok((Scalar(Varint(num, v)), pos + n))
  {
  }

  lemma BytesBody(slice: Slice, num: nat, pos: nat)
    requires pos <= slice.end
    ensures BodyAt(slice, num, 2, pos) ==
            match BytesAt(slice, pos)
            case Throws => Throws
            case Ok((nested, next)) => Ok((Nested(num, nested), next))
  {
  }

  method ParseDimension(slice: Slice, rounds: nat) returns (r: Result<int>, ghost wrapped: bool)
    ensures r == Dimension64(slice, rounds).result
    ensures wrapped == Dimension64(slice, rounds).wrapped
  {
    hide FieldAt, BodyAt, BytesAt, Loop, ToInt64, ToInt32;
    var pos: nat, left: nat := slice.begin, rounds;
    wrapped := false;
    while pos < slice.end
      invariant Dimension64(slice, rounds) == Loop(slice, pos, -1, FirstBody(1), left).After(wrapped)
      decreases left
    {
      if left == 0 {
        NoRoundsLeft(slice, pos, -1, FirstBody(1));
        return Running, wrapped;
      }
      LoopRound(slice, pos, -1, FirstBody(1), left);
      left := left - 1;
      var ok, field, wire;
      ok, field, wire, pos := ReadTag(slice, pos);
      if !ok { return Threw, wrapped; }
      ghost var item := BodyAt(slice, field, wire, pos);
      ItemKind(slice, field, wire, pos);
      if field == 1 && wire == 0 {
        var v;
        ghost var at := pos;
        v, pos := ReadVarint(slice, pos);
        VarintBody(slice, field, at);
        if v.Throws? { return Threw, wrapped; }
        return Done(ToInt64(v.value)), wrapped;
      }
      ghost var met;
      ok, pos, met := SkipField(slice, pos, field, wire);
      if !ok { return Threw, wrapped; }
      assert FirstItem(1, -1, item.value.0) == Keep(-1);
      wrapped := wrapped || met;
    }
    LoopEnds(slice, pos, -1, FirstBody(1), left);
    r := Done(-1);
  }

  method ParseOpset(slice: Slice, rounds: nat) returns (r: Result<int>, ghost wrapped: bool)
    ensures r == Opset64(slice, rounds).result
    ensures wrapped == Opset64(slice, rounds).wrapped
  {
    hide FieldAt, BodyAt, BytesAt, Loop, ToInt64, ToInt32;
    var pos: nat, left: nat := slice.begin, rounds;
    wrapped := false;
    while pos < slice.end
      invariant Opset64(slice, rounds) == Loop(slice, pos, 0, FirstBody(2), left).After(wrapped)
      decreases left
    {
      if left == 0 {
        NoRoundsLeft(slice, pos, 0, FirstBody(2));
        return Running, wrapped;
      }
      LoopRound(slice, pos, 0, FirstBody(2), left);
      left := left - 1;
      var ok, field, wire;
      ok, field, wire, pos := ReadTag(slice, pos);
      if !ok { return Threw, wrapped; }
      ghost var item := BodyAt(slice, field, wire, pos);
      ItemKind(slice, field, wire, pos);
      if field == 2 && wire == 0 {
        var v;
        ghost var at := pos;
        v, pos := ReadVarint(slice, pos);
        VarintBody(slice, field, at);
        if v.Throws? { return Threw, wrapped; }
        return Done(ToInt64(v.value)), wrapped;
      }
      ghost var met;
      ok, pos, met := SkipField(slice, pos, field, wire);
      if !ok { return Threw, wrapped; }
      assert FirstItem(2, 0, item.value.0) == Keep(0);
      wrapped := wrapped || met;
    }
    LoopEnds(slice, pos, 0, FirstBody(2), left);
    r := Done(0);
  }

  method ParseShape(slice: Slice, rounds: nat) returns (r: Result<seq<int>>, ghost wrapped: bool)
    ensures r == Shape64(slice, rounds).result
    ensures wrapped == Shape64(slice, rounds).wrapped
  {
    hide FieldAt, BodyAt, BytesAt, Loop, ToInt64, ToInt32;
    var dims := [];
    var pos: nat, left: nat := slice.begin, rounds;
    wrapped := false;
    while pos < slice.end
      invariant Shape64(slice, rounds) == Loop(slice, pos, dims, ShapeBody(rounds), left).After(wrapped)
      decreases left
    {
      if left == 0 {
        NoRoundsLeft(slice, pos, dims, ShapeBody(rounds));
        return Running, wrapped;
      }
      LoopRound(slice, pos, dims, ShapeBody(rounds), left);
      left := left - 1;
      var ok, field, wire;
      ok, field, wire, pos := ReadTag(slice, pos);
      if !ok { return Threw, wrapped; }
      ghost var item := BodyAt(slice, field, wire, pos);
      ItemKind(slice, field, wire, pos);
      BytesBody(slice, field, pos);
      if field == 1 && wire == 2 {
        var b;
        b, pos := ReadBytes(slice, pos);
        if b.Throws? { return Threw, wrapped; }
        wrapped := wrapped || b.value.Inverted();
        var d: Result<int>;
        ghost var met;
        d, met := ParseDimension(b.value, rounds);
        wrapped := wrapped || met;
        if !d.Done? { return d.Failure(), wrapped; }
        dims := dims + [d.value];
      } else {
        ghost var met;
        ok, pos, met := SkipField(slice, pos, field, wire);
        if !ok { return Threw, wrapped; }
        assert ShapeItem(dims, item.value.0, rounds) == Keep(dims);
        wrapped := wrapped || met;
      }
    }
    LoopEnds(slice, pos, dims, ShapeBody(rounds), left);
    r := Done(dims);
  }

  method ParseTensorType(slice: Slice, value: ValueInfo, rounds: nat) returns (r: Result<ValueInfo>, ghost wrapped: bool)
    ensures r == TensorType64(slice, value, rounds).result
    ensures wrapped == TensorType64(slice, value, rounds).wrapped
  {
    hide FieldAt, BodyAt, BytesAt, Loop, ToInt64, ToInt32;
    var out := value;
    var pos: nat, left: nat := slice.begin, rounds;
    wrapped := false;
    while pos < slice.end
      invariant TensorType64(slice, value, rounds) == Loop(slice, pos, out, TensorTypeBody(rounds), left).After(wrapped)
      decreases left
    {
      if left == 0 {
        NoRoundsLeft(slice, pos, out, TensorTypeBody(rounds));
        return Running, wrapped;
      }
      LoopRound(slice, pos, out, TensorTypeBody(rounds), left);
      left := left - 1;
      var ok, field, wire;
      ok, field, wire, pos := ReadTag(slice, pos);
      if !ok { return Threw, wrapped; }
      ghost var item := BodyAt(slice, field, wire, pos);
      ItemKind(slice, field, wire, pos);
      BytesBody(slice, field, pos);
      if field == 1 && wire == 0 {
        VarintBody(slice, field, pos);
        var v;
        v, pos := ReadVarint(slice, pos);
        if v.Throws? { return Threw, wrapped; }
        out := out.(elemType := ToInt32(v.value));
      } else if field == 2 && wire == 2 {
        var b;
        b, pos := ReadBytes(slice, pos);
        if b.Throws? { return Threw, wrapped; }
        wrapped := wrapped || b.value.Inverted();
        var dims: Result<seq<int>>;
        ghost var met;
        dims, met := ParseShape(b.value, rounds);
        wrapped := wrapped || met;
        if !dims.Done? { return dims.Failure(), wrapped; }
        out := out.(shape := dims.value);
      } else {
        ghost var met;
        ok, pos, met := SkipField(slice, pos, field, wire);
        if !ok { return Threw, wrapped; }
        assert TensorTypeItem(out, item.value.0, rounds) == Keep(out);
        wrapped := wrapped || met;
      }
    }
    LoopEnds(slice, pos, out, TensorTypeBody(rounds), left);
    r := Done(out);
  }

  method ParseType(slice: Slice, value: ValueInfo, rounds: nat) returns (r: Result<ValueInfo>, ghost wrapped: bool)
    ensures r == Type64(slice, value, rounds).result
    ensures wrapped == Type64(slice, value, rounds).wrapped
  {
    hide FieldAt, BodyAt, BytesAt, Loop, ToInt64, ToInt32;
    var out := value;
    var pos: nat, left: nat := slice.begin, rounds;
    wrapped := false;
    while pos < slice.end
      invariant Type64(slice, value, rounds) == Loop(slice, pos, out, TypeBody(rounds), left).After(wrapped)
      decreases left
    {
      if left == 0 {
        NoRoundsLeft(slice, pos, out, TypeBody(rounds));
        return Running, wrapped;
      }
      LoopRound(slice, pos, out, TypeBody(rounds), left);
      left := left - 1;
      var ok, field, wire;
      ok, field, wire, pos := ReadTag(slice, pos);
      if !ok { return Threw, wrapped; }
      ghost var item := BodyAt(slice, field, wire, pos);
      ItemKind(slice, field, wire, pos);
      BytesBody(slice, field, pos);
      if field == 1 && wire == 2 {
        var b;
        b, pos := ReadBytes(slice, pos);
        if b.Throws? { return Threw, wrapped; }
        wrapped := wrapped || b.value.Inverted();
        var next: Result<ValueInfo>;
        ghost var met;
        next, met := ParseTensorType(b.value, out, rounds);
        wrapped := wrapped || met;
        if !next.Done? { return next.Failure(), wrapped; }
        out := next.value;
      } else {
        ghost var met;
        ok, pos, met := SkipField(slice, pos, field, wire);
        if !ok { return Threw, wrapped; }
        assert TypeItem(out, item.value.0, rounds) == Keep(out);
        wrapped := wrapped || met;
      }
    }
    LoopEnds(slice, pos, out, TypeBody(rounds), left);
    r := Done(out);
  }

  method ParseValueInfo(slice: Slice, rounds: nat) returns (r: Result<ValueInfo>, ghost wrapped: bool)
    ensures r == Value64(slice, rounds).result
    ensures wrapped == Value64(slice, rounds).wrapped
  {
    hide FieldAt, BodyAt, BytesAt, Loop, ToInt64, ToInt32;
    var out := NO_VALUE;
    var pos: nat, left: nat := slice.begin, rounds;
    wrapped := false;
    while pos < slice.end
      invariant Value64(slice, rounds) == Loop(slice, pos, out, ValueInfoBody(rounds), left).After(wrapped)
      decreases left
    {
      if left == 0 {
        NoRoundsLeft(slice, pos, out, ValueInfoBody(rounds));
        return Running, wrapped;
      }
      LoopRound(slice, pos, out, ValueInfoBody(rounds), left);
      left := left - 1;
      var ok, field, wire;
      ok, field, wire, pos := ReadTag(slice, pos);
      if !ok { return Threw, wrapped; }
      ghost var item := BodyAt(slice, field, wire, pos);
      ItemKind(slice, field, wire, pos);
      BytesBody(slice, field, pos);
      if field == 1 && wire == 2 {
        var b;
        b, pos := ReadBytes(slice, pos);
        if b.Throws? { return Threw, wrapped; }
        wrapped := wrapped || b.value.Inverted();
        if b.value.Inverted() { return Undefined, wrapped; }
        var name := b.value.Contents();
        out := out.(name := name);
      } else if field == 2 && wire == 2 {
        var b;
        b, pos := ReadBytes(slice, pos);
        if b.Throws? { return Threw, wrapped; }
        wrapped := wrapped || b.value.Inverted();
        var next: Result<ValueInfo>;
        ghost var met;
        next, met := ParseType(b.value, out, rounds);
        wrapped := wrapped || met;
        if !next.Done? { return next.Failure(), wrapped; }
        out := next.value;
      } else {
        ghost var met;
        ok, pos, met := SkipField(slice, pos, field, wire);
        if !ok { return Threw, wrapped; }
        assert ValueInfoItem(out, item.value.0, rounds) == Keep(out);
        wrapped := wrapped || met;
      }
    }
    LoopEnds(slice, pos, out, ValueInfoBody(rounds), left);
    r := Done(out);
  }

  method ParseTensor(slice: Slice, rounds: nat) returns (r: Result<TensorInfo>, ghost wrapped: bool)
    ensures r == Tensor64(slice, rounds).result
    ensures wrapped == Tensor64(slice, rounds).wrapped
  {
    hide FieldAt, BodyAt, BytesAt, Loop, ToInt64, ToInt32;
    var out := NO_TENSOR;
    var pos: nat, left: nat := slice.begin, rounds;
    wrapped := false;
    while pos < slice.end
      invariant Tensor64(slice, rounds) == Loop(slice, pos, out, TensorBody(), left).After(wrapped)
      decreases left
    {
      if left == 0 {
        NoRoundsLeft(slice, pos, out, TensorBody());
        return Running, wrapped;
      }
      LoopRound(slice, pos, out, TensorBody(), left);
      left := left - 1;
      var ok, field, wire;
      ok, field, wire, pos := ReadTag(slice, pos);
      if !ok { return Threw, wrapped; }
      ghost var item := BodyAt(slice, field, wire, pos);
      ItemKind(slice, field, wire, pos);
      BytesBody(slice, field, pos);
      if wire == 0 && (field == 1 || field == 2) {
        VarintBody(slice, field, pos);
        var v;
        v, pos := ReadVarint(slice, pos);
        if v.Throws? { return Threw, wrapped; }
        if field == 1 {
          out := out.(dims := out.dims + [ToInt64(v.value)]);
        } else {
          out := out.(dataType := ToInt32(v.value));
        }
      } else if wire == 2 && (field == 8 || field == 9) {
        var b;
        b, pos := ReadBytes(slice, pos);
        if b.Throws? { return Threw, wrapped; }
        wrapped := wrapped || b.value.Inverted();
        if field == 9 {
          out := out.(rawBytes := (b.value.end - b.value.begin) % TWO64);
        } else if b.value.Inverted() {
          return Undefined, wrapped;
        } else {
          out := out.(name := b.value.Contents());
        }
      } else {
        ghost var met;
        ok, pos, met := SkipField(slice, pos, field, wire);
        if !ok { return Threw, wrapped; }
        assert TensorItem(out, item.value.0) == Keep(out);
        wrapped := wrapped || met;
      }
    }
    LoopEnds(slice, pos, out, TensorBody(), left);
    r := Done(out);
  }

  method ParseNode(slice: Slice, rounds: nat) returns (r: Result<NodeInfo>, ghost wrapped: bool)
    ensures r == Node64(slice, rounds).result
    ensures wrapped == Node64(slice, rounds).wrapped
  {
    hide FieldAt, BodyAt, BytesAt, Loop, ToInt64, ToInt32;
    var out := NO_NODE;
    var pos: nat, left: nat := slice.begin, rounds;
    wrapped := false;
    while pos < slice.end
      invariant Node64(slice, rounds) == Loop(slice, pos, out, NodeBody(), left).After(wrapped)
      decreases left
    {
      if left == 0 {
        NoRoundsLeft(slice, pos, out, NodeBody());
        return Running, wrapped;
      }
      LoopRound(slice, pos, out, NodeBody(), left);
      left := left - 1;
      var ok, field, wire;
      ok, field, wire, pos := ReadTag(slice, pos);
      if !ok { return Threw, wrapped; }
      ghost var item := BodyAt(slice, field, wire, pos);
      ItemKind(slice, field, wire, pos);
      BytesBody(slice, field, pos);
      if wire == 2 && 1 <= field <= 4 {
        var b;
        b, pos := ReadBytes(slice, pos);
        if b.Throws? { return Threw, wrapped; }
        wrapped := wrapped || b.value.Inverted();
        if b.value.Inverted() { return Undefined, wrapped; }
        var text := b.value.Contents();
        if field == 1 {
          out := out.(inputs := out.inputs + [text]);
        } else if field == 2 {
          out := out.(outputs := out.outputs + [text]);
        } else if field == 3 {
          out := out.(name := text);
        } else {
          out := out.(opType := text);
        }
      } else {
        ghost var met;
        ok, pos, met := SkipField(slice, pos, field, wire);
        if !ok { return Threw, wrapped; }
        assert NodeItem(out, item.value.0) == Keep(out);
        wrapped := wrapped || met;
      }
    }
    LoopEnds(slice, pos, out, NodeBody(), left);
    r := Done(out);
  }

  /** The nested message of a graph field, parsed and added to the model. */
  method AddToGraph(field: nat, b: Slice, m: ModelInfo, rounds: nat) returns (r: Result<ModelInfo>, ghost wrapped: bool)
    requires field in {1, 2, 5, 11, 12}
    ensures !r.Returned?
    ensures r == GraphItem(m, Nested(field, b), rounds).result
    ensures wrapped == GraphItem(m, Nested(field, b), rounds).wrapped
  {
    hide Loop;
    wrapped := false;
    if field == 1 {
      var node: Result<NodeInfo>;
      node, wrapped := ParseNode(b, rounds);
      if !node.Done? { return node.Failure(), wrapped; }
      r := Done(m.(nodes := m.nodes + [node.value]));
    } else if field == 2 {
      if b.Inverted() { return Undefined, wrapped; }
      r := Done(m.(graphName := b.Contents()));
    } else if field == 5 {
      var tensor: Result<TensorInfo>;
      tensor, wrapped := ParseTensor(b, rounds);
      if !tensor.Done? { return tensor.Failure(), wrapped; }
      r := Done(m.(initializers := m.initializers + [tensor.value]));
    } else {
      var value: Result<ValueInfo>;
      value, wrapped := ParseValueInfo(b, rounds);
      if !value.Done? { return value.Failure(), wrapped; }
      if field == 11 {
        r := Done(m.(inputs := m.inputs + [value.value]));
      } else {
        r := Done(m.(outputs := m.outputs + [value.value]));
      }
    }
  }

  method ParseGraph(slice: Slice, m: ModelInfo, rounds: nat) returns (r: Result<ModelInfo>, ghost wrapped: bool)
    ensures r == Graph64(slice, m, rounds).result
    ensures wrapped == Graph64(slice, m, rounds).wrapped
  {
    hide FieldAt, BodyAt, BytesAt, Loop, ToInt64, ToInt32;
    var out := m;
    var pos: nat, left: nat := slice.begin, rounds;
    wrapped := false;
    while pos < slice.end
      invariant Graph64(slice, m, rounds) == Loop(slice, pos, out, GraphBody(rounds), left).After(wrapped)
      decreases left
    {
      if left == 0 {
        NoRoundsLeft(slice, pos, out, GraphBody(rounds));
        return Running, wrapped;
      }
      LoopRound(slice, pos, out, GraphBody(rounds), left);
      left := left - 1;
      var ok, field, wire;
      ok, field, wire, pos := ReadTag(slice, pos);
      if !ok { return Threw, wrapped; }
      ghost var item := BodyAt(slice, field, wire, pos);
      ItemKind(slice, field, wire, pos);
      BytesBody(slice, field, pos);
      if wire == 2 && field in {1, 2, 5, 11, 12} {
        var b;
        b, pos := ReadBytes(slice, pos);
        if b.Throws? { return Threw, wrapped; }
        wrapped := wrapped || b.value.Inverted();
        var next: Result<ModelInfo>;
        ghost var met;
        next, met := AddToGraph(field, b.value, out, rounds);
        wrapped := wrapped || met;
        if !next.Done? { return next.Failure(), wrapped; }
        out := next.value;
      } else {
        ghost var met;
        ok, pos, met := SkipField(slice, pos, field, wire);
        if !ok { return Threw, wrapped; }
        assert GraphItem(out, item.value.0, rounds) == Keep(out);
        wrapped := wrapped || met;
      }
    }
    LoopEnds(slice, pos, out, GraphBody(rounds), left);
    r := Done(out);
  }

  method ParseModel(data: File, rounds: nat) returns (r: Result<ModelInfo>, ghost wrapped: bool)
    ensures r == Model64(data, rounds).result
    ensures wrapped == Model64(data, rounds).wrapped
  {
    hide FieldAt, BodyAt, BytesAt, Loop, ToInt64, ToInt32;
    var out := NO_MODEL;
    var slice: Slice := Range(data, 0, |data|);
    var pos: nat, left: nat := slice.begin, rounds;
    wrapped := false;
    while pos < slice.end
      invariant Model64(data, rounds) == Loop(slice, pos, out, ModelBody(rounds), left).After(wrapped)
      decreases left
    {
      if left == 0 {
        NoRoundsLeft(slice, pos, out, ModelBody(rounds));
        return Running, wrapped;
      }
      LoopRound(slice, pos, out, ModelBody(rounds), left);
      left := left - 1;
      var ok, field, wire;
      ok, field, wire, pos := ReadTag(slice, pos);
      if !ok { return Threw, wrapped; }
      ghost var item := BodyAt(slice, field, wire, pos);
      ItemKind(slice, field, wire, pos);
      BytesBody(slice, field, pos);
      if field == 1 && wire == 0 {
        VarintBody(slice, field, pos);
        var v;
        v, pos := ReadVarint(slice, pos);
        if v.Throws? { return Threw, wrapped; }
        out := out.(irVersion := ToInt64(v.value));
      } else if field == 7 && wire == 2 {
        var b;
        b, pos := ReadBytes(slice, pos);
        if b.Throws? { return Threw, wrapped; }
        wrapped := wrapped || b.value.Inverted();
        var next: Result<ModelInfo>;
        ghost var met;
        next, met := ParseGraph(b.value, out, rounds);
        wrapped := wrapped || met;
        if !next.Done? { return next.Failure(), wrapped; }
        out := next.value;
      } else if field == 8 && wire == 2 {
        var b;
        b, pos := ReadBytes(slice, pos);
        if b.Throws? { return Threw, wrapped; }
        wrapped := wrapped || b.value.Inverted();
        var version: Result<int>;
        ghost var met;
        version, met := ParseOpset(b.value, rounds);
        wrapped := wrapped || met;
        if !version.Done? { return version.Failure(), wrapped; }
        out := out.(opsetVersion := version.value);
      } else {
        ghost var met;
        ok, pos, met := SkipField(slice, pos, field, wire);
        if !ok { return Threw, wrapped; }
        assert ModelItem(out, item.value.0, rounds) == Keep(out);
        wrapped := wrapped || met;
      }
    }
    LoopEnds(slice, pos, out, ModelBody(rounds), left);
    r := Done(out);
  }
}
