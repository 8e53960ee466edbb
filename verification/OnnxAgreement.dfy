/**
  What the inspector's runs have to do with the meaning of the bytes.  Given as many rounds as the
  file has bytes, a parser that meets no wrapping length ends, and ends with what the bytes mean;
  where it does meet one, the bytes mean nothing.
*/
module OnnxAgreement {
  import opened OnnxParser
  import opened OnnxReader
  import opened Prelude
  import opened ProtoWire
  import T = OnnxRoundTrip
  import W = OnnxWriter

  ghost predicate Agrees<A>(run: Run<A>, meaning: Outcome<A>) {
    if run.wrapped then meaning.Throws?
    else run.result == match meaning case Ok(value) => Done(value) case Throws => Threw
  }

  predicate Proper(item: Item) { !Wraps(item) && (item.Scalar? ==> !item.field.Bytes?) }

  function FieldOf(item: Item): Field
    requires Proper(item)
  {
    match item case Scalar(field) => field case Nested(num, slice) => Bytes(num, slice.Contents())
  }

  predicate Within(item: Item, limit: nat) { item.Nested? ==> |item.slice.data| <= limit }

  lemma PartOf(slice: Slice, pos: nat, n: nat, length: nat)
    requires pos + n + length <= slice.end
    ensures slice.From(pos)[n..n + length] == slice.data[pos + n..pos + n + length]
  {
  }

  lemma BytesAgree(slice: Slice, pos: nat)
    requires pos <= slice.end
    ensures match BytesAt(slice, pos)
            case Throws => DecodeBytes(slice.From(pos)).Throws?
            case Ok((nested, next)) =>
              && nested.data == slice.data
              && if nested.Inverted() then DecodeBytes(slice.From(pos)).Throws?
                 else next <= slice.end && DecodeBytes(slice.From(pos)) == Ok((nested.Contents(), next - pos))
  {
    var s := slice.From(pos);
    if DecodeVarint(s).Ok? {
      DecodeVarintFits(s);
      var (length, n) := DecodeVarint(s).value;
      if pos + n + length <= slice.end {
        PartOf(slice, pos, n, length);
      }
    }
  }

  lemma BodyAgrees(slice: Slice, num: nat, wire: nat, pos: nat)
    requires pos <= slice.end
    ensures match BodyAt(slice, num, wire, pos)
            case Throws => DecodeBody(num, wire, slice.From(pos)).Throws?
            case Ok((item, next)) =>
              && Within(item, |slice.data|)
              && if Wraps(item) then DecodeBody(num, wire, slice.From(pos)).Throws?
                 else && Proper(item) && pos < next <= slice.end
                      && DecodeBody(num, wire, slice.From(pos)) == Ok((FieldOf(item), next - pos))
  {
    hide DecodeVarint, DecodeBytes, BytesAt;
    BytesAgree(slice, pos);
    var body := DecodeBody(num, wire, slice.From(pos));
    if body.Ok? { DecodeBodyFits(num, wire, slice.From(pos)); }
  }

  /** A field whose length does not wrap is the field the bytes have there; no other is one. */
  lemma FieldAgrees(slice: Slice, pos: nat)
    requires pos < slice.end
    ensures match FieldAt(slice, pos)
            case Throws => NextField(slice.From(pos)).Throws?
            case Ok((item, next)) =>
              && Within(item, |slice.data|)
              && if Wraps(item) then NextField(slice.From(pos)).Throws?
                 else && Proper(item) && pos < next <= slice.end
                      && NextField(slice.From(pos)) == Ok((FieldOf(item), next - pos))
  {
    hide DecodeVarint, DecodeBody, BodyAt, Proper, FieldOf;
    var s := slice.From(pos);
    if DecodeVarint(s).Ok? {
      DecodeVarintFits(s);
      var (tag, n) := DecodeVarint(s).value;
      Advance(slice, pos, n);
      BodyAgrees(slice, tag / 8, tag % 8, pos + n);
    }
  }

  /** The body of a loop does with a proper item what the step does with its field. */
  ghost predicate Refines<A(!new)>(body: (A, Item) -> Run<A>, step: (A, Field) -> Outcome<A>, limit: nat) {
    forall a, item :: Proper(item) && Within(item, limit) ==> Agrees(body(a, item), step(a, FieldOf(item)))
  }

  lemma {:induction false} LoopAgrees<A(!new)>(slice: Slice, pos: nat, acc: A, body: (A, Item) -> Run<A>,
                                               step: (A, Field) -> Outcome<A>, rounds: nat, limit: nat)
    requires Refines(body, step, limit) && |slice.data| <= limit
    requires pos <= slice.end <= pos + rounds
    ensures Agrees(Loop(slice, pos, acc, body, rounds), Fold(slice.From(pos), acc, step))
    decreases rounds
  {
    hide FieldAt, NextField;
    if pos < slice.end {
      FieldAgrees(slice, pos);
      if FieldAt(slice, pos).Ok? {
        var (item, next) := FieldAt(slice, pos).value;
        if !Wraps(item) {
          assert Agrees(body(acc, item), step(acc, FieldOf(item)));
          Advance(slice, pos, next - pos);
          if body(acc, item).result.Done? {
            LoopAgrees(slice, next, body(acc, item).result.value, body, step, rounds - 1, limit);
          }
        }
      }
    }
  }

  // ---------------------------------------------------------------- parser by parser

  lemma {:induction false} FirstAgrees(slice: Slice, pos: nat, num: nat, default: int, rounds: nat)
    requires pos <= slice.end <= pos + rounds
    ensures Agrees(Loop(slice, pos, default, FirstBody(num), rounds), FirstVarint(slice.From(pos), num, default))
    decreases rounds
  {
    hide FieldAt, NextField, ToInt64;
    if pos < slice.end {
      FieldAgrees(slice, pos);
      if FieldAt(slice, pos).Ok? {
        var (item, next) := FieldAt(slice, pos).value;
        if !Wraps(item) {
          Advance(slice, pos, next - pos);
          if !IsVarint(item, num) {
            assert FirstItem(num, default, item) == Keep(default);
            FirstAgrees(slice, next, num, default, rounds - 1);
          }
        }
      }
    }
  }

  lemma DimensionAgrees(slice: Slice, rounds: nat)
    requires !slice.Inverted() && |slice.data| <= rounds
    ensures Agrees(Dimension64(slice, rounds), Dimension(slice.Contents()))
  {
    FirstAgrees(slice, slice.begin, 1, -1, rounds);
  }

  lemma OpsetAgrees(slice: Slice, rounds: nat)
    requires !slice.Inverted() && |slice.data| <= rounds
    ensures Agrees(Opset64(slice, rounds), Opset(slice.Contents()))
  {
    FirstAgrees(slice, slice.begin, 2, 0, rounds);
  }

  lemma ShapeAgrees(slice: Slice, rounds: nat)
    requires !slice.Inverted() && |slice.data| <= rounds
    ensures Agrees(Shape64(slice, rounds), Shape(slice.Contents()))
  {
    hide Loop, Fold, Dimension64, Dimension;
    forall a, item | Proper(item) && Within(item, rounds)
      ensures Agrees(ShapeItem(a, item, rounds), ShapeStep(a, FieldOf(item)))
    {
      if IsNested(item, 1) { DimensionAgrees(item.slice, rounds); }
    }
    LoopAgrees(slice, slice.begin, [], ShapeBody(rounds), ShapeStep, rounds, rounds);
  }

  lemma TensorTypeAgrees(slice: Slice, value: ValueInfo, rounds: nat)
    requires !slice.Inverted() && |slice.data| <= rounds
    ensures Agrees(TensorType64(slice, value, rounds), TensorType(slice.Contents(), value))
  {
    hide Loop, Fold, Shape64, Shape, ToInt32;
    forall a, item | Proper(item) && Within(item, rounds)
      ensures Agrees(TensorTypeItem(a, item, rounds), TensorTypeStep(a, FieldOf(item)))
    {
      if IsNested(item, 2) { ShapeAgrees(item.slice, rounds); }
    }
    LoopAgrees(slice, slice.begin, value, TensorTypeBody(rounds), TensorTypeStep, rounds, rounds);
  }

  lemma TypeAgrees(slice: Slice, value: ValueInfo, rounds: nat)
    requires !slice.Inverted() && |slice.data| <= rounds
    ensures Agrees(Type64(slice, value, rounds), TypeOf(slice.Contents(), value))
  {
    hide Loop, Fold, TensorType64, TensorType;
    forall a, item | Proper(item) && Within(item, rounds)
      ensures Agrees(TypeItem(a, item, rounds), TypeStep(a, FieldOf(item)))
    {
      if IsNested(item, 1) { TensorTypeAgrees(item.slice, a, rounds); }
    }
    LoopAgrees(slice, slice.begin, value, TypeBody(rounds), TypeStep, rounds, rounds);
  }

  lemma ValueAgrees(slice: Slice, rounds: nat)
    requires !slice.Inverted() && |slice.data| <= rounds
    ensures Agrees(Value64(slice, rounds), Value(slice.Contents()))
  {
    hide Loop, Fold, Type64, TypeOf;
    forall a, item | Proper(item) && Within(item, rounds)
      ensures Agrees(ValueInfoItem(a, item, rounds), ValueInfoStep(a, FieldOf(item)))
    {
      if IsNested(item, 2) { TypeAgrees(item.slice, a, rounds); }
    }
    LoopAgrees(slice, slice.begin, NO_VALUE, ValueInfoBody(rounds), ValueInfoStep, rounds, rounds);
  }

  lemma TensorAgrees(slice: Slice, rounds: nat)
    requires !slice.Inverted() && |slice.data| <= rounds
    ensures Agrees(Tensor64(slice, rounds), Tensor(slice.Contents()))
  {
    hide Loop, Fold, ToInt32, ToInt64;
    forall a, item | Proper(item) && Within(item, rounds)
      ensures Agrees(TensorItem(a, item), TensorStep(a, FieldOf(item)))
    {
    }
    LoopAgrees(slice, slice.begin, NO_TENSOR, TensorBody(), TensorStep, rounds, rounds);
  }

  lemma NodeAgrees(slice: Slice, rounds: nat)
    requires !slice.Inverted() && |slice.data| <= rounds
    ensures Agrees(Node64(slice, rounds), Node(slice.Contents()))
  {
    hide Loop, Fold;
    forall a, item | Proper(item) && Within(item, rounds)
      ensures Agrees(NodeItem(a, item), NodeStep(a, FieldOf(item)))
    {
    }
    LoopAgrees(slice, slice.begin, NO_NODE, NodeBody(), NodeStep, rounds, rounds);
  }

  lemma GraphAgrees(slice: Slice, m: ModelInfo, rounds: nat)
    requires !slice.Inverted() && |slice.data| <= rounds
    ensures Agrees(Graph64(slice, m, rounds), Graph(slice.Contents(), m))
  {
    hide Loop, Fold, Node64, Node, Tensor64, Tensor, Value64, Value;
    forall a, item | Proper(item) && Within(item, rounds)
      ensures Agrees(GraphItem(a, item, rounds), GraphStep(a, FieldOf(item)))
    {
      if item.Nested? {
        NodeAgrees(item.slice, rounds);
        TensorAgrees(item.slice, rounds);
        ValueAgrees(item.slice, rounds);
      }
    }
    LoopAgrees(slice, slice.begin, m, GraphBody(rounds), GraphStep, rounds, rounds);
  }

  /**
    The inspector against the meaning of a file, given a round for each byte.  If no declared
    length that it meets wraps, it ends, and with exactly the model the bytes mean or a throw if
    they mean none.  If one does wrap, the bytes mean nothing.
  */
  lemma ModelAgrees(data: File, rounds: nat)
    requires |data| <= rounds
    ensures var run := Model64(data, rounds);
            if run.wrapped then Model(data).Throws?
            else run.result == match Model(data) case Ok(m) => Done(m) case Throws => Threw
  {
    hide Loop, Fold, Graph64, Graph, Opset64, Opset, ToInt64;
    forall a, item | Proper(item) && Within(item, rounds)
      ensures Agrees(ModelItem(a, item, rounds), ModelStep(a, FieldOf(item)))
    {
      if item.Nested? {
        GraphAgrees(item.slice, a, rounds);
        OpsetAgrees(item.slice, rounds);
      }
    }
    var root: Slice := Range(data, 0, |data|);
    assert root.From(0) == data;
    LoopAgrees(root, 0, NO_MODEL, ModelBody(rounds), ModelStep, rounds, rounds);
  }

  // ---------------------------------------------------------------- carried over to the inspector

  /** What the script writes the inspector reads, in its own arithmetic, and without a wrap. */
  lemma InspectorReadsWritten(m: W.ModelAst, data: File, rounds: nat)
    requires T.WellFormed(m) && data == W.EncodeModel(m) && |data| <= rounds
    ensures Model64(data, rounds) == Run(Done(T.Expected(m)), false)
  {
    ModelAgrees(data, rounds);
    T.ModelRoundTrip(m);
  }

  /** Order and unknown-field tolerance of the inspector: graph fields that agree kind by kind. */
  lemma InspectorToleratesOrder(s: Slice, t: Slice, m: ModelInfo, rounds: nat)
    requires !s.Inverted() && |s.data| <= rounds && !t.Inverted() && |t.data| <= rounds
    requires Tokenize(s.Contents()).Ok? && Tokenize(t.Contents()).Ok?
    requires T.SameBytes(Tokenize(s.Contents()).value, Tokenize(t.Contents()).value, {1, 2, 5, 11, 12})
    requires !Graph64(s, m, rounds).wrapped && !Graph64(t, m, rounds).wrapped
    ensures Graph64(s, m, rounds) == Graph64(t, m, rounds)
  {
    GraphAgrees(s, m, rounds);
    GraphAgrees(t, m, rounds);
    T.GraphTolerance(s.Contents(), t.Contents(), m);
  }
}
