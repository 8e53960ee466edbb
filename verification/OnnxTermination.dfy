/**
  When the inspector ends.  It does not on every file: a length that wraps can lead a loop back to
  where it was.  It ends if and only if it ends when every loop is given as many rounds as the file
  has bytes, because a loop that has not ended by then has come back to a position.
*/
module OnnxTermination {
  import opened OnnxAgreement
  import opened OnnxParser
  import opened OnnxReader
  import opened Prelude
  import opened ProtoWire

  // ---------------------------------------------------------------- where a field leads

  /** A length-delimited field leads forward exactly when its length does not wrap, or not so far. */
  lemma LengthDecidesDirection(slice: Slice, start: nat, tag: nat, n: nat, length: nat, m: nat)
    requires start < slice.end && DecodeVarint(slice.From(start)) == Ok((tag, n)) && tag % 8 == 2
    requires start + n <= slice.end && DecodeVarint(slice.From(start + n)) == Ok((length, m))
    ensures var at := start + n + m;
            && (FieldAt(slice, start).Ok? <==> (at + length) % TWO64 <= slice.end)
            && (FieldAt(slice, start).Ok? ==>
                  (FieldAt(slice, start).value.1 > start <==>
                   at + length < TWO64 || at + length - TWO64 > start))
  {
    DecodeVarintFits(slice.From(start));
    DecodeVarintFits(slice.From(start + n));
  }

  /** All other fields lead forward. */
  lemma ScalarsLeadForward(slice: Slice, start: nat)
    requires start < slice.end && FieldAt(slice, start).Ok? && FieldAt(slice, start).value.0.Scalar?
    ensures start < FieldAt(slice, start).value.1 <= slice.end
  {
    FieldAgrees(slice, start);
  }

  /** Field 2 with a length of 2^64 - 11, which ends at byte 11. */
  const ENDLESS: File := [0x12, 0xF5, 0xFF, 0xFF, 0xFF, 0xFF, 0xFF, 0xFF, 0xFF, 0xFF, 0x01]

  lemma HugeLength()
    ensures EncodeVarint(TWO64 - 11) == ENDLESS[1..]
  {
    assert EncodeVarint(0xFF) == [0xFF, 0x01];
    assert EncodeVarint(0x7FFF) == [0xFF] + EncodeVarint(0xFF);
    assert EncodeVarint(0x3F_FFFF) == [0xFF] + EncodeVarint(0x7FFF);
    assert EncodeVarint(0x1FFF_FFFF) == [0xFF] + EncodeVarint(0x3F_FFFF);
    assert EncodeVarint(0xF_FFFF_FFFF) == [0xFF] + EncodeVarint(0x1FFF_FFFF);
    assert EncodeVarint(0x7FF_FFFF_FFFF) == [0xFF] + EncodeVarint(0xF_FFFF_FFFF);
    assert EncodeVarint(0x3_FFFF_FFFF_FFFF) == [0xFF] + EncodeVarint(0x7FF_FFFF_FFFF);
    assert EncodeVarint(0x1FF_FFFF_FFFF_FFFF) == [0xFF] + EncodeVarint(0x3_FFFF_FFFF_FFFF);
    assert EncodeVarint(TWO64 - 11) == [0xF5] + EncodeVarint(0x1FF_FFFF_FFFF_FFFF);
  }

  lemma EndlessVarints()
    ensures DecodeVarint(ENDLESS) == Ok((0x12, 1))
    ensures DecodeVarint(ENDLESS[1..]) == Ok((TWO64 - 11, 10))
  {
    HugeLength();
    assert EncodeVarint(0x12) == [0x12];
    hide EncodeVarint, DecodeVarint;
    VarintRoundTrip(0x12, ENDLESS[1..]);
    assert [0x12] + ENDLESS[1..] == ENDLESS;
    VarintRoundTrip(TWO64 - 11, []);
    assert ENDLESS[1..] + [] == ENDLESS[1..];
  }

  lemma LeadsBackToStart()
    ensures FieldAt(Range(ENDLESS, 0, 11), 0) == Ok((Nested(2, Range(ENDLESS, 11, 0)), 0))
  {
    hide DecodeVarint;
    var root: Slice := Range(ENDLESS, 0, 11);
    EndlessVarints();
    assert root.From(0) == ENDLESS && root.From(1) == ENDLESS[1..];
  }

  lemma {:induction false} StaysAtStart(body: (ModelInfo, Item) -> Run<ModelInfo>, rounds: nat)
    requires body(NO_MODEL, Nested(2, Range(ENDLESS, 11, 0))) == Keep(NO_MODEL)
    ensures Loop(Range(ENDLESS, 0, 11), 0, NO_MODEL, body, rounds).result == Running
    decreases rounds
  {
    LeadsBackToStart();
    hide FieldAt;
    if rounds > 0 { StaysAtStart(body, rounds - 1); }
  }

  /** On this file parseModel never ends. */
  lemma NeverEnds(rounds: nat)
    ensures Model64(ENDLESS, rounds).result == Running
  {
    StaysAtStart(ModelBody(rounds), rounds);
  }

  // ---------------------------------------------------------------- one loop

  predicate SameKind<A>(a: Result<A>, b: Result<A>) {
    (a.Done? <==> b.Done?) && (a.Returned? <==> b.Returned?) && (a.Running? <==> b.Running?)
  }

  /** How a round ends does not depend on what has been collected. */
  ghost predicate Uniform<A(!new)>(body: (A, Item) -> Run<A>) {
    forall a, b, item :: SameKind(body(a, item).result, body(b, item).result)
  }

  lemma {:induction false} LoopUniform<A(!new)>(slice: Slice, pos: nat, a: A, b: A, body: (A, Item) -> Run<A>, rounds: nat)
    requires Uniform(body)
    ensures SameKind(Loop(slice, pos, a, body, rounds).result, Loop(slice, pos, b, body, rounds).result)
    decreases rounds
  {
    hide FieldAt;
    if pos < slice.end && rounds > 0 && FieldAt(slice, pos).Ok? {
      var (item, next) := FieldAt(slice, pos).value;
      assert SameKind(body(a, item).result, body(b, item).result);
      if body(a, item).result.Done? {
        LoopUniform(slice, next, body(a, item).result.value, body(b, item).result.value, body, rounds - 1);
      }
    }
  }

  /** Where `f` ends a round, `g` ends it the same way. */
  ghost predicate Extends<A(!new)>(f: (A, Item) -> Run<A>, g: (A, Item) -> Run<A>, limit: nat) {
    forall a, item :: Within(item, limit) && !f(a, item).result.Running? ==> g(a, item) == f(a, item)
  }

  /** More rounds do not change a run that has ended. */
  lemma {:induction false} LoopStable<A(!new)>(slice: Slice, pos: nat, acc: A, f: (A, Item) -> Run<A>,
                                               g: (A, Item) -> Run<A>, n: nat, m: nat, limit: nat)
    requires Extends(f, g, limit) && |slice.data| <= limit && n <= m
    requires !Loop(slice, pos, acc, f, n).result.Running?
    ensures Loop(slice, pos, acc, g, m) == Loop(slice, pos, acc, f, n)
    decreases n
  {
    hide FieldAt;
    if pos < slice.end && FieldAt(slice, pos).Ok? {
      FieldAgrees(slice, pos);
      var (item, next) := FieldAt(slice, pos).value;
      assert Within(item, limit);
      assert g(acc, item) == f(acc, item);
      if f(acc, item).result.Done? {
        LoopStable(slice, next, f(acc, item).result.value, f, g, n - 1, m - 1, limit);
      }
    }
  }

  /** The positions from which a loop ends within k rounds. */
  ghost function Ending<A>(slice: Slice, acc: A, body: (A, Item) -> Run<A>, k: nat): set<nat> {
    set p: nat | p < slice.end && !Loop(slice, p, acc, body, k).result.Running?
  }

  lemma EndingGrows<A(!new)>(slice: Slice, acc: A, body: (A, Item) -> Run<A>, k: nat, m: nat)
    requires k <= m
    ensures Ending(slice, acc, body, k) <= Ending(slice, acc, body, m)
  {
    forall p | p in Ending(slice, acc, body, k) ensures p in Ending(slice, acc, body, m) {
      LoopStable(slice, p, acc, body, body, k, m, |slice.data|);
    }
  }

  /** One round more: the loop ends there, or goes on to a position from which it ends. */
  lemma EndingRound<A(!new)>(slice: Slice, pos: nat, acc: A, body: (A, Item) -> Run<A>, k: nat)
    requires Uniform(body) && pos < slice.end
    ensures pos in Ending(slice, acc, body, k + 1) <==>
            FieldAt(slice, pos).Ok? ==>
            var (item, next) := FieldAt(slice, pos).value;
            !body(acc, item).result.Running? &&
            (body(acc, item).result.Done? && next < slice.end ==> next in Ending(slice, acc, body, k))
  {
    LoopRound(slice, pos, acc, body, k + 1);
    hide FieldAt;
    if FieldAt(slice, pos).Ok? {
      var (item, next) := FieldAt(slice, pos).value;
      if body(acc, item).result.Done? {
        LoopUniform(slice, next, body(acc, item).result.value, acc, body, k);
      }
    }
  }

  lemma EndingBounded<A>(slice: Slice, acc: A, body: (A, Item) -> Run<A>, k: nat)
    ensures forall p :: p in Ending(slice, acc, body, k) ==> p < slice.end
  {
  }

  lemma {:induction false} EndingSettles<A(!new)>(slice: Slice, acc: A, body: (A, Item) -> Run<A>, k: nat, m: nat)
    requires Uniform(body) && k <= m
    requires Ending(slice, acc, body, k) == Ending(slice, acc, body, k + 1)
    ensures Ending(slice, acc, body, m) == Ending(slice, acc, body, k)
    decreases m - k
  {
    if k < m {
      hide FieldAt, Ending;
      EndingBounded(slice, acc, body, k + 1);
      EndingBounded(slice, acc, body, k + 2);
      var now, after := Ending(slice, acc, body, k + 1), Ending(slice, acc, body, k + 2);
      forall p: nat ensures p in now <==> p in after
      {
        if p < slice.end {
          EndingRound(slice, p, acc, body, k);
          EndingRound(slice, p, acc, body, k + 1);
        }
      }
      assert now == after;
      EndingSettles(slice, acc, body, k + 1, m);
    }
  }

  lemma SameCount<A>(a: set<A>, b: set<A>)
    requires a <= b && |a| == |b|
    ensures a == b
  {
    if a != b {
      var x :| x in b && x !in a;
      assert |b - {x}| == |b| - 1;
      SubsetCount(a, b - {x});
    }
  }

  /** Until it settles, each round adds a position. */
  lemma {:induction false} EndingCounts<A(!new)>(slice: Slice, acc: A, body: (A, Item) -> Run<A>, k: nat, m: nat)
    requires Uniform(body) && k <= m
    ensures |Ending(slice, acc, body, k)| >= k || Ending(slice, acc, body, m) == Ending(slice, acc, body, k)
    decreases k
  {
    hide Ending;
    if k > 0 {
      var before, now := Ending(slice, acc, body, k - 1), Ending(slice, acc, body, k);
      EndingGrows(slice, acc, body, k - 1, k);
      if before == now {
        EndingSettles(slice, acc, body, k - 1, m);
      } else {
        EndingCounts(slice, acc, body, k - 1, k);
        SubsetCount(before, now);
        if |before| == |now| { SameCount(before, now); }
      }
    }
  }

  lemma AllEnding<A>(slice: Slice, acc: A, body: (A, Item) -> Run<A>, k: nat, pos: nat)
    requires |Ending(slice, acc, body, k)| >= slice.end && pos < slice.end
    ensures pos in Ending(slice, acc, body, k)
  {
    var ending := Ending(slice, acc, body, k);
    SubsetCount(ending, Ids(0, slice.end));
    SameCount(ending, Ids(0, slice.end));
  }

  /** A loop that ends at all ends within as many rounds as there are positions. */
  lemma LoopEndsInTime<A(!new)>(slice: Slice, pos: nat, acc: A, body: (A, Item) -> Run<A>, m: nat)
    requires Uniform(body) && !Loop(slice, pos, acc, body, m).result.Running?
    ensures !Loop(slice, pos, acc, body, slice.end).result.Running?
  {
    var k := slice.end;
    if pos < k {
      if m <= k {
        LoopStable(slice, pos, acc, body, body, m, k, |slice.data|);
      } else {
        EndingCounts(slice, acc, body, k, m);
        assert pos in Ending(slice, acc, body, m);
        if |Ending(slice, acc, body, k)| >= k {
          AllEnding(slice, acc, body, k, pos);
        }
      }
    }
  }

  // ---------------------------------------------------------------- nested loops

  /** What a loop body may do to the loop around it, given n or m rounds for the loops inside. */
  ghost predicate TameAt<A>(bodies: nat -> ((A, Item) -> Run<A>), limit: nat, n: nat, m: nat, a: A, b: A, item: Item) {
    && SameKind(bodies(n)(a, item).result, bodies(n)(b, item).result)
    && (n <= m && !bodies(n)(a, item).result.Running? ==> bodies(m)(a, item) == bodies(n)(a, item))
    && (Within(item, limit) && bodies(limit)(a, item).result.Running? ==> bodies(n)(a, item).result.Running?)
  }

  ghost predicate Tame<A(!new)>(bodies: nat -> ((A, Item) -> Run<A>), limit: nat) {
    forall n, m, a, b, item :: TameAt(bodies, limit, n, m, a, b, item)
  }

  /**
    A parser: how it ends does not depend on what it starts with, more rounds do not change a run
    that has ended, and a run that has not ended after `limit` rounds never does.
  */
  ghost predicate TameRuns<A>(ra: nat -> Run<A>, rb: nat -> Run<A>, within: bool, limit: nat, n: nat, m: nat) {
    && SameKind(ra(n).result, rb(n).result)
    && (n <= m && !ra(n).result.Running? ==> ra(m) == ra(n))
    && (within && ra(limit).result.Running? ==> ra(n).result.Running?)
  }

  function Runs<A>(slice: Slice, a: A, bodies: nat -> ((A, Item) -> Run<A>)): nat -> Run<A> {
    (n: nat) => Loop(slice, slice.begin, a, bodies(n), n)
  }

  lemma TameUniform<A(!new)>(bodies: nat -> ((A, Item) -> Run<A>), limit: nat, n: nat)
    requires Tame(bodies, limit)
    ensures Uniform(bodies(n))
  {
    forall a, b, item ensures SameKind(bodies(n)(a, item).result, bodies(n)(b, item).result) {
      assert TameAt(bodies, limit, n, n, a, b, item);
    }
  }

  lemma TameExtends<A(!new)>(bodies: nat -> ((A, Item) -> Run<A>), limit: nat, n: nat, m: nat, size: nat)
    requires Tame(bodies, limit) && n <= m
    ensures Extends(bodies(n), bodies(m), size)
  {
    forall a, item | !bodies(n)(a, item).result.Running? ensures bodies(m)(a, item) == bodies(n)(a, item) {
      assert TameAt(bodies, limit, n, m, a, a, item);
    }
  }

  /** Beyond the limit the loops inside change nothing, so the loop ends as it would at the limit. */
  lemma LoopEndsAtLimit<A(!new)>(slice: Slice, a: A, bodies: nat -> ((A, Item) -> Run<A>), limit: nat, n: nat)
    requires Tame(bodies, limit) && |slice.data| <= limit
    requires !Loop(slice, slice.begin, a, bodies(n), n).result.Running?
    ensures !Loop(slice, slice.begin, a, bodies(limit), limit).result.Running?
  {
    if n <= limit {
      TameExtends(bodies, limit, n, limit, limit);
      LoopStable(slice, slice.begin, a, bodies(n), bodies(limit), n, limit, limit);
    } else {
      forall x, item | Within(item, limit) && !bodies(n)(x, item).result.Running?
        ensures bodies(limit)(x, item) == bodies(n)(x, item)
      {
        assert TameAt(bodies, limit, n, n, x, x, item);
        assert TameAt(bodies, limit, limit, n, x, x, item);
      }
      LoopStable(slice, slice.begin, a, bodies(n), bodies(limit), n, n, limit);
      TameUniform(bodies, limit, limit);
      LoopEndsInTime(slice, slice.begin, a, bodies(limit), n);
      LoopStable(slice, slice.begin, a, bodies(limit), bodies(limit), slice.end, limit, limit);
    }
  }

  lemma LoopTame<A(!new)>(slice: Slice, a: A, b: A, bodies: nat -> ((A, Item) -> Run<A>), limit: nat, n: nat, m: nat)
    requires Tame(bodies, limit)
    ensures TameRuns(Runs(slice, a, bodies), Runs(slice, b, bodies), |slice.data| <= limit, limit, n, m)
  {
    hide Loop;
    TameUniform(bodies, limit, n);
    LoopUniform(slice, slice.begin, a, b, bodies(n), n);
    if n <= m && !Runs(slice, a, bodies)(n).result.Running? {
      TameExtends(bodies, limit, n, m, |slice.data|);
      LoopStable(slice, slice.begin, a, bodies(n), bodies(m), n, m, |slice.data|);
    }
    if |slice.data| <= limit && !Runs(slice, a, bodies)(n).result.Running? {
      LoopEndsAtLimit(slice, a, bodies, limit, n);
    }
  }

  function Fixed<A>(body: (A, Item) -> Run<A>): nat -> ((A, Item) -> Run<A>) { (n: nat) => body }

  lemma FirstTame(num: nat, limit: nat)
    ensures Tame(Fixed(FirstBody(num)), limit)
  {
    forall n, m, a, b, item ensures TameAt(Fixed(FirstBody(num)), limit, n, m, a, b, item) {
      assert FirstBody(num)(a, item) == FirstItem(num, a, item);
      assert FirstBody(num)(b, item) == FirstItem(num, b, item);
    }
  }

  lemma ShapeTame(limit: nat)
    ensures Tame(ShapeBody, limit)
  {
    FirstTame(1, limit);
    hide Loop;
    forall n, m, a, b, item ensures TameAt(ShapeBody, limit, n, m, a, b, item) {
      if IsNested(item, 1) { LoopTame(item.slice, -1, -1, Fixed(FirstBody(1)), limit, n, m); }
      assert forall k, x :: ShapeBody(k)(x, item) == ShapeItem(x, item, k);
    }
  }

  lemma TensorTypeTame(limit: nat)
    ensures Tame(TensorTypeBody, limit)
  {
    ShapeTame(limit);
    hide Loop, ToInt32;
    forall n, m, a, b, item ensures TameAt(TensorTypeBody, limit, n, m, a, b, item) {
      if IsNested(item, 2) { LoopTame(item.slice, [], [], ShapeBody, limit, n, m); }
      assert forall k, x :: TensorTypeBody(k)(x, item) == TensorTypeItem(x, item, k);
    }
  }

  lemma TypeTame(limit: nat)
    ensures Tame(TypeBody, limit)
  {
    TensorTypeTame(limit);
    hide Loop;
    forall n, m, a, b, item ensures TameAt(TypeBody, limit, n, m, a, b, item) {
      if IsNested(item, 1) { LoopTame(item.slice, a, b, TensorTypeBody, limit, n, m); }
      assert forall k, x :: TypeBody(k)(x, item) == TypeItem(x, item, k);
    }
  }

  lemma ValueInfoTame(limit: nat)
    ensures Tame(ValueInfoBody, limit)
  {
    TypeTame(limit);
    hide Loop;
    forall n, m, a, b, item ensures TameAt(ValueInfoBody, limit, n, m, a, b, item) {
      if IsNested(item, 2) { LoopTame(item.slice, a, b, TypeBody, limit, n, m); }
      assert forall k, x :: ValueInfoBody(k)(x, item) == ValueInfoItem(x, item, k);
    }
  }

  lemma TensorTame(limit: nat)
    ensures Tame(Fixed(TensorBody()), limit)
  {
    hide Loop, ToInt32, ToInt64;
    forall n, m, a, b, item ensures TameAt(Fixed(TensorBody()), limit, n, m, a, b, item) {
      assert TensorBody()(a, item) == TensorItem(a, item);
      assert TensorBody()(b, item) == TensorItem(b, item);
    }
  }

  lemma NodeTame(limit: nat)
    ensures Tame(Fixed(NodeBody()), limit)
  {
    hide Loop;
    forall n, m, a, b, item ensures TameAt(Fixed(NodeBody()), limit, n, m, a, b, item) {
      assert NodeBody()(a, item) == NodeItem(a, item);
      assert NodeBody()(b, item) == NodeItem(b, item);
    }
  }

  lemma GraphItemTame(limit: nat, n: nat, m: nat, a: ModelInfo, b: ModelInfo, item: Item)
    requires Tame(Fixed(NodeBody()), limit) && Tame(Fixed(TensorBody()), limit) && Tame(ValueInfoBody, limit)
    ensures TameAt(GraphBody, limit, n, m, a, b, item)
  {
    hide Loop, Tame;
    assert forall k, x :: GraphBody(k)(x, item) == GraphItem(x, item, k);
    if IsNested(item, 1) {
      LoopTame(item.slice, NO_NODE, NO_NODE, Fixed(NodeBody()), limit, n, m);
    } else if IsNested(item, 5) {
      LoopTame(item.slice, NO_TENSOR, NO_TENSOR, Fixed(TensorBody()), limit, n, m);
    } else if item.Nested? {
      LoopTame(item.slice, NO_VALUE, NO_VALUE, ValueInfoBody, limit, n, m);
    }
  }

  lemma GraphTame(limit: nat)
    ensures Tame(GraphBody, limit)
  {
    NodeTame(limit);
    TensorTame(limit);
    ValueInfoTame(limit);
    forall n, m, a, b, item ensures TameAt(GraphBody, limit, n, m, a, b, item) {
      GraphItemTame(limit, n, m, a, b, item);
    }
  }

  lemma ModelTame(limit: nat)
    ensures Tame(ModelBody, limit)
  {
    GraphTame(limit);
    FirstTame(2, limit);
    hide Loop, ToInt64;
    forall n, m, a, b, item ensures TameAt(ModelBody, limit, n, m, a, b, item) {
      if item.Nested? {
        LoopTame(item.slice, a, b, GraphBody, limit, n, m);
        LoopTame(item.slice, 0, 0, Fixed(FirstBody(2)), limit, n, m);
      }
      assert forall k, x :: ModelBody(k)(x, item) == ModelItem(x, item, k);
    }
  }

  /** A run of parseModel that has ended is the whole run: more rounds do not change it. */
  lemma EndedRunsStay(data: File, n: nat, m: nat)
    requires n <= m && !Model64(data, n).result.Running?
    ensures Model64(data, m) == Model64(data, n)
  {
    hide Loop;
    ModelTame(|data|);
    LoopTame(Range(data, 0, |data|), NO_MODEL, NO_MODEL, ModelBody, |data|, n, m);
  }

  /** parseModel ends on a file if and only if it ends with a round of each loop for each byte. */
  lemma EndsExactlyWhen(data: File)
    ensures (exists n: nat :: !Model64(data, n).result.Running?) <==> !Model64(data, |data|).result.Running?
  {
    hide Loop;
    ModelTame(|data|);
    forall n: nat | !Model64(data, n).result.Running? ensures !Model64(data, |data|).result.Running? {
      LoopTame(Range(data, 0, |data|), NO_MODEL, NO_MODEL, ModelBody, |data|, n, n);
    }
  }

  /** A file on which no length wraps is one on which parseModel ends. */
  lemma EndsWithoutWrap(data: File)
    requires !Model64(data, |data|).wrapped
    ensures !Model64(data, |data|).result.Running?
    ensures forall n: nat :: n >= |data| ==> Model64(data, n) == Model64(data, |data|)
  {
    ModelAgrees(data, |data|);
    forall n: nat | n >= |data| ensures Model64(data, n) == Model64(data, |data|) {
      EndedRunsStay(data, |data|, n);
    }
  }
}
