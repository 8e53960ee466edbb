/**
  The wire format shared by the ONNX writer script and the C++ inspector: base 128 varints,
  tags, length-delimited payloads (Protocol Buffers encoding specification, "Base 128 Varints"
  and "Message Structure").  The decoders here work on what is left of a message, from the
  present position to the end of its slice, and lengths are mathematical numbers; OnnxAgreement
  says when the inspector's 64-bit positions come to the same.
*/
module ProtoWire {
  import opened Arithmetic
  import opened Prelude

  const TWO64: nat := 0x1_0000_0000_0000_0000

  /** The script's varint. */
  function EncodeVarint(v: nat): seq<byte> {
    if v >= 0x80 then [v % 0x80 + 0x80] + EncodeVarint(v / 0x80) else [v]
  }

  /** 128 to the k: the weight of the k-th byte of a varint, 2 to the shift 7k. */
  function Weight(k: nat): (r: nat)
    ensures r > 0
  {
    if k == 0 then 1 else 0x80 * Weight(k - 1)
  }

  /** The k-th byte shifted into place in 64 bits; the tenth byte keeps only its lowest bit. */
  function Shifted(b: byte, k: nat): nat {
    ((b % 0x80) * Weight(k)) % TWO64
  }

  /** readVarint from its k-th byte on: the value, and the number of bytes read here. */
  function DecodeFrom(s: seq<byte>, k: nat, value: nat): Outcome<(nat, nat)>
    decreases |s|
  {
    if s == [] || 7 * k > 63 then Throws
    else
      var value' := value + Shifted(s[0], k);
      if s[0] < 0x80 then Ok((value', 1))
      else
        var (v, n) :- DecodeFrom(s[1..], k + 1, value');
        Ok((v, n + 1))
  }

  function DecodeVarint(s: seq<byte>): Outcome<(nat, nat)> { DecodeFrom(s, 0, 0) }

  lemma Weights()
    ensures Weight(9) == 0x8000_0000_0000_0000
    ensures Weight(10) == 0x40_0000_0000_0000_0000
  {
    assert Weight(3) == 0x20_0000;
    assert Weight(6) == 0x400_0000_0000;
  }

  /** What is accumulated stays below the next shift, so the C++ `|=` adds disjoint bits. */
  ghost predicate Below(value: nat, k: nat) {
    if k <= 9 then value < Weight(k) else value < TWO64
  }

  lemma {:induction false} WeightGrows(k: nat)
    requires k <= 9
    ensures Weight(k) <= Weight(9)
    decreases 9 - k
  {
    if k < 9 {
      WeightGrows(k + 1);
    }
  }

  lemma ScaleUp(m: nat, w: nat)
    requires m <= 0x7F
    ensures m * w <= 0x7F * w
  {
  }

  lemma LastByte(m: nat)
    ensures (m * 0x8000_0000_0000_0000) % TWO64 == (m % 2) * 0x8000_0000_0000_0000
  {
    assert m * 0x8000_0000_0000_0000 == (m / 2) * TWO64 + (m % 2) * 0x8000_0000_0000_0000;
  }

  lemma NextWeight(k: nat)
    ensures Weight(k + 1) == 0x80 * Weight(k)
  {
  }

  /** The first nine bytes: all seven bits fit. */
  lemma ShiftedWhole(b: byte, k: nat)
    requires k < 9
    ensures Shifted(b, k) == (b % 0x80) * Weight(k) <= 0x7F * Weight(k)
    ensures Weight(k + 1) <= 0x8000_0000_0000_0000
  {
    Weights();
    WeightGrows(k + 1);
    NextWeight(k);
    hide Weight;
    ScaleUp(b % 0x80, Weight(k));
  }

  lemma StaysBelow(value: nat, b: byte, k: nat)
    requires k <= 9 && Below(value, k)
    ensures Below(value + Shifted(b, k), k + 1)
    ensures Shifted(b, k) % Weight(k) == 0
  {
    if k == 9 {
      Weights();
      LastByte(b % 0x80);
    } else {
      ShiftedWhole(b, k);
      NextWeight(k);
      Remainder((b % 0x80) * Weight(k), b % 0x80, 0, Weight(k));
    }
  }

  /** A decoded varint fits 64 bits and takes between one and ten bytes. */
  lemma {:induction false} DecodeFits(s: seq<byte>, k: nat, value: nat)
    requires Below(value, k) && DecodeFrom(s, k, value).Ok?
    ensures DecodeFrom(s, k, value).value.0 < TWO64
    ensures 1 <= DecodeFrom(s, k, value).value.1 <= |s|
    ensures DecodeFrom(s, k, value).value.1 <= 10 - k
    decreases |s|
  {
    Weights();
    StaysBelow(value, s[0], k);
    if s[0] < 0x80 {
      if k < 9 { WeightGrows(k + 1); }
    } else {
      DecodeFits(s[1..], k + 1, value + Shifted(s[0], k));
    }
  }

  lemma DecodeVarintFits(s: seq<byte>)
    requires DecodeVarint(s).Ok?
    ensures DecodeVarint(s).value.0 < TWO64
    ensures 1 <= DecodeVarint(s).value.1 <= |s| && DecodeVarint(s).value.1 <= 10
  {
    DecodeFits(s, 0, 0);
  }

  lemma SplitDigit(v: nat, w: nat)
    ensures v * w == (v % 0x80) * w + (v / 0x80) * (0x80 * w)
  {
    assert v == (v / 0x80) * 0x80 + v % 0x80;
    var q, m := v / 0x80, v % 0x80;
    assert (q * 0x80 + m) * w == q * 0x80 * w + m * w;
    assert q * 0x80 * w == q * (0x80 * w);
  }

  /** A value with more digits to come leaves room for the next byte. */
  lemma RoomForNext(v: nat, k: nat, value: nat)
    requires k <= 9 && v >= 0x80 && value + v * Weight(k) < TWO64
    ensures k + 1 <= 9
    ensures value + v * Weight(k) == value + (v % 0x80) * Weight(k) + (v / 0x80) * Weight(k + 1)
  {
    SplitDigit(v, Weight(k));
    NextWeight(k);
    AtLeastOne(v / 0x80, Weight(k + 1));
    if k == 9 { Weights(); }
  }

  lemma LowDigit(v: nat, w: nat)
    requires v * w < TWO64
    ensures ((v % 0x80) * w) % TWO64 == (v % 0x80) * w
  {
    SplitDigit(v, w);
  }

  /** The first byte written says whether more follow, and its place adds the lowest digit. */
  lemma FirstByte(v: nat, k: nat)
    requires v * Weight(k) < TWO64
    ensures EncodeVarint(v)[0] >= 0x80 <==> v >= 0x80
    ensures Shifted(EncodeVarint(v)[0], k) == (v % 0x80) * Weight(k)
  {
    LowDigit(v, Weight(k));
    hide Weight;
    assert EncodeVarint(v)[0] % 0x80 == v % 0x80;
  }

  lemma {:induction false} RoundTripFrom(v: nat, rest: seq<byte>, k: nat, value: nat)
    requires k <= 9 && value + v * Weight(k) < TWO64
    ensures DecodeFrom(EncodeVarint(v) + rest, k, value) ==
            Ok((value + v * Weight(k), |EncodeVarint(v)|))
    ensures |EncodeVarint(v)| <= 10 - k
    decreases v
  {
    hide Weight, Shifted;
    var code := EncodeVarint(v) + rest;
    FirstByte(v, k);
    assert code[0] == EncodeVarint(v)[0];
    if v >= 0x80 {
      RoomForNext(v, k, value);
      assert code[1..] == EncodeVarint(v / 0x80) + rest;
      RoundTripFrom(v / 0x80, rest, k + 1, value + (v % 0x80) * Weight(k));
    }
  }

  /**
    Varint round trip: every value below 2^64 takes at most ten bytes, and reading them back at
    any point of a message gives the value and advances exactly over them.
  */
  lemma VarintRoundTrip(v: nat, rest: seq<byte>)
    requires v < TWO64
    ensures DecodeVarint(EncodeVarint(v) + rest) == Ok((v, |EncodeVarint(v)|))
    ensures |EncodeVarint(v)| <= 10
  {
    RoundTripFrom(v, rest, 0, 0);
  }

  lemma DivideTwice(v: nat, w: nat)
    requires w > 0
    ensures v / 0x80 / w == v / (0x80 * w)
  {
    var q := v / 0x80 / w;
    var r := v / 0x80 - q * w;
    assert v / 0x80 % w == r && 0 <= r < w by { assert v / 0x80 == q * w + v / 0x80 % w; }
    var m := 0x80 * r + v % 0x80;
    assert v == 0x80 * (q * w + r) + v % 0x80;
    assert 0x80 * (q * w) == q * (0x80 * w);
    assert m < 0x80 * w;
    Quotient(v, q, m, 0x80 * w);
  }

  /** A varint is the base 128 digits of its number, the lowest first; the last has its top bit clear. */
  lemma {:induction false} VarintDigits(v: nat, i: nat)
    requires i < |EncodeVarint(v)|
    ensures EncodeVarint(v)[i] % 0x80 == v / Weight(i) % 0x80
    ensures EncodeVarint(v)[i] < 0x80 <==> i == |EncodeVarint(v)| - 1
    decreases v
  {
    if v >= 0x80 {
      if i == 0 {
        assert EncodeVarint(v)[0] == v % 0x80 + 0x80;
      } else {
        VarintDigits(v / 0x80, i - 1);
        assert EncodeVarint(v)[i] == EncodeVarint(v / 0x80)[i - 1];
        DivideTwice(v, Weight(i - 1));
        NextWeight(i - 1);
      }
    }
  }

  // ---------------------------------------------------------------- fields

  datatype Field =
    | Varint(num: nat, v: nat)
    | Fixed64(num: nat, raw: seq<byte>)
    | Bytes(num: nat, payload: seq<byte>)
    | Fixed32(num: nat, raw: seq<byte>)

  /** readBytes: the payload, and the number of bytes its length and contents take. */
  function DecodeBytes(s: seq<byte>): Outcome<(seq<byte>, nat)> {
    var (len, n) :- DecodeVarint(s);
    DecodeVarintFits(s);
    if n + len > |s| then Throws else Ok((s[n..n + len], n + len))
  }

  /** What follows a tag: field number, wire type, the rest of the message. */
  function DecodeBody(num: nat, wire: nat, s: seq<byte>): Outcome<(Field, nat)> {
    match wire
    case 0 =>
      var (v, n) :- DecodeVarint(s);
      Ok((Varint(num, v), n))
    case 1 => if |s| < 8 then Throws else Ok((Fixed64(num, s[..8]), 8))
    case 2 =>
      var (p, n) :- DecodeBytes(s);
      Ok((Bytes(num, p), n))
    case 5 => if |s| < 4 then Throws else Ok((Fixed32(num, s[..4]), 4))
    case _ => Throws
  }

  lemma DecodeBodyFits(num: nat, wire: nat, s: seq<byte>)
    requires DecodeBody(num, wire, s).Ok?
    ensures 0 < DecodeBody(num, wire, s).value.1 <= |s|
  {
    if wire == 0 || wire == 2 {
      DecodeVarintFits(s);
    }
  }

  function NextField(s: seq<byte>): (r: Outcome<(Field, nat)>)
    ensures r.Ok? ==> 0 < r.value.1 <= |s|
  {
    var (tag, n) :- DecodeVarint(s);
    DecodeVarintFits(s);
    var (f, m) :- DecodeBody(tag / 8, tag % 8, s[n..]);
    DecodeBodyFits(tag / 8, tag % 8, s[n..]);
    Ok((f, n + m))
  }

  /** The script's key. */
  function Key(num: nat, wire: nat): seq<byte> { EncodeVarint(num * 8 + wire) }

  function WireType(f: Field): nat {
    match f
    case Varint(_, _) => 0
    case Fixed64(_, _) => 1
    case Bytes(_, _) => 2
    case Fixed32(_, _) => 5
  }

  function Body(f: Field): seq<byte> {
    match f
    case Varint(_, v) => EncodeVarint(v)
    case Fixed64(_, raw) => raw
    case Bytes(_, p) => EncodeVarint(|p|) + p
    case Fixed32(_, raw) => raw
  }

  /** field_varint, field_bytes and field_string of the script, and the two fixed widths. */
  function EncodeField(f: Field): seq<byte> { Key(f.num, WireType(f)) + Body(f) }

  predicate ValidField(f: Field) {
    && f.num * 8 + 7 < TWO64
    && match f
       case Varint(_, v) => v < TWO64
       case Fixed64(_, raw) => |raw| == 8
       case Bytes(_, p) => |p| < TWO64
       case Fixed32(_, raw) => |raw| == 4
  }

  /** Wire types 1 and 5 are eight and four bytes, whatever they are; 3, 4, 6 and 7 are refused. */
  lemma FixedWidths(num: nat, s: seq<byte>)
    ensures DecodeBody(num, 1, s).Ok? <==> |s| >= 8
    ensures |s| >= 8 ==> DecodeBody(num, 1, s).value.1 == 8
    ensures DecodeBody(num, 5, s).Ok? <==> |s| >= 4
    ensures |s| >= 4 ==> DecodeBody(num, 5, s).value.1 == 4
    ensures forall wire :: wire in {3, 4, 6, 7} ==> DecodeBody(num, wire, s).Throws?
  {
  }

  lemma BodyRoundTrip(f: Field, rest: seq<byte>)
    requires ValidField(f)
    ensures DecodeBody(f.num, WireType(f), Body(f) + rest) == Ok((f, |Body(f)|))
  {
    match f
    case Varint(num, v) => VarintRoundTrip(v, rest);
    case Fixed64(num, raw) => assert (raw + rest)[..8] == raw;
    case Bytes(num, p) =>
      var len := EncodeVarint(|p|);
      VarintRoundTrip(|p|, p + rest);
      assert len + p + rest == len + (p + rest);
      assert (len + (p + rest))[|len|..|len| + |p|] == p;
    case Fixed32(num, raw) => assert (raw + rest)[..4] == raw;
  }

  /** A field that was written is read back, and nothing after it is touched. */
  lemma FieldRoundTrip(f: Field, rest: seq<byte>)
    requires ValidField(f)
    ensures NextField(EncodeField(f) + rest) == Ok((f, |EncodeField(f)|))
  {
    hide EncodeVarint, DecodeVarint, DecodeBody, Body;
    BodyRoundTrip(f, rest);
    var key, body := Key(f.num, WireType(f)), Body(f);
    assert key + body + rest == key + (body + rest);
    VarintRoundTrip(f.num * 8 + WireType(f), body + rest);
    assert (key + (body + rest))[|key|..] == body + rest;
  }

  // ---------------------------------------------------------------- messages

  function Tokenize(s: seq<byte>): Outcome<seq<Field>>
    decreases |s|
  {
    if s == [] then Ok([])
    else
      var (f, n) :- NextField(s);
      var fs :- Tokenize(s[n..]);
      Ok([f] + fs)
  }

  /** The loop of every accumulating parser: one field at a time until the slice is used up. */
  function Fold<A>(s: seq<byte>, acc: A, step: (A, Field) -> Outcome<A>): Outcome<A>
    decreases |s|
  {
    if s == [] then Ok(acc)
    else
      var (f, n) :- NextField(s);
      var acc' :- step(acc, f);
      Fold(s[n..], acc', step)
  }

  function FoldFields<A>(fs: seq<Field>, acc: A, step: (A, Field) -> Outcome<A>): Outcome<A> {
    if fs == [] then Ok(acc)
    else
      var acc' :- step(acc, fs[0]);
      FoldFields(fs[1..], acc', step)
  }

  function EncodeAll(fs: seq<Field>): seq<byte> {
    if fs == [] then [] else EncodeField(fs[0]) + EncodeAll(fs[1..])
  }

  /** A parser sees a message only through its fields; a message that is not fields throws. */
  lemma {:induction false} FoldIsTokens<A>(s: seq<byte>, acc: A, step: (A, Field) -> Outcome<A>)
    ensures Fold(s, acc, step) ==
            if Tokenize(s).Throws? then Throws else FoldFields(Tokenize(s).value, acc, step)
    decreases |s|
  {
    if s != [] && NextField(s).Ok? {
      var (f, n) := NextField(s).value;
      if Tokenize(s).Ok? {
        assert Tokenize(s).value[1..] == Tokenize(s[n..]).value;
      }
      match step(acc, f)
      case Ok(acc') => FoldIsTokens(s[n..], acc', step);
      case Throws =>
    }
  }

  lemma {:induction false} TokensRoundTrip(fs: seq<Field>)
    requires forall f :: f in fs ==> ValidField(f)
    ensures Tokenize(EncodeAll(fs)) == Ok(fs)
  {
    if fs != [] {
      var code, rest := EncodeField(fs[0]), EncodeAll(fs[1..]);
      FieldRoundTrip(fs[0], rest);
      assert (code + rest)[|code|..] == rest;
      assert [fs[0]] + fs[1..] == fs;
      TokensRoundTrip(fs[1..]);
    }
  }

  /** The bytes of each field, as the loop cuts them off. */
  function Chunks(s: seq<byte>): seq<seq<byte>>
    decreases |s|
  {
    if s == [] || NextField(s).Throws? then []
    else
      var n := NextField(s).value.1;
      [s[..n]] + Chunks(s[n..])
  }

  function Flatten(chunks: seq<seq<byte>>): seq<byte> {
    if chunks == [] then [] else chunks[0] + Flatten(chunks[1..])
  }

  lemma {:induction false} VarintAlone(s: seq<byte>, k: nat, value: nat, n: nat)
    requires DecodeFrom(s, k, value).Ok? && DecodeFrom(s, k, value).value.1 <= n <= |s|
    ensures DecodeFrom(s[..n], k, value) == DecodeFrom(s, k, value)
    decreases |s|
  {
    if s[0] >= 0x80 {
      VarintAlone(s[1..], k + 1, value + Shifted(s[0], k), n - 1);
      assert s[..n][1..] == s[1..][..n - 1];
    }
  }

  lemma BodyAlone(num: nat, wire: nat, s: seq<byte>)
    requires DecodeBody(num, wire, s).Ok?
    ensures DecodeBody(num, wire, s).value.1 <= |s|
    ensures DecodeBody(num, wire, s[..DecodeBody(num, wire, s).value.1]) == DecodeBody(num, wire, s)
  {
    DecodeBodyFits(num, wire, s);
    var m := DecodeBody(num, wire, s).value.1;
    if wire == 0 || wire == 2 {
      DecodeVarintFits(s);
      VarintAlone(s, 0, 0, m);
      if wire == 2 {
        var n := DecodeVarint(s).value.1;
        assert s[..m][n..m] == s[n..m];
      }
    } else {
      assert s[..m][..m] == s[..m];
    }
  }

  lemma FieldAlone(s: seq<byte>, n: nat, f: Field)
    requires NextField(s) == Ok((f, n))
    ensures Tokenize(s[..n]) == Ok([f])
  {
    var (tag, m) := DecodeVarint(s).value;
    DecodeVarintFits(s);
    BodyAlone(tag / 8, tag % 8, s[m..]);
    VarintAlone(s, 0, 0, n);
    assert s[..n][m..] == s[m..][..n - m];
    assert NextField(s[..n]) == Ok((f, n));
    assert s[..n][n..] == [] && [f] + [] == [f];
    assert Tokenize(s[..n]) == match Tokenize(s[..n][n..]) case Throws => Throws case Ok(fs) => Ok([f] + fs);
  }

  /**
    A successful parse uses its slice up exactly: the bytes of its fields, each a message of
    that one field, put together are the slice.
  */
  lemma {:induction false} ParseConsumesAll(s: seq<byte>)
    requires Tokenize(s).Ok?
    ensures Flatten(Chunks(s)) == s && |Chunks(s)| == |Tokenize(s).value|
    ensures forall i :: 0 <= i < |Chunks(s)| ==> Tokenize(Chunks(s)[i]) == Ok([Tokenize(s).value[i]])
    decreases |s|
  {
    if s != [] {
      var (f, n) := NextField(s).value;
      ParseConsumesAll(s[n..]);
      assert s == s[..n] + s[n..];
      assert Chunks(s) == [s[..n]] + Chunks(s[n..]) && Chunks(s)[1..] == Chunks(s[n..]);
      assert Tokenize(s).value == [f] + Tokenize(s[n..]).value;
      FieldAlone(s, n, f);
      forall i | 0 <= i < |Chunks(s)| ensures Tokenize(Chunks(s)[i]) == Ok([Tokenize(s).value[i]]) {
        if i > 0 {
          assert Chunks(s)[i] == Chunks(s[n..])[i - 1];
        }
      }
    }
  }

  /** Decoding looks no further than the bytes it takes. */
  lemma {:induction false} DecodeFromLocal(s: seq<byte>, t: seq<byte>, k: nat, value: nat)
    requires DecodeFrom(s, k, value).Ok?
    ensures DecodeFrom(s + t, k, value) == DecodeFrom(s, k, value)
    decreases |s|
  {
    assert (s + t)[0] == s[0];
    if s[0] >= 0x80 {
      assert (s + t)[1..] == s[1..] + t;
      DecodeFromLocal(s[1..], t, k + 1, value + Shifted(s[0], k));
    }
  }

  lemma DecodeBodyLocal(num: nat, wire: nat, s: seq<byte>, t: seq<byte>)
    requires DecodeBody(num, wire, s).Ok?
    ensures DecodeBody(num, wire, s + t) == DecodeBody(num, wire, s)
  {
    if wire == 0 || wire == 2 {
      DecodeFromLocal(s, t, 0, 0);
      DecodeVarintFits(s);
      if wire == 2 {
        var (len, n) := DecodeVarint(s).value;
        assert (s + t)[n..n + len] == s[n..n + len];
      }
    } else if wire == 1 {
      assert (s + t)[..8] == s[..8];
    } else {
      assert (s + t)[..4] == s[..4];
    }
  }

  lemma NextFieldLocal(s: seq<byte>, t: seq<byte>)
    requires NextField(s).Ok?
    ensures NextField(s + t) == NextField(s)
  {
    DecodeFromLocal(s, t, 0, 0);
    DecodeVarintFits(s);
    var (tag, n) := DecodeVarint(s).value;
    assert (s + t)[n..] == s[n..] + t;
    DecodeBodyLocal(tag / 8, tag % 8, s[n..], t);
  }

  /** Messages concatenate: the fields of s + t are those of s followed by those of t. */
  lemma {:induction false} TokenizeConcat(s: seq<byte>, t: seq<byte>)
    requires Tokenize(s).Ok?
    ensures Tokenize(s + t) ==
            if Tokenize(t).Throws? then Throws else Ok(Tokenize(s).value + Tokenize(t).value)
    decreases |s|
  {
    hide NextField;
    if s == [] {
      assert s + t == t;
      if Tokenize(t).Ok? { assert [] + Tokenize(t).value == Tokenize(t).value; }
    } else {
      NextFieldLocal(s, t);
      var (f, n) := NextField(s).value;
      assert (s + t)[n..] == s[n..] + t;
      TokenizeConcat(s[n..], t);
      if Tokenize(t).Ok? {
        assert [f] + (Tokenize(s[n..]).value + Tokenize(t).value)
            == [f] + Tokenize(s[n..]).value + Tokenize(t).value;
      }
    }
  }

  lemma {:induction false} FoldFieldsConcat<A>(fs: seq<Field>, gs: seq<Field>, acc: A, step: (A, Field) -> Outcome<A>)
    ensures FoldFields(fs + gs, acc, step) ==
            match FoldFields(fs, acc, step)
            case Throws => Throws
            case Ok(mid) => FoldFields(gs, mid, step)
  {
    if fs == [] {
      assert fs + gs == gs;
    } else {
      assert (fs + gs)[1..] == fs[1..] + gs;
      match step(acc, fs[0])
      case Ok(acc') => FoldFieldsConcat(fs[1..], gs, acc', step);
      case Throws =>
    }
  }

  lemma FoldFieldsIgnoring<A(!new)>(bs: seq<Field>, f: Field, gs: seq<Field>,
                                    acc: A, step: (A, Field) -> Outcome<A>)
    requires forall a :: step(a, f) == Ok(a)
    ensures FoldFields(bs + [f] + gs, acc, step) == FoldFields(bs + gs, acc, step)
  {
    FoldFieldsConcat(bs, [f] + gs, acc, step);
    FoldFieldsConcat(bs, gs, acc, step);
    assert bs + [f] + gs == bs + ([f] + gs);
    assert ([f] + gs)[1..] == gs;
  }

  /**
    Unknown-field tolerance: a well-formed field that the parser ignores can be inserted at any
    field boundary of any message without changing the outcome.
  */
  lemma IgnoredFieldChangesNothing<A(!new)>(before: seq<byte>, field: seq<byte>, after: seq<byte>, f: Field,
                                            acc: A, step: (A, Field) -> Outcome<A>)
    requires Tokenize(before).Ok? && Tokenize(field) == Ok([f])
    requires forall a :: step(a, f) == Ok(a)
    ensures Fold(before + field + after, acc, step) == Fold(before + after, acc, step)
  {
    hide Tokenize, Fold, FoldFields;
    TokenizeConcat(before, field);
    TokenizeConcat(before + field, after);
    TokenizeConcat(before, after);
    FoldIsTokens(before + field + after, acc, step);
    FoldIsTokens(before + after, acc, step);
    if Tokenize(after).Ok? {
      FoldFieldsIgnoring(Tokenize(before).value, f, Tokenize(after).value, acc, step);
    }
  }

  /**
    The C++ bound check adds position and length in 64 bits, DecodeBytes in the integers: for a
    position inside a slice they agree exactly when the sum does not wrap.
  */
  lemma BoundCheckAgrees(pos: nat, length: nat, end: nat)
    requires pos <= end < TWO64 && length < TWO64
    ensures (((pos + length) % TWO64 > end) <==> (pos + length > end)) <==> pos + length < TWO64
  {
  }
}
