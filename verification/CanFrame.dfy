/**
  CAN frames as candump text, and signed 16-bit values in their payload.

  The C++ parsers read hexadecimal text through a stream, which also takes some text that is not
  purely hexadecimal.  The model does not follow the stream there and says so: Lenient.
*/
module CanFrame {
  import opened Prelude

  datatype Frame = Frame(id: nat, data: seq<byte>)

  datatype Parsed<+T> = Parsed(value: T) | Rejected | Lenient

  const MAX_ID: nat := 0x7FF

  // ---------------------------------------------------------------- hexadecimal digits

  function Digit(n: nat): char
    requires n < 16
  {
    "0123456789ABCDEF"[n]
  }

  predicate IsUpperHex(c: char) { '0' <= c <= '9' || 'A' <= c <= 'F' }

  predicate IsHex(c: char) { IsUpperHex(c) || 'a' <= c <= 'f' }

  function DigitValue(c: char): (v: nat)
    requires IsHex(c)
    ensures v < 16
  {
    if '0' <= c <= '9' then c as int - '0' as int
    else if 'A' <= c <= 'F' then c as int - 'A' as int + 10
    else c as int - 'a' as int + 10
  }

  predicate AllHex(s: string) { forall i :: 0 <= i < |s| ==> IsHex(s[i]) }

  predicate AllUpperHex(s: string) { forall i :: 0 <= i < |s| ==> IsUpperHex(s[i]) }

  function HexValue(s: string): nat
    requires AllHex(s)
  {
    if s == "" then 0 else HexValue(s[..|s| - 1]) * 16 + DigitValue(s[|s| - 1])
  }

  /** Uppercase digits with at least `width` of them: std::hex with setw and setfill('0'). */
  function Hex(n: nat, width: nat): string
    decreases n + width
  {
    if n == 0 && width == 0 then ""
    else Hex(n / 16, if width == 0 then 0 else width - 1) + [Digit(n % 16)]
  }

  /** A digit means its place in the list of digits, in either case. */
  lemma DigitMeans(v: nat)
    requires v < 16
    ensures IsHex("0123456789ABCDEF"[v]) && DigitValue("0123456789ABCDEF"[v]) == v
    ensures IsHex("0123456789abcdef"[v]) && DigitValue("0123456789abcdef"[v]) == v
    ensures Digit(v) == "0123456789ABCDEF"[v]
  {
  }

  /** Nothing else is a digit. */
  lemma DigitsAre(c: char)
    ensures IsHex(c) <==> c in "0123456789ABCDEFabcdef"
    ensures IsUpperHex(c) <==> c in "0123456789ABCDEF"
  {
    if IsHex(c) {
      var v := DigitValue(c);
      assert c == "0123456789ABCDEF"[v] || c == "0123456789abcdef"[v];
      if v >= 10 && c == "0123456789abcdef"[v] {
        assert c == "0123456789ABCDEFabcdef"[v + 6];
      } else {
        assert c == "0123456789ABCDEFabcdef"[v];
      }
    }
  }

  lemma DigitRoundTrip(n: nat)
    requires n < 16
    ensures IsUpperHex(Digit(n)) && DigitValue(Digit(n)) == n
  {
  }

  lemma ValueRoundTrip(c: char)
    requires IsUpperHex(c)
    ensures Digit(DigitValue(c)) == c
  {
  }

  lemma {:induction false} HexRoundTrip(n: nat, width: nat)
    ensures AllUpperHex(Hex(n, width)) && AllHex(Hex(n, width)) && HexValue(Hex(n, width)) == n
    ensures |Hex(n, width)| >= width
    decreases n + width
  {
    if n != 0 || width != 0 {
      var w := if width == 0 then 0 else width - 1;
      HexRoundTrip(n / 16, w);
      DigitRoundTrip(n % 16);
      var front := Hex(n / 16, w);
      assert Hex(n, width)[..|front|] == front;
    }
  }

  function Pow16(k: nat): nat { if k == 0 then 1 else 16 * Pow16(k - 1) }

  /** With room for all digits the width is exact. */
  lemma {:induction false} HexWidth(n: nat, width: nat)
    requires n < Pow16(width)
    ensures |Hex(n, width)| == width
    decreases width
  {
    if width > 0 {
      HexWidth(n / 16, width - 1);
    }
  }

  /** Uppercase text of its own width is the canonical text of its value. */
  lemma {:induction false} TextRoundTrip(s: string)
    requires AllUpperHex(s)
    ensures AllHex(s) && HexValue(s) < Pow16(|s|) && Hex(HexValue(s), |s|) == s
  {
    if s != "" {
      var front, c := s[..|s| - 1], s[|s| - 1];
      TextRoundTrip(front);
      ValueRoundTrip(c);
      assert s == front + [c];
      assert HexValue(s) == HexValue(front) * 16 + DigitValue(c);
      assert HexValue(s) / 16 == HexValue(front) && HexValue(s) % 16 == DigitValue(c);
    }
  }

  // ---------------------------------------------------------------- the codec

  function ParseId(text: string): Parsed<nat> {
    if text == "" then Rejected
    else if !AllHex(text) then Lenient
    else if HexValue(text) > MAX_ID then Rejected
    else Parsed(HexValue(text))
  }

  lemma PairValue(text: string)
    requires |text| == 2 && AllHex(text)
    ensures HexValue(text) == DigitValue(text[0]) * 16 + DigitValue(text[1]) < 256
  {
    assert text[..1][..0] == "";
    assert HexValue(text[..1]) == DigitValue(text[0]);
  }

  function ParseByte(text: string): Parsed<byte> {
    if |text| != 2 then Rejected
    else if !AllHex(text) then Lenient
    else
      PairValue(text);
      Parsed(HexValue(text))
  }

  function ParseBytes(text: string): Parsed<seq<byte>>
    requires |text| % 2 == 0
  {
    if text == "" then Parsed([])
    else
      match ParseByte(text[..2])
      case Rejected => Rejected
      case Lenient => Lenient
      case Parsed(b) =>
        match ParseBytes(text[2..])
        case Rejected => Rejected
        case Lenient => Lenient
        case Parsed(rest) => Parsed([b] + rest)
  }

  /** Position of the first '#', or the length. */
  function FindHash(line: string): (r: nat)
    ensures r <= |line|
    ensures r < |line| ==> line[r] == '#'
    ensures forall i :: 0 <= i < r ==> line[i] != '#'
  {
    if line == "" || line[0] == '#' then 0 else 1 + FindHash(line[1..])
  }

  function Parse(line: string): Parsed<Frame> {
    var hash := FindHash(line);
    if hash == |line| then Rejected
    else
      var payload := line[hash + 1..];
      match ParseId(line[..hash])
      case Rejected => Rejected
      case Lenient => Lenient
      case Parsed(id) =>
        if |payload| % 2 != 0 || |payload| > 16 then Rejected
        else
          match ParseBytes(payload)
          case Rejected => Rejected
          case Lenient => Lenient
          case Parsed(data) => Parsed(Frame(id, data))
  }

  function FormatBytes(data: seq<byte>): string {
    if data == [] then "" else Hex(data[0], 2) + FormatBytes(data[1..])
  }

  function Format(f: Frame): string { Hex(f.id, 3) + "#" + FormatBytes(f.data) }

  /** What is parsed already, followed by what the rest parses to. */
  function Joined(data: seq<byte>, rest: Parsed<seq<byte>>): Parsed<seq<byte>> {
    match rest
    case Rejected => Rejected
    case Lenient => Lenient
    case Parsed(more) => Parsed(data + more)
  }

  lemma JoinNothing(rest: Parsed<seq<byte>>)
    ensures Joined([], rest) == rest
  {
    if rest.Parsed? { assert [] + rest.value == rest.value; }
  }

  lemma JoinPair(data: seq<byte>, text: string)
    requires text != "" && |text| % 2 == 0
    ensures Joined(data, ParseBytes(text)) ==
            match ParseByte(text[..2])
            case Rejected => Rejected
            case Lenient => Lenient
            case Parsed(b) => Joined(data + [b], ParseBytes(text[2..]))
  {
    hide ParseByte;
    if ParseByte(text[..2]).Parsed? && ParseBytes(text[2..]).Parsed? {
      var b, more := ParseByte(text[..2]).value, ParseBytes(text[2..]).value;
      assert data + ([b] + more) == data + [b] + more;
    }
  }

  lemma JoinEnd(data: seq<byte>)
    ensures Joined(data, ParseBytes("")) == Parsed(data)
  {
    assert data + [] == data;
  }

  method ParseCandumpLine(line: string) returns (r: Parsed<Frame>)
    ensures r == Parse(line)
  {
    hide ParseId, ParseByte, ParseBytes, Joined;
    var hash := FindHash(line);
    if hash == |line| {
      return Rejected;
    }
    var id := ParseId(line[..hash]);
    if !id.Parsed? {
      return if id.Rejected? then Rejected else Lenient;
    }
    var payload := line[hash + 1..];
    if |payload| % 2 != 0 || |payload| > 16 {
      return Rejected;
    }
    var data: seq<byte> := [];
    var i := 0;
    JoinNothing(ParseBytes(payload));
    assert payload[0..] == payload;
    while i < |payload|
      invariant 0 <= i <= |payload| && i % 2 == 0
      invariant ParseBytes(payload) == Joined(data, ParseBytes(payload[i..]))
      decreases |payload| - i
    {
      var rest := payload[i..];
      assert rest[..2] == payload[i..i + 2] && rest[2..] == payload[i + 2..];
      JoinPair(data, rest);
      var b := ParseByte(payload[i..i + 2]);
      if !b.Parsed? {
        return if b.Rejected? then Rejected else Lenient;
      }
      data := data + [b.value];
      i := i + 2;
    }
    assert payload[i..] == "";
    JoinEnd(data);
    r := Parsed(Frame(id.value, data));
  }

  method FormatCandumpLine(f: Frame) returns (out: string)
    ensures out == Format(f)
  {
    out := Hex(f.id, 3) + "#";
    for i := 0 to |f.data|
      invariant out + FormatBytes(f.data[i..]) == Format(f)
    {
      ghost var before := out;
      out := out + Hex(f.data[i], 2);
      assert f.data[i..][1..] == f.data[i + 1..];
      assert before + (Hex(f.data[i], 2) + FormatBytes(f.data[i + 1..])) == out + FormatBytes(f.data[i + 1..]);
    }
    assert out + "" == out;
  }

  // ---------------------------------------------------------------- what is rejected

  /** The letter case of a digit does not matter to its value. */
  function Upper(c: char): (r: char)
    requires IsHex(c)
    ensures IsUpperHex(r)
  {
    Digit(DigitValue(c))
  }

  lemma {:induction false} CaseDoesNotMatter(s: string, t: string)
    requires AllHex(s) && AllUpperHex(t) && |t| == |s|
    requires forall i :: 0 <= i < |s| ==> t[i] == Upper(s[i])
    ensures AllHex(t) && HexValue(t) == HexValue(s)
  {
    if s != "" {
      var k := |s| - 1;
      CaseDoesNotMatter(s[..k], t[..k]);
      DigitRoundTrip(DigitValue(s[k]));
    }
  }

  /** A line without a hash is rejected, and so is one with nothing before it. */
  lemma NeedsIdAndHash(line: string)
    ensures '#' !in line ==> Parse(line) == Rejected
    ensures line != "" && line[0] == '#' ==> Parse(line) == Rejected
  {
    assert FindHash(line) < |line| ==> line[FindHash(line)] in line;
  }

  /** Purely hexadecimal text before the hash is accepted exactly up to eleven bits. */
  lemma IdBounds(id: string)
    requires id != "" && AllHex(id)
    ensures ParseId(id) == if HexValue(id) <= 0x7FF then Parsed(HexValue(id)) else Rejected
  {
  }

  lemma {:induction false} HashAfter(id: string, rest: string)
    requires AllHex(id)
    ensures FindHash(id + "#" + rest) == |id|
  {
    var line := id + "#" + rest;
    if id != "" {
      assert line[0] == id[0] && IsHex(id[0]);
      assert line[1..] == id[1..] + "#" + rest;
      HashAfter(id[1..], rest);
    }
  }

  /** A line cut at its first hash. */
  lemma ParseSplit(id: string, body: string)
    requires FindHash(id + "#" + body) == |id|
    ensures Parse(id + "#" + body) ==
            match ParseId(id)
            case Rejected => Rejected
            case Lenient => Lenient
            case Parsed(v) =>
              if |body| % 2 != 0 || |body| > 16 then Rejected
              else
                match ParseBytes(body)
                case Rejected => Rejected
                case Lenient => Lenient
                case Parsed(data) => Parsed(Frame(v, data))
  {
    hide ParseBytes, ParseId, FindHash;
    var line := id + "#" + body;
    assert line[..|id|] == id && line[|id| + 1..] == body;
  }

  /** Half bytes and more than eight bytes are rejected, whatever the digits. */
  lemma PayloadBounds(id: string, body: string)
    requires id != "" && AllHex(id) && (|body| % 2 != 0 || |body| > 16)
    ensures Parse(id + "#" + body) == Rejected
  {
    HashAfter(id, body);
    ParseSplit(id, body);
  }

  // ---------------------------------------------------------------- the codec is a bijection

  predicate Classic(f: Frame) { f.id <= 0x7FF && |f.data| <= 8 }

  predicate IdInRange(s: string)
    requires AllUpperHex(s)
  {
    assert AllHex(s);
    HexValue(s) <= MAX_ID
  }

  predicate Canonical(s: string) {
    && |s| >= 4 && AllUpperHex(s[..3]) && s[3] == '#'
    && IdInRange(s[..3])
    && AllUpperHex(s[4..]) && |s[4..]| % 2 == 0 && |s[4..]| <= 16
  }

  lemma {:induction false} BytesRoundTrip(data: seq<byte>)
    ensures |FormatBytes(data)| == 2 * |data| && AllUpperHex(FormatBytes(data))
    ensures ParseBytes(FormatBytes(data)) == Parsed(data)
  {
    if data != [] {
      var pair := Hex(data[0], 2);
      assert Pow16(2) == 256 by { assert Pow16(1) == 16; }
      HexRoundTrip(data[0], 2);
      HexWidth(data[0], 2);
      BytesRoundTrip(data[1..]);
      var text := FormatBytes(data);
      assert text[..2] == pair && text[2..] == FormatBytes(data[1..]);
      assert [data[0]] + data[1..] == data;
    }
  }

  lemma {:induction false} BytesTextRoundTrip(text: string)
    requires |text| % 2 == 0 && AllUpperHex(text)
    ensures ParseBytes(text).Parsed? && |ParseBytes(text).value| == |text| / 2
    ensures FormatBytes(ParseBytes(text).value) == text
  {
    if text != "" {
      TextRoundTrip(text[..2]);
      PairValue(text[..2]);
      BytesTextRoundTrip(text[2..]);
      var b := ParseByte(text[..2]).value;
      var rest := ParseBytes(text[2..]).value;
      assert ([b] + rest)[0] == b && ([b] + rest)[1..] == rest;
      assert text == text[..2] + text[2..];
    }
  }

  /**
    Parsing a formatted frame gives the frame back exactly for the frames of classic CAN: an
    eleven bit id and at most eight bytes.  All others are rejected.
  */
  lemma ParseOfFormat(f: Frame)
    ensures Parse(Format(f)) == if Classic(f) then Parsed(f) else Rejected
  {
    hide Hex, FormatBytes, HexValue, ParseBytes, FindHash, AllHex, AllUpperHex;
    var id, body := Hex(f.id, 3), FormatBytes(f.data);
    HexRoundTrip(f.id, 3);
    BytesRoundTrip(f.data);
    HashAfter(id, body);
    ParseSplit(id, body);
  }

  /** Formatting what a canonical line parses to gives the line back. */
  lemma FormatOfParse(s: string)
    requires Canonical(s)
    ensures Parse(s).Parsed? && Classic(Parse(s).value) && Format(Parse(s).value) == s
  {
    var id, body := s[..3], s[4..];
    assert s == id + "#" + body;
    TextRoundTrip(id);
    BytesTextRoundTrip(body);
    HashAfter(id, body);
  }

  lemma FormattedIsCanonical(f: Frame)
    requires Classic(f)
    ensures Canonical(Format(f))
  {
    hide Hex, FormatBytes, HexValue;
    HexRoundTrip(f.id, 3);
    assert Pow16(3) == 4096 by { assert Pow16(2) == 256 by { assert Pow16(1) == 16; } }
    HexWidth(f.id, 3);
    BytesRoundTrip(f.data);
    var s := Format(f);
    assert s[..3] == Hex(f.id, 3) && s[4..] == FormatBytes(f.data);
  }

  /** The canonical lines are exactly the formatted classic frames. */
  lemma CanonicalIsFormatted(s: string)
    ensures Canonical(s) <==> exists f :: Classic(f) && Format(f) == s
  {
    hide Canonical, Format;
    if Canonical(s) {
      FormatOfParse(s);
    }
    if f :| Classic(f) && Format(f) == s {
      FormattedIsCanonical(f);
    }
  }

  // ---------------------------------------------------------------- signed 16-bit values

  function ToInt16(raw: nat): int
    requires raw < 0x1_0000
  {
    if raw < 0x8000 then raw else raw - 0x1_0000
  }

  /** static_cast from int16_t to uint16_t. */
  function ToUint16(value: int): nat
    requires -0x8000 <= value < 0x8000
  {
    if value >= 0 then value else value + 0x1_0000
  }

  function RawAt(data: seq<byte>, offset: nat): (raw: nat)
    requires offset + 1 < |data|
    ensures raw < 0x1_0000
  {
    var low: nat, high: nat := data[offset], data[offset + 1];
    low + 0x100 * high
  }

  function ReadInt16Le(data: seq<byte>, offset: nat): Outcome<int> {
    if offset + 1 >= |data| then Throws
    else Ok(ToInt16(RawAt(data, offset)))
  }

  function WriteInt16(data: seq<byte>, offset: nat, value: int): seq<byte>
    requires offset + 1 < |data| && -0x8000 <= value < 0x8000
  {
    var raw := ToUint16(value);
    data[offset := raw % 0x100][offset + 1 := raw / 0x100 % 0x100]
  }

  method WriteInt16Le(data: array<byte>, offset: nat, value: int) returns (r: Outcome<()>)
    requires -0x8000 <= value < 0x8000
    modifies data
    ensures r.Throws? <==> offset + 1 >= data.Length
    ensures data[..] == if r.Ok? then WriteInt16(old(data[..]), offset, value) else old(data[..])
  {
    if offset + 1 >= data.Length {
      return Throws;
    }
    var raw := ToUint16(value);
    data[offset] := raw % 0x100;
    data[offset + 1] := raw / 0x100 % 0x100;
    r := Ok(());
  }

  /** A written value is read back, every other byte is as it was. */
  lemma Int16RoundTrip(data: seq<byte>, offset: nat, value: int)
    requires offset + 1 < |data| && -0x8000 <= value < 0x8000
    ensures ReadInt16Le(WriteInt16(data, offset, value), offset) == Ok(value)
    ensures forall i :: 0 <= i < |data| && i != offset && i != offset + 1 ==>
              WriteInt16(data, offset, value)[i] == data[i]
  {
    var raw := ToUint16(value);
    assert raw == 0x100 * (raw / 0x100) + raw % 0x100;
  }

  /** The low byte comes first, and the two bytes are the value modulo 2^16. */
  lemma Int16Bytes(data: seq<byte>, offset: nat, value: int)
    requires offset + 1 < |data| && -0x8000 <= value < 0x8000
    ensures var written := WriteInt16(data, offset, value);
            var low: nat, high: nat := written[offset], written[offset + 1];
            low + 0x100 * high == if value >= 0 then value else value + 0x1_0000
    ensures var low: nat, high: nat := data[offset], data[offset + 1];
            ReadInt16Le(data, offset) ==
            Ok(if high < 0x80 then low + 0x100 * high else low + 0x100 * high - 0x1_0000)
  {
    var raw := ToUint16(value);
    assert raw == 0x100 * (raw / 0x100) + raw % 0x100;
  }

  /** Reading and writing back changes nothing. */
  lemma Int16WriteBack(data: seq<byte>, offset: nat)
    requires offset + 1 < |data|
    ensures -0x8000 <= ReadInt16Le(data, offset).value < 0x8000
    ensures WriteInt16(data, offset, ReadInt16Le(data, offset).value) == data
  {
    var raw := RawAt(data, offset);
    assert ToUint16(ToInt16(raw)) == raw;
    assert raw / 0x100 == data[offset + 1] && raw % 0x100 == data[offset];
  }

  lemma DisjointWritesCommute(data: seq<byte>, a: nat, x: int, b: nat, y: int)
    requires a + 1 < |data| && b + 1 < |data| && (a + 1 < b || b + 1 < a)
    requires -0x8000 <= x < 0x8000 && -0x8000 <= y < 0x8000
    ensures WriteInt16(WriteInt16(data, a, x), b, y) == WriteInt16(WriteInt16(data, b, y), a, x)
    ensures ReadInt16Le(WriteInt16(WriteInt16(data, a, x), b, y), a) == Ok(x)
  {
    Int16RoundTrip(data, a, x);
    assert WriteInt16(WriteInt16(data, a, x), b, y) == WriteInt16(WriteInt16(data, b, y), a, x);
  }
}
