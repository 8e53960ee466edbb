/**
  The NCM decoder after AES: padding strip, RC4-style key scheduling, keystream XOR and the search
  for the start of the audio.  Payload bytes are bit vectors, because they are combined by XOR;
  key bytes and box entries are numbers, because they are added.
*/
module NcmDecoder {
  import opened Prelude

  // ---------------------------------------------------------------- key scheduling

  ghost predicate IsPermutation(box: seq<byte>) {
    && |box| == 256
    && (forall i, j :: 0 <= i < j < 256 ==> box[i] != box[j])
    && (forall v: byte :: v in box)
  }

  function Swap(box: seq<byte>, i: nat, j: nat): seq<byte>
    requires i < |box| && j < |box|
  {
    box[i := box[j]][j := box[i]]
  }

  /** The mixing loop of ksa from round i on. */
  function Mix(key: seq<byte>, box: seq<byte>, i: nat, j: nat): (r: seq<byte>)
    requires |key| > 0 && |box| == 256 && i <= 256
    ensures |r| == 256
    decreases 256 - i
  {
    if i == 256 then box
    else
      var j' := (j + box[i] + key[i % |key|]) % 256;
      Mix(key, Swap(box, i, j'), i + 1, j')
  }

  function Identity(): (r: seq<byte>)
    ensures |r| == 256 && forall i :: 0 <= i < 256 ==> r[i] == i
  {
    seq(256, i requires 0 <= i < 256 => i)
  }

  function Box(key: seq<byte>): (r: seq<byte>)
    requires |key| > 0
    ensures |r| == 256
  {
    Mix(key, Identity(), 0, 0)
  }

  lemma SwapKeeps(box: seq<byte>, i: nat, j: nat)
    requires IsPermutation(box) && i < 256 && j < 256
    ensures IsPermutation(Swap(box, i, j))
  {
    var swapped := Swap(box, i, j);
    forall v: byte ensures v in swapped {
      assert v in box;
      var k :| 0 <= k < |box| && box[k] == v;
      assert swapped[if k == i then j else if k == j then i else k] == v;
    }
  }

  lemma {:induction false} MixKeeps(key: seq<byte>, box: seq<byte>, i: nat, j: nat)
    requires |key| > 0 && IsPermutation(box) && i <= 256
    ensures IsPermutation(Mix(key, box, i, j))
    decreases 256 - i
  {
    if i < 256 {
      var j' := (j + box[i] + key[i % |key|]) % 256;
      SwapKeeps(box, i, j');
      MixKeeps(key, Swap(box, i, j'), i + 1, j');
    }
  }

  /** Whatever the key, its schedule is a permutation of 0 .. 255. */
  lemma BoxIsPermutation(key: seq<byte>)
    requires |key| > 0
    ensures IsPermutation(Box(key))
  {
    forall v: byte ensures v in Identity() {
      assert Identity()[v] == v;
    }
    MixKeeps(key, Identity(), 0, 0);
  }

  /** Round i of RC4's key scheduling: the index moves on, and two entries change places. */
  ghost predicate Round(key: seq<byte>, i: nat, before: seq<byte>, j: nat, after: seq<byte>, j': nat) {
    && |key| > 0 && i < 256 && |before| == 256 && |after| == 256
    && j' == (j + before[i] + key[i % |key|]) % 256
    && after[i] == before[j'] && after[j'] == before[i]
    && forall v :: 0 <= v < 256 && v != i && v != j' ==> after[v] == before[v]
  }

  /** All rounds of the scheduling up to `n`, from the boxes 0 .. 255 in order. */
  ghost predicate Scheduled(key: seq<byte>, boxes: seq<seq<byte>>, js: seq<nat>, n: nat) {
    && n <= 256 && |boxes| == n + 1 && |js| == n + 1
    && |boxes[0]| == 256 && (forall v :: 0 <= v < 256 ==> boxes[0][v] == v) && js[0] == 0
    && forall i :: 0 <= i < n ==> Round(key, i, boxes[i], js[i], boxes[i + 1], js[i + 1])
  }

  lemma RoundIsSwap(key: seq<byte>, i: nat, before: seq<byte>, j: nat, after: seq<byte>, j': nat)
    requires Round(key, i, before, j, after, j')
    ensures after == Swap(before, i, j')
  {
    assert forall v :: 0 <= v < 256 ==> after[v] == Swap(before, i, j')[v];
  }

  /** The rounds determine the box: there is only one schedule for a key, and Box is its end. */
  lemma {:induction false} ScheduleEndsInBox(key: seq<byte>, boxes: seq<seq<byte>>, js: seq<nat>, i: nat)
    requires |key| > 0 && Scheduled(key, boxes, js, 256) && i <= 256
    ensures |boxes[i]| == 256 && Mix(key, boxes[i], i, js[i]) == boxes[256]
    decreases 256 - i
  {
    if i < 256 {
      assert Round(key, i, boxes[i], js[i], boxes[i + 1], js[i + 1]);
      RoundIsSwap(key, i, boxes[i], js[i], boxes[i + 1], js[i + 1]);
      ScheduleEndsInBox(key, boxes, js, i + 1);
    } else {
      assert Round(key, 255, boxes[255], js[255], boxes[256], js[256]);
    }
  }

  lemma ScheduleIsBox(key: seq<byte>, boxes: seq<seq<byte>>, js: seq<nat>)
    requires |key| > 0 && Scheduled(key, boxes, js, 256)
    ensures boxes[256] == Box(key)
  {
    assert boxes[0] == Identity();
    ScheduleEndsInBox(key, boxes, js, 0);
  }

  /** The schedule in place, with the boxes and indices it went through. */
  method Ksa(key: seq<byte>) returns (box: array<byte>, ghost boxes: seq<seq<byte>>, ghost js: seq<nat>)
    requires |key| > 0
    ensures fresh(box) && box.Length == 256
    ensures Scheduled(key, boxes, js, 256) && box[..] == boxes[256]
    ensures box[..] == Box(key) && IsPermutation(box[..])
  {
    hide Mix, IsPermutation, Swap;
    box := new byte[256](i => if 0 <= i < 256 then i else 0);
    var i: nat, j: nat := 0, 0;
    boxes, js := [box[..]], [0];
    while i < 256
      invariant i <= 256 && 0 <= j < 256
      invariant Scheduled(key, boxes, js, i) && boxes[i] == box[..] && js[i] == j
      decreases 256 - i
    {
      ghost var before, j0 := box[..], j;
      j := (j + box[i] + key[i % |key|]) % 256;
      box[i], box[j] := box[j], box[i];
      assert Round(key, i, before, j0, box[..], j);
      boxes, js := boxes + [box[..]], js + [j];
      i := i + 1;
    }
    ScheduleIsBox(key, boxes, js);
    BoxIsPermutation(key);
  }

  lemma ThreeTimes(j: nat)
    requires j < 256
    ensures (j + (j + j) % 256) % 256 == 3 * j % 256
  {
    if j < 128 {
      assert (j + j) % 256 == j + j;
    } else {
      assert (j + j) % 256 == j + j - 256;
      assert (3 * j - 256) % 256 == 3 * j % 256;
    }
  }

  function KeyByte(box: seq<byte>, i: nat): byte
    requires |box| == 256
  {
    var j := (i + 1) % 256;
    var a: nat := box[j];
    var b: nat := box[(a + j) % 256];
    box[(a + b) % 256]
  }

  function KeyBox(key: seq<byte>): (ks: seq<byte>)
    requires |key| > 0
    ensures |ks| == 256
  {
    BoxIsPermutation(key);
    var box := Box(key);
    seq(256, i requires 0 <= i < 256 => KeyByte(box, i))
  }

  /** The entry of a box at an index taken modulo 256. */
  function At(box: seq<byte>, n: nat): nat
    requires |box| == 256
  {
    box[n % 256]
  }

  /** RC4's output rule with a still box: byte i comes from the entries at i + 1 and its sum with it. */
  ghost predicate IsKeystream(box: seq<byte>, ks: seq<byte>) {
    && |box| == 256 && |ks| == 256
    && forall i :: 0 <= i < 256 ==>
         var a := At(box, i + 1);
         var b := At(box, a + (i + 1) % 256);
         ks[i] == At(box, a + b)
  }

  lemma KeyByteIs(box: seq<byte>, i: nat)
    requires |box| == 256 && i < 256
    ensures var a := At(box, i + 1);
            var b := At(box, a + (i + 1) % 256);
            KeyByte(box, i) == At(box, a + b)
  {
  }

  lemma KeyBoxIsKeystream(key: seq<byte>)
    requires |key| > 0
    ensures IsKeystream(Box(key), KeyBox(key))
  {
    hide Box, KeyByte, At;
    var box := Box(key);
    forall i | 0 <= i < 256
      ensures var a := At(box, i + 1);
              var b := At(box, a + (i + 1) % 256);
              KeyBox(key)[i] == At(box, a + b)
    {
      KeyByteIs(box, i);
    }
  }

  method BuildKeyBox(key: seq<byte>) returns (ks: array<byte>)
    requires |key| > 0
    ensures fresh(ks) && ks.Length == 256 && ks[..] == KeyBox(key)
    ensures IsKeystream(Box(key), ks[..])
  {
    hide Mix, IsPermutation, Scheduled, IsKeystream;
    var box, _, _ := Ksa(key);
    ghost var schedule := box[..];
    ks := new byte[256](_ => 0);
    for i := 0 to 256
      invariant box[..] == schedule
      invariant forall k :: 0 <= k < i ==> ks[k] == KeyByte(schedule, k)
    {
      var j := (i + 1) % 256;
      var a: nat := box[j];
      var b: nat := box[(a + j) % 256];
      ks[i] := box[(a + b) % 256];
    }
    KeyBoxIsKeystream(key);
  }

  /** On the unmixed box the keystream goes up in threes from 3. */
  lemma KeystreamOfIdentity(i: nat)
    requires i < 256
    ensures KeyByte(Identity(), i) == 3 * (i + 1) % 256
  {
    var j := (i + 1) % 256;
    assert Identity()[j] == j && Identity()[(j + j) % 256] == (j + j) % 256;
    ThreeTimes(j);
    if i == 255 { assert j == 0; } else { assert j == i + 1; }
  }

  // ---------------------------------------------------------------- keystream

  function XorByte(b: bv8, k: byte): bv8 { b ^ (k as bv8) }

  function Xor(data: seq<bv8>, ks: seq<byte>): (r: seq<bv8>)
    requires |ks| == 256
    ensures |r| == |data|
  {
    seq(|data|, k requires 0 <= k < |data| => XorByte(data[k], ks[k % 256]))
  }

  lemma XorBits(b: bv8, m: bv8)
    ensures (b ^ m) ^ m == b
  {
  }

  lemma XorTwice(b: bv8, k: byte)
    ensures XorByte(XorByte(b, k), k) == b
  {
    XorBits(b, k as bv8);
  }

  lemma XorInverts(data: seq<bv8>, ks: seq<byte>)
    requires |ks| == 256
    ensures Xor(Xor(data, ks), ks) == data
  {
    forall k | 0 <= k < |data| ensures Xor(Xor(data, ks), ks)[k] == data[k] {
      XorTwice(data[k], ks[k % 256]);
    }
  }

  /** The payload without its first `skip` bytes, decrypted; nothing if it is not longer. */
  function Candidate(payload: seq<bv8>, ks: seq<byte>, skip: nat): seq<bv8>
    requires |ks| == 256
  {
    if |payload| <= skip then [] else Xor(payload[skip..], ks)
  }

  method DecryptAudioPayload(payload: seq<bv8>, ks: array<byte>, skip: nat) returns (audio: array<bv8>)
    requires ks.Length == 256
    ensures audio[..] == Candidate(payload, ks[..], skip)
    ensures audio.Length == if |payload| <= skip then 0 else |payload| - skip
    ensures forall k :: 0 <= k < audio.Length ==> audio[k] == payload[skip + k] ^ (ks[k % 256] as bv8)
  {
    if |payload| <= skip {
      audio := new bv8[0];
      assert audio[..] == [];
      return;
    }
    var rest := payload[skip..];
    audio := new bv8[|rest|](i requires 0 <= i < |rest| => rest[i]);
    for k := 0 to audio.Length
      invariant forall i :: 0 <= i < k ==> audio[i] == XorByte(rest[i], ks[i % 256])
      invariant forall i :: k <= i < audio.Length ==> audio[i] == rest[i]
      invariant ks[..] == old(ks[..])
    {
      audio[k] := XorByte(audio[k], ks[k % 256]);
    }
    assert audio[..] == Xor(rest, ks[..]);
  }

  /** An MP3 frame sync, an ID3 tag or a FLAC marker. */
  predicate LooksLikeAudio(d: seq<bv8>) {
    && |d| >= 4
    && (|| (d[0] == 0xFF && d[1] & 0xE0 == 0xE0)
        || (d[0] == 0x49 && d[1] == 0x44 && d[2] == 0x33)
        || (d[0] == 0x66 && d[1] == 0x4C && d[2] == 0x61 && d[3] == 0x43))
  }

  function Ascii(text: string): (r: seq<bv8>)
    requires forall c :: c in text ==> c as int < 256
    ensures |r| == |text|
  {
    seq(|text|, i requires 0 <= i < |text| => (assert text[i] in text; text[i] as int) as bv8)
  }

  lemma TopThreeBits()
    ensures forall b: bv8 {:trigger b & 0xE0} :: b & 0xE0 == 0xE0 <==> b >= 0xE0
  {
  }

  /** The headers spelled out: an ID3 tag, a FLAC marker, or eleven set bits. */
  lemma AudioHeaders(d: seq<bv8>)
    ensures LooksLikeAudio(d) <==>
            |d| >= 4 && (d[..3] == Ascii("ID3") || d[..4] == Ascii("fLaC") || (d[0] == 0xFF && d[1] >= 0xE0))
  {
    assert Ascii("ID3") == [0x49, 0x44, 0x33] && Ascii("fLaC") == [0x66, 0x4C, 0x61, 0x43];
    TopThreeBits();
    if |d| >= 4 {
      assert d[..3] == [d[0], d[1], d[2]] && d[..4] == [d[0], d[1], d[2], d[3]];
    }
  }

  const MAX_SKIP: nat := 16

  /** The search loop from `skip` on: the first candidate that looks like audio. */
  function Search(payload: seq<bv8>, ks: seq<byte>, skip: nat): Option<seq<bv8>>
    requires |ks| == 256
    decreases MAX_SKIP + 1 - skip
  {
    if skip > MAX_SKIP then None
    else if LooksLikeAudio(Candidate(payload, ks, skip)) then Some(Candidate(payload, ks, skip))
    else Search(payload, ks, skip + 1)
  }

  /** The search finds the least skip whose candidate looks like audio, if there is one. */
  lemma {:induction false} SearchIsLeast(payload: seq<bv8>, ks: seq<byte>, from: nat)
    requires |ks| == 256 && from <= 17
    ensures Search(payload, ks, from).None? <==>
            forall s :: from <= s <= 16 ==> !LooksLikeAudio(Candidate(payload, ks, s))
    ensures Search(payload, ks, from).Some? ==>
              exists s :: from <= s <= 16 && LooksLikeAudio(Candidate(payload, ks, s))
                && Search(payload, ks, from).value == Candidate(payload, ks, s)
                && forall t :: from <= t < s ==> !LooksLikeAudio(Candidate(payload, ks, t))
    decreases 17 - from
  {
    hide LooksLikeAudio, Candidate;
    if from <= 16 && !LooksLikeAudio(Candidate(payload, ks, from)) {
      SearchIsLeast(payload, ks, from + 1);
    }
  }

  method FindAudio(payload: seq<bv8>, ks: array<byte>) returns (r: Option<seq<bv8>>)
    requires ks.Length == 256
    ensures r == Search(payload, ks[..], 0)
    ensures r.None? <==> forall s :: 0 <= s <= 16 ==> !LooksLikeAudio(Candidate(payload, ks[..], s))
    ensures r.Some? ==>
              exists s :: 0 <= s <= 16 && r.value == Candidate(payload, ks[..], s) && LooksLikeAudio(r.value)
                && forall t :: 0 <= t < s ==> !LooksLikeAudio(Candidate(payload, ks[..], t))
  {
    SearchIsLeast(payload, ks[..], 0);
    hide LooksLikeAudio, Candidate;
    var skip := 0;
    while skip <= MAX_SKIP
      invariant 0 <= skip <= MAX_SKIP + 1
      invariant Search(payload, ks[..], 0) == Search(payload, ks[..], skip)
    {
      var candidate := DecryptAudioPayload(payload, ks, skip);
      if LooksLikeAudio(candidate[..]) {
        return Some(candidate[..]);
      }
      skip := skip + 1;
    }
    r := None;
  }

  lemma {:induction false} SearchStops(payload: seq<bv8>, ks: seq<byte>, from: nat, s: nat)
    requires |ks| == 256 && from <= s <= MAX_SKIP && LooksLikeAudio(Candidate(payload, ks, s))
    requires forall k :: from <= k < s ==> !LooksLikeAudio(Candidate(payload, ks, k))
    ensures Search(payload, ks, from) == Some(Candidate(payload, ks, s))
    decreases s - from
  {
    if from < s {
      SearchStops(payload, ks, from + 1, s);
    }
  }

  lemma {:induction false} SearchFinds(payload: seq<bv8>, ks: seq<byte>, from: nat, s: nat)
    requires |ks| == 256 && from <= s <= MAX_SKIP && LooksLikeAudio(Candidate(payload, ks, s))
    ensures exists t :: from <= t <= s && LooksLikeAudio(Candidate(payload, ks, t))
              && Search(payload, ks, from) == Some(Candidate(payload, ks, t))
    decreases s - from
  {
    if !LooksLikeAudio(Candidate(payload, ks, from)) {
      SearchFinds(payload, ks, from + 1, s);
    }
  }

  lemma AudioIsNotEmpty(audio: seq<bv8>)
    requires LooksLikeAudio(audio)
    ensures audio != []
  {
  }

  lemma CandidateOfEncrypted(prefix: seq<bv8>, audio: seq<bv8>, ks: seq<byte>)
    requires |ks| == 256 && audio != []
    ensures Candidate(prefix + Xor(audio, ks), ks, |prefix|) == audio
  {
    assert (prefix + Xor(audio, ks))[|prefix|..] == Xor(audio, ks);
    XorInverts(audio, ks);
  }

  /**
    Payload recovery: audio with a known header, encrypted with the key box after at most sixteen
    other bytes, is what the search returns exactly when no smaller skip looks like audio too.
  */
  lemma PayloadRecovery(prefix: seq<bv8>, audio: seq<bv8>, ks: seq<byte>)
    requires |ks| == 256 && |prefix| <= 16 && LooksLikeAudio(audio)
    ensures var payload := prefix + Xor(audio, ks);
            Search(payload, ks, 0) == Some(audio) <==>
            forall k :: 0 <= k < |prefix| ==> !LooksLikeAudio(Candidate(payload, ks, k))
  {
    hide LooksLikeAudio, XorByte, Search;
    var payload := prefix + Xor(audio, ks);
    AudioIsNotEmpty(audio);
    CandidateOfEncrypted(prefix, audio, ks);
    if forall k :: 0 <= k < |prefix| ==> !LooksLikeAudio(Candidate(payload, ks, k)) {
      SearchStops(payload, ks, 0, |prefix|);
    } else {
      var k :| 0 <= k < |prefix| && LooksLikeAudio(Candidate(payload, ks, k));
      SearchFinds(payload, ks, 0, k);
    }
  }

  // ---------------------------------------------------------------- padding

  predicate AllEqual(s: seq<byte>, b: byte) { forall i :: 0 <= i < |s| ==> s[i] == b }

  /** The end of aesDecryptECB; block lengths are multiples of sixteen. */
  function Strip(out: seq<byte>): seq<byte>
    requires |out| % 16 == 0
  {
    if out == [] then out
    else
      var pad := out[|out| - 1];
      if pad <= 16 && AllEqual(out[|out| - pad..], pad) then out[..|out| - pad] else out
  }

  method StripPadding(out: seq<byte>) returns (r: seq<byte>)
    requires |out| % 16 == 0
    ensures r == Strip(out)
  {
    r := out;
    if |out| != 0 {
      var pad := out[|out| - 1];
      if pad <= 16 {
        var validPad := true;
        var i := |out| - pad;
        while i < |out|
          invariant |out| - pad <= i <= |out| && validPad
          invariant forall k :: |out| - pad <= k < i ==> out[k] == pad
        {
          if out[i] != pad {
            validPad := false;
            break;
          }
          i := i + 1;
        }
        if validPad {
          assert AllEqual(out[|out| - pad..], pad);
          r := out[..|out| - pad];
        } else {
          assert out[|out| - pad..][i - (|out| - pad)] != pad;
        }
      }
    }
  }

  function Padding(p: byte): seq<byte> { seq(p, _ => p) }

  /** PKCS#7 padding (section 6.3 of RFC 5652) on blocks of sixteen. */
  function Pad(x: seq<byte>): seq<byte> {
    var p: byte := 16 - |x| % 16;
    x + Padding(p)
  }

  /** The strip undoes the padding, for every text. */
  lemma StripInvertsPad(x: seq<byte>)
    ensures |Pad(x)| % 16 == 0 && Strip(Pad(x)) == x
  {
    var p: byte := 16 - |x| % 16;
    var out := Pad(x);
    assert out[|out| - 1] == p;
    assert out[|out| - p..] == Padding(p);
    assert out[..|out| - p] == x;
  }

  /** It removes something exactly when the text ends in one to sixteen bytes of that value. */
  lemma StripRemoves(out: seq<byte>, x: seq<byte>)
    requires |out| % 16 == 0
    ensures Strip(out) == x && x != out <==> exists p: byte :: 1 <= p <= 16 && out == x + Padding(p)
  {
    if Strip(out) == x && x != out {
      var p := out[|out| - 1];
      assert out == out[..|out| - p] + out[|out| - p..];
      assert out[|out| - p..] == Padding(p);
      assert out == x + Padding(p);
    }
    if p: byte :| 1 <= p <= 16 && out == x + Padding(p) {
      assert out[|out| - 1] == p;
      assert out[|out| - p..] == Padding(p);
      assert out[..|out| - p] == x;
    }
  }

  // ---------------------------------------------------------------- from key block to audio

  const PREFIX: nat := 17

  /** The RC4 key in a decrypted key block; None where decode gives up. */
  function KeyFrom(block: seq<byte>): Option<seq<byte>>
    requires |block| % 16 == 0
  {
    var decKey := Strip(block);
    if |decKey| <= PREFIX then None else Some(decKey[PREFIX..])
  }

  function Decode(block: seq<byte>, payload: seq<bv8>): Option<seq<bv8>>
    requires |block| % 16 == 0
  {
    match KeyFrom(block)
    case None => None
    case Some(key) => Search(payload, KeyBox(key), 0)
  }

  method DecodeFile(block: seq<byte>, payload: seq<bv8>) returns (r: Option<seq<bv8>>)
    requires |block| % 16 == 0
    ensures r == Decode(block, payload)
  {
    var decKey := StripPadding(block);
    if |decKey| <= PREFIX {
      return None;
    }
    var keyBox := BuildKeyBox(decKey[PREFIX..]);
    r := FindAudio(payload, keyBox);
  }

  /**
    The whole decoder: a key block that pads a seventeen byte prefix and any nonempty key, and a
    payload encrypted with that key, give back the audio, unless an earlier skip looks like audio.
  */
  lemma DecoderRecovers(prefix17: seq<byte>, key: seq<byte>, lead: seq<bv8>, audio: seq<bv8>)
    requires |prefix17| == 17 && |key| > 0 && |lead| <= 16 && LooksLikeAudio(audio)
    ensures |Pad(prefix17 + key)| % 16 == 0
    ensures var payload := lead + Xor(audio, KeyBox(key));
            Decode(Pad(prefix17 + key), payload) == Some(audio) <==>
            forall k :: 0 <= k < |lead| ==> !LooksLikeAudio(Candidate(payload, KeyBox(key), k))
  {
    StripInvertsPad(prefix17 + key);
    assert (prefix17 + key)[PREFIX..] == key;
    PayloadRecovery(lead, audio, KeyBox(key));
  }
}
