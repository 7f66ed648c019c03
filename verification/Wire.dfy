/**
 The binary slice format. Floating-point fields are carried as their bit patterns; the host is
 taken to be little-endian, so the writer's little-endian and the reader's native order agree.
 */
module Wire {

  type byte = b: int | 0 <= b < 256

  const WORD := 0x1_0000_0000
  const LONG_WORD := 0x1_0000_0000_0000_0000

  type word32 = w: int | 0 <= w < WORD
  type word64 = w: int | 0 <= w < LONG_WORD

  // ----- Little-endian integers

  /** `to_le_bytes`: the `k` low-order bytes of `w`, least significant first. */
  function LeBytes(w: nat, k: nat): (bs: seq<byte>)
    ensures |bs| == k
  {
    if k == 0 then [] else [w % 256] + LeBytes(w / 256, k - 1)
  }

  /** `from_ne_bytes` on a little-endian host. */
  function FromLe(bs: seq<byte>): nat {
    if bs == [] then 0 else bs[0] + 256 * FromLe(bs[1..])
  }

  function Pow256(k: nat): (p: nat)
    ensures 0 < p
  {
    if k == 0 then 1 else 256 * Pow256(k - 1)
  }

  lemma {:induction false} FromLeBytes(w: nat, k: nat)
    requires w < Pow256(k)
    ensures FromLe(LeBytes(w, k)) == w
  {
    if k > 0 {
      FromLeBytes(w / 256, k - 1);
      assert LeBytes(w, k)[1..] == LeBytes(w / 256, k - 1);
    }
  }

  lemma {:induction false} LeBytesFrom(bs: seq<byte>)
    ensures FromLe(bs) < Pow256(|bs|)
    ensures LeBytes(FromLe(bs), |bs|) == bs
  {
    if bs != [] {
      LeBytesFrom(bs[1..]);
      var w := FromLe(bs);
      assert w % 256 == bs[0] && w / 256 == FromLe(bs[1..]);
    }
  }

  lemma WordSizes()
    ensures Pow256(4) == WORD && Pow256(8) == LONG_WORD
  {
    assert Pow256(2) == 256 * Pow256(1) == 65536;
    assert Pow256(4) == 256 * Pow256(3) == 65536 * Pow256(2);
    assert Pow256(6) == 256 * Pow256(5) == 65536 * Pow256(4);
    assert Pow256(8) == 256 * Pow256(7) == 65536 * Pow256(6);
  }

  function ReadWord(bs: seq<byte>): (w: word32)
    requires |bs| == 4
  {
    LeBytesFrom(bs);
    WordSizes();
    FromLe(bs)
  }

  function ReadLongWord(bs: seq<byte>): (w: word64)
    requires |bs| == 8
  {
    LeBytesFrom(bs);
    WordSizes();
    FromLe(bs)
  }

  // ----- Frames

  datatype Frame =
    | Partial(localMax: word64, partialSum: word64, expValues: seq<word32>)
    | Normalized(expValues: seq<word32>)

  const MAGIC_PARTIAL: byte := 0x01
  const MAGIC_NORMALIZED: byte := 0x02

  function WordsToBytes(ws: seq<word32>): (bs: seq<byte>)
    ensures |bs| == 4 * |ws|
  {
    if ws == [] then [] else WordsToBytes(ws[..|ws| - 1]) + LeBytes(ws[|ws| - 1], 4)
  }

  function BytesToWords(bs: seq<byte>): (ws: seq<word32>)
    requires |bs| % 4 == 0
    ensures 4 * |ws| == |bs|
  {
    if bs == [] then [] else BytesToWords(bs[..|bs| - 4]) + [ReadWord(bs[|bs| - 4..])]
  }

  /** The count field is the length cut down to 32 bits. */
  function Encode(f: Frame): (raw: seq<byte>)
    ensures |raw| == (if f.Partial? then 21 else 5) + 4 * |f.expValues|
  {
    match f
    case Partial(localMax, partialSum, expValues) =>
      [MAGIC_PARTIAL] + LeBytes(localMax, 8) + LeBytes(partialSum, 8) + LeBytes(|expValues| % WORD, 4)
      + WordsToBytes(expValues)
    case Normalized(expValues) =>
      [MAGIC_NORMALIZED] + LeBytes(|expValues| % WORD, 4) + WordsToBytes(expValues)
  }

  /** `NotReady` is the reader's `None`; anything not starting with a magic byte goes to the JSON parser. */
  datatype ReadResult = NotReady | Decoded(frame: Frame) | Json(raw: seq<byte>)

  function Decode(raw: seq<byte>): ReadResult {
    if raw == [] then NotReady
    else if raw[0] == MAGIC_PARTIAL then
      if |raw| < 21 || |raw| != 21 + ReadWord(raw[17..21]) * 4 then NotReady
      else Decoded(Partial(ReadLongWord(raw[1..9]), ReadLongWord(raw[9..17]), BytesToWords(raw[21..])))
    else if raw[0] == MAGIC_NORMALIZED then
      if |raw| < 5 || |raw| != 5 + ReadWord(raw[1..5]) * 4 then NotReady
      else Decoded(Normalized(BytesToWords(raw[5..])))
    else Json(raw)
  }

  // ----- The format, byte by byte

  /** Four bytes as a number, the first one least significant. */
  function Number4(raw: seq<byte>, at: nat): nat
    requires at + 4 <= |raw|
  {
    var a: nat, b: nat, c: nat, d: nat := raw[at], raw[at + 1], raw[at + 2], raw[at + 3];
    a + 0x100 * b + 0x1_0000 * c + 0x100_0000 * d
  }

  function Number8(raw: seq<byte>, at: nat): nat
    requires at + 8 <= |raw|
  {
    Number4(raw, at) + 0x1_0000_0000 * Number4(raw, at + 4)
  }

  lemma FromLeStep(bs: seq<byte>, k: nat)
    requires k < |bs|
    ensures var b: nat := bs[k]; FromLe(bs[k..]) == b + 256 * FromLe(bs[k + 1..])
  {
    assert bs[k..][1..] == bs[k + 1..];
  }

  lemma FromLeAt4(raw: seq<byte>, at: nat)
    requires at + 4 <= |raw|
    ensures FromLe(raw[at..at + 4]) == Number4(raw, at)
  {
    var b := raw[at..at + 4];
    FromLeStep(b, 0);
    FromLeStep(b, 1);
    FromLeStep(b, 2);
    FromLeStep(b, 3);
    assert b[0..] == b && b[4..] == [];
  }

  lemma FromLeAt8(raw: seq<byte>, at: nat)
    requires at + 8 <= |raw|
    ensures FromLe(raw[at..at + 8]) == Number8(raw, at)
  {
    var b := raw[at..at + 8];
    FromLeStep(b, 0);
    FromLeStep(b, 1);
    FromLeStep(b, 2);
    FromLeStep(b, 3);
    FromLeAt4(raw, at + 4);
    assert b[0..] == b && b[4..] == raw[at + 4..at + 8];
  }

  lemma SameNumber(a: seq<byte>, i: nat, b: seq<byte>, j: nat)
    requires i + 4 <= |a| && j + 4 <= |b| && a[i..i + 4] == b[j..j + 4]
    ensures Number4(a, i) == Number4(b, j)
  {
    FromLeAt4(a, i);
    FromLeAt4(b, j);
  }

  lemma {:induction false} WordAt(ws: seq<word32>, i: nat)
    requires i < |ws|
    ensures Number4(WordsToBytes(ws), 4 * i) == ws[i]
  {
    var front, raw := ws[..|ws| - 1], WordsToBytes(ws);
    if i == |ws| - 1 {
      assert raw[4 * i..4 * i + 4] == LeBytes(ws[i], 4);
      FromLeAt4(raw, 4 * i);
      WordSizes();
      FromLeBytes(ws[i], 4);
    } else {
      WordAt(front, i);
      assert raw[4 * i..4 * i + 4] == WordsToBytes(front)[4 * i..4 * i + 4];
      SameNumber(raw, 4 * i, WordsToBytes(front), 4 * i);
    }
  }

  lemma NumberBehind(raw: seq<byte>, header: nat, k: nat)
    requires header + k + 4 <= |raw|
    ensures Number4(raw, header + k) == Number4(raw[header..], k)
  {
  }

  /** The values stand behind the header. */
  lemma ValueAt(raw: seq<byte>, header: nat, values: seq<word32>, i: nat)
    requires header <= |raw| && raw[header..] == WordsToBytes(values) && i < |values|
    ensures Number4(raw, header + 4 * i) == values[i]
  {
    WordAt(values, i);
    NumberBehind(raw, header, 4 * i);
  }

  /**
   A magic byte, the maximum, the sum, the number of values cut down to 32 bits, and the values; all
   little-endian.
   */
  lemma PartialLayout(localMax: word64, partialSum: word64, values: seq<word32>)
    ensures var raw := Encode(Partial(localMax, partialSum, values));
            && raw[0] == 0x01 && Number8(raw, 1) == localMax && Number8(raw, 9) == partialSum
            && Number4(raw, 17) == |values| % 0x1_0000_0000
            && forall i :: 0 <= i < |values| ==> Number4(raw, 21 + 4 * i) == values[i]
  {
    var raw, n := Encode(Partial(localMax, partialSum, values)), |values| % WORD;
    WordSizes();
    FromLeAt8(raw, 1);
    FromLeAt8(raw, 9);
    FromLeAt4(raw, 17);
    FromLeBytes(localMax, 8);
    FromLeBytes(partialSum, 8);
    FromLeBytes(n, 4);
    assert raw[1..9] == LeBytes(localMax, 8) && raw[9..17] == LeBytes(partialSum, 8) && raw[17..21] == LeBytes(n, 4);
    forall i | 0 <= i < |values| ensures Number4(raw, 21 + 4 * i) == values[i] {
      assert raw[21..] == WordsToBytes(values);
      ValueAt(raw, 21, values, i);
    }
  }

  /** The same for a rank's share. */
  lemma NormalizedLayout(values: seq<word32>)
    ensures var raw := Encode(Normalized(values));
            && raw[0] == 0x02 && Number4(raw, 1) == |values| % 0x1_0000_0000
            && forall i :: 0 <= i < |values| ==> Number4(raw, 5 + 4 * i) == values[i]
  {
    var raw, n := Encode(Normalized(values)), |values| % WORD;
    WordSizes();
    FromLeAt4(raw, 1);
    FromLeBytes(n, 4);
    assert raw[1..5] == LeBytes(n, 4);
    forall i | 0 <= i < |values| ensures Number4(raw, 5 + 4 * i) == values[i] {
      assert raw[5..] == WordsToBytes(values);
      ValueAt(raw, 5, values, i);
    }
  }

  /**
   What is not a frame: nothing at all, a frame of another length than its header says, or something for the
   JSON parser.
   */
  lemma NotAFrame(raw: seq<byte>)
    ensures Decode(raw).Json? <==> raw != [] && raw[0] != 0x01 && raw[0] != 0x02
    ensures Decode(raw).Json? ==> Decode(raw).raw == raw
    ensures Decode(raw).NotReady? <==>
              || raw == []
              || (raw[0] == 0x01 && (|raw| < 21 || |raw| != 21 + 4 * Number4(raw, 17)))
              || (raw[0] == 0x02 && (|raw| < 5 || |raw| != 5 + 4 * Number4(raw, 1)))
  {
    if raw != [] && raw[0] == 0x01 && 21 <= |raw| {
      FromLeAt4(raw, 17);
    } else if raw != [] && raw[0] == 0x02 && 5 <= |raw| {
      FromLeAt4(raw, 1);
    }
  }

  // ----- The code

  method EncodePartial(localMax: word64, partialSum: word64, expValues: seq<word32>) returns (buf: seq<byte>)
    ensures buf == Encode(Partial(localMax, partialSum, expValues))
  {
    var n := |expValues| % WORD;
    buf := [MAGIC_PARTIAL];
    buf := buf + LeBytes(localMax, 8);
    buf := buf + LeBytes(partialSum, 8);
    buf := buf + LeBytes(n, 4);
    ghost var header := buf;
    for i := 0 to |expValues|
      invariant buf == header + WordsToBytes(expValues[..i])
    {
      assert expValues[..i + 1][..i] == expValues[..i];
      buf := buf + LeBytes(expValues[i], 4);
    }
    assert expValues[..|expValues|] == expValues;
  }

  method EncodeNormalized(probs: seq<word32>) returns (buf: seq<byte>)
    ensures buf == Encode(Normalized(probs))
  {
    var n := |probs| % WORD;
    buf := [MAGIC_NORMALIZED];
    buf := buf + LeBytes(n, 4);
    ghost var header := buf;
    for i := 0 to |probs|
      invariant buf == header + WordsToBytes(probs[..i])
    {
      assert probs[..i + 1][..i] == probs[..i];
      buf := buf + LeBytes(probs[i], 4);
    }
    assert probs[..|probs|] == probs;
  }

  lemma OneMoreWord(bs: seq<byte>, front: seq<byte>, last: seq<byte>)
    requires bs == front + last && |front| % 4 == 0 && |last| == 4
    ensures BytesToWords(bs) == BytesToWords(front) + [ReadWord(last)]
  {
    assert bs[..|bs| - 4] == front && bs[|bs| - 4..] == last;
  }

  method ReadValues(raw: seq<byte>, header: nat, n: nat) returns (values: seq<word32>)
    requires |raw| == header + n * 4
    ensures values == BytesToWords(raw[header..])
  {
    values := [];
    for i := 0 to n
      invariant values == BytesToWords(raw[header..header + i * 4])
    {
      var off := header + i * 4;
      OneMoreWord(raw[header..off + 4], raw[header..off], raw[off..off + 4]);
      values := values + [ReadWord(raw[off..off + 4])];
    }
    assert raw[header..header + n * 4] == raw[header..];
  }

  method ReadSlice(raw: seq<byte>) returns (r: ReadResult)
    ensures r == Decode(raw)
  {
    if |raw| == 0 {
      return NotReady;
    }
    var magic := raw[0];
    if magic == MAGIC_PARTIAL {
      if |raw| < 21 {
        return NotReady;
      }
      var localMax := ReadLongWord(raw[1..9]);
      var partialSum := ReadLongWord(raw[9..17]);
      var n: nat := ReadWord(raw[17..21]);
      if |raw| != 21 + n * 4 {
        return NotReady;
      }
      var values := ReadValues(raw, 21, n);
      return Decoded(Partial(localMax, partialSum, values));
    }
    if magic == MAGIC_NORMALIZED {
      if |raw| < 5 {
        return NotReady;
      }
      var n: nat := ReadWord(raw[1..5]);
      if |raw| != 5 + n * 4 {
        return NotReady;
      }
      var values := ReadValues(raw, 5, n);
      return Decoded(Normalized(values));
    }
    return Json(raw);
  }

  // ----- Properties

  lemma ReadWordOf(w: word32)
    ensures ReadWord(LeBytes(w, 4)) == w
  {
    WordSizes();
    FromLeBytes(w, 4);
  }

  lemma ReadLongWordOf(w: word64)
    ensures ReadLongWord(LeBytes(w, 8)) == w
  {
    WordSizes();
    FromLeBytes(w, 8);
  }

  lemma {:induction false} WordsRoundTrip(ws: seq<word32>)
    ensures BytesToWords(WordsToBytes(ws)) == ws
  {
    if ws != [] {
      var last := |ws| - 1;
      WordsRoundTrip(ws[..last]);
      var bs := WordsToBytes(ws);
      assert bs[..|bs| - 4] == WordsToBytes(ws[..last]) && bs[|bs| - 4..] == LeBytes(ws[last], 4);
      ReadWordOf(ws[last]);
    }
  }

  lemma LeBytesOfRead(bs: seq<byte>)
    ensures |bs| == 4 ==> LeBytes(ReadWord(bs), 4) == bs
    ensures |bs| == 8 ==> LeBytes(ReadLongWord(bs), 8) == bs
  {
    LeBytesFrom(bs);
  }

  lemma {:induction false} BytesRoundTrip(bs: seq<byte>)
    requires |bs| % 4 == 0
    ensures WordsToBytes(BytesToWords(bs)) == bs
  {
    if bs != [] {
      var cut := |bs| - 4;
      BytesRoundTrip(bs[..cut]);
      LeBytesOfRead(bs[cut..]);
      var ws := BytesToWords(bs);
      assert ws[..|ws| - 1] == BytesToWords(bs[..cut]);
      assert bs == bs[..cut] + bs[cut..];
    }
  }

  /** What the reader finds at the fixed positions of a frame is what the frame holds. */
  ghost predicate FieldsRead(raw: seq<byte>, f: Frame) {
    match f
    case Partial(localMax, partialSum, expValues) =>
      && |raw| == 21 + 4 * |expValues| && raw[0] == MAGIC_PARTIAL
      && ReadLongWord(raw[1..9]) == localMax && ReadLongWord(raw[9..17]) == partialSum
      && ReadWord(raw[17..21]) == |expValues| % WORD && BytesToWords(raw[21..]) == expValues
    case Normalized(expValues) =>
      && |raw| == 5 + 4 * |expValues| && raw[0] == MAGIC_NORMALIZED
      && ReadWord(raw[1..5]) == |expValues| % WORD && BytesToWords(raw[5..]) == expValues
  }

  lemma PartialPieces(raw: seq<byte>, a: seq<byte>, b: seq<byte>, n: seq<byte>, body: seq<byte>)
    requires |a| == 8 && |b| == 8 && |n| == 4
    requires raw == [MAGIC_PARTIAL] + a + b + n + body
    ensures raw[0] == MAGIC_PARTIAL && raw[1..9] == a && raw[9..17] == b && raw[17..21] == n && raw[21..] == body
  {
  }

  lemma NormalizedPieces(raw: seq<byte>, n: seq<byte>, body: seq<byte>)
    requires |n| == 4 && raw == [MAGIC_NORMALIZED] + n + body
    ensures raw[0] == MAGIC_NORMALIZED && raw[1..5] == n && raw[5..] == body
  {
  }

  lemma EncodedFields(f: Frame)
    ensures FieldsRead(Encode(f), f)
  {
    var raw := Encode(f);
    var n, body := LeBytes(|f.expValues| % WORD, 4), WordsToBytes(f.expValues);
    ReadWordOf(|f.expValues| % WORD);
    WordsRoundTrip(f.expValues);
    if f.Partial? {
      ReadLongWordOf(f.localMax);
      ReadLongWordOf(f.partialSum);
      PartialPieces(raw, LeBytes(f.localMax, 8), LeBytes(f.partialSum, 8), n, body);
    } else {
      NormalizedPieces(raw, n, body);
    }
  }

  lemma DecodeFields(raw: seq<byte>, f: Frame)
    requires FieldsRead(raw, f)
    ensures Decode(raw) == if |f.expValues| < WORD then Decoded(f) else NotReady
  {
  }

  /**
   Decoding an encoded frame gives it back exactly when its length fits the 32-bit count field, and nothing
   otherwise.
   */
  lemma DecodeEncode(f: Frame)
    ensures Decode(Encode(f)) == if |f.expValues| < WORD then Decoded(f) else NotReady
  {
    EncodedFields(f);
    DecodeFields(Encode(f), f);
  }

  lemma DecodedPartial(raw: seq<byte>, f: Frame)
    requires Decode(raw) == Decoded(f) && f.Partial?
    ensures FieldsRead(raw, f) && |f.expValues| < WORD
  {
    assert raw != [] && raw[0] == MAGIC_PARTIAL && 21 <= |raw|;
    assert |f.expValues| == ReadWord(raw[17..21]);
  }

  lemma DecodedNormalized(raw: seq<byte>, f: Frame)
    requires Decode(raw) == Decoded(f) && f.Normalized?
    ensures FieldsRead(raw, f) && |f.expValues| < WORD
  {
    assert raw != [] && raw[0] == MAGIC_NORMALIZED && 5 <= |raw|;
    assert |f.expValues| == ReadWord(raw[1..5]);
  }

  lemma PartialFromPieces(raw: seq<byte>, a: seq<byte>, b: seq<byte>, n: seq<byte>, body: seq<byte>)
    requires 21 <= |raw| && raw[0] == MAGIC_PARTIAL
    requires a == raw[1..9] && b == raw[9..17] && n == raw[17..21] && body == raw[21..]
    ensures raw == [MAGIC_PARTIAL] + a + b + n + body
  {
  }

  lemma NormalizedFromPieces(raw: seq<byte>, n: seq<byte>, body: seq<byte>)
    requires 5 <= |raw| && raw[0] == MAGIC_NORMALIZED
    requires n == raw[1..5] && body == raw[5..]
    ensures raw == [MAGIC_NORMALIZED] + n + body
  {
  }

  lemma PartialFieldsBytes(raw: seq<byte>, f: Frame)
    requires f.Partial? && FieldsRead(raw, f)
    ensures raw[1..9] == LeBytes(f.localMax, 8) && raw[9..17] == LeBytes(f.partialSum, 8)
    ensures raw[17..21] == LeBytes(|f.expValues| % WORD, 4) && raw[21..] == WordsToBytes(f.expValues)
  {
    LeBytesOfRead(raw[1..9]);
    LeBytesOfRead(raw[9..17]);
    LeBytesOfRead(raw[17..21]);
    BytesRoundTrip(raw[21..]);
  }

  /** A byte string holding a frame's fields is that frame's encoding. */
  lemma FieldsDetermineEncoding(raw: seq<byte>, f: Frame)
    requires FieldsRead(raw, f)
    ensures raw == Encode(f)
  {
    if f.Partial? {
      PartialFieldsBytes(raw, f);
      PartialFromPieces(raw, raw[1..9], raw[9..17], raw[17..21], raw[21..]);
    } else {
      LeBytesOfRead(raw[1..5]);
      BytesRoundTrip(raw[5..]);
      NormalizedFromPieces(raw, raw[1..5], raw[5..]);
    }
  }

  /** Whatever decodes is the encoding of the frame it decodes to: there is one byte string per frame. */
  lemma EncodeDecode(raw: seq<byte>)
    requires Decode(raw).Decoded?
    ensures |Decode(raw).frame.expValues| < WORD
    ensures Encode(Decode(raw).frame) == raw
  {
    var f := Decode(raw).frame;
    if f.Partial? {
      DecodedPartial(raw, f);
    } else {
      DecodedNormalized(raw, f);
    }
    FieldsDetermineEncoding(raw, f);
  }

  /** No frame is a strict prefix of another, and neither a truncated nor an extended frame ever decodes. */
  lemma FramingIsSelfDelimiting(f: Frame, other: seq<byte>)
    requires |f.expValues| < WORD
    requires other != Encode(f)
    requires other <= Encode(f) || Encode(f) <= other
    ensures Decode(other) == NotReady
  {
    EncodedFields(f);
    PrefixDoesNotDecode(Encode(f), f, other);
  }

  /** The count field alone decides the length of whatever decodes. */
  lemma DecodedLength(raw: seq<byte>, from: nat, count: seq<byte>)
    requires raw != [] && from == (if raw[0] == MAGIC_PARTIAL then 17 else 1)
    requires raw[0] == MAGIC_PARTIAL || raw[0] == MAGIC_NORMALIZED
    requires |count| == 4 && (from + 4 <= |raw| ==> raw[from..from + 4] == count)
    requires |raw| != from + 4 + ReadWord(count) * 4
    ensures Decode(raw) == NotReady
  {
  }

  lemma PrefixDoesNotDecode(raw: seq<byte>, f: Frame, other: seq<byte>)
    requires |f.expValues| < WORD && FieldsRead(raw, f)
    requires other != raw && (other <= raw || raw <= other)
    ensures Decode(other) == NotReady
  {
    var from := if f.Partial? then 17 else 1;
    if other != [] {
      assert other[0] == raw[0];
      assert from + 4 <= |other| ==> other[from..from + 4] == raw[from..from + 4];
      DecodedLength(other, from, raw[from..from + 4]);
    }
  }

  /** Different frames have different encodings; in particular the two formats never collide. */
  lemma EncodingIsInjective(f: Frame, g: Frame)
    requires Encode(f) == Encode(g)
    ensures f == g
  {
    EncodedFields(f);
    EncodedFields(g);
  }
}
