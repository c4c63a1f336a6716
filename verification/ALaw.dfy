/** Buffers of 16-bit little-endian samples, and coding them sample by sample. */
module Pcm16 {
  import opened Octets

  type Sample = s: int | -32768 <= s < 32768

  function Little(s: Sample): Bytes {
    var x: int := s;
    [x % 256, (x / 256) % 256]
  }

  function FromLittle(lo: Byte, hi: Byte): Sample {
    var (l: int, h: int) := (lo, hi);
    var u := l + 256 * h;
    if u >= 32768 then u - 65536 else u
  }

  lemma LittleRoundTrip(s: Sample)
    ensures FromLittle(Little(s)[0], Little(s)[1]) == s
  {
  }

  function SampleAt(pcm: Bytes, i: nat): Sample
    requires i < |pcm| / 2
  {
    FromLittle(pcm[2 * i], pcm[2 * i + 1])
  }

  /** One code byte for each whole sample; a trailing odd byte is ignored. */
  function Encoded(enc: Sample -> Byte, pcm: Bytes): (code: Bytes)
    ensures |code| == |pcm| / 2
    ensures forall i :: 0 <= i < |code| ==> code[i] == enc(SampleAt(pcm, i))
  {
    seq<Byte>(|pcm| / 2, i requires 0 <= i < |pcm| / 2 => enc(SampleAt(pcm, i)))
  }

  function Decoded(dec: Byte -> Sample, code: Bytes): (pcm: Bytes)
    ensures |pcm| == 2 * |code|
  {
    if code == [] then [] else Decoded(dec, code[..|code| - 1]) + Little(dec(code[|code| - 1]))
  }

  lemma EncodedAppend(enc: Sample -> Byte, a: Bytes, b: Bytes, k: nat)
    requires |a| == 2 * k
    ensures Encoded(enc, a + b) == Encoded(enc, a) + Encoded(enc, b)
  {
  }

  lemma RoundTripStep(enc: Sample -> Byte, dec: Byte -> Sample, pcm: Bytes, init: Bytes, last: Byte)
    requires |pcm| == 2 * |init| && Encoded(enc, pcm) == init && enc(dec(last)) == last
    ensures Encoded(enc, pcm + Little(dec(last))) == init + [last]
  {
  }

  lemma {:induction false} RoundTrip(enc: Sample -> Byte, dec: Byte -> Sample, code: Bytes)
    requires forall b: Byte :: enc(dec(b)) == b
    ensures Encoded(enc, Decoded(dec, code)) == code
  {
    if code != [] {
      var (init, last) := (code[..|code| - 1], code[|code| - 1]);
      RoundTrip(enc, dec, init);
      RoundTripStep(enc, dec, Decoded(dec, init), init, last);
    }
  }

  lemma {:induction false} DecodedSample(dec: Byte -> Sample, code: Bytes, i: nat)
    requires i < |code|
    ensures SampleAt(Decoded(dec, code), i) == dec(code[i])
  {
    var n := |code| - 1;
    if i < n {
      DecodedSample(dec, code[..n], i);
      var (all, init) := (Decoded(dec, code), Decoded(dec, code[..n]));
      assert all[2 * i] == init[2 * i] && all[2 * i + 1] == init[2 * i + 1];
    } else {
      LittleRoundTrip(dec(code[n]));
    }
  }

  function Recoded(enc: Sample -> Byte, dec: Byte -> Sample, pcm: Bytes): (back: Bytes)
    ensures |back| == 2 * (|pcm| / 2)
  {
    Decoded(dec, Encoded(enc, pcm))
  }

  lemma RecodedSample(enc: Sample -> Byte, dec: Byte -> Sample, pcm: Bytes, i: nat)
    requires i < |pcm| / 2
    ensures SampleAt(Recoded(enc, dec, pcm), i) == dec(enc(SampleAt(pcm, i)))
  {
    DecodedSample(dec, Encoded(enc, pcm), i);
  }

  lemma DecodedStep(dec: Byte -> Sample, code: Bytes, i: nat)
    requires i < |code|
    ensures Decoded(dec, code[..i + 1]) == Decoded(dec, code[..i]) + Little(dec(code[i]))
  {
    assert code[..i + 1][..i] == code[..i];
  }
}

/** A-law companding (ITU-T G.711) as in pkg/webrtcgw/alaw.go, and the framing of
    outbound audio in pkg/webrtcgw/peer.go. */
module ALaw {
  import opened Collections
  import opened Octets
  import opened Pcm16

  const CLIP := 32635
  const INVERT: Byte := 0x55

  // ----- One sample

  /** The magnitude for a segment (exponent) and a mantissa. */
  function Expand(e: nat, m: nat): int {
    if e == 0 then 16 * m + 8 else (16 * m + 0x108) * Pow2(e - 1)
  }

  lemma SmallPowers()
    ensures Pow2(0) == 1 && Pow2(1) == 2 && Pow2(2) == 4 && Pow2(3) == 8 && Pow2(4) == 16 && Pow2(5) == 32 && Pow2(6) == 64
    ensures Pow2(7) == 128 && Pow2(8) == 256 && Pow2(9) == 512 && Pow2(10) == 1024
  {
  }

  /** The width of a segment's cells. */
  function Width(e: nat): nat {
    if e <= 1 then 16 else 2 * Width(e - 1)
  }

  lemma SmallWidths()
    ensures Width(0) == Width(1) == 16 && Width(2) == 32 && Width(3) == 64 && Width(4) == 128
    ensures Width(5) == 256 && Width(6) == 512 && Width(7) == 1024
  {
  }

  /** Where a segment begins. */
  function Base(e: nat): nat {
    if e == 0 then 0 else 16 * Width(e)
  }

  /** Decoding yields the middle of the cell. */
  lemma ExpandIsMiddle(e: nat, m: nat)
    requires e < 8 && m < 16
    ensures Expand(e, m) == Base(e) + m * Width(e) + Width(e) / 2
  {
    SmallPowers();
    SmallWidths();
    assert e in {0, 1, 2, 3, 4, 5, 6, 7};
  }

  lemma ExpandFits(e: nat, m: nat)
    requires e < 8 && m < 16
    ensures 0 < Expand(e, m) <= 32256
  {
    SmallPowers();
    assert e in {0, 1, 2, 3, 4, 5, 6, 7};
  }

  function DecodePlain(a: Byte): Sample {
    var (sign, e, m) := (a / 128, (a / 16) % 8, a % 16);
    ExpandFits(e, m);
    if sign == 0 then -Expand(e, m) else Expand(e, m)
  }

  function DecodeByte(b: Byte): Sample {
    DecodePlain(Xor(b, INVERT))
  }

  /** The segment of a magnitude: how far its highest set bit lies above bit 7. */
  function Segment(s: nat): nat {
    if s < 256 then 0 else 1 + Segment(s / 2)
  }

  lemma {:induction false} SegmentBrackets(s: nat)
    requires s >= 256
    ensures Segment(s) >= 1 && 128 * Pow2(Segment(s)) <= s < 256 * Pow2(Segment(s))
  {
    if s >= 512 {
      SegmentBrackets(s / 2);
    } else {
      assert Segment(s) == 1 && Pow2(1) == 2;
    }
  }

  lemma {:induction false} Pow2Grows(a: nat, b: nat)
    requires a <= b
    ensures Pow2(a) <= Pow2(b)
  {
    if a < b {
      Pow2Grows(a, b - 1);
    }
  }

  lemma {:induction false} WidthIsPower(e: nat)
    requires e >= 1
    ensures Width(e) == 8 * Pow2(e)
  {
    if e > 1 {
      WidthIsPower(e - 1);
    }
  }

  lemma SegmentOf(s: nat)
    requires s < 32768
    ensures Segment(s) < 8 && Base(Segment(s)) <= s < Base(Segment(s)) + 16 * Width(Segment(s))
  {
    if s >= 256 {
      SegmentBrackets(s);
      WidthIsPower(Segment(s));
      SmallPowers();
      if Segment(s) >= 8 {
        Pow2Grows(8, Segment(s));
      }
    }
  }

  function Magnitude(s: Sample): (n: nat)
    ensures n <= CLIP
  {
    var x: int := s;
    var n := if x < 0 then -x - 1 else x;
    if n > CLIP then CLIP else n
  }

  function Mantissa(n: nat, e: nat): (m: nat)
    ensures m < 16
  {
    if e == 0 then (n / 16) % 16 else (n / Pow2(e + 3)) % 16
  }

  function EncodePlain(s: Sample): Byte {
    var n := Magnitude(s);
    SegmentOf(n);
    var e := Segment(n);
    (if s < 0 then 0 else 128) + 16 * e + Mantissa(n, e)
  }

  function EncodeSample(s: Sample): Byte {
    Xor(EncodePlain(s), INVERT)
  }

  lemma SegmentIsUnique(n: nat, e: nat)
    requires e < 8 && n < 32768 && Base(e) <= n < Base(e) + 16 * Width(e)
    ensures Segment(n) == e
  {
    SegmentOf(n);
    SmallWidths();
    assert e in {0, 1, 2, 3, 4, 5, 6, 7};
    assert Segment(n) in {0, 1, 2, 3, 4, 5, 6, 7};
  }

  lemma Times(a: nat, b: nat, w: nat)
    requires a <= b
    ensures a * w <= b * w
  {
  }

  lemma Quotient(n: nat, w: nat, q: nat)
    requires w > 0 && q * w <= n < q * w + w
    ensures n / w == q
  {
    var r := n / w;
    assert r * w <= n < r * w + w;
    if r < q {
      Times(r + 1, q, w);
    }
    if r > q {
      Times(q + 1, r, w);
    }
  }

  /** Any magnitude in a cell gets that cell's mantissa. */
  lemma MantissaOf(n: nat, e: nat, m: nat)
    requires e < 8 && m < 16 && Base(e) + m * Width(e) <= n < Base(e) + m * Width(e) + Width(e)
    ensures Mantissa(n, e) == m
  {
    if e == 0 {
      Quotient(n, 16, m);
    } else {
      WidthIsPower(e);
      assert Pow2(e + 3) == 2 * Pow2(e + 2) == 4 * Pow2(e + 1) == 8 * Pow2(e);
      assert (16 + m) * Width(e) == 16 * Width(e) + m * Width(e);
      Quotient(n, Width(e), 16 + m);
    }
  }

  lemma CellNumber(d: nat, w: nat) returns (m: nat)
    requires w > 0 && d < 16 * w
    ensures m < 16 && m * w <= d < m * w + w
  {
    m := d / w;
    assert m * w <= d < m * w + w;
    if m >= 16 {
      Times(16, m, w);
    }
  }

  lemma InItsCell(n: nat)
    requires n < 32768
    ensures var e := Segment(n);
            e < 8 && Base(e) + Mantissa(n, e) * Width(e) <= n < Base(e) + Mantissa(n, e) * Width(e) + Width(e)
  {
    SegmentOf(n);
    var e := Segment(n);
    WidthPositive(e);
    var m := CellNumber(n - Base(e), Width(e));
    MantissaOf(n, e, m);
  }

  lemma {:induction false} WidthPositive(e: nat)
    ensures Width(e) >= 16
  {
    if e > 1 {
      WidthPositive(e - 1);
    }
  }

  lemma MiddleMagnitude(e: nat, m: nat, s: Sample)
    requires e < 8 && m < 16 && (s == Expand(e, m) || s == -Expand(e, m))
    ensures Segment(Magnitude(s)) == e && Mantissa(Magnitude(s), e) == m
  {
    ExpandIsMiddle(e, m);
    ExpandFits(e, m);
    CellWithin(e, m, Magnitude(s));
    SegmentIsUnique(Magnitude(s), e);
    MantissaOf(Magnitude(s), e, m);
  }

  lemma Repack(a: Byte)
    ensures a == (if a / 128 == 0 then 0 else 128) + 16 * ((a / 16) % 8) + a % 16
  {
    assert (a / 16) % 8 == a / 16 - 8 * (a / 128);
  }

  lemma EncodedAs(s: Sample, e: nat, m: nat)
    requires Segment(Magnitude(s)) == e && Mantissa(Magnitude(s), e) == m
    ensures EncodePlain(s) == (if s < 0 then 0 else 128) + 16 * e + m
  {
  }

  lemma PlainRoundTrip(a: Byte)
    ensures EncodePlain(DecodePlain(a)) == a
  {
    var (e, m) := ((a / 16) % 8, a % 16);
    ExpandFits(e, m);
    MiddleMagnitude(e, m, DecodePlain(a));
    EncodedAs(DecodePlain(a), e, m);
    Repack(a);
  }

  /** Encoding a decoded byte gives it back. */
  lemma DecodeEncode(b: Byte)
    ensures EncodeSample(DecodeByte(b)) == b
  {
    PlainRoundTrip(Xor(b, INVERT));
    XorTwice(b, INVERT);
  }

  lemma AroundMiddle(base: nat, w: nat, m: nat, n: nat)
    requires w >= 16 && m < 16 && (n == base + m * w + w / 2 || n == base + m * w + w / 2 - 1)
    ensures base + m * w <= n < base + m * w + w && base <= n < base + 16 * w
  {
  }

  /** The middle of a cell and the number before it lie in the cell, and the cell in the segment. */
  lemma CellWithin(e: nat, m: nat, n: nat)
    requires e < 8 && m < 16
    requires var mid := Base(e) + m * Width(e) + Width(e) / 2; n == mid || n == mid - 1
    ensures Base(e) + m * Width(e) <= n < Base(e) + m * Width(e) + Width(e)
    ensures Base(e) <= n < Base(e) + 16 * Width(e)
  {
    WidthPositive(e);
    AroundMiddle(Base(e), Width(e), m, n);
  }

  function Abs(x: int): nat { if x < 0 then -x else x }

  function Apart(a: int, b: int): nat { Abs(a - b) }

  lemma Unpack(b: nat, e: nat, m: nat)
    requires b < 2 && e < 8 && m < 16
    ensures var a := 128 * b + 16 * e + m; a / 128 == b && (a / 16) % 8 == e && a % 16 == m
  {
  }

  lemma PlainParts(s: Sample)
    ensures var (n, a) := (Magnitude(s), EncodePlain(s));
            && a / 128 == (if s < 0 then 0 else 1)
            && (a / 16) % 8 == Segment(n) && a % 16 == Mantissa(n, Segment(n))
  {
    var n := Magnitude(s);
    SegmentOf(n);
    Unpack(if s < 0 then 0 else 1, Segment(n), Mantissa(n, Segment(n)));
  }

  lemma PlainError(s: Sample)
    ensures var error := Apart(DecodePlain(EncodePlain(s)), s);
            if Abs(s) < 256 then error <= 8 else 32 * error <= Abs(s)
  {
    var n := Magnitude(s);
    PlainParts(s);
    InItsCell(n);
    var (e, m) := (Segment(n), Mantissa(n, Segment(n)));
    ExpandIsMiddle(e, m);
    ErrorWithin(n, e, m, Expand(e, m));
    if n == CLIP {
      TopCell();
    }
  }

  /** Decoding an encoded sample changes it by at most 8 if it is small, and otherwise by
      at most a 32nd of it; clipping included. */
  lemma EncodeDecode(s: Sample)
    ensures var error := Apart(DecodeByte(EncodeSample(s)), s);
            if Abs(s) < 256 then error <= 8 else 32 * error <= Abs(s)
  {
    PlainError(s);
    XorTwice(EncodePlain(s), INVERT);
  }

  /** How far the middle of its cell is from a magnitude, and from the next one. */
  lemma ErrorWithin(n: nat, e: nat, m: nat, mid: nat)
    requires e < 8 && e == Segment(n) && n <= CLIP
    requires Base(e) + m * Width(e) <= n < Base(e) + m * Width(e) + Width(e) && mid == Base(e) + m * Width(e) + Width(e) / 2
    ensures Apart(mid, n) <= Width(e) / 2 && Apart(mid, n + 1) <= Width(e) / 2
    ensures e >= 1 ==> 32 * (Width(e) / 2) <= n
  {
    SegmentOf(n);
    if e >= 1 {
      WidthIsPower(e);
    }
  }

  /** A clipped magnitude decodes to the middle of the topmost cell. */
  lemma TopCell()
    ensures Segment(CLIP) == 7 && Mantissa(CLIP, 7) == 15 && Base(7) + 15 * Width(7) + Width(7) / 2 == 32256
  {
  }

  lemma TestBit(s: nat, mask: nat)
    requires mask > 0 && s < 2 * mask
    ensures (s / mask) % 2 == 0 <==> s < mask
  {
  }

  /** A mask walks down from the highest bit. */
  method FindExponent(s: nat) returns (exponent: nat)
    requires 256 <= s <= CLIP
    ensures exponent == Segment(s)
  {
    exponent := 7;
    SmallPowers();
    var mask := 0x4000;
    TestBit(s, mask);
    while (s / mask) % 2 == 0 && exponent > 0
      invariant 0 <= exponent <= 7 && mask == 128 * Pow2(exponent) && s < 2 * mask
      invariant (s / mask) % 2 == 0 <==> s < mask
    {
      exponent := exponent - 1;
      mask := mask / 2;
      TestBit(s, mask);
    }
    WidthIsPower(exponent);
    SegmentIsUnique(s, exponent);
  }

  method AlawEncodeSample(sample: Sample) returns (alaw: Byte)
    ensures alaw == EncodeSample(sample)
  {
    var s: int := sample;
    var sign := 128;
    if s < 0 {
      s := -s - 1;
      sign := 0;
    }
    if s > CLIP {
      s := CLIP;
    }
    SegmentOf(s);
    var exponent := 0;
    if s >= 256 {
      exponent := FindExponent(s);
    }
    var mantissa := if exponent == 0 then (s / 16) % 16 else (s / Pow2(exponent + 3)) % 16;
    assert mantissa == Mantissa(s, exponent);
    var plain := sign + 16 * exponent + mantissa;
    assert plain == EncodePlain(sample);
    return Xor(plain, INVERT);
  }

  // ----- Buffers

  function AlawOf(pcm: Bytes): (alaw: Bytes) { Encoded(EncodeSample, pcm) }

  function PcmOf(alaw: Bytes): (pcm: Bytes) { Decoded(DecodeByte, alaw) }

  method AlawToPCM16(alaw: Bytes) returns (pcm: array<Byte>)
    ensures fresh(pcm) && pcm[..] == PcmOf(alaw)
  {
    pcm := new Byte[2 * |alaw|](_ => 0);
    for i := 0 to |alaw|
      invariant pcm[..2 * i] == Decoded(DecodeByte, alaw[..i])
    {
      var s: int := DecodeByte(alaw[i]);
      pcm[2 * i] := s % 256;
      pcm[2 * i + 1] := (s / 256) % 256;
      DecodedStep(DecodeByte, alaw, i);
      assert pcm[..2 * (i + 1)] == pcm[..2 * i] + [pcm[2 * i], pcm[2 * i + 1]];
    }
    assert alaw[..|alaw|] == alaw && pcm[..2 * |alaw|] == pcm[..];
  }

  method Pcm16ToALaw(pcm: Bytes) returns (alaw: array<Byte>)
    ensures fresh(alaw) && alaw[..] == AlawOf(pcm)
  {
    var n := |pcm| / 2;
    alaw := new Byte[n](_ => 0);
    ghost var want := AlawOf(pcm);
    for i := 0 to n
      invariant alaw[..i] == want[..i]
    {
      var (lo: int, hi: int) := (pcm[i * 2], pcm[i * 2 + 1]);
      var u := lo + 256 * hi;
      var s: Sample := if u >= 32768 then u - 65536 else u;
      assert s == SampleAt(pcm, i);
      alaw[i] := AlawEncodeSample(s);
      assert want[i] == EncodeSample(s);
    }
    assert alaw[..n] == alaw[..] && want[..n] == want;
  }

  /** Encoding a decoded buffer gives it back exactly. */
  lemma BufferRoundTrip(alaw: Bytes)
    ensures AlawOf(PcmOf(alaw)) == alaw
  {
    forall b: Byte
      ensures EncodeSample(DecodeByte(b)) == b
    {
      DecodeEncode(b);
    }
    RoundTrip(EncodeSample, DecodeByte, alaw);
  }

  /** Decoding an encoded buffer keeps every whole sample within the error of its cell. */
  lemma BufferError(pcm: Bytes, i: nat)
    requires i < |pcm| / 2
    ensures PcmOf(AlawOf(pcm)) == Recoded(EncodeSample, DecodeByte, pcm)
    ensures var (was, now) := (SampleAt(pcm, i), SampleAt(Recoded(EncodeSample, DecodeByte, pcm), i));
            if Abs(was) < 256 then Apart(now, was) <= 8 else 32 * Apart(now, was) <= Abs(was)
  {
    RecodedSample(EncodeSample, DecodeByte, pcm, i);
    EncodeDecode(SampleAt(pcm, i));
  }

  // ----- Outbound frames

  const BYTES_PER_FRAME := 320

  /** The frames a chunk is sent as. */
  function FramesOf(pcm: Bytes): (frames: seq<Bytes>) {
    if pcm == [] then []
    else
      var end := if |pcm| < BYTES_PER_FRAME then |pcm| else BYTES_PER_FRAME;
      [AlawOf(pcm[..end])] + FramesOf(pcm[end..])
  }

  /** Frame by frame the same bytes as the whole chunk at once. */
  lemma {:induction false} FramesCarryTheChunk(pcm: Bytes)
    ensures Join(FramesOf(pcm)) == AlawOf(pcm)
    ensures forall i :: 0 <= i < |FramesOf(pcm)| - 1 ==> |FramesOf(pcm)[i]| == BYTES_PER_FRAME / 2
  {
    if pcm != [] {
      var end := if |pcm| < BYTES_PER_FRAME then |pcm| else BYTES_PER_FRAME;
      assert pcm[..end] + pcm[end..] == pcm;
      FramesCarryTheChunk(pcm[end..]);
      if |pcm| >= BYTES_PER_FRAME {
        EncodedAppend(EncodeSample, pcm[..end], pcm[end..], BYTES_PER_FRAME / 2);
      } else {
        assert pcm[end..] == [] && AlawOf(pcm) + [] == AlawOf(pcm);
      }
    }
  }

  lemma NextFrame(pcm: Bytes, off: nat, end: nat)
    requires off < |pcm| && end == (if off + BYTES_PER_FRAME > |pcm| then |pcm| else off + BYTES_PER_FRAME)
    ensures FramesOf(pcm[off..]) == [AlawOf(pcm[off..end])] + FramesOf(pcm[end..])
  {
    assert pcm[off..][..end - off] == pcm[off..end] && pcm[off..][end - off..] == pcm[end..];
  }

  /** A frame sent, moved from the frames to come to those gone. */
  lemma MoveOver<T>(gone: seq<T>, frame: T, rest: seq<T>)
    ensures gone + ([frame] + rest) == gone + [frame] + rest
    ensures (gone + ([frame] + rest))[..|gone|] == gone
  {
  }

  method EncodeFrame(pcm: Bytes, off: nat, end: nat) returns (frame: Bytes)
    requires off <= end <= |pcm|
    ensures frame == AlawOf(pcm[off..end])
  {
    var alaw := Pcm16ToALaw(pcm[off..end]);
    return alaw[..];
  }

  /** `writable` is how many samples the track takes before a write fails. */
  method SendChunk(pcm: Bytes, writable: nat) returns (frames: seq<Bytes>, ok: bool)
    ensures ok <==> |FramesOf(pcm)| <= writable
    ensures frames == if ok then FramesOf(pcm) else FramesOf(pcm)[..writable]
  {
    frames := [];
    var off := 0;
    ghost var want := FramesOf(pcm);
    ghost var rest := want;
    assert pcm[0..] == pcm;
    while off < |pcm|
      invariant off <= |pcm| && |frames| <= writable
      invariant want == frames + rest && rest == FramesOf(pcm[off..])
    {
      var end := off + BYTES_PER_FRAME;
      if end > |pcm| {
        end := |pcm|;
      }
      var frame := EncodeFrame(pcm, off, end);
      NextFrame(pcm, off, end);
      rest := FramesOf(pcm[end..]);
      MoveOver(frames, frame, rest);
      if |frames| == writable {
        return frames, false;
      }
      frames := frames + [frame];
      off := end;
    }
    ok := true;
  }
}
