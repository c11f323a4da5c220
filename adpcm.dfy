/** IMA ADPCM decoding as done by the OpenAL sound driver (openal.cpp): one block at a time
    with adpcm_decode_block, and a whole sample buffer block by block with adpcm_decode_data.
    Only mono and stereo data are handled (the decoder keeps two channel predictors). */
module Adpcm {
  import opened Common

  /** A signed 16-bit PCM sample. */
  type Int16 = x: int | -0x8000 <= x < 0x8000

  /** The IMA ADPCM quantiser step size for each step index (step_table). */
  function StepSize(index: StepIndex): nat
  {
    match index
    case 0 => 7 case 1 => 8 case 2 => 9 case 3 => 10 case 4 => 11 case 5 => 12 case 6 => 13 case 7 => 14
    case 8 => 16 case 9 => 17 case 10 => 19 case 11 => 21 case 12 => 23 case 13 => 25 case 14 => 28 case 15 => 31
    case 16 => 34 case 17 => 37 case 18 => 41 case 19 => 45 case 20 => 50 case 21 => 55 case 22 => 60 case 23 => 66
    case 24 => 73 case 25 => 80 case 26 => 88 case 27 => 97 case 28 => 107 case 29 => 118 case 30 => 130 case 31 => 143
    case 32 => 157 case 33 => 173 case 34 => 190 case 35 => 209 case 36 => 230 case 37 => 253 case 38 => 279 case 39 => 307
    case 40 => 337 case 41 => 371 case 42 => 408 case 43 => 449 case 44 => 494 case 45 => 544 case 46 => 598 case 47 => 658
    case 48 => 724 case 49 => 796 case 50 => 876 case 51 => 963 case 52 => 1060 case 53 => 1166 case 54 => 1282 case 55 => 1411
    case 56 => 1552 case 57 => 1707 case 58 => 1878 case 59 => 2066 case 60 => 2272 case 61 => 2499 case 62 => 2749 case 63 => 3024
    case 64 => 3327 case 65 => 3660 case 66 => 4026 case 67 => 4428 case 68 => 4871 case 69 => 5358 case 70 => 5894 case 71 => 6484
    case 72 => 7132 case 73 => 7845 case 74 => 8630 case 75 => 9493 case 76 => 10442 case 77 => 11487 case 78 => 12635 case 79 => 13899
    case 80 => 15289 case 81 => 16818 case 82 => 18500 case 83 => 20350 case 84 => 22385 case 85 => 24623 case 86 => 27086 case 87 => 29794
    case _ => 32767
  }

  /** Step index adjustment for the magnitude bits m of a 4-bit code (index_table). */
  function IndexAdjust(m: int): int
  {
    match m
    case 4 => 2 case 5 => 4 case 6 => 6 case 7 => 8
    case _ => -1
  }

  /** The CLIP macro. */
  function Clip(v: int, lo: int, hi: int): int
  {
    if v > hi then hi else if v < lo then lo else v
  }

  /** Per-channel decoder state: the predicted sample (`pcmdata[ch]`) and step index (`index[ch]`). */
  datatype Predictor = Predictor(pcm: Int16, index: StepIndex)

  /** A 4-bit ADPCM code. */
  type Nibble = x: int | 0 <= x < 16

  /** A position in the step table. */
  type StepIndex = i: int | 0 <= i <= 88

  /** Magnitude of the difference for the three magnitude bits `m` of a code:
      step >> 3, plus step >> 2 for bit 0, step >> 1 for bit 1 and step for bit 2. */
  function Magnitude(step: int, m: int): int
    requires step >= 0 && 0 <= m < 8
  {
    step / 8 + (if m % 2 == 1 then step / 4 else 0)
             + (if (m / 2) % 2 == 1 then step / 2 else 0)
             + (if m / 4 == 1 then step else 0)
  }

  /** The shift-and-add magnitude rounds the exact IMA reconstruction (2m + 1) * step / 8
      down, by less than three. */
  lemma MagnitudeApproximatesStep(step: int, m: int)
    requires step >= 0 && 0 <= m < 8
    ensures 8 * Magnitude(step, m) <= (2 * m + 1) * step < 8 * Magnitude(step, m) + 24
  {
    assert (2 * m + 1) * step == step + (if m % 2 == 1 then 2 * step else 0)
                                      + (if (m / 2) % 2 == 1 then 4 * step else 0)
                                      + (if m / 4 == 1 then 8 * step else 0);
  }

  /** Signed difference for a 4-bit code: bit 3 negates the magnitude. */
  function Delta(step: int, code: int): (d: int)
    requires step >= 0 && 0 <= code < 16
  {
    if code >= 8 then -Magnitude(step, code % 8) else Magnitude(step, code % 8)
  }

  /** One decoded 4-bit code: add the difference, adjust the step index, clip both. */
  function DecodeNibble(p: Predictor, code: Nibble): Predictor
  {
    var step := StepSize(p.index);
    Predictor(Clip(p.pcm + Delta(step, code), -0x8000, 0x7FFF),
              Clip(p.index + IndexAdjust(code % 8), 0, 88))
  }

  /** Decoding a code moves the sample in the direction of its sign bit (unless clipped),
      and moves the step index down by one for magnitudes 0..3 and up by 2, 4, 6, 8 otherwise. */
  lemma DecodeNibbleDirection(p: Predictor, code: Nibble)
    ensures code < 8 ==> DecodeNibble(p, code).pcm >= p.pcm
    ensures code >= 8 ==> DecodeNibble(p, code).pcm <= p.pcm
    ensures code % 8 < 4 ==> DecodeNibble(p, code).index == if p.index == 0 then 0 else p.index - 1
    ensures code % 8 >= 4 ==> DecodeNibble(p, code).index == Clip(p.index + 2 * (code % 8 - 3), 0, 88)
  {
  }

  // ---------------------------------------------------------------------------
  // Block layout
  // ---------------------------------------------------------------------------

  predicate Channels(c: int) { c == 1 || c == 2 }

  /** c * x for c of 1 or 2, written without a product of two variables. */
  function Times(c: int, x: int): int
    requires Channels(c)
  {
    if c == 1 then x else x + x
  }

  /** Number of 4-byte-per-channel chunks after the headers of a block of `len` bytes. */
  function Chunks(len: int, c: int): nat
    requires Channels(c) && len >= 4 * c
  {
    if c == 1 then (len - 4) / 4 else (len - 8) / 8
  }

  /** Frame and channel of interleaved output sample q. */
  function FrameOf(q: nat, c: int): nat
    requires Channels(c)
  {
    if c == 1 then q else q / 2
  }

  function ChannelOf(q: nat, c: int): nat
    requires Channels(c)
  {
    if c == 1 then 0 else q % 2
  }

  /** The step index byte is read as a signed 8-bit value. */
  function HeaderIndex(inbuf: seq<Byte>, ch: nat): int
    requires 4 * ch + 4 <= |inbuf|
  {
    var b := inbuf[4 * ch + 2];
    if b >= 0x80 then b as int - 0x100 else b
  }

  /** The first sample of channel ch: the 16-bit little-endian word of its header. */
  function HeaderSample(inbuf: seq<Byte>, ch: nat): Int16
    requires 4 * ch + 4 <= |inbuf|
  {
    ToS16(inbuf[4 * ch] as int + 0x100 * (inbuf[4 * ch + 1] as int))
  }

  /** A channel header is accepted when its step index is in 0..88 and its reserved byte is 0. */
  predicate HeaderValid(inbuf: seq<Byte>, ch: nat)
    requires 4 * ch + 4 <= |inbuf|
  {
    inbuf[4 * ch + 2] <= 88 && inbuf[4 * ch + 3] == 0
  }

  /** The byte test is the source's test on the signed index: index < 0 || index > 88 || inbuf[3]. */
  lemma HeaderValidIsSignedTest(inbuf: seq<Byte>, ch: nat)
    requires 4 * ch + 4 <= |inbuf|
    ensures HeaderValid(inbuf, ch) <==> !(HeaderIndex(inbuf, ch) < 0 || HeaderIndex(inbuf, ch) > 88 || inbuf[4 * ch + 3] != 0)
  {
  }

  /** The first channel, from `ch` on, whose header is rejected; c if there is none. */
  function FirstBadHeader(inbuf: seq<Byte>, c: int, ch: nat): (b: nat)
    requires Channels(c) && |inbuf| >= 4 * c && ch <= c
    ensures ch <= b <= c
    ensures forall k :: ch <= k < b ==> HeaderValid(inbuf, k)
    ensures b < c ==> !HeaderValid(inbuf, b)
    decreases c - ch
  {
    if ch == c then c else if !HeaderValid(inbuf, ch) then ch else FirstBadHeader(inbuf, c, ch + 1)
  }

  predicate HeadersAccepted(inbuf: seq<Byte>, c: int)
    requires Channels(c) && |inbuf| >= 4 * c
  {
    HeaderValid(inbuf, 0) && (c == 2 ==> HeaderValid(inbuf, 1))
  }

  /** Byte offset of byte i (0..3) of channel ch in chunk j. */
  function CodeByteOffset(c: int, j: nat, ch: nat, i: nat): nat
    requires Channels(c)
  {
    Times(c, 4 + 4 * j) + 4 * ch + i
  }

  /** The n-th 4-bit code of channel ch: low nibble first, then high nibble, byte after byte,
      four bytes of the channel per chunk. */
  function CodeAt(inbuf: seq<Byte>, c: int, ch: nat, n: nat): Nibble
    requires Channels(c) && |inbuf| >= 4 * c && ch < c && n < 8 * Chunks(|inbuf|, c)
  {
    var j := n / 8;
    var i := (n % 8) / 2;
    var b := inbuf[CodeByteOffset(c, j, ch, i)];
    if n % 2 == 0 then b % 16 else b / 16
  }

  /** The predictor of a header that HeaderValid accepts. */
  function HeaderPredictor(inbuf: seq<Byte>, ch: nat): (p: Predictor)
    requires 4 * ch + 4 <= |inbuf| && HeaderValid(inbuf, ch)
    ensures p.pcm == HeaderSample(inbuf, ch) && p.index == HeaderIndex(inbuf, ch)
  {
    Predictor(HeaderSample(inbuf, ch), HeaderIndex(inbuf, ch))
  }

  /** The predictors met while decoding `codes` from predictor p, p included. */
  function Run(p: Predictor, codes: seq<Nibble>): (ps: seq<Predictor>)
    ensures |ps| == |codes| + 1 && ps[0] == p
    decreases |codes|
  {
    if |codes| == 0 then [p] else [p] + Run(DecodeNibble(p, codes[0]), codes[1..])
  }

  /** Each predictor of a run is DecodeNibble of the one before it. */
  lemma {:induction false} RunStep(p: Predictor, codes: seq<Nibble>, n: nat)
    requires n < |codes|
    ensures Run(p, codes)[n + 1] == DecodeNibble(Run(p, codes)[n], codes[n])
    decreases n
  {
    var rest := Run(DecodeNibble(p, codes[0]), codes[1..]);
    assert Run(p, codes) == [p] + rest;
    if n > 0 {
      RunStep(DecodeNibble(p, codes[0]), codes[1..], n - 1);
      assert codes[1..][n - 1] == codes[n];
    }
  }

  /** The first n codes of channel ch, in decoding order. */
  function Codes(inbuf: seq<Byte>, c: int, ch: nat, n: nat): (codes: seq<Nibble>)
    requires Channels(c) && |inbuf| >= 4 * c && ch < c && n <= 8 * Chunks(|inbuf|, c)
    ensures |codes| == n
    decreases n
  {
    if n == 0 then [] else Codes(inbuf, c, ch, n - 1) + [CodeAt(inbuf, c, ch, n - 1)]
  }

  lemma {:induction false} CodesIndex(inbuf: seq<Byte>, c: int, ch: nat, n: nat, k: nat)
    requires Channels(c) && |inbuf| >= 4 * c && ch < c && k < n <= 8 * Chunks(|inbuf|, c)
    ensures Codes(inbuf, c, ch, n)[k] == CodeAt(inbuf, c, ch, k)
    decreases n
  {
    if k < n - 1 {
      CodesIndex(inbuf, c, ch, n - 1, k);
    }
  }

  /** The 8 * chunks codes of channel ch. */
  function ChannelCodes(inbuf: seq<Byte>, c: int, ch: nat): (codes: seq<Nibble>)
    requires Channels(c) && |inbuf| >= 4 * c && ch < c
    ensures |codes| == 8 * Chunks(|inbuf|, c)
  {
    Codes(inbuf, c, ch, 8 * Chunks(|inbuf|, c))
  }

  /** Every predictor of channel ch over the whole block. */
  function Decoded(inbuf: seq<Byte>, c: int, ch: nat): (ps: seq<Predictor>)
    requires Channels(c) && |inbuf| >= 4 * c && ch < c && HeaderValid(inbuf, ch)
    ensures |ps| == 1 + 8 * Chunks(|inbuf|, c)
  {
    Run(HeaderPredictor(inbuf, ch), ChannelCodes(inbuf, c, ch))
  }

  /** The predictor sequence starts at the header. */
  lemma DecodedStart(inbuf: seq<Byte>, c: int, ch: nat)
    requires Channels(c) && |inbuf| >= 4 * c && ch < c && HeaderValid(inbuf, ch)
    ensures Decoded(inbuf, c, ch)[0] == HeaderPredictor(inbuf, ch)
  {
  }

  /** The predictor sequence starts at the header and takes one DecodeNibble step per code. */
  lemma DecodedStep(inbuf: seq<Byte>, c: int, ch: nat, n: nat)
    requires Channels(c) && |inbuf| >= 4 * c && ch < c && HeaderValid(inbuf, ch) && n < 8 * Chunks(|inbuf|, c)
    ensures Decoded(inbuf, c, ch)[0] == HeaderPredictor(inbuf, ch)
    ensures Decoded(inbuf, c, ch)[n + 1] == DecodeNibble(Decoded(inbuf, c, ch)[n], CodeAt(inbuf, c, ch, n))
  {
    RunStep(HeaderPredictor(inbuf, ch), ChannelCodes(inbuf, c, ch), n);
    CodesIndex(inbuf, c, ch, 8 * Chunks(|inbuf|, c), n);
  }

  /** Sample of channel ch at frame k: the header sample, then one per decoded code. */
  function Sample(inbuf: seq<Byte>, c: int, ch: nat, k: nat): Int16
    requires Channels(c) && |inbuf| >= 4 * c && ch < c && HeaderValid(inbuf, ch) && k <= 8 * Chunks(|inbuf|, c)
  {
    Decoded(inbuf, c, ch)[k].pcm
  }

  /** adpcm_decode_block's result: 0 for a short block or a rejected header, else the
      number of frames, 1 + 8 * chunks. */
  function BlockSamples(inbuf: seq<Byte>, c: int): (n: nat)
    requires Channels(c)
    ensures n == 0 || n % 8 == 1
  {
    if |inbuf| < 4 * c || !HeadersAccepted(inbuf, c) then 0 else 1 + 8 * Chunks(|inbuf|, c)
  }

  /** The output slots the block decoder fills: c interleaved samples per frame. */
  function OutputSlots(inbuf: seq<Byte>, c: int): nat
    requires Channels(c)
  {
    if |inbuf| < 4 * c then 0 else Times(c, 1 + 8 * Chunks(|inbuf|, c))
  }

  /** What the block decoder writes to output slot q (relative to the output pointer): the
      header samples of every channel up to and including the first rejected one (each is
      written before its header is checked), or, for an accepted block, the sample of q's
      channel at q's frame. */
  function Written(inbuf: seq<Byte>, c: int, q: nat): Option<Int16>
    requires Channels(c)
  {
    if |inbuf| < 4 * c then None
    else
      var bad := FirstBadHeader(inbuf, c, 0);
      if q < c then (if q <= bad then Some(HeaderSample(inbuf, q)) else None)
      else if bad < c || q >= OutputSlots(inbuf, c) then None
      else Some(Sample(inbuf, c, ChannelOf(q, c), FrameOf(q, c)))
  }

  /** Slot q of the output after the block decoder, given what it held before. */
  function After(inbuf: seq<Byte>, c: int, at: nat, q: nat, before: Int16): Int16
    requires Channels(c)
  {
    if q < at then before
    else match Written(inbuf, c, q - at)
      case Some(v) => v
      case None => before
  }

  /** An accepted block fills exactly its slots, with the c header samples first, and the
      result counts its frames; a rejected or short block reports 0 frames. */
  lemma BlockResult(inbuf: seq<Byte>, c: int, q: nat)
    requires Channels(c)
    ensures BlockSamples(inbuf, c) == 0 <==> |inbuf| < 4 * c || exists ch :: 0 <= ch < c && !HeaderValid(inbuf, ch)
    ensures BlockSamples(inbuf, c) > 0 ==> OutputSlots(inbuf, c) == Times(c, BlockSamples(inbuf, c))
    ensures BlockSamples(inbuf, c) > 0 ==> (Written(inbuf, c, q).Some? <==> q < OutputSlots(inbuf, c))
    ensures BlockSamples(inbuf, c) > 0 && q < c ==> Written(inbuf, c, q) == Some(HeaderSample(inbuf, q))
    ensures |inbuf| < 4 * c ==> Written(inbuf, c, q).None?
  {
    if |inbuf| >= 4 * c && FirstBadHeader(inbuf, c, 0) == c {
      if c == 2 && q >= 2 && q < OutputSlots(inbuf, c) {
        assert ChannelOf(q, c) < c;
      }
    }
  }

  /** The frame count on success is 1 + 8 * ((size - 4c) / 4c). */
  lemma BlockSamplesFormula(inbuf: seq<Byte>, c: int)
    requires Channels(c) && |inbuf| >= 4 * c && FirstBadHeader(inbuf, c, 0) == c
    ensures BlockSamples(inbuf, c) == 1 + 8 * ((|inbuf| - 4 * c) / (4 * c))
  {
  }

  // ---------------------------------------------------------------------------
  // adpcm_decode_block
  // ---------------------------------------------------------------------------

  lemma SlotOfFrame(c: int, k: nat, ch: nat)
    requires Channels(c) && ch < c
    ensures FrameOf(Times(c, k) + ch, c) == k && ChannelOf(Times(c, k) + ch, c) == ch
  {
  }

  lemma SlotBounds(c: int, q: nat, frames: nat)
    requires Channels(c)
    ensures q < Times(c, frames) <==> FrameOf(q, c) < frames
    ensures ChannelOf(q, c) < c && q == Times(c, FrameOf(q, c)) + ChannelOf(q, c)
  {
  }

  /** Codes 8j + 2i and 8j + 2i + 1 of a channel are the two nibbles of its byte i in chunk j. */
  lemma CodeOfByte(inbuf: seq<Byte>, c: int, ch: nat, j: nat, i: nat)
    requires Channels(c) && |inbuf| >= 4 * c && ch < c && j < Chunks(|inbuf|, c) && i < 4
    ensures CodeByteOffset(c, j, ch, i) < |inbuf|
    ensures CodeAt(inbuf, c, ch, 8 * j + 2 * i) == inbuf[CodeByteOffset(c, j, ch, i)] % 16
    ensures CodeAt(inbuf, c, ch, 8 * j + 2 * i + 1) == inbuf[CodeByteOffset(c, j, ch, i)] / 16
  {
    var n := 8 * j + 2 * i;
    assert n / 8 == j && (n % 8) / 2 == i && n % 2 == 0;
    assert (n + 1) / 8 == j && ((n + 1) % 8) / 2 == i && (n + 1) % 2 == 1;
  }

  /** `cur` is `prev` with the samples of the predictors ps[lo .. hi - 1] of channel ch stored
      in their slots of an interleaved output that starts at slot `at`. */
  ghost predicate Filled(cur: seq<Int16>, prev: seq<Int16>, at: nat, c: int, ch: nat, ps: seq<Predictor>, lo: nat, hi: nat)
    requires Channels(c) && hi <= |ps|
  {
    |cur| == |prev| &&
    forall s :: 0 <= s < |cur| ==>
      cur[s] == if at <= s && ChannelOf(s - at, c) == ch && lo <= FrameOf(s - at, c) < hi
                then ps[FrameOf(s - at, c)].pcm else prev[s]
  }

  lemma FilledNothing(a: seq<Int16>, at: nat, c: int, ch: nat, ps: seq<Predictor>, lo: nat)
    requires Channels(c) && lo <= |ps|
    ensures Filled(a, a, at, c, ch, ps, lo, lo)
  {
  }

  /** Filling frames lo .. mid - 1 and then mid .. hi - 1 fills lo .. hi - 1. */
  lemma FilledJoin(a: seq<Int16>, b: seq<Int16>, d: seq<Int16>, at: nat, c: int, ch: nat, ps: seq<Predictor>, lo: nat, mid: nat, hi: nat)
    requires Channels(c) && lo <= mid <= hi <= |ps|
    requires Filled(b, a, at, c, ch, ps, lo, mid) && Filled(d, b, at, c, ch, ps, mid, hi)
    ensures Filled(d, a, at, c, ch, ps, lo, hi)
  {
  }

  /** Decodes one code of channel ch from the predictor of frame n and stores the sample of
      frame n + 1 in its slot. */
  method DecodeCode(outbuf: array<Int16>, at: nat, c: int, ch: nat, ghost ps: seq<Predictor>, n: nat, p: Predictor, code: Nibble)
    returns (q: Predictor)
    requires Channels(c) && ch < c && n + 1 < |ps|
    requires p == ps[n] && ps[n + 1] == DecodeNibble(p, code)
    requires at + Times(c, n + 2) <= outbuf.Length
    modifies outbuf
    ensures q == ps[n + 1]
    ensures Filled(outbuf[..], old(outbuf[..]), at, c, ch, ps, n + 1, n + 2)
  {
    q := DecodeNibble(p, code);
    SlotOfFrame(c, n + 1, ch);
    outbuf[at + Times(c, n + 1) + ch] := q.pcm;
    forall d: nat
      ensures (ChannelOf(d, c) == ch && FrameOf(d, c) == n + 1) == (d == Times(c, n + 1) + ch)
    {
      SlotBounds(c, d, 0);
    }
  }

  /** Decodes both nibbles of one code byte, low nibble first, giving the samples of frames
      n + 1 and n + 2. */
  method DecodeByte(outbuf: array<Int16>, at: nat, c: int, ch: nat, ghost ps: seq<Predictor>, n: nat, p: Predictor, b: Byte)
    returns (q: Predictor)
    requires Channels(c) && ch < c && n + 2 < |ps|
    requires p == ps[n] && ps[n + 1] == DecodeNibble(p, b % 16) && ps[n + 2] == DecodeNibble(ps[n + 1], b / 16)
    requires at + Times(c, n + 3) <= outbuf.Length
    modifies outbuf
    ensures q == ps[n + 2]
    ensures Filled(outbuf[..], old(outbuf[..]), at, c, ch, ps, n + 1, n + 3)
  {
    ghost var o := outbuf[..];
    q := DecodeCode(outbuf, at, c, ch, ps, n, p, b % 16);
    ghost var m := outbuf[..];
    q := DecodeCode(outbuf, at, c, ch, ps, n + 1, q, b / 16);
    FilledJoin(o, m, outbuf[..], at, c, ch, ps, n + 1, n + 2, n + 3);
  }

  /** The two codes of byte i of channel ch in chunk j step the channel's predictors. */
  lemma ByteSteps(inbuf: seq<Byte>, c: int, ch: nat, j: nat, i: nat)
    requires Channels(c) && |inbuf| >= 4 * c && ch < c && HeaderValid(inbuf, ch) && j < Chunks(|inbuf|, c) && i < 4
    ensures CodeByteOffset(c, j, ch, i) < |inbuf|
    ensures Decoded(inbuf, c, ch)[8 * j + 2 * i + 1]
            == DecodeNibble(Decoded(inbuf, c, ch)[8 * j + 2 * i], inbuf[CodeByteOffset(c, j, ch, i)] % 16)
    ensures Decoded(inbuf, c, ch)[8 * j + 2 * i + 2]
            == DecodeNibble(Decoded(inbuf, c, ch)[8 * j + 2 * i + 1], inbuf[CodeByteOffset(c, j, ch, i)] / 16)
  {
    CodeOfByte(inbuf, c, ch, j, i);
    DecodedStep(inbuf, c, ch, 8 * j + 2 * i);
    DecodedStep(inbuf, c, ch, 8 * j + 2 * i + 1);
  }

  /** The four code bytes of channel ch in chunk j: eight samples of that channel, written
      c slots apart, for frames 1 + 8j .. 8 + 8j. */
  method DecodeChannelChunk(outbuf: array<Int16>, at: nat, inbuf: seq<Byte>, c: int, j: nat, ch: nat, p: Predictor)
    returns (q: Predictor)
    requires Channels(c) && |inbuf| >= 4 * c && ch < c && HeaderValid(inbuf, ch) && j < Chunks(|inbuf|, c)
    requires p == Decoded(inbuf, c, ch)[8 * j]
    requires at + Times(c, 9 + 8 * j) <= outbuf.Length
    modifies outbuf
    ensures q == Decoded(inbuf, c, ch)[8 * j + 8]
    ensures Filled(outbuf[..], old(outbuf[..]), at, c, ch, Decoded(inbuf, c, ch), 1 + 8 * j, 9 + 8 * j)
  {
    ghost var ps := Decoded(inbuf, c, ch);
    q := p;
    var i := 0;
    FilledNothing(outbuf[..], at, c, ch, ps, 1 + 8 * j);
    while i < 4
      invariant 0 <= i <= 4
      invariant q == ps[8 * j + 2 * i]
      invariant Filled(outbuf[..], old(outbuf[..]), at, c, ch, ps, 1 + 8 * j, 1 + 8 * j + 2 * i)
    {
      ByteSteps(inbuf, c, ch, j, i);
      var b := inbuf[CodeByteOffset(c, j, ch, i)];
      ghost var m := outbuf[..];
      q := DecodeByte(outbuf, at, c, ch, ps, 8 * j + 2 * i, q, b);
      FilledJoin(old(outbuf[..]), m, outbuf[..], at, c, ch, ps, 1 + 8 * j, 1 + 8 * j + 2 * i, 3 + 8 * j + 2 * i);
      i := i + 1;
    }
  }

  /** The slots of a block with a rejected header: the header samples up to the rejected one. */
  lemma AfterRejected(inbuf: seq<Byte>, c: int, at: nat, s: nat, before: Int16)
    requires Channels(c) && |inbuf| >= 4 * c && FirstBadHeader(inbuf, c, 0) < c
    ensures After(inbuf, c, at, s, before)
            == if at <= s < at + c && s - at <= FirstBadHeader(inbuf, c, 0) then HeaderSample(inbuf, s - at) else before
  {
  }

  /** The slots of an accepted block: every channel's sample at every frame. */
  lemma AfterAccepted(inbuf: seq<Byte>, c: int, at: nat, s: nat, before: Int16)
    requires Channels(c) && |inbuf| >= 4 * c && FirstBadHeader(inbuf, c, 0) == c
    ensures at <= s ==> ChannelOf(s - at, c) < c
    ensures After(inbuf, c, at, s, before)
            == if at <= s && FrameOf(s - at, c) < 1 + 8 * Chunks(|inbuf|, c)
               then Sample(inbuf, c, ChannelOf(s - at, c), FrameOf(s - at, c)) else before
  {
    if at <= s {
      var d := s - at;
      SlotBounds(c, d, 1 + 8 * Chunks(|inbuf|, c));
      if d < c {
        assert FrameOf(d, c) == 0 && ChannelOf(d, c) == d;
        DecodedStart(inbuf, c, d);
      }
    }
  }

  /** In an accepted block, the header slots are the samples of frame 0. */
  lemma HeaderSlots(inbuf: seq<Byte>, c: int, at: nat, s: nat, before: Int16)
    requires Channels(c) && |inbuf| >= 4 * c && FirstBadHeader(inbuf, c, 0) == c
    ensures at <= s ==> ChannelOf(s - at, c) < c
    ensures (if at <= s < at + c && s - at <= FirstBadHeader(inbuf, c, 0) then HeaderSample(inbuf, s - at) else before)
            == if at <= s && FrameOf(s - at, c) < 1
               then Sample(inbuf, c, ChannelOf(s - at, c), FrameOf(s - at, c)) else before
  {
    if at <= s {
      var d := s - at;
      SlotBounds(c, d, 1);
      if d < c {
        DecodedStart(inbuf, c, d);
      }
    }
  }

  /** The channel headers: each header's sample is stored before the header is checked,
      and decoding stops at the first rejected header. */
  method DecodeHeaders(outbuf: array<Int16>, at: nat, inbuf: seq<Byte>, c: int) returns (ok: bool, st: seq<Predictor>)
    requires Channels(c) && |inbuf| >= 4 * c && at + c <= outbuf.Length
    modifies outbuf
    ensures ok <==> FirstBadHeader(inbuf, c, 0) == c
    ensures ok ==> |st| == c && forall k :: 0 <= k < c ==> HeaderValid(inbuf, k) && st[k] == HeaderPredictor(inbuf, k)
    ensures forall s :: 0 <= s < outbuf.Length ==>
              outbuf[s] == if at <= s < at + c && s - at <= FirstBadHeader(inbuf, c, 0)
                           then HeaderSample(inbuf, s - at) else old(outbuf[s])
  {
    st := [];
    var ch := 0;
    while ch < c
      invariant 0 <= ch <= c && |st| == ch
      invariant forall k :: 0 <= k < ch ==> HeaderValid(inbuf, k) && st[k] == HeaderPredictor(inbuf, k)
      invariant FirstBadHeader(inbuf, c, 0) == FirstBadHeader(inbuf, c, ch)
      invariant forall s :: 0 <= s < outbuf.Length ==>
                  outbuf[s] == if at <= s < at + ch then HeaderSample(inbuf, s - at) else old(outbuf[s])
    {
      outbuf[at + ch] := HeaderSample(inbuf, ch);
      if !HeaderValid(inbuf, ch) {
        return false, st;
      }
      st := st + [HeaderPredictor(inbuf, ch)];
      ch := ch + 1;
    }
    ok := true;
  }

  /** One chunk: 4 code bytes for each channel in turn, filling frames 1 + 8j .. 8 + 8j. */
  method DecodeChunk(outbuf: array<Int16>, at: nat, inbuf: seq<Byte>, c: int, j: nat, st: seq<Predictor>)
    returns (st': seq<Predictor>)
    requires Channels(c) && |inbuf| >= 4 * c && j < Chunks(|inbuf|, c) && |st| == c
    requires forall k :: 0 <= k < c ==> HeaderValid(inbuf, k) && st[k] == Decoded(inbuf, c, k)[8 * j]
    requires at + Times(c, 9 + 8 * j) <= outbuf.Length
    modifies outbuf
    ensures |st'| == c && forall k :: 0 <= k < c ==> st'[k] == Decoded(inbuf, c, k)[8 * j + 8]
    ensures forall s :: 0 <= s < outbuf.Length ==>
              outbuf[s] == if at <= s && 1 + 8 * j <= FrameOf(s - at, c) < 9 + 8 * j
                           then Sample(inbuf, c, ChannelOf(s - at, c), FrameOf(s - at, c)) else old(outbuf[s])
  {
    st' := st;
    var ch := 0;
    while ch < c
      invariant 0 <= ch <= c && |st'| == c
      invariant forall k :: 0 <= k < ch ==> st'[k] == Decoded(inbuf, c, k)[8 * j + 8]
      invariant forall k :: ch <= k < c ==> st'[k] == Decoded(inbuf, c, k)[8 * j]
      invariant forall s :: 0 <= s < outbuf.Length ==>
                  outbuf[s] == if at <= s && ChannelOf(s - at, c) < ch && 1 + 8 * j <= FrameOf(s - at, c) < 9 + 8 * j
                               then Sample(inbuf, c, ChannelOf(s - at, c), FrameOf(s - at, c)) else old(outbuf[s])
    {
      var q := DecodeChannelChunk(outbuf, at, inbuf, c, j, ch, st'[ch]);
      st' := st'[ch := q];
      ch := ch + 1;
    }
    forall d: nat
      ensures ChannelOf(d, c) < c
    {
      SlotBounds(c, d, 0);
    }
  }

  /** adpcm_decode_block: decodes one block into the interleaved output starting at slot `at`
      and returns the number of frames, or 0 for a short block or a rejected header. The
      output must have room for every slot the block fills. */
  method DecodeBlock(outbuf: array<Int16>, at: nat, inbuf: seq<Byte>, c: int) returns (samples: int)
    requires Channels(c)
    requires at + OutputSlots(inbuf, c) <= outbuf.Length
    modifies outbuf
    ensures samples == BlockSamples(inbuf, c)
    ensures forall s :: 0 <= s < outbuf.Length ==> outbuf[s] == After(inbuf, c, at, s, old(outbuf[s]))
  {
    if |inbuf| < 4 * c {
      return 0;
    }
    var ok, st := DecodeHeaders(outbuf, at, inbuf, c);
    if !ok {
      forall s | 0 <= s < outbuf.Length
        ensures outbuf[s] == After(inbuf, c, at, s, old(outbuf[s]))
      {
        AfterRejected(inbuf, c, at, s, old(outbuf[s]));
      }
      return 0;
    }
    forall k | 0 <= k < c
      ensures st[k] == Decoded(inbuf, c, k)[0]
    {
      DecodedStart(inbuf, c, k);
    }
    forall s | 0 <= s < outbuf.Length
      ensures outbuf[s] == if at <= s && FrameOf(s - at, c) < 1
                           then Sample(inbuf, c, ChannelOf(s - at, c), FrameOf(s - at, c)) else old(outbuf[s])
    {
      HeaderSlots(inbuf, c, at, s, old(outbuf[s]));
    }
    var chunks := Chunks(|inbuf|, c);
    var j := 0;
    while j < chunks
      invariant 0 <= j <= chunks && |st| == c
      invariant forall k :: 0 <= k < c ==> HeaderValid(inbuf, k) && st[k] == Decoded(inbuf, c, k)[8 * j]
      invariant forall s :: 0 <= s < outbuf.Length ==>
                  outbuf[s] == if at <= s && FrameOf(s - at, c) < 1 + 8 * j
                               then Sample(inbuf, c, ChannelOf(s - at, c), FrameOf(s - at, c)) else old(outbuf[s])
    {
      st := DecodeChunk(outbuf, at, inbuf, c, j, st);
      j := j + 1;
    }
    samples := 1 + 8 * chunks;
    forall s | 0 <= s < outbuf.Length
      ensures outbuf[s] == After(inbuf, c, at, s, old(outbuf[s]))
    {
      AfterAccepted(inbuf, c, at, s, old(outbuf[s]));
    }
  }

  // ---------------------------------------------------------------------------
  // adpcm_decode_data
  // ---------------------------------------------------------------------------

  /** num_channels ^ 3: 2 for mono, 1 for stereo. */
  function ChannelsXor3(c: int): (x: int)
    requires Channels(c)
    ensures x == if c == 1 then 2 else 1
  {
    ((c as bv8) ^ 3) as int
  }

  /** v * (c ^ 3) and v / (c ^ 3), written as a case split on the channel count. */
  function MulXor3(c: int, v: int): int
    requires Channels(c)
  {
    if c == 1 then v + v else v
  }

  function DivXor3(c: int, v: nat): nat
    requires Channels(c)
  {
    if c == 1 then v / 2 else v
  }

  lemma Xor3Arithmetic(c: int, v: nat)
    requires Channels(c)
    ensures MulXor3(c, v) == v * ChannelsXor3(c) && DivXor3(c, v) == v / ChannelsXor3(c)
  {
  }

  /** samples_per_block: frames in a block of `bs` bytes, (bs - 4c) * (c ^ 3) + 1. */
  function SamplesPerBlock(bs: int, c: int): int
    requires Channels(c)
  {
    MulXor3(c, bs - 4 * c) + 1
  }

  /** ((n + 6) & ~7) + 1: n + 6 rounded down to a multiple of 8, plus one. */
  function LastBlockFrames(n: nat): nat
  {
    (n + 6) / 8 * 8 + 1
  }

  /** The block size recomputed for the last block: (frames - 1) / (c ^ 3) + 4c. */
  function LastBlockSize(c: int, frames: nat): int
    requires Channels(c) && frames >= 1
  {
    DivXor3(c, frames - 1) + 4 * c
  }

  /** What the decoder does with its next block when n frames remain: the frame count it
      expects adpcm_decode_block to return, the bytes it consumes and the frames it keeps. */
  datatype BlockPlan = BlockPlan(frames: int, size: int, keep: nat)

  /** The next block: a full block of `bs` bytes, or, when samples_per_block is negative
      (it is then compared as an unsigned number) or more than n, a last block recomputed to
      hold n frames. */
  function NextBlock(c: int, n: nat, bs: int): (b: BlockPlan)
    requires Channels(c) && n > 0
    ensures b.size > 0 && b.keep <= n && b.keep <= b.frames
    ensures b.keep == 0 ==> b.frames == 0
  {
    var spb := SamplesPerBlock(bs, c);
    if spb < 0 || spb > n then
      var frames := LastBlockFrames(n);
      BlockPlan(frames, LastBlockSize(c, frames), n)
    else
      BlockPlan(spb, bs, spb)
  }

  /** samples_per_block for mono and stereo. */
  lemma SamplesPerBlockValues(bs: int)
    ensures SamplesPerBlock(bs, 1) == 2 * bs - 7
    ensures SamplesPerBlock(bs, 2) == bs - 7
  {
  }

  /** A full block whose size is aligned (4 + 4k bytes mono, 8 + 8k stereo) and whose headers
      are accepted decodes exactly samples_per_block frames. */
  lemma FullBlockMatches(block: seq<Byte>, c: int)
    requires Channels(c) && |block| >= 4 * c && |block| % (4 * c) == 0 && FirstBadHeader(block, c, 0) == c
    ensures BlockSamples(block, c) == SamplesPerBlock(|block|, c)
  {
  }

  /** The last block has the fewest frames of the form 1 + 8k that hold the remaining n, and a
      last block of that size with accepted headers decodes exactly that many frames. */
  lemma LastBlockMatches(block: seq<Byte>, c: int, n: nat)
    requires Channels(c) && n > 0
    ensures LastBlockFrames(n) % 8 == 1 && n <= LastBlockFrames(n) < n + 8
    ensures |block| == LastBlockSize(c, LastBlockFrames(n)) && FirstBadHeader(block, c, 0) == c
            ==> BlockSamples(block, c) == LastBlockFrames(n)
  {
    var k := (n + 6) / 8;
    assert LastBlockFrames(n) == 8 * k + 1;
    if c == 1 {
      assert LastBlockSize(c, 8 * k + 1) == 4 * k + 4;
    } else {
      assert LastBlockSize(c, 8 * k + 1) == 8 * k + 8;
    }
  }

  /** The pointer advance as written: this_block_pcm_samples * 2 bytes is one 16-bit slot per
      kept frame, whatever the channel count. */
  function AdvanceAsWritten(c: int, b: BlockPlan): (slots: nat)
    requires Channels(c)
    ensures c == 1 ==> slots == Times(c, b.keep)
    ensures c == 2 && b.keep > 0 ==> slots < Times(c, b.keep)
  {
    b.keep
  }

  /** Stereo, 16-byte blocks, 18 frames: the first block fills slots 0..17, but the second is
      decoded from slot 9 on, over the second half of the first block, and slots 27..35 are
      never written. */
  lemma StereoBlocksOverlap()
    ensures NextBlock(2, 18, 16) == BlockPlan(9, 16, 9)
    ensures Times(2, NextBlock(2, 18, 16).frames) == 18
    ensures AdvanceAsWritten(2, NextBlock(2, 18, 16)) == 9
    ensures NextBlock(2, 18 - 9, 16) == BlockPlan(9, 16, 9)
    ensures AdvanceAsWritten(2, NextBlock(2, 18, 16)) + Times(2, 9) == 27 < Times(2, 18)
  {
  }

  /** Mono, 8-byte blocks, 2 frames: the single, last block decodes 9 frames straight into the
      output, which holds 2, so 7 slots are written past its end. */
  lemma FinalBlockOverruns()
    ensures NextBlock(1, 2, 8) == BlockPlan(9, 8, 2)
    ensures Times(1, NextBlock(1, 2, 8).frames) == Times(1, 2) + 7
  {
  }

  /** Mono, 9-byte blocks, 10 frames: samples_per_block is 11, so the last block is recomputed
      to 17 frames in 12 bytes, three more than the block_size-byte copy buffer holds. */
  lemma LastBlockExceedsScratch()
    ensures NextBlock(1, 10, 9) == BlockPlan(17, 12, 10)
    ensures NextBlock(1, 10, 9).size > 9
  {
  }

  /** Every last block that does not happen to hold 1 + 8k frames decodes past the end of the
      remaining output as written. */
  lemma LastBlockOverrunsOutput(c: int, n: nat)
    requires Channels(c) && n > 0 && n % 8 != 1
    ensures Times(c, LastBlockFrames(n)) > Times(c, n)
  {
    LastBlockMatches([], c, n);
  }

  /** Output slot q of an accepted block: the sample of q's channel at q's frame. */
  function SlotValue(block: seq<Byte>, c: int, q: nat): Int16
    requires Channels(c) && BlockSamples(block, c) > 0 && q < OutputSlots(block, c)
  {
    SlotBounds(c, q, BlockSamples(block, c));
    Sample(block, c, ChannelOf(q, c), FrameOf(q, c))
  }

  /** Everything an accepted block decodes to, in output order. */
  function BlockOut(block: seq<Byte>, c: int): (pcm: seq<Int16>)
    requires Channels(c) && BlockSamples(block, c) > 0
    ensures |pcm| == Times(c, BlockSamples(block, c))
  {
    seq(OutputSlots(block, c), q requires 0 <= q < OutputSlots(block, c) => SlotValue(block, c, q))
  }

  /** What adpcm_decode_block makes of a block: its frame count (0 when rejected) and, for an
      accepted block, every sample it decodes, in output order. */
  datatype Decoding = Decoding(frames: nat, pcm: seq<Int16>)

  function DecodeOf(block: seq<Byte>, c: int): (d: Decoding)
    requires Channels(c)
    ensures d.frames == BlockSamples(block, c) && |d.pcm| == Times(c, d.frames)
  {
    if BlockSamples(block, c) == 0 then Decoding(0, []) else Decoding(BlockSamples(block, c), BlockOut(block, c))
  }

  function Prepend<T>(pre: seq<T>, r: Option<seq<T>>): (r': Option<seq<T>>)
    ensures r'.Some? <==> r.Some?
  {
    match r
    case None => None
    case Some(rest) => Some(pre + rest)
  }

  lemma PrependEmpty<T>(r: Option<seq<T>>)
    ensures Prepend([], r) == r
  {
    if r.Some? {
      assert [] + r.value == r.value;
    }
  }

  lemma PrependTwice<T>(a: seq<T>, b: seq<T>, r: Option<seq<T>>)
    ensures Prepend(a + b, r) == Prepend(a, Prepend(b, r))
  {
    if r.Some? {
      assert (a + b) + r.value == a + (b + r.value);
    }
  }

  /** The size bytes of the input from position pos on (the memcpy into adpcm_block). */
  function BlockAt(input: seq<Byte>, pos: nat, size: nat): (block: seq<Byte>)
    requires pos + size <= |input|
    ensures |block| == size && forall i :: 0 <= i < size ==> block[i] == input[pos + i]
  {
    seq(size, i requires 0 <= i < size => input[pos + i])
  }

  /** One pass of the decoder's loop with n > 0 frames left and the next block at byte pos:
      the samples of the frames it keeps, or None when the block runs past the input or
      decodes to another frame count than the plan expects. */
  function BlockStep(input: seq<Byte>, pos: nat, c: int, n: nat, bs: int): (r: Option<seq<Int16>>)
    requires Channels(c) && n > 0
    ensures r.Some? ==> pos + NextBlock(c, n, bs).size <= |input|
    ensures r.Some? ==> |r.value| == Times(c, NextBlock(c, n, bs).keep)
  {
    var b := NextBlock(c, n, bs);
    if pos + b.size > |input| then None
    else
      var d := DecodeOf(BlockAt(input, pos, b.size), c);
      if d.frames != b.frames then None else Some(d.pcm[..Times(c, b.keep)])
  }

  /** The decoding of the n frames that remain when the next block starts at byte pos. */
  function DataFrom(input: seq<Byte>, pos: nat, c: int, n: nat, bs: int): (r: Option<seq<Int16>>)
    requires Channels(c) && pos <= |input|
    ensures r.Some? ==> |r.value| == Times(c, n)
    decreases |input| - pos
  {
    if n == 0 then Some([])
    else match BlockStep(input, pos, c, n, bs)
      case None => None
      case Some(kept) =>
        var b := NextBlock(c, n, bs);
        Prepend(kept, DataFrom(input, pos + b.size, c, n - b.keep, bs))
  }

  /** adpcm_decode_data with its output advanced by c slots per kept frame and its last block
      cut to the frames that remain: the decoded samples of n frames (c per frame), or None
      when the blocks run past the input or one of them decodes to another frame count than
      expected. (The decoder stops at the first such block; the result is None either way.) */
  function DataSpec(input: seq<Byte>, c: int, n: nat, bs: int): (r: Option<seq<Int16>>)
    requires Channels(c)
    ensures r.Some? ==> |r.value| == Times(c, n)
  {
    DataFrom(input, 0, c, n, bs)
  }

  /** The decoder's loop invariant: the samples decoded so far followed by the decoding of the
      rest of the input make up the decoding of the whole input. */
  predicate DecodedPrefix(input: seq<Byte>, c: int, total: nat, bs: int, pos: nat, n: nat, prefix: seq<Int16>)
    requires Channels(c) && pos <= |input|
  {
    DataSpec(input, c, total, bs) == Prepend(prefix, DataFrom(input, pos, c, n, bs))
  }

  /** A block the decoder accepts moves the samples it keeps from the rest of the decoding to
      the decoded prefix. */
  lemma DataFromStep(input: seq<Byte>, c: int, total: nat, bs: int, pos: nat, n: nat,
                     before: seq<Int16>, after: seq<Int16>)
    requires Channels(c) && pos <= |input| && n > 0 && BlockStep(input, pos, c, n, bs).Some?
    requires DecodedPrefix(input, c, total, bs, pos, n, before)
    requires after == before + BlockStep(input, pos, c, n, bs).value
    ensures DecodedPrefix(input, c, total, bs, pos + NextBlock(c, n, bs).size, n - NextBlock(c, n, bs).keep, after)
  {
    var b := NextBlock(c, n, bs);
    PrependTwice(before, BlockStep(input, pos, c, n, bs).value, DataFrom(input, pos + b.size, c, n - b.keep, bs));
  }

  /** One pass of the decoder's loop on values: a rejected block makes the decoding of the
      whole input None, an accepted one moves the decoded prefix on. */
  lemma LoopStepDecodes(input: seq<Byte>, c: int, total: nat, bs: int, pos: nat, n: nat,
                        before: seq<Int16>, ok: bool, after: seq<Int16>)
    requires Channels(c) && pos <= |input| && n > 0
    requires DecodedPrefix(input, c, total, bs, pos, n, before)
    requires ok <==> BlockStep(input, pos, c, n, bs).Some?
    requires ok ==> after == before + BlockStep(input, pos, c, n, bs).value
    ensures !ok ==> DataSpec(input, c, total, bs).None?
    ensures ok ==> pos + NextBlock(c, n, bs).size <= |input|
    ensures ok ==> DecodedPrefix(input, c, total, bs, pos + NextBlock(c, n, bs).size, n - NextBlock(c, n, bs).keep, after)
  {
    if ok {
      DataFromStep(input, c, total, bs, pos, n, before, after);
    } else {
      assert DataFrom(input, pos, c, n, bs).None?;
    }
  }

  /** Stereo blocks of 7 bytes have zero samples per block: every block is accepted with zero
      frames and none is kept, so decoding walks off the end of the input. */
  lemma {:induction false} StereoSevenByteBlocksNeverFinish(input: seq<Byte>, pos: nat, n: nat)
    requires n > 0 && pos <= |input|
    ensures DataFrom(input, pos, 2, n, 7).None?
    ensures pos == 0 ==> DataSpec(input, 2, n, 7).None?
    decreases |input| - pos
  {
    assert NextBlock(2, n, 7) == BlockPlan(0, 7, 0);
    if pos + 7 <= |input| {
      StereoSevenByteBlocksNeverFinish(input, pos + 7, n);
    }
  }

  method CopySlots(dst: array<Int16>, at: nat, src: array<Int16>, len: nat)
    requires at + len <= dst.Length && len <= src.Length && dst != src
    modifies dst
    ensures dst[..at + len] == old(dst[..at]) + src[..len]
  {
    var i := 0;
    while i < len
      invariant 0 <= i <= len
      invariant dst[..at + i] == old(dst[..at]) + src[..i]
    {
      dst[at + i] := src[i];
      assert dst[..at + i + 1] == dst[..at + i] + [src[i]];
      assert src[..i + 1] == src[..i] + [src[i]];
      i := i + 1;
    }
  }

  /** The accepted slots of a block decoded at slot 0 are its samples in output order. */
  lemma AcceptedSlot(block: seq<Byte>, c: int, s: nat, before: Int16)
    requires Channels(c) && BlockSamples(block, c) > 0 && s < Times(c, BlockSamples(block, c))
    ensures After(block, c, 0, s, before) == BlockOut(block, c)[s]
  {
  }

  /** memcpy of a block into adpcm_block and adpcm_decode_block on it, into a fresh buffer
      with room for every slot the block fills. */
  method DecodeAside(block: seq<Byte>, c: int) returns (got: int, scratch: array<Int16>)
    requires Channels(c)
    ensures fresh(scratch) && got == BlockSamples(block, c)
    ensures got > 0 ==> scratch[..] == BlockOut(block, c)
  {
    scratch := new Int16[OutputSlots(block, c)];
    got := DecodeBlock(scratch, 0, block, c);
    if got > 0 {
      BlockResult(block, c, 0);
      forall s | 0 <= s < scratch.Length
        ensures scratch[s] == BlockOut(block, c)[s]
      {
        AcceptedSlot(block, c, s, 0);
      }
      assert scratch[..] == BlockOut(block, c);
    }
  }

  /** One pass of the decoder's loop: copies the next block out of the input, decodes it aside
      and appends the frames it keeps to the output from slot `done` on. */
  method DecodeNextBlock(input: seq<Byte>, pos: nat, c: int, rem: nat, bs: int, out: array<Int16>, done: nat)
    returns (ok: bool, done': nat)
    requires Channels(c) && rem > 0 && pos <= |input|
    requires done + Times(c, rem) <= out.Length
    modifies out
    ensures ok <==> BlockStep(input, pos, c, rem, bs).Some?
    ensures done' == if ok then done + Times(c, NextBlock(c, rem, bs).keep) else done
    ensures ok ==> out[..done'] == old(out[..done]) + BlockStep(input, pos, c, rem, bs).value
  {
    var b := NextBlock(c, rem, bs);
    if pos + b.size > |input| {
      return false, done;
    }
    var block := BlockAt(input, pos, b.size);
    var got, scratch := DecodeAside(block, c);
    if got != b.frames {
      return false, done;
    }
    var len := Times(c, b.keep);
    assert scratch[..len] == BlockStep(input, pos, c, rem, bs).value by {
      if len > 0 {
        assert DecodeOf(block, c).pcm == scratch[..];
      }
    }
    CopySlots(out, done, scratch, len);
    ok, done' := true, done + len;
  }

  /** One pass of the decoder's loop, stated against the decoding of the whole input: on
      success the decoded prefix grows by the frames the block keeps; on failure the whole
      decoding is None. */
  method DecodeLoopStep(input: seq<Byte>, c: int, total: nat, bs: int, pos: nat, rem: nat, out: array<Int16>, done: nat)
    returns (ok: bool, pos': nat, rem': nat, done': nat)
    requires Channels(c) && rem > 0 && pos <= |input| && done + Times(c, rem) == out.Length
    requires DecodedPrefix(input, c, total, bs, pos, rem, out[..done])
    modifies out
    ensures !ok ==> DataSpec(input, c, total, bs).None?
    ensures ok ==> pos < pos' <= |input| && done' + Times(c, rem') == out.Length
    ensures ok ==> DecodedPrefix(input, c, total, bs, pos', rem', out[..done'])
  {
    ghost var before := out[..done];
    ok, done' := DecodeNextBlock(input, pos, c, rem, bs, out, done);
    ghost var after := out[..done'];
    LoopStepDecodes(input, c, total, bs, pos, rem, before, ok, after);
    if !ok {
      return false, pos, rem, done;
    }
    var b := NextBlock(c, rem, bs);
    pos', rem' := pos + b.size, rem - b.keep;
  }

  /** adpcm_decode_data, with the output pointer advanced by c slots per kept frame and the
      last block decoded aside and cut to the frames that remain: returns the decoded samples,
      or null when DataSpec gives None. */
  method DecodeData(input: seq<Byte>, c: int, n: nat, bs: int) returns (pcm: array?<Int16>)
    requires Channels(c)
    ensures pcm == null <==> DataSpec(input, c, n, bs).None?
    ensures pcm != null ==> fresh(pcm) && pcm[..] == DataSpec(input, c, n, bs).value
  {
    var out := new Int16[Times(c, n)];
    var rem: nat := n;
    var pos: nat := 0;
    var done: nat := 0;
    assert out[..0] == [];
    PrependEmpty(DataSpec(input, c, n, bs));
    while rem > 0
      invariant pos <= |input| && done + Times(c, rem) == out.Length
      invariant DecodedPrefix(input, c, n, bs, pos, rem, out[..done])
      decreases |input| - pos
    {
      var ok;
      ok, pos, rem, done := DecodeLoopStep(input, c, n, bs, pos, rem, out, done);
      if !ok {
        return null;
      }
    }
    assert out[..done] == out[..];
    pcm := out;
  }
}
