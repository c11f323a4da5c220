/** The RIFF/WAVE chunk walker of the OpenAL sound driver (ParseWaveFile in openal.cpp):
    it reads chunk ids and sizes from a wave file image and reports where the format and the
    sample data lie. Offsets are byte positions in the image. */
module WaveFile {
  import opened Common

  // Chunk ids as little-endian 32-bit words.
  const ChunkRiff: int := 0x46464952
  const ChunkWave: int := 0x45564157
  const ChunkFact: int := 0x74636166
  const ChunkData: int := 0x61746164
  const ChunkWavh: int := 0x68766177
  const ChunkFmt: int := 0x20746d66
  const ChunkGuid: int := 0x64697567

  predicate KnownChunk(id: int)
  {
    id == ChunkRiff || id == ChunkWave || id == ChunkFact || id == ChunkData
    || id == ChunkWavh || id == ChunkFmt || id == ChunkGuid
  }

  /** A pointer into the image together with the size read for it. */
  datatype Region = Region(offset: nat, size: nat)

  /** The walker's result: `ReadPastEnd` when it would read an id or a size beyond the end of
      the image (the source reads whatever memory follows), otherwise its boolean result and
      the format and sample-data pointers it leaves behind (None for NULL). */
  datatype Outcome = ReadPastEnd | Parsed(ok: bool, format: Option<Region>, data: Option<Region>)

  /** One turn of the walker's loop at byte pos, with the format found so far. */
  datatype Step = Continue(pos: nat, format: Option<Region>) | Stop(outcome: Outcome)

  function ChunkStep(image: seq<Byte>, pos: nat, format: Option<Region>): (st: Step)
    ensures st.Continue? ==> st.pos >= pos + 4
  {
    if pos + 4 > |image| then Stop(ReadPastEnd)
    else
      var id := U32At(image, pos);
      if id == ChunkWave then Continue(pos + 4, format)
      else if !KnownChunk(id) then Stop(Parsed(false, format, None))
      else if pos + 8 > |image| then Stop(ReadPastEnd)
      else
        var size := U32At(image, pos + 4);
        if id == ChunkRiff then Continue(pos + 8, format)
        else if id == ChunkData then
          var data := Region(pos + 8, size);
          Stop(Parsed(format.Some?, format, Some(data)))
        else if id == ChunkFmt then Continue(pos + 8 + size, Some(Region(pos + 8, size)))
        else Continue(pos + 8 + size, format)
  }

  /** The walk from byte pos on. */
  function ParseFrom(image: seq<Byte>, pos: nat, format: Option<Region>): (r: Outcome)
    decreases if pos <= |image| then |image| - pos + 1 else 0
  {
    match ChunkStep(image, pos, format)
    case Stop(r) => r
    case Continue(pos', format') => if pos' > |image| then ReadPastEnd else ParseFrom(image, pos', format')
  }

  /** ParseWaveFile: walks the chunks until the first data chunk; true only when a format
      chunk and a data chunk were both seen. */
  method ParseWaveFile(image: seq<Byte>) returns (r: Outcome)
    ensures r == ParseFrom(image, 0, None)
  {
    var pos: nat := 0;
    var format: Option<Region> := None;
    while true
      invariant ParseFrom(image, pos, format) == ParseFrom(image, 0, None)
      decreases if pos <= |image| then |image| - pos + 1 else 0
    {
      if pos + 4 > |image| {
        return ReadPastEnd;
      }
      var id := U32At(image, pos);
      pos := pos + 4;
      if id == ChunkWave {
        // skipped
      } else if !KnownChunk(id) {
        return Parsed(false, format, None);
      } else {
        if pos + 4 > |image| {
          return ReadPastEnd;
        }
        var size := U32At(image, pos);
        pos := pos + 4;
        if id == ChunkData {
          return Parsed(format.Some?, format, Some(Region(pos, size)));
        } else if id == ChunkFmt {
          format := Some(Region(pos, size));
          pos := pos + size;
        } else if id != ChunkRiff {
          pos := pos + size;
        }
      }
      if pos > |image| {
        return ReadPastEnd;
      }
    }
  }

  /** Whatever the walk returns, it succeeds exactly when it found both pointers, it never
      reports a data chunk on failure, and each pointer it reports sits right after the id
      and size words of a chunk of its kind. */
  lemma {:induction false} ParseResult(image: seq<Byte>, pos: nat, format: Option<Region>)
    requires format.Some? ==> 8 <= format.value.offset <= |image|
                               && U32At(image, format.value.offset - 8) == ChunkFmt
                               && U32At(image, format.value.offset - 4) == format.value.size
    ensures ParseFrom(image, pos, format).Parsed? ==>
              var r := ParseFrom(image, pos, format);
              (r.ok <==> r.format.Some? && r.data.Some?)
              && (r.format.Some? ==> 8 <= r.format.value.offset <= |image| && U32At(image, r.format.value.offset - 8) == ChunkFmt
                                     && U32At(image, r.format.value.offset - 4) == r.format.value.size)
              && (r.data.Some? ==> r.data.value.offset >= 8 && r.data.value.offset <= |image|
                                   && U32At(image, r.data.value.offset - 8) == ChunkData
                                   && U32At(image, r.data.value.offset - 4) == r.data.value.size)
    decreases if pos <= |image| then |image| - pos + 1 else 0
  {
    match ChunkStep(image, pos, format)
    case Stop(r) =>
    case Continue(pos', format') =>
      if pos' <= |image| {
        ParseResult(image, pos', format');
      }
  }

  /** A chunk id the walker does not know ends it with false, keeping the format found so far. */
  lemma UnknownChunkRejected(image: seq<Byte>, pos: nat, format: Option<Region>)
    requires pos + 4 <= |image| && !KnownChunk(U32At(image, pos))
    ensures ParseFrom(image, pos, format) == Parsed(false, format, None)
  {
  }

  // ---------------------------------------------------------------------------
  // Wave file images built from chunks
  // ---------------------------------------------------------------------------

  /** A chunk the walker steps over or records: the RIFF header (id and size word), the bare
      WAVE tag, or an id with a size word and a body. */
  datatype Chunk = RiffHeader(riffSize: int) | WaveTag | Sized(id: int, body: seq<Byte>)

  predicate Word(w: int) { 0 <= w < TwoTo32 }

  /** A chunk the walker passes (anything but a data chunk or an unknown id) that can be written. */
  predicate Passable(ch: Chunk)
  {
    match ch
    case RiffHeader(size) => Word(size)
    case WaveTag => true
    case Sized(id, body) => (id == ChunkFact || id == ChunkWavh || id == ChunkFmt || id == ChunkGuid) && Word(|body|)
  }

  predicate AllPassable(chs: seq<Chunk>)
    decreases |chs|
  {
    |chs| == 0 || (Passable(chs[0]) && AllPassable(chs[1..]))
  }

  /** The number of bytes a chunk takes in the image. */
  function ChunkLen(ch: Chunk): nat
  {
    match ch
    case RiffHeader(_) => 8
    case WaveTag => 4
    case Sized(_, body) => 8 + |body|
  }

  function ChunksLen(chs: seq<Chunk>): nat
  {
    if |chs| == 0 then 0 else ChunkLen(chs[0]) + ChunksLen(chs[1..])
  }

  /** The bytes of a chunk: its id word, then (except for the WAVE tag) its size word, then its body. */
  function EncodeChunk(ch: Chunk): (bytes: seq<Byte>)
    requires Passable(ch) || (ch.Sized? && Word(ch.id) && Word(|ch.body|))
    ensures |bytes| == ChunkLen(ch)
  {
    match ch
    case RiffHeader(size) => U32Bytes(ChunkRiff) + U32Bytes(size)
    case WaveTag => U32Bytes(ChunkWave)
    case Sized(id, body) => U32Bytes(id) + U32Bytes(|body|) + body
  }

  function Encode(chs: seq<Chunk>): (bytes: seq<Byte>)
    requires AllPassable(chs)
    ensures |bytes| == ChunksLen(chs)
  {
    if |chs| == 0 then [] else EncodeChunk(chs[0]) + Encode(chs[1..])
  }

  /** The words the walker reads for chunk ch at byte pos are there: its id, and its size when
      it has one, with its body inside the image. */
  predicate ChunkAt(image: seq<Byte>, pos: nat, ch: Chunk)
  {
    pos + ChunkLen(ch) <= |image| &&
    match ch
    case RiffHeader(size) => U32At(image, pos) == ChunkRiff && U32At(image, pos + 4) == size
    case WaveTag => U32At(image, pos) == ChunkWave
    case Sized(id, body) => U32At(image, pos) == id && U32At(image, pos + 4) == |body|
  }

  predicate ChunksAt(image: seq<Byte>, pos: nat, chs: seq<Chunk>)
    decreases |chs|
  {
    |chs| == 0 || (ChunkAt(image, pos, chs[0]) && ChunksAt(image, pos + ChunkLen(chs[0]), chs[1..]))
  }

  /** The format pointer after passing the chunks from byte base on: the body of the last
      format chunk among them, or the one found before. */
  function LastFormat(chs: seq<Chunk>, base: nat, format: Option<Region>): Option<Region>
  {
    if |chs| == 0 then format
    else
      var found := if chs[0].Sized? && chs[0].id == ChunkFmt then Some(Region(base + 8, |chs[0].body|)) else format;
      LastFormat(chs[1..], base + ChunkLen(chs[0]), found)
  }

  /** Walking over one passable chunk. */
  lemma PassChunk(image: seq<Byte>, pos: nat, ch: Chunk, format: Option<Region>)
    requires Passable(ch) && ChunkAt(image, pos, ch)
    ensures ChunkStep(image, pos, format)
            == Continue(pos + ChunkLen(ch), if ch.Sized? && ch.id == ChunkFmt then Some(Region(pos + 8, |ch.body|)) else format)
  {
  }

  /** The walk over passable chunks followed by a data chunk: it stops at the data chunk,
      with the last format chunk's body as the format, and succeeds exactly when there was a
      format chunk. */
  lemma {:induction false} ParseChunks(image: seq<Byte>, pos: nat, chs: seq<Chunk>, data: seq<Byte>, format: Option<Region>)
    requires AllPassable(chs) && ChunksAt(image, pos, chs) && ChunkAt(image, pos + ChunksLen(chs), Sized(ChunkData, data))
    ensures ParseFrom(image, pos, format)
            == Parsed(LastFormat(chs, pos, format).Some?, LastFormat(chs, pos, format),
                      Some(Region(pos + ChunksLen(chs) + 8, |data|)))
    decreases |chs|
  {
    if |chs| > 0 {
      var head, rest := chs[0], chs[1..];
      var next: nat := pos + ChunkLen(head);
      var found := if head.Sized? && head.id == ChunkFmt then Some(Region(pos + 8, |head.body|)) else format;
      PassChunk(image, pos, head, format);
      ParseChunks(image, next, rest, data, found);
    }
  }

  /** The image holds `bytes` from byte pos on. */
  ghost predicate BytesAt(image: seq<Byte>, pos: nat, bytes: seq<Byte>)
  {
    pos + |bytes| <= |image| && forall i :: 0 <= i < |bytes| ==> image[pos + i] == bytes[i]
  }

  lemma BytesAtSplit(image: seq<Byte>, pos: nat, a: seq<Byte>, b: seq<Byte>)
    requires BytesAt(image, pos, a + b)
    ensures BytesAt(image, pos, a) && BytesAt(image, pos + |a|, b)
  {
    forall i | 0 <= i < |a| ensures image[pos + i] == a[i] { assert (a + b)[i] == a[i]; }
    forall i | 0 <= i < |b| ensures image[pos + |a| + i] == b[i] { assert (a + b)[|a| + i] == b[i]; }
  }

  lemma ReadWord(image: seq<Byte>, pos: nat, w: int)
    requires Word(w) && BytesAt(image, pos, U32Bytes(w))
    ensures pos + 4 <= |image| && U32At(image, pos) == w
  {
    var b := U32Bytes(w);
    assert image[pos] == b[0] && image[pos + 1] == b[1] && image[pos + 2] == b[2] && image[pos + 3] == b[3];
    U32RoundTrip(w, [], []);
    assert [] + b + [] == b;
  }

  /** An id word followed by a size word. */
  lemma ReadHeader(image: seq<Byte>, pos: nat, id: int, size: int, rest: seq<Byte>)
    requires Word(id) && Word(size) && BytesAt(image, pos, U32Bytes(id) + U32Bytes(size) + rest)
    ensures pos + 8 + |rest| <= |image| && U32At(image, pos) == id && U32At(image, pos + 4) == size
  {
    BytesAtSplit(image, pos, U32Bytes(id) + U32Bytes(size), rest);
    BytesAtSplit(image, pos, U32Bytes(id), U32Bytes(size));
    ReadWord(image, pos, id);
    ReadWord(image, pos + 4, size);
  }

  /** The bytes of a chunk are read back as that chunk. */
  lemma EncodedChunkAt(image: seq<Byte>, pos: nat, ch: Chunk)
    requires Passable(ch) || (ch.Sized? && Word(ch.id) && Word(|ch.body|))
    requires BytesAt(image, pos, EncodeChunk(ch))
    ensures ChunkAt(image, pos, ch)
  {
    match ch
    case RiffHeader(size) =>
      assert EncodeChunk(ch) == U32Bytes(ChunkRiff) + U32Bytes(size) + [];
      ReadHeader(image, pos, ChunkRiff, size, []);
    case WaveTag =>
      ReadWord(image, pos, ChunkWave);
    case Sized(id, body) =>
      ReadHeader(image, pos, id, |body|, body);
  }

  /** The bytes of a chunk list are read back as that list. */
  lemma {:induction false} EncodedChunksAt(image: seq<Byte>, pos: nat, chs: seq<Chunk>)
    requires AllPassable(chs) && BytesAt(image, pos, Encode(chs))
    ensures ChunksAt(image, pos, chs)
    decreases |chs|
  {
    if |chs| > 0 {
      var head, rest := chs[0], chs[1..];
      var next: nat := pos + ChunkLen(head);
      BytesAtSplit(image, pos, EncodeChunk(head), Encode(rest));
      EncodedChunkAt(image, pos, head);
      EncodedChunksAt(image, next, rest);
    }
  }

  /** A three-part image holds its first two parts where they were put. */
  lemma ImageParts(a: seq<Byte>, b: seq<Byte>, c: seq<Byte>)
    ensures BytesAt(a + b + c, 0, a) && BytesAt(a + b + c, |a|, b)
  {
    forall i | 0 <= i < |a| ensures (a + b + c)[i] == a[i] { }
    forall i | 0 <= i < |b| ensures (a + b + c)[|a| + i] == b[i] { }
  }

  /** The image of passable chunks followed by a data chunk holds those chunks. */
  lemma EncodedLayout(chs: seq<Chunk>, data: seq<Byte>, post: seq<Byte>)
    requires AllPassable(chs) && Word(|data|)
    ensures ChunksAt(Encode(chs) + EncodeChunk(Sized(ChunkData, data)) + post, 0, chs)
    ensures ChunkAt(Encode(chs) + EncodeChunk(Sized(ChunkData, data)) + post, ChunksLen(chs), Sized(ChunkData, data))
  {
    var image := Encode(chs) + EncodeChunk(Sized(ChunkData, data)) + post;
    ImageParts(Encode(chs), EncodeChunk(Sized(ChunkData, data)), post);
    EncodedChunksAt(image, 0, chs);
    EncodedChunkAt(image, ChunksLen(chs), Sized(ChunkData, data));
  }

  /** Round trip: the image of passable chunks followed by a data chunk (and anything after
      it) walks to the data chunk's body, with the last format chunk's body as the format, and
      succeeds exactly when there was a format chunk. */
  lemma ParseEncoded(chs: seq<Chunk>, data: seq<Byte>, post: seq<Byte>)
    requires AllPassable(chs) && Word(|data|)
    ensures ParseFrom(Encode(chs) + EncodeChunk(Sized(ChunkData, data)) + post, 0, None)
            == Parsed(LastFormat(chs, 0, None).Some?, LastFormat(chs, 0, None), Some(Region(ChunksLen(chs) + 8, |data|)))
  {
    EncodedLayout(chs, data, post);
    ParseChunks(Encode(chs) + EncodeChunk(Sized(ChunkData, data)) + post, 0, chs, data, None);
  }

  /** The usual layout's chunks before the data chunk: RIFF header, WAVE tag, format chunk. */
  function CanonicalChunks(riffSize: int, fmt: seq<Byte>): (chs: seq<Chunk>)
    requires Word(riffSize) && Word(|fmt|)
    ensures AllPassable(chs) && |chs| == 3
  {
    var chs := [RiffHeader(riffSize), WaveTag, Sized(ChunkFmt, fmt)];
    assert chs[1..][1..] == [Sized(ChunkFmt, fmt)] && chs[1..][1..][1..] == [];
    assert AllPassable(chs[1..][1..]) && AllPassable(chs[1..]);
    chs
  }

  /** The usual layout: RIFF header, WAVE tag, format chunk, data chunk. */
  lemma ParseCanonical(fmt: seq<Byte>, data: seq<Byte>, riffSize: int, post: seq<Byte>)
    requires Word(riffSize) && Word(|fmt|) && Word(|data|)
    ensures ParseFrom(Encode(CanonicalChunks(riffSize, fmt)) + EncodeChunk(Sized(ChunkData, data)) + post, 0, None)
            == Parsed(true, Some(Region(20, |fmt|)), Some(Region(28 + |fmt|, |data|)))
  {
    var chs := CanonicalChunks(riffSize, fmt);
    var rest := chs[1..];
    assert rest[1..] == [Sized(ChunkFmt, fmt)] && rest[1..][1..] == [];
    ParseEncoded(chs, data, post);
    assert LastFormat(rest[1..], 12, None) == Some(Region(20, |fmt|));
    assert LastFormat(chs, 0, None) == Some(Region(20, |fmt|));
    assert ChunksLen(rest[1..]) == 8 + |fmt|;
    assert ChunksLen(chs) == 20 + |fmt|;
  }
}
