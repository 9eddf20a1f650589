/**
 The RIFF walker that finds out how long a WAV file plays, and the caps on voice notes.

 Every chunk has an identifier, a size and its data, padded to an even length.  The walk goes
 from chunk to chunk, remembers the last byte rate a format chunk stated, and stops at the
 first data chunk after that; it reads within bounds and ends on every byte string, whatever
 the sizes in it claim.
 */
module Audio {
  import opened Common

  type Byte = x: int | 0 <= x < 256
  type Bytes = seq<Byte>

  const RIFF: Bytes := [82, 73, 70, 70]
  const WAVE: Bytes := [87, 65, 86, 69]
  const FMT: Bytes := [102, 109, 116, 32]
  const DATA: Bytes := [100, 97, 116, 97]

  const MIN_WAV_BYTES := 44

  /** The little-endian unsigned 32-bit number at an offset. */
  function ReadU32(data: Bytes, at: nat): nat
    requires at + 4 <= |data|
  {
    data[at] as nat + 0x100 * data[at + 1] as nat + 0x1_0000 * data[at + 2] as nat + 0x100_0000 * data[at + 3] as nat
  }

  // ---- the walker ---------------------------------------------------------------

  /** The lowest byte comes first: what one more in each of the four is worth. */
  lemma LowByteFirst(before: Bytes, a: Byte, b: Byte, c: Byte, d: Byte)
    ensures ReadU32(before + [a, b, c, d], |before|) == a as int + 256 * b as int + 65536 * c as int + 16777216 * d as int
  {
    var data := before + [a, b, c, d];
    assert data[|before|] == a && data[|before| + 1] == b && data[|before| + 2] == c && data[|before| + 3] == d;
  }

  /** What the walk finds from an offset on, knowing the byte rate read so far. */
  function Walk(data: Bytes, offset: nat, byteRate: nat): Option<real>
    decreases |data| - offset
  {
    if offset + 8 > |data| then None
    else
      var id, size := data[offset..offset + 4], ReadU32(data, offset + 4);
      var next := offset + 8 + size + size % 2;
      if id == FMT && offset + 8 + 16 <= |data| then Walk(data, next, ReadU32(data, offset + 16))
      else if id == DATA && byteRate > 0 then Some(size as real / byteRate as real)
      else Walk(data, next, byteRate)
  }

  predicate IsWav(data: Bytes, mimeIsWav: bool) {
    mimeIsWav && |data| >= MIN_WAV_BYTES && data[..4] == RIFF && data[8..12] == WAVE
  }

  function Probe(data: Bytes, mimeIsWav: bool): Option<real> {
    if IsWav(data, mimeIsWav) then Walk(data, 12, 0) else None
  }

  /** Stays in bounds on every byte string, and ends: each chunk advances by at least its header. */
  method ProbeDuration(data: Bytes, mimeIsWav: bool) returns (seconds: Option<real>)
    ensures seconds == Probe(data, mimeIsWav)
  {
    if !mimeIsWav || |data| < MIN_WAV_BYTES {
      return None;
    }
    if data[..4] != RIFF || data[8..12] != WAVE {
      return None;
    }
    var offset, byteRate := 12, 0;
    while offset + 8 <= |data|
      invariant Walk(data, offset, byteRate) == Walk(data, 12, 0)
      decreases |data| - offset
    {
      var id, size := data[offset..offset + 4], ReadU32(data, offset + 4);
      if id == FMT && offset + 8 + 16 <= |data| {
        byteRate := ReadU32(data, offset + 16);
      } else if id == DATA && byteRate > 0 {
        return Some(size as real / byteRate as real);
      }
      offset := offset + 8 + size + size % 2;
    }
    seconds := None;
  }

  // ---- files built from chunks -----------------------------------------------------

  datatype RiffChunk = RiffChunk(id: Bytes, payload: Bytes)

  predicate Encodable(chunk: RiffChunk) {
    && |chunk.id| == 4
    && |chunk.payload| < 0x1_0000_0000
    && (chunk.id == FMT ==> |chunk.payload| >= 16)
  }

  predicate AllEncodable(chunks: seq<RiffChunk>) {
    |chunks| == 0 || (Encodable(chunks[0]) && AllEncodable(chunks[1..]))
  }

  function WriteU32(n: nat): (bytes: Bytes)
    requires n < 0x1_0000_0000
    ensures |bytes| == 4 && ReadU32(bytes, 0) == n
  {
    var n1 := n / 0x100;
    var n2 := n1 / 0x100;
    [n % 0x100, n1 % 0x100, n2 % 0x100, n2 / 0x100]
  }

  function EncodeChunk(chunk: RiffChunk): (bytes: Bytes)
    requires Encodable(chunk)
    ensures |bytes| == 8 + |chunk.payload| + |chunk.payload| % 2
  {
    chunk.id + WriteU32(|chunk.payload|) + chunk.payload + if |chunk.payload| % 2 == 1 then [0] else []
  }

  function EncodeChunks(chunks: seq<RiffChunk>): Bytes
    requires AllEncodable(chunks)
  {
    if |chunks| == 0 then [] else EncodeChunk(chunks[0]) + EncodeChunks(chunks[1..])
  }

  function EncodeFile(fileSize: nat, chunks: seq<RiffChunk>): Bytes
    requires fileSize < 0x1_0000_0000 && AllEncodable(chunks)
  {
    RIFF + WriteU32(fileSize) + WAVE + EncodeChunks(chunks)
  }

  function NextRate(chunk: RiffChunk, byteRate: nat): nat
    requires Encodable(chunk)
  {
    if chunk.id == FMT then ReadU32(chunk.payload, 8) else byteRate
  }

  /** The duration a chunk list states: the size of the first data chunk over the last byte rate before it. */
  function Duration(chunks: seq<RiffChunk>, byteRate: nat): Option<real>
    requires AllEncodable(chunks)
  {
    if |chunks| == 0 then None
    else if chunks[0].id == DATA && byteRate > 0 then Some(|chunks[0].payload| as real / byteRate as real)
    else Duration(chunks[1..], NextRate(chunks[0], byteRate))
  }

  lemma ReadShifts(before: Bytes, bytes: Bytes, after: Bytes, at: nat)
    requires at + 4 <= |bytes|
    ensures ReadU32(before + bytes + after, |before| + at) == ReadU32(bytes, at)
  {
    var all := before + bytes + after;
    assert forall k :: at <= k < at + 4 ==> all[|before| + k] == bytes[k];
  }

  /** Header and byte rate of an encoded chunk read back, wherever it stands. */
  lemma ChunkReadsBack(before: Bytes, chunk: RiffChunk, after: Bytes)
    requires Encodable(chunk)
    ensures var all, at := before + EncodeChunk(chunk) + after, |before|;
            && all[at..at + 4] == chunk.id
            && ReadU32(all, at + 4) == |chunk.payload|
            && (chunk.id == FMT ==> ReadU32(all, at + 16) == ReadU32(chunk.payload, 8))
  {
    var size, bytes := WriteU32(|chunk.payload|), EncodeChunk(chunk);
    var pad: Bytes := if |chunk.payload| % 2 == 1 then [0] else [];
    assert bytes[..4] == chunk.id;
    assert (before + bytes + after)[|before|..|before| + 4] == bytes[..4];
    ReadShifts(before, bytes, after, 4);
    ReadShifts(chunk.id, size, chunk.payload + pad, 0);
    assert bytes == chunk.id + size + (chunk.payload + pad);
    if chunk.id == FMT {
      ReadShifts(before, bytes, after, 16);
      ReadShifts(chunk.id + size, chunk.payload, pad, 8);
      assert bytes == (chunk.id + size) + chunk.payload + pad;
    }
  }

  /** One encoded chunk, as the walker takes it. */
  lemma WalkStep(before: Bytes, chunk: RiffChunk, after: Bytes, byteRate: nat)
    requires Encodable(chunk)
    ensures var all, next := before + EncodeChunk(chunk) + after, |before + EncodeChunk(chunk)|;
            Walk(all, |before|, byteRate) ==
            if chunk.id == DATA && byteRate > 0 then Some(|chunk.payload| as real / byteRate as real)
            else Walk(all, next, NextRate(chunk, byteRate))
  {
    ChunkReadsBack(before, chunk, after);
  }

  lemma Associative(a: Bytes, b: Bytes, c: Bytes)
    ensures a + (b + c) == (a + b) + c
  {
  }

  lemma {:induction false} WalkReadsChunks(before: Bytes, chunks: seq<RiffChunk>, byteRate: nat)
    requires AllEncodable(chunks)
    ensures Walk(before + EncodeChunks(chunks), |before|, byteRate) == Duration(chunks, byteRate)
    decreases |chunks|
  {
    if |chunks| > 0 {
      var chunk, rest := chunks[0], EncodeChunks(chunks[1..]);
      var head := EncodeChunk(chunk);
      Associative(before, head, rest);
      WalkStep(before, chunk, rest, byteRate);
      WalkReadsChunks(before + head, chunks[1..], NextRate(chunk, byteRate));
    }
  }

  lemma {:induction false} DurationNeedsRoom(chunks: seq<RiffChunk>, byteRate: nat)
    requires AllEncodable(chunks)
    ensures Duration(chunks, byteRate).Some? ==> |EncodeChunks(chunks)| >= if byteRate > 0 then 8 else 32
  {
    if |chunks| > 0 {
      DurationNeedsRoom(chunks[1..], NextRate(chunks[0], byteRate));
    }
  }

  /** On every well-formed file, whatever other chunks it holds and wherever, the walker states the chunk list's duration. */
  lemma ProbeReadsTheFile(fileSize: nat, chunks: seq<RiffChunk>)
    requires fileSize < 0x1_0000_0000 && AllEncodable(chunks)
    ensures Probe(EncodeFile(fileSize, chunks), true) == Duration(chunks, 0)
  {
    var header := RIFF + WriteU32(fileSize) + WAVE;
    var data := EncodeFile(fileSize, chunks);
    assert data == header + EncodeChunks(chunks);
    assert data[..4] == RIFF && data[8..12] == WAVE;
    WalkReadsChunks(header, chunks, 0);
    DurationNeedsRoom(chunks, 0);
  }

  predicate Without(chunks: seq<RiffChunk>, id: Bytes) {
    forall c :: c in chunks ==> c.id != id
  }

  lemma {:induction false} DurationSkips(skipped: seq<RiffChunk>, rest: seq<RiffChunk>, byteRate: nat)
    requires AllEncodable(skipped) && AllEncodable(rest)
    requires Without(skipped, FMT) && (byteRate == 0 || Without(skipped, DATA))
    ensures AllEncodable(skipped + rest)
    ensures Duration(skipped + rest, byteRate) == Duration(rest, byteRate)
  {
    if |skipped| == 0 {
      assert skipped + rest == rest;
    } else {
      assert (skipped + rest)[1..] == skipped[1..] + rest;
      DurationSkips(skipped[1..], rest, byteRate);
    }
  }

  /** One format chunk with a nonzero rate, then the data: the answer is the data size over that rate. */
  lemma ProbeDividesSizeByRate(
    fileSize: nat, a: seq<RiffChunk>, format: RiffChunk, b: seq<RiffChunk>, sound: RiffChunk, c: seq<RiffChunk>)
    requires fileSize < 0x1_0000_0000
    requires AllEncodable(a) && AllEncodable(b) && AllEncodable(c) && Encodable(format) && Encodable(sound)
    requires format.id == FMT && sound.id == DATA && Without(a, FMT) && Without(b, FMT) && Without(b, DATA)
    requires ReadU32(format.payload, 8) > 0
    ensures AllEncodable(a + ([format] + (b + ([sound] + c))))
    ensures Probe(EncodeFile(fileSize, a + ([format] + (b + ([sound] + c)))), true)
            == Some(|sound.payload| as real / ReadU32(format.payload, 8) as real)
  {
    var tail := [sound] + c;
    var middle := [format] + (b + tail);
    assert tail[0] == sound && tail[1..] == c && middle[0] == format && middle[1..] == b + tail;
    DurationSkips(b, tail, ReadU32(format.payload, 8));
    DurationSkips(a, middle, 0);
    ProbeReadsTheFile(fileSize, a + middle);
  }

  // ---- the caps ---------------------------------------------------------------------------

  datatype AudioCheck = Accepted(seconds: Option<real>) | TooLarge | TooLong(duration: real)

  function CheckAudio(data: Bytes, mimeIsWav: bool, maxBytes: nat, maxSeconds: nat): AudioCheck {
    if |data| > maxBytes then TooLarge
    else
      var seconds := Probe(data, mimeIsWav);
      if seconds.Some? && seconds.value > maxSeconds as real then TooLong(seconds.value) else Accepted(seconds)
  }

  /** Only a WAV file of 44 bytes or more with its two marks is probed, and only what exceeds the size cap is too large. */
  lemma OnlyWavIsProbed(data: Bytes, mimeIsWav: bool, maxBytes: nat, maxSeconds: nat)
    ensures Probe(data, mimeIsWav).Some? ==>
              mimeIsWav && |data| >= 44 && data[0..4] == [82, 73, 70, 70] && data[8..12] == [87, 65, 86, 69]
    ensures CheckAudio(data, mimeIsWav, maxBytes, maxSeconds).TooLarge? <==> |data| > maxBytes
    ensures |data| <= maxBytes && Probe(data, mimeIsWav) == None ==>
              CheckAudio(data, mimeIsWav, maxBytes, maxSeconds) == Accepted(None)
    ensures forall i :: 0 <= i < 4 ==> FMT[i] as int == "fmt "[i] as int && DATA[i] as int == "data"[i] as int
  {
  }

  lemma QuotientExceeds(size: nat, rate: nat, limit: nat)
    requires rate > 0
    ensures size as real / rate as real > limit as real <==> size > limit * rate
  {
    var quotient := size as real / rate as real;
    assert quotient * rate as real == size as real;
    assert (limit * rate) as real == limit as real * rate as real;
    if quotient > limit as real {
      assert quotient * rate as real > limit as real * rate as real;
    } else {
      assert quotient * rate as real <= limit as real * rate as real;
    }
  }

  /** A voice note within the size cap is refused as too long exactly when it holds more than the allowed seconds of data. */
  lemma LongFilesAreRefused(
    fileSize: nat, a: seq<RiffChunk>, format: RiffChunk, b: seq<RiffChunk>, sound: RiffChunk, c: seq<RiffChunk>,
    maxBytes: nat, maxSeconds: nat)
    requires fileSize < 0x1_0000_0000
    requires AllEncodable(a) && AllEncodable(b) && AllEncodable(c) && Encodable(format) && Encodable(sound)
    requires format.id == FMT && sound.id == DATA && Without(a, FMT) && Without(b, FMT) && Without(b, DATA)
    requires ReadU32(format.payload, 8) > 0
    ensures AllEncodable(a + ([format] + (b + ([sound] + c))))
    ensures var data := EncodeFile(fileSize, a + ([format] + (b + ([sound] + c))));
            |data| <= maxBytes ==>
              (CheckAudio(data, true, maxBytes, maxSeconds).TooLong? <==> |sound.payload| > maxSeconds * ReadU32(format.payload, 8))
  {
    ProbeDividesSizeByRate(fileSize, a, format, b, sound, c);
    QuotientExceeds(|sound.payload|, ReadU32(format.payload, 8), maxSeconds);
  }
}
