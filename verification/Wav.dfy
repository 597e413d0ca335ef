/** Locating the PCM audio of a RIFF/WAVE file, and cutting it into standalone files under a size limit. */
module Wav {
  import opened Bytes
  import opened Contracts
  import opened Multiples

  const RIFF: seq<Byte> := [0x52, 0x49, 0x46, 0x46]
  const WAVE: seq<Byte> := [0x57, 0x41, 0x56, 0x45]
  const FMT: seq<Byte> := [0x66, 0x6d, 0x74, 0x20]
  const DATA: seq<Byte> := [0x64, 0x61, 0x74, 0x61]
  const HEADER_BYTES := 44
  const UNKNOWN_DATA_SIZE := 0xFFFF_FFFF
  const TWO32 := 0x1_0000_0000
  const MAX_REQUEST_BASE64_BYTES := 10_000_000

  /** The format of one PCM file. */
  datatype Format = Format(channels: nat, sampleRate: nat, bits: nat, blockAlign: nat)
  {
    predicate Valid() {
      && 1 <= channels < 0x1_0000 && 1 <= sampleRate < TWO32
      && (bits == 8 || bits == 16 || bits == 24 || bits == 32)
      && blockAlign == channels * bits / 8 && 1 <= blockAlign < 0x1_0000
    }
  }

  /** Where the audio of one PCM WAV file sits, and the format it is in. */
  datatype PcmWav = PcmWav(format: Format, dataStart: nat, dataEnd: nat)

  /** The format a `fmt ` chunk's first sixteen bytes declare, if it is one this code can cut. */
  function ParseFormat(field: seq<Byte>): (format: Option<Format>)
    requires |field| == 16
    ensures format.Some? ==> format.value.Valid()
  {
    PackOfLittle(field[2..4]);
    PackOfLittle(field[4..8]);
    PackOfLittle(field[12..14]);
    Pow2And4();
    var tag, channels, sampleRate := Little(field[0..2]), Little(field[2..4]), Little(field[4..8]);
    var blockAlign, bits := Little(field[12..14]), Little(field[14..16]);
    if tag != 1 || channels < 1 || sampleRate < 1 || !(bits == 8 || bits == 16 || bits == 24 || bits == 32)
       || blockAlign != channels * bits / 8
    then None
    else Some(Format(channels, sampleRate, bits, blockAlign))
  }

  /** The little-endian size field of the chunk at `position`. */
  function SizeAt(audio: seq<Byte>, position: nat): nat
    requires position + 8 <= |audio|
  {
    Little(audio[position + 4..position + 8])
  }

  function DataEnd(length: nat, body: nat, size: nat): nat {
    if size == UNKNOWN_DATA_SIZE || body + size > length then length else body + size
  }

  /** The chunk walk from `position`, having met `format` so far. */
  function Walk(audio: seq<Byte>, position: nat, format: Option<Format>): Option<PcmWav>
    decreases |audio| - position
  {
    if position + 8 > |audio| then None
    else
      var id, size, body := audio[position..position + 4], SizeAt(audio, position), position + 8;
      if id == FMT then
        if size < 16 || body + 16 > |audio| then None
        else
          var parsed := ParseFormat(audio[body..body + 16]);
          if parsed.None? then None else Walk(audio, body + size + size % 2, parsed)
      else if id == DATA then
        if format.None? then None else Some(PcmWav(format.value, body, DataEnd(|audio|, body, size)))
      else Walk(audio, body + size + size % 2, format)
  }

  predicate IsRiffWave(audio: seq<Byte>) {
    |audio| >= 12 && audio[0..4] == RIFF && audio[8..12] == WAVE
  }

  function Parsed(audio: seq<Byte>): Option<PcmWav> {
    if IsRiffWave(audio) then Walk(audio, 12, None) else None
  }

  /** Locate the PCM audio of a WAV file, or return `None` if it is anything else. */
  method ParsePcmWav(audio: seq<Byte>) returns (r: Option<PcmWav>)
    ensures r == Parsed(audio)
  {
    hide ParseFormat, SizeAt, DataEnd;
    if |audio| < 12 || audio[0..4] != RIFF || audio[8..12] != WAVE {
      return None;
    }
    var format: Option<Format> := None;
    var position := 12;
    while position + 8 <= |audio|
      invariant Walk(audio, position, format) == Parsed(audio)
      decreases |audio| - position
    {
      var id := audio[position..position + 4];
      var size := SizeAt(audio, position);
      var body := position + 8;
      if id == FMT {
        if size < 16 || body + 16 > |audio| {
          return None;
        }
        format := ParseFormat(audio[body..body + 16]);
        if format.None? {
          return None;
        }
      } else if id == DATA {
        if format.None? {
          return None;
        }
        return Some(PcmWav(format.value, body, DataEnd(|audio|, body, size)));
      }
      position := body + size + size % 2;
    }
    return None;
  }

  /** A chunk as it lies in a file; an odd-sized body is followed by one pad byte of any value. */
  datatype Chunk = Chunk(id: seq<Byte>, body: seq<Byte>, pad: seq<Byte>)
  {
    predicate Valid() {
      |id| == 4 && |body| < TWO32 && |pad| == |body| % 2
    }

    function Render(): seq<Byte> {
      id + Pack(|body|, 4) + body + pad
    }
  }

  function RenderAll(chunks: seq<Chunk>): seq<Byte> {
    if |chunks| == 0 then [] else chunks[0].Render() + RenderAll(chunks[1..])
  }

  /** The chunks a WAV file may have ahead of its audio: any but `data`, with every `fmt ` one acceptable. */
  predicate Leading(chunks: seq<Chunk>) {
    forall i :: 0 <= i < |chunks| ==>
      && chunks[i].Valid() && chunks[i].id != DATA
      && (chunks[i].id == FMT ==> |chunks[i].body| >= 16 && ParseFormat(chunks[i].body[..16]).Some?)
  }

  /** The format in force after some leading chunks: the last `fmt ` chunk decides. */
  function FormatAfter(chunks: seq<Chunk>, format: Option<Format>): Option<Format>
    requires Leading(chunks)
  {
    if |chunks| == 0 then format
    else FormatAfter(chunks[1..], if chunks[0].id == FMT then ParseFormat(chunks[0].body[..16]) else format)
  }

  /** From `position` the file holds these leading chunks, then the `data` chunk that `wav` describes. */
  ghost predicate LaidOut(audio: seq<Byte>, position: nat, format: Option<Format>, chunks: seq<Chunk>, wav: PcmWav) {
    && position + 8 <= wav.dataStart <= wav.dataEnd <= |audio|
    && Leading(chunks) && FormatAfter(chunks, format) == Some(wav.format)
    && audio[position..wav.dataStart - 8] == RenderAll(chunks)
    && audio[wav.dataStart - 8..wav.dataStart - 4] == DATA
    && wav.dataEnd == DataEnd(|audio|, wav.dataStart, Little(audio[wav.dataStart - 4..wav.dataStart]))
  }

  lemma ChunkAt(audio: seq<Byte>, position: nat, end: nat, c: Chunk, rest: seq<Byte>)
    requires c.Valid() && position <= end <= |audio| && audio[position..end] == c.Render() + rest
    ensures position + 8 <= end && audio[position..position + 4] == c.id && SizeAt(audio, position) == |c.body|
    ensures position + 8 + |c.body| + |c.pad| <= end
    ensures audio[position + 8..position + 8 + |c.body|] == c.body
    ensures audio[position + 8 + |c.body| + |c.pad|..end] == rest
  {
    Pow2And4();
    LittleOfPack(|c.body|, 4);
    var view, n := c.Render() + rest, |c.body|;
    assert view[0..4] == c.id;
    assert view[4..8] == Pack(n, 4);
    assert view[8..8 + n] == c.body;
    assert view[8 + n + |c.pad|..|view|] == rest;
    Within(audio, position, end, 0, 4);
    Within(audio, position, end, 4, 8);
    Within(audio, position, end, 8, 8 + n);
    Within(audio, position, end, 8 + n + |c.pad|, |view|);
  }

  function NextFormat(c: Chunk, format: Option<Format>): Option<Format>
    requires Leading([c])
  {
    if c.id == FMT then assert [c][0] == c; ParseFormat(c.body[..16]) else format
  }

  /** A leading chunk lies in full at `position`. */
  ghost predicate ChunkLies(audio: seq<Byte>, position: nat, c: Chunk) {
    var after := position + 8 + |c.body| + |c.pad|;
    && Leading([c]) && after <= |audio|
    && audio[position..position + 4] == c.id && SizeAt(audio, position) == |c.body|
    && audio[position + 8..position + 8 + |c.body|] == c.body
  }

  /** The walk steps over a leading chunk. */
  lemma WalkHops(audio: seq<Byte>, position: nat, format: Option<Format>, c: Chunk)
    requires ChunkLies(audio, position, c)
    ensures Walk(audio, position, format)
         == Walk(audio, position + 8 + |c.body| + |c.pad|, NextFormat(c, format))
  {
    hide ParseFormat, Little;
    assert [c][0].Valid();
    if c.id == FMT {
      assert |[c][0].body| >= 16;
      assert audio[position + 8..position + 8 + |c.body|][..16] == audio[position + 8..position + 24];
    }
  }

  lemma LeadingSplits(c: Chunk, rest: seq<Chunk>, format: Option<Format>)
    ensures Leading([c] + rest) <==> Leading([c]) && Leading(rest)
    ensures Leading([c] + rest) ==> FormatAfter([c] + rest, format) == FormatAfter(rest, NextFormat(c, format))
    ensures RenderAll([c] + rest) == c.Render() + RenderAll(rest)
  {
    hide ParseFormat;
    var all := [c] + rest;
    assert all[1..] == rest;
    assert forall i :: 0 <= i < |rest| ==> all[i + 1] == rest[i];
    if Leading(all) {
      assert Leading([all[0]]);
    }
  }

  lemma WalkData(audio: seq<Byte>, position: nat, format: Option<Format>, chunks: seq<Chunk>, wav: PcmWav)
    requires |chunks| == 0 && LaidOut(audio, position, format, chunks, wav)
    ensures Walk(audio, position, format) == Some(wav)
  {
    hide ParseFormat, Little;
    assert position == wav.dataStart - 8;
  }

  lemma WalkedData(audio: seq<Byte>, position: nat, format: Option<Format>)
    requires Walk(audio, position, format).Some?
    requires position + 8 <= |audio| && audio[position..position + 4] == DATA
    ensures LaidOut(audio, position, format, [], Walk(audio, position, format).value)
  {
    hide ParseFormat, Little;
  }

  lemma WalkedPast(audio: seq<Byte>, position: nat, format: Option<Format>)
    requires Walk(audio, position, format).Some?
    ensures position + 8 <= |audio|
  {
  }

  /** Leading chunks and then a `data` chunk are found by the walk. */
  lemma {:induction false} WalkFinds(audio: seq<Byte>, position: nat, format: Option<Format>, chunks: seq<Chunk>,
                                     wav: PcmWav)
    requires LaidOut(audio, position, format, chunks, wav)
    ensures Walk(audio, position, format) == Some(wav)
    decreases |chunks|
  {
    hide ParseFormat, Pack, Little, Leading, Walk, FormatAfter, RenderAll, Chunk.Render, Chunk.Valid;
    if |chunks| == 0 {
      WalkData(audio, position, format, chunks, wav);
    } else {
      var c, rest := chunks[0], chunks[1..];
      assert chunks == [c] + rest;
      LeadingSplits(c, rest, format);
      assert c.Valid() by { LeadingValid(c); }
      ChunkAt(audio, position, wav.dataStart - 8, c, RenderAll(rest));
      WalkHops(audio, position, format, c);
      WalkFinds(audio, position + 8 + |c.body| + |c.pad|, NextFormat(c, format), rest, wav);
    }
  }

  lemma LeadingValid(c: Chunk)
    requires Leading([c])
    ensures c.Valid()
  {
    assert [c][0].Valid();
  }

  /** The chunk the walk steps over at `position`. */
  lemma HopChunk(audio: seq<Byte>, position: nat, format: Option<Format>) returns (c: Chunk)
    requires Walk(audio, position, format).Some? && audio[position..position + 4] != DATA
    ensures ChunkLies(audio, position, c)
    ensures audio[position..position + 8 + |c.body| + |c.pad|] == c.Render()
  {
    hide ParseFormat, Little, Pack;
    var size, body := SizeAt(audio, position), position + 8;
    var after := body + size + size % 2;
    assert after <= |audio|;
    PackOfLittle(audio[position + 4..position + 8]);
    Pow2And4();
    c := Chunk(audio[position..position + 4], audio[body..body + size], audio[body + size..after]);
    assert c.Valid();
    if c.id == FMT {
      assert c.body[..16] == audio[body..body + 16];
    }
    assert Leading([c]);
    assert audio[position..after]
        == audio[position..position + 4] + audio[position + 4..body] + audio[body..body + size]
           + audio[body + size..after];
  }

  /** Whatever the walk finds is preceded by leading chunks only. */
  lemma {:induction false} WalkFound(audio: seq<Byte>, position: nat, format: Option<Format>)
    returns (chunks: seq<Chunk>)
    requires Walk(audio, position, format).Some?
    ensures LaidOut(audio, position, format, chunks, Walk(audio, position, format).value)
    decreases |audio| - position
  {
    hide ParseFormat, Pack, Little, Leading, Walk, FormatAfter, RenderAll, Chunk.Render, Chunk.Valid;
    if position + 8 <= |audio| && audio[position..position + 4] == DATA {
      chunks := [];
      WalkedData(audio, position, format);
    } else {
      WalkedPast(audio, position, format);
      var c := HopChunk(audio, position, format);
      WalkHops(audio, position, format, c);
      var after := position + 8 + |c.body| + |c.pad|;
      var rest := WalkFound(audio, after, NextFormat(c, format));
      LeadingSplits(c, rest, format);
      chunks := [c] + rest;
      var end := Walk(audio, position, format).value.dataStart - 8;
      assert audio[position..end] == audio[position..after] + audio[after..end];
    }
  }

  /** Exactly the files with acceptable leading chunks and a `data` chunk are accepted, as that data region. */
  lemma ParseMeans(audio: seq<Byte>, wav: PcmWav)
    ensures Parsed(audio) == Some(wav) <==>
      IsRiffWave(audio) && exists chunks :: LaidOut(audio, 12, None, chunks, wav)
  {
    if Parsed(audio) == Some(wav) {
      var chunks := WalkFound(audio, 12, None);
      assert LaidOut(audio, 12, None, chunks, wav);
    }
    if IsRiffWave(audio) && exists chunks :: LaidOut(audio, 12, None, chunks, wav) {
      var chunks :| LaidOut(audio, 12, None, chunks, wav);
      WalkFinds(audio, 12, None, chunks, wav);
    }
  }

  lemma {:induction false} FormatAfterValid(chunks: seq<Chunk>, format: Option<Format>)
    requires Leading(chunks) && (format.Some? ==> format.value.Valid())
    ensures FormatAfter(chunks, format).Some? ==> FormatAfter(chunks, format).value.Valid()
    decreases |chunks|
  {
    if |chunks| > 0 {
      FormatAfterValid(chunks[1..], if chunks[0].id == FMT then ParseFormat(chunks[0].body[..16]) else format);
    }
  }

  /** A located audio region is inside its file and has a usable format. */
  ghost predicate Locates(audio: seq<Byte>, wav: PcmWav) {
    wav.format.Valid() && wav.dataStart <= wav.dataEnd <= |audio|
  }

  lemma ParsedLocates(audio: seq<Byte>)
    requires Parsed(audio).Some?
    ensures Locates(audio, Parsed(audio).value)
  {
    var chunks := WalkFound(audio, 12, None);
    FormatAfterValid(chunks, None);
  }

  // Writing one standalone file.

  /** The canonical header stores the byte rate and the RIFF size in 32 bits each. */
  predicate HeaderFits(format: Format, n: nat) {
    format.sampleRate * format.blockAlign < TWO32 && 36 + n + n % 2 < TWO32
  }

  function FormatBytes(format: Format): (field: seq<Byte>)
    ensures |field| == 16
  {
    Pack(1, 2) + Pack(format.channels, 2) + Pack(format.sampleRate, 4)
    + Pack(format.sampleRate * format.blockAlign, 4) + Pack(format.blockAlign, 2) + Pack(format.bits, 2)
  }

  /** The canonical 44-byte header, or `None` where packing it raises. */
  function WavHeader(format: Format, n: nat): (header: Option<seq<Byte>>)
    ensures header.Some? <==> HeaderFits(format, n)
    ensures header.Some? ==> |header.value| == HEADER_BYTES
  {
    if !HeaderFits(format, n) then None
    else Some(RIFF + Pack(36 + n + n % 2, 4) + WAVE + FMT + Pack(16, 4) + FormatBytes(format) + DATA + Pack(n, 4))
  }

  function Padding(n: nat): seq<Byte> {
    if n % 2 == 1 then [0] else []
  }

  /** One standalone file around some PCM bytes. */
  function Standalone(format: Format, pcm: seq<Byte>): seq<Byte>
    requires HeaderFits(format, |pcm|)
  {
    WavHeader(format, |pcm|).value + pcm + Padding(|pcm|)
  }

  lemma FormatRoundTrip(format: Format)
    requires format.Valid()
    ensures ParseFormat(FormatBytes(format)) == Some(format)
  {
    hide Little, Pack;
    Pow2And4();
    LittleOfPack(1, 2);
    LittleOfPack(format.channels, 2);
    LittleOfPack(format.sampleRate, 4);
    LittleOfPack(format.blockAlign, 2);
    LittleOfPack(format.bits, 2);
    var field := FormatBytes(format);
    assert field[0..2] == Pack(1, 2);
    assert field[2..4] == Pack(format.channels, 2);
    assert field[4..8] == Pack(format.sampleRate, 4);
    assert field[12..14] == Pack(format.blockAlign, 2);
    assert field[14..16] == Pack(format.bits, 2);
  }

  /** A file with one format chunk and one data chunk, whatever its size field says. */
  function PlainFile(format: Format, riffSize: nat, pcm: seq<Byte>): seq<Byte> {
    RIFF + Pack(riffSize, 4) + WAVE + FMT + Pack(16, 4) + FormatBytes(format) + DATA + Pack(|pcm|, 4) + pcm
    + Padding(|pcm|)
  }

  lemma PlainFileParses(format: Format, riffSize: nat, pcm: seq<Byte>)
    requires format.Valid() && |pcm| < UNKNOWN_DATA_SIZE
    ensures Parsed(PlainFile(format, riffSize, pcm)) == Some(PcmWav(format, HEADER_BYTES, HEADER_BYTES + |pcm|))
    ensures PlainFile(format, riffSize, pcm)[HEADER_BYTES..HEADER_BYTES + |pcm|] == pcm
    ensures |PlainFile(format, riffSize, pcm)| == HEADER_BYTES + |pcm| + |pcm| % 2
  {
    hide ParseFormat, Pack, Little, FormatBytes, Walk;
    var audio := PlainFile(format, riffSize, pcm);
    var fmt := Chunk(FMT, FormatBytes(format), []);
    FormatRoundTrip(format);
    assert fmt.body[..16] == FormatBytes(format);
    Pow2And4();
    LittleOfPack(|pcm|, 4);
    assert audio[0..4] == RIFF;
    assert audio[8..12] == WAVE;
    assert RenderAll([fmt]) == fmt.Render() + RenderAll([]);
    assert audio[12..36] == fmt.Render();
    assert audio[36..40] == DATA;
    assert audio[40..44] == Pack(|pcm|, 4);
    assert FormatAfter([fmt], None) == FormatAfter([], Some(format));
    WalkFinds(audio, 12, None, [fmt], PcmWav(format, HEADER_BYTES, HEADER_BYTES + |pcm|));
  }

  /** Reading a standalone file back gives the same format and exactly the PCM bytes, at [44, 44 + n). */
  lemma StandaloneReparses(format: Format, pcm: seq<Byte>)
    requires format.Valid() && HeaderFits(format, |pcm|)
    ensures Parsed(Standalone(format, pcm)) == Some(PcmWav(format, HEADER_BYTES, HEADER_BYTES + |pcm|))
    ensures Standalone(format, pcm)[HEADER_BYTES..HEADER_BYTES + |pcm|] == pcm
    ensures |Standalone(format, pcm)| == HEADER_BYTES + |pcm| + |pcm| % 2
  {
    hide Parsed, Pack, FormatBytes;
    var riffSize := 36 + |pcm| + |pcm| % 2;
    PlainFileParses(format, riffSize, pcm);
    assert Standalone(format, pcm) == PlainFile(format, riffSize, pcm);
  }

  // Cutting.

  /** Room for a header, some PCM bytes and their pad byte. */
  predicate Fits(n: nat, chunkBytes: int) {
    HEADER_BYTES + n + n % 2 <= chunkBytes
  }

  /** The largest whole number of frames that fits one file, in bytes; zero if not even one does. */
  ghost predicate IsPayload(payload: nat, frame: nat, chunkBytes: int) {
    && frame > 0 && payload % frame == 0
    && (payload > 0 ==> Fits(payload, chunkBytes))
    && forall n: nat :: n > 0 && n % frame == 0 && Fits(n, chunkBytes) ==> n <= payload
  }

  method MaxPayload(chunkBytes: int, frame: nat) returns (maxData: int)
    requires frame > 0
    ensures IsPayload(if maxData < frame then 0 else maxData, frame, chunkBytes)
  {
    maxData := (chunkBytes - HEADER_BYTES) / frame * frame;
    FloorMultiple(chunkBytes - HEADER_BYTES, frame);
    while maxData > 0 && HEADER_BYTES + maxData + maxData % 2 > chunkBytes
      invariant maxData % frame == 0
      invariant forall n: nat :: n % frame == 0 && n > maxData ==> !Fits(n, chunkBytes)
    {
      forall n: nat | n % frame == 0 && n > maxData - frame ensures !Fits(n, chunkBytes) {
        MultipleStep(n, maxData, frame);
      }
      MultipleSum(maxData, frame, frame);
      maxData := maxData - frame;
    }
    if maxData < frame {
      forall n: nat | n > 0 && n % frame == 0 ensures n > maxData {
        MultipleStep(n, frame, frame);
      }
    }
  }

  lemma FloorMultiple(room: int, frame: nat)
    requires frame > 0
    ensures room / frame * frame <= room && (room / frame * frame) % frame == 0
    ensures forall n: int :: n % frame == 0 && n > room / frame * frame ==> n > room
  {
    var q := room / frame;
    MultipleMod(q, frame);
    forall n: int | n % frame == 0 && n > q * frame ensures n > room {
      MultipleOrder(q, n / frame, frame);
    }
  }

  /** Successive slices of `payload` bytes; the last may be shorter. */
  function Cut(pcm: seq<Byte>, payload: nat): (slices: seq<seq<Byte>>)
    requires payload > 0
    decreases |pcm|
  {
    if |pcm| == 0 then [] else [pcm[..Least(payload, |pcm|)]] + Cut(pcm[Least(payload, |pcm|)..], payload)
  }

  lemma {:induction false} CutJoins(pcm: seq<Byte>, payload: nat)
    requires payload > 0
    ensures Concat(Cut(pcm, payload)) == pcm
    decreases |pcm|
  {
    if |pcm| > 0 {
      CutJoins(pcm[Least(payload, |pcm|)..], payload);
    }
  }

  /** The first `n` bytes of a length that is a multiple: all of it, or `n` itself a multiple. */
  lemma LeastMultiple(n: nat, length: nat, unit: nat)
    requires unit > 0 && IsMultiple(n, unit) && IsMultiple(length, unit)
    ensures IsMultiple(Least(n, length), unit) && IsMultiple(length - Least(n, length), unit)
  {
    MultipleSum(length, n, unit);
    MultipleSum(length, length, unit);
  }

  /** Every slice is a multiple of the frame, and all but the last are full. */
  lemma {:induction false} CutSizes(pcm: seq<Byte>, payload: nat, frame: nat, k: nat)
    requires payload > 0 && frame > 0 && IsMultiple(payload, frame) && IsMultiple(|pcm|, frame)
    requires k < |Cut(pcm, payload)|
    ensures 0 < |Cut(pcm, payload)[k]| <= payload && IsMultiple(|Cut(pcm, payload)[k]|, frame)
    ensures k < |Cut(pcm, payload)| - 1 ==> |Cut(pcm, payload)[k]| == payload
    decreases |pcm|
  {
    hide IsMultiple;
    var n := Least(payload, |pcm|);
    LeastMultiple(payload, |pcm|, frame);
    if k > 0 {
      CutSizes(pcm[n..], payload, frame, k - 1);
    } else if n == |pcm| {
      assert pcm[n..] == [];
    }
  }

  lemma CutFacts(pcm: seq<Byte>, payload: nat, frame: nat)
    requires payload > 0 && frame > 0 && payload % frame == 0 && |pcm| % frame == 0
    ensures Concat(Cut(pcm, payload)) == pcm
    ensures forall k :: 0 <= k < |Cut(pcm, payload)| ==>
      0 < |Cut(pcm, payload)[k]| <= payload && |Cut(pcm, payload)[k]| % frame == 0
    ensures forall k :: 0 <= k < |Cut(pcm, payload)| - 1 ==> |Cut(pcm, payload)[k]| == payload
  {
    hide Cut, Concat;
    CutJoins(pcm, payload);
    forall k | 0 <= k < |Cut(pcm, payload)|
      ensures 0 < |Cut(pcm, payload)[k]| <= payload && |Cut(pcm, payload)[k]| % frame == 0
      ensures k < |Cut(pcm, payload)| - 1 ==> |Cut(pcm, payload)[k]| == payload
    {
      CutSizes(pcm, payload, frame, k);
    }
  }

  /** A division of some PCM bytes into frame-aligned pieces that each fit one file. */
  ghost predicate Division(pieces: seq<seq<Byte>>, pcm: seq<Byte>, frame: nat, chunkBytes: int)
    requires frame > 0
  {
    && Concat(pieces) == pcm
    && forall k :: 0 <= k < |pieces| ==> |pieces[k]| % frame == 0 && Fits(|pieces[k]|, chunkBytes)
  }

  lemma {:induction false} DivisionReach(pieces: seq<seq<Byte>>, frame: nat, chunkBytes: int, payload: nat)
    requires IsPayload(payload, frame, chunkBytes)
    requires forall k :: 0 <= k < |pieces| ==> |pieces[k]| % frame == 0 && Fits(|pieces[k]|, chunkBytes)
    ensures |Concat(pieces)| <= |pieces| * payload
  {
    if |pieces| > 0 {
      DivisionReach(pieces[1..], frame, chunkBytes, payload);
      assert |pieces[0]| <= payload;
      assert |pieces| * payload == payload + (|pieces| - 1) * payload;
    }
  }

  lemma {:induction false} CutReach(pcm: seq<Byte>, payload: nat)
    requires payload > 0
    ensures |Cut(pcm, payload)| * payload < |pcm| + payload
    decreases |pcm|
  {
    if |pcm| > 0 {
      var n := Least(payload, |pcm|);
      CutReach(pcm[n..], payload);
      var rest := |Cut(pcm[n..], payload)|;
      assert (1 + rest) * payload == payload + rest * payload;
      if n == |pcm| {
        assert pcm[n..] == [];
      }
    }
  }

  /** No frame-aligned division into files under the limit uses fewer pieces than the cut. */
  lemma CutIsMinimal(pcm: seq<Byte>, frame: nat, chunkBytes: int, payload: nat, division: seq<seq<Byte>>)
    requires IsPayload(payload, frame, chunkBytes) && payload > 0
    requires Division(division, pcm, frame, chunkBytes)
    ensures |Cut(pcm, payload)| <= |division|
  {
    DivisionReach(division, frame, chunkBytes, payload);
    CutReach(pcm, payload);
    MultipleOrder(|division|, |Cut(pcm, payload)|, payload);
  }

  /** A length cut back to whole frames. */
  function Whole(n: nat, frame: nat): (w: nat)
    requires frame > 0
    ensures w <= n < w + frame
  {
    n - n % frame
  }

  lemma WholeAligned(n: nat, frame: nat)
    requires frame > 0
    ensures Whole(n, frame) % frame == 0
  {
    MultipleMod(n / frame, frame);
    assert n - n % frame == n / frame * frame;
  }

  /** The whole sample frames of the audio; a truncated file may end inside one. */
  function WholeFrames(audio: seq<Byte>, wav: PcmWav): (pcm: seq<Byte>)
    requires Locates(audio, wav)
    ensures |pcm| == Whole(wav.dataEnd - wav.dataStart, wav.format.blockAlign)
    ensures pcm == audio[wav.dataStart..wav.dataStart + |pcm|]
  {
    audio[wav.dataStart..wav.dataStart + Whole(wav.dataEnd - wav.dataStart, wav.format.blockAlign)]
  }

  datatype SplitError = TooSmall | HeaderOverflow | CannotCut | TooLarge

  datatype Split = Pieces(files: seq<seq<Byte>>) | SplitRefused(error: SplitError)

  function StandaloneAll(format: Format, slices: seq<seq<Byte>>): (files: seq<seq<Byte>>)
    requires forall k :: 0 <= k < |slices| ==> HeaderFits(format, |slices[k]|)
    ensures |files| == |slices|
    ensures forall k :: 0 <= k < |files| ==> files[k] == Standalone(format, slices[k])
  {
    seq(|slices|, k requires 0 <= k < |slices| => Standalone(format, slices[k]))
  }

  /** The first slice is the longest, so its header alone decides whether any header overflows. */
  predicate HeadersFit(format: Format, pcm: seq<Byte>, payload: nat) {
    |pcm| > 0 ==> HeaderFits(format, Least(payload, |pcm|))
  }

  lemma CutHeadersFit(format: Format, pcm: seq<Byte>, payload: nat)
    requires payload > 0 && HeadersFit(format, pcm, payload)
    ensures forall k :: 0 <= k < |Cut(pcm, payload)| ==> HeaderFits(format, |Cut(pcm, payload)[k]|)
  {
    CutLengths(pcm, payload);
  }

  lemma {:induction false} CutLengths(pcm: seq<Byte>, payload: nat)
    requires payload > 0
    ensures forall k :: 0 <= k < |Cut(pcm, payload)| ==> |Cut(pcm, payload)[k]| <= Least(payload, |pcm|)
    decreases |pcm|
  {
    if |pcm| > 0 {
      CutLengths(pcm[Least(payload, |pcm|)..], payload);
    }
  }

  /** The outcome of cutting at a given payload. */
  function SplitAt(audio: seq<Byte>, wav: PcmWav, payload: nat): Split
    requires Locates(audio, wav)
  {
    var pcm := WholeFrames(audio, wav);
    if payload == 0 then SplitRefused(TooSmall)
    else if !HeadersFit(wav.format, pcm, payload) then SplitRefused(HeaderOverflow)
    else
      CutHeadersFit(wav.format, pcm, payload);
      Pieces(StandaloneAll(wav.format, Cut(pcm, payload)))
  }

  /** One slice of the audio, cut back to whole frames, is the next slice of the whole frames. */
  lemma SliceWhole(n: nat, done: nat, maxData: nat, frame: nat)
    requires frame > 0 && maxData % frame == 0 && maxData > 0 && done % frame == 0 && done < n
    ensures done <= Whole(n, frame) && (done + maxData) % frame == 0
    ensures done + Whole(Least(maxData, n - done), frame) == Least(done + maxData, Whole(n, frame))
  {
    hide Whole;
    var whole := Whole(n, frame);
    WholeAligned(n, frame);
    MultipleSum(done, maxData, frame);
    MultipleStep(whole, done, frame);
    if n - done > maxData {
      MultipleStep(whole, done + maxData, frame);
      WholeIs(maxData, maxData, frame);
    } else {
      MultipleSum(whole, done, frame);
      WholeIs(n - done, whole - done, frame);
    }
  }

  lemma WholeIs(n: nat, w: nat, frame: nat)
    requires frame > 0 && w % frame == 0 && w <= n < w + frame
    ensures Whole(n, frame) == w
  {
    WholeAligned(n, frame);
    MultipleStep(w, Whole(n, frame), frame);
    MultipleStep(Whole(n, frame), w, frame);
  }

  /** The cut has produced the files of `slices` and has `done` bytes of audio behind it. */
  ghost predicate CutSoFar(format: Format, pcm: seq<Byte>, payload: nat, done: nat, slices: seq<seq<Byte>>,
                           files: seq<seq<Byte>>)
  {
    && payload > 0
    && slices + Cut(pcm[Least(done, |pcm|)..], payload) == Cut(pcm, payload)
    && |files| == |slices|
    && (forall k :: 0 <= k < |files| ==> HeaderFits(format, |slices[k]|) && files[k] == Standalone(format, slices[k]))
    && (done > 0 ==> HeadersFit(format, pcm, payload))
  }

  lemma CutStarts(format: Format, pcm: seq<Byte>, payload: nat)
    requires payload > 0
    ensures CutSoFar(format, pcm, payload, 0, [], [])
  {
    assert pcm[0..] == pcm;
  }

  lemma CutAdvances(format: Format, pcm: seq<Byte>, payload: nat, done: nat, slices: seq<seq<Byte>>,
                    files: seq<seq<Byte>>, slice: seq<Byte>)
    requires CutSoFar(format, pcm, payload, done, slices, files)
    requires done < |pcm| && slice == pcm[done..Least(done + payload, |pcm|)] && HeaderFits(format, |slice|)
    ensures CutSoFar(format, pcm, payload, done + payload, slices + [slice], files + [Standalone(format, slice)])
  {
    hide HeaderFits, Standalone;
    var n := Least(payload, |pcm| - done);
    assert pcm[done..][..n] == slice;
    assert pcm[done..][n..] == pcm[done + n..];
    assert slices + ([slice] + Cut(pcm[done + n..], payload)) == (slices + [slice]) + Cut(pcm[done + n..], payload);
  }

  lemma CutSkips(format: Format, pcm: seq<Byte>, payload: nat, done: nat, slices: seq<seq<Byte>>, files: seq<seq<Byte>>)
    requires CutSoFar(format, pcm, payload, done, slices, files) && |pcm| <= done
    ensures CutSoFar(format, pcm, payload, done + payload, slices, files)
  {
  }

  lemma CutEnds(audio: seq<Byte>, wav: PcmWav, payload: nat, done: nat, slices: seq<seq<Byte>>, files: seq<seq<Byte>>)
    requires Locates(audio, wav)
    requires CutSoFar(wav.format, WholeFrames(audio, wav), payload, done, slices, files)
    requires |WholeFrames(audio, wav)| <= done
    ensures SplitAt(audio, wav, payload) == Pieces(files)
  {
    hide HeaderFits, Standalone, WholeFrames;
    var pcm := WholeFrames(audio, wav);
    assert pcm[|pcm|..] == [];
    assert slices == Cut(pcm, payload);
    CutHeadersFit(wav.format, pcm, payload);
    assert files == StandaloneAll(wav.format, slices);
  }

  /** A byte count of whole frames. */
  predicate Aligned(n: nat, frame: nat)
    requires frame > 0
  {
    n % frame == 0
  }

  /** The slice taken at an offset, cut back to whole frames, is the next slice of the whole frames. */
  lemma SliceTaken(audio: seq<Byte>, wav: PcmWav, maxData: nat, offset: nat, slice: seq<Byte>)
    requires Locates(audio, wav) && maxData > 0 && Aligned(maxData, wav.format.blockAlign)
    requires wav.dataStart <= offset < wav.dataEnd && Aligned(offset - wav.dataStart, wav.format.blockAlign)
    requires slice == audio[offset..Least(offset + maxData, wav.dataEnd)]
    ensures Aligned(offset - wav.dataStart + maxData, wav.format.blockAlign)
    ensures var pcm, done := WholeFrames(audio, wav), offset - wav.dataStart;
      && done <= |pcm|
      && slice[..Whole(|slice|, wav.format.blockAlign)] == pcm[done..Least(done + maxData, |pcm|)]
  {
    hide Whole, Format.Valid;
    var pcm, done, frame := WholeFrames(audio, wav), offset - wav.dataStart, wav.format.blockAlign;
    SliceWhole(wav.dataEnd - wav.dataStart, done, maxData, frame);
    var start := wav.dataStart;
    var end := Least(done + maxData, |pcm|);
    Within(audio, offset, Least(offset + maxData, wav.dataEnd), 0, Whole(|slice|, frame));
    Within(audio, start, start + |pcm|, done, end);
  }

  /** Cut PCM audio on frame boundaries into standalone files of at most `chunkBytes`. */
  method SplitPcmWav(audio: seq<Byte>, wav: PcmWav, chunkBytes: int) returns (r: Split)
    requires Locates(audio, wav)
    ensures exists payload: nat ::
      IsPayload(payload, wav.format.blockAlign, chunkBytes) && r == SplitAt(audio, wav, payload)
  {
    hide HeaderFits, Cut, IsPayload, Fits, Padding, CutSoFar, WholeFrames, SplitAt, Whole, Format.Valid, WavHeader;
    hide Standalone, Aligned;
    FramePositive(wav.format);
    var frame := wav.format.blockAlign;
    var maxData := MaxPayload(chunkBytes, frame);
    if maxData < frame {
      NothingFits(audio, wav);
      return SplitRefused(TooSmall);
    }
    ghost var payload: nat := maxData;
    PayloadFrames(payload, frame, chunkBytes);
    ghost var pcm := WholeFrames(audio, wav);
    ghost var slices: seq<seq<Byte>> := [];
    var pieces: seq<seq<Byte>> := [];
    var offset := wav.dataStart;
    CutStarts(wav.format, pcm, payload);
    while offset < wav.dataEnd
      invariant wav.dataStart <= offset && Aligned(offset - wav.dataStart, frame)
      invariant CutSoFar(wav.format, pcm, payload, offset - wav.dataStart, slices, pieces)
      decreases wav.dataEnd - offset
    {
      ghost var done := offset - wav.dataStart;
      var slice := audio[offset..Least(offset + maxData, wav.dataEnd)];
      SliceTaken(audio, wav, maxData, offset, slice);
      slice := slice[..Whole(|slice|, frame)];
      if |slice| > 0 {
        var header := WavHeader(wav.format, |slice|);
        if header.None? {
          CutFails(audio, wav, payload, done, slices, pieces);
          return SplitRefused(HeaderOverflow);
        }
        HeaderMade(wav.format, slice);
        CutAdvances(wav.format, pcm, payload, done, slices, pieces, slice);
        pieces := pieces + [header.value + slice + Padding(|slice|)];
        slices := slices + [slice];
      } else {
        CutSkips(wav.format, pcm, payload, done, slices, pieces);
      }
      offset := offset + maxData;
    }
    CutEnds(audio, wav, payload, offset - wav.dataStart, slices, pieces);
    r := Pieces(pieces);
  }

  lemma FramePositive(format: Format)
    requires format.Valid()
    ensures format.blockAlign > 0
  {
  }

  lemma NothingFits(audio: seq<Byte>, wav: PcmWav)
    requires Locates(audio, wav)
    ensures SplitAt(audio, wav, 0) == SplitRefused(TooSmall)
  {
  }

  lemma PayloadFrames(payload: nat, frame: nat, chunkBytes: int)
    requires frame > 0 && IsPayload(payload, frame, chunkBytes)
    ensures Aligned(payload, frame) && Aligned(0, frame)
  {
  }

  lemma HeaderMade(format: Format, slice: seq<Byte>)
    requires WavHeader(format, |slice|).Some?
    ensures HeaderFits(format, |slice|)
    ensures Standalone(format, slice) == WavHeader(format, |slice|).value + slice + Padding(|slice|)
  {
  }

  /** A header that does not fit is the first one. */
  lemma CutFails(audio: seq<Byte>, wav: PcmWav, payload: nat, done: nat, slices: seq<seq<Byte>>, files: seq<seq<Byte>>)
    requires Locates(audio, wav)
    requires CutSoFar(wav.format, WholeFrames(audio, wav), payload, done, slices, files)
    requires done < |WholeFrames(audio, wav)|
    requires !HeaderFits(wav.format, Least(done + payload, |WholeFrames(audio, wav)|) - done)
    ensures SplitAt(audio, wav, payload) == SplitRefused(HeaderOverflow)
  {
    hide WholeFrames, Cut;
  }

  // What a split amounts to.

  /** The audio a standalone file carries. */
  function AudioOf(file: seq<Byte>): seq<Byte> {
    var wav := Parsed(file);
    if wav.None? then [] else ParsedLocates(file); file[wav.value.dataStart..wav.value.dataEnd]
  }

  function AudioOfAll(files: seq<seq<Byte>>): seq<seq<Byte>> {
    seq(|files|, k requires 0 <= k < |files| => AudioOf(files[k]))
  }

  /**
   Splitting loses nothing but a trailing partial frame: every piece is at most `chunkBytes` long and
   re-parses to the same format with its audio at [44, 44 + n); the pieces' audio joins to exactly the
   whole frames of the input; and no frame-aligned division under the limit has fewer pieces.
   */
  lemma SplitIsLossless(audio: seq<Byte>, wav: PcmWav, chunkBytes: int, payload: nat)
    requires Locates(audio, wav) && IsPayload(payload, wav.format.blockAlign, chunkBytes)
    requires SplitAt(audio, wav, payload).Pieces?
    ensures var files := SplitAt(audio, wav, payload).files;
      && Concat(AudioOfAll(files)) == WholeFrames(audio, wav)
      && (forall k :: 0 <= k < |files| ==>
            && |files[k]| <= chunkBytes
            && 0 < |AudioOf(files[k])| && |AudioOf(files[k])| % wav.format.blockAlign == 0
            && Parsed(files[k]) == Some(PcmWav(wav.format, HEADER_BYTES, HEADER_BYTES + |AudioOf(files[k])|)))
      && (forall k :: 0 <= k < |files| - 1 ==> |AudioOf(files[k])| == payload)
  {
    hide Parsed, Standalone, HeaderFits, WholeFrames;
    var pcm, frame := WholeFrames(audio, wav), wav.format.blockAlign;
    var slices := Cut(pcm, payload);
    WholeAligned(wav.dataEnd - wav.dataStart, frame);
    CutFacts(pcm, payload, frame);
    CutHeadersFit(wav.format, pcm, payload);
    var files := StandaloneAll(wav.format, slices);
    forall k | 0 <= k < |files|
      ensures AudioOf(files[k]) == slices[k] && |files[k]| <= chunkBytes
      ensures Parsed(files[k]) == Some(PcmWav(wav.format, HEADER_BYTES, HEADER_BYTES + |slices[k]|))
    {
      StandaloneReparses(wav.format, slices[k]);
    }
    assert AudioOfAll(files) == slices;
  }

  /** No frame-aligned division of the same audio into files under the limit has fewer pieces. */
  lemma SplitIsMinimal(audio: seq<Byte>, wav: PcmWav, chunkBytes: int, payload: nat, division: seq<seq<Byte>>)
    requires Locates(audio, wav) && IsPayload(payload, wav.format.blockAlign, chunkBytes)
    requires Division(division, WholeFrames(audio, wav), wav.format.blockAlign, chunkBytes)
    requires SplitAt(audio, wav, payload).Pieces?
    ensures |SplitAt(audio, wav, payload).files| <= |division|
  {
    CutIsMinimal(WholeFrames(audio, wav), wav.format.blockAlign, chunkBytes, payload, division);
  }

  /** A split is refused exactly when not one frame fits, or the first piece's header overflows 32 bits. */
  lemma SplitRefusals(audio: seq<Byte>, wav: PcmWav, chunkBytes: int, payload: nat)
    requires Locates(audio, wav) && IsPayload(payload, wav.format.blockAlign, chunkBytes)
    ensures SplitAt(audio, wav, payload) == SplitRefused(TooSmall) <==>
      !Fits(wav.format.blockAlign, chunkBytes)
    ensures SplitAt(audio, wav, payload) == SplitRefused(HeaderOverflow) <==>
      && Fits(wav.format.blockAlign, chunkBytes) && |WholeFrames(audio, wav)| > 0
      && (wav.format.sampleRate * wav.format.blockAlign >= TWO32
          || 36 + Least(payload, |WholeFrames(audio, wav)|) + Least(payload, |WholeFrames(audio, wav)|) % 2 >= TWO32)
  {
    var frame := wav.format.blockAlign;
    if payload > 0 {
      MultipleStep(payload, frame, frame);
    }
  }

  /** Mono frames of two bytes each, at a rate whose byte rate needs a thirty-third bit. */
  const FAST := Format(1, 0x8000_0000, 16, 2)

  /** A readable file in that format that no header can be written for. */
  lemma OverflowInput()
    ensures exists audio: seq<Byte>, wav: PcmWav ::
      && |audio| > 46 && Parsed(audio) == Some(wav) && IsPayload(2, wav.format.blockAlign, 46)
      && Locates(audio, wav) && SplitAt(audio, wav, 2) == SplitRefused(HeaderOverflow)
  {
    hide Parsed, PlainFile;
    var pcm: seq<Byte> := [1, 2, 3, 4];
    var audio, wav := PlainFile(FAST, 40, pcm), PcmWav(FAST, HEADER_BYTES, HEADER_BYTES + 4);
    assert FAST.Valid();
    PlainFileParses(FAST, 40, pcm);
    assert |WholeFrames(audio, wav)| == 4;
    assert !HeaderFits(FAST, 2);
  }

  // Encoding.

  /** Base64 length of a byte count. */
  function Base64Length(n: nat): nat {
    4 * ((n + 2) / 3)
  }

  /** The ordered files sent for one audio buffer; `wavMime` says whether its type names a WAV file. */
  method Encode(audio: seq<Byte>, wavMime: bool, chunkBytes: nat) returns (r: Split)
    requires chunkBytes >= 1
    ensures audio == [] ==> r == Pieces([])
    ensures audio != [] && !wavMime ==>
      r == if Base64Length(|audio|) > MAX_REQUEST_BASE64_BYTES then SplitRefused(TooLarge) else Pieces([audio])
    ensures audio != [] && wavMime && |audio| <= chunkBytes ==> r == Pieces([audio])
    ensures audio != [] && wavMime && |audio| > chunkBytes && Parsed(audio).None? ==> r == SplitRefused(CannotCut)
    ensures audio != [] && wavMime && |audio| > chunkBytes && Parsed(audio).Some? ==>
      && Locates(audio, Parsed(audio).value)
      && exists payload: nat ::
           && IsPayload(payload, Parsed(audio).value.format.blockAlign, chunkBytes)
           && r == SplitAt(audio, Parsed(audio).value, payload)
  {
    if audio == [] {
      return Pieces([]);
    }
    if !wavMime {
      if Base64Length(|audio|) > MAX_REQUEST_BASE64_BYTES {
        return SplitRefused(TooLarge);
      }
      return Pieces([audio]);
    }
    if |audio| <= chunkBytes {
      return Pieces([audio]);
    }
    var wav := ParsePcmWav(audio);
    if wav.None? {
      return SplitRefused(CannotCut);
    }
    ParsedLocates(audio);
    r := SplitPcmWav(audio, wav.value, chunkBytes);
  }
}
