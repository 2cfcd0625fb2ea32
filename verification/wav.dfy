/** `pcmToWAV` (backend_llamacpp.go:133-151): raw signed 16-bit mono PCM
    wrapped in the canonical 44-byte header of the RIFF WAVE format of the
    Microsoft/IBM Multimedia Programming Interface and Data Specifications
    1.0: a `RIFF` chunk of form type `WAVE` holding a 16-byte `fmt ` chunk
    (format tag 1, PCM) and a `data` chunk. All integers little-endian; the
    conversions to `uint32` and `uint16` truncate, and are written out. A
    parser of the header is given as the partner of the serialiser. */
module Wav {
  import opened Common

  const Two32: nat := 0x1_0000_0000

  /** Go's conversion of an `int` to `uint32`: the low 32 bits, two's
      complement for a negative value. */
  function U32(x: int): (r: nat)
    ensures r < Two32
    ensures 0 <= x < Two32 ==> r == x
  {
    x % Two32
  }

  function LE16(x: nat): (r: seq<Byte>)
    requires x < 0x1_0000
    ensures |r| == 2
  {
    [x % 256, x / 256]
  }

  function LE32(x: nat): (r: seq<Byte>)
    requires x < Two32
    ensures |r| == 4
  {
    [x % 256, (x / 0x100) % 256, (x / 0x1_0000) % 256, x / 0x100_0000]
  }

  function DecodeLE16(b: seq<Byte>): (x: nat)
    requires |b| == 2
    ensures x < 0x1_0000
  {
    b[0] as int + 0x100 * b[1] as int
  }

  function DecodeLE32(b: seq<Byte>): (x: nat)
    requires |b| == 4
    ensures x < Two32
  {
    b[0] as int + 0x100 * b[1] as int + 0x1_0000 * b[2] as int + 0x100_0000 * b[3] as int
  }

  lemma LE16RoundTrip(x: nat)
    requires x < 0x1_0000
    ensures DecodeLE16(LE16(x)) == x
  {
  }

  lemma LE32RoundTrip(x: nat)
    requires x < Two32
    ensures DecodeLE32(LE32(x)) == x
  {
    var b0, q0 := x % 256, x / 0x100;
    var b1, q1 := q0 % 256, q0 / 256;
    var b2, b3 := q1 % 256, q1 / 256;
    assert x == b0 + 0x100 * q0;
    assert q0 == b1 + 256 * q1;
    assert q1 == b2 + 256 * b3;
    assert x / 0x1_0000 == q1;
    assert x / 0x100_0000 == b3;
  }

  /** The four-character codes, as bytes. */
  const RiffTag: seq<Byte> := [0x52, 0x49, 0x46, 0x46]   // "RIFF"
  const WaveTag: seq<Byte> := [0x57, 0x41, 0x56, 0x45]   // "WAVE"
  const FmtTag: seq<Byte> := [0x66, 0x6d, 0x74, 0x20]    // "fmt "
  const DataTag: seq<Byte> := [0x64, 0x61, 0x74, 0x61]   // "data"

  /** The numeric fields of the header, in file order. */
  datatype Header = Header(riffSize: nat, fmtSize: nat, formatTag: nat, channels: nat,
                           sampleRate: nat, byteRate: nat, blockAlign: nat,
                           bitsPerSample: nat, dataSize: nat)

  /** The header `pcmToWAV` writes for `pcmLen` bytes of audio at
      `sampleRate` (backend_llamacpp.go:136-148). */
  function HeaderFor(pcmLen: nat, sampleRate: int): Header
  {
    var dataLen := U32(pcmLen);
    Header(U32(36 + dataLen), 16, 1, 1, U32(sampleRate), U32(sampleRate * 2), 2, 16, dataLen)
  }

  /** `RIFF`, the RIFF size, `WAVE` (backend_llamacpp.go:137-139). */
  function RiffHeader(dataLen: nat): (r: seq<Byte>)
    requires dataLen < Two32
    ensures |r| == 12
  {
    RiffTag + LE32(U32(36 + dataLen)) + WaveTag
  }

  /** The `fmt ` chunk: size 16, PCM, mono, the rate, the byte rate, block
      align 2, 16 bits per sample (backend_llamacpp.go:139-146). */
  function FmtChunk(sampleRate: int): (r: seq<Byte>)
    ensures |r| == 24
  {
    FmtTag + LE32(16) + LE16(1) + LE16(1)
    + LE32(U32(sampleRate)) + LE32(U32(sampleRate * 2)) + LE16(2) + LE16(16)
  }

  /** `data` and the audio length (backend_llamacpp.go:147-148). */
  function DataHeader(dataLen: nat): (r: seq<Byte>)
    requires dataLen < Two32
    ensures |r| == 8
  {
    DataTag + LE32(dataLen)
  }

  function PcmToWav(pcm: seq<Byte>, sampleRate: int): (r: seq<Byte>)
    ensures |r| == 44 + |pcm|
    ensures r[44..] == pcm
  {
    var dataLen := U32(|pcm|);
    RiffHeader(dataLen) + FmtChunk(sampleRate) + DataHeader(dataLen) + pcm
  }

  /** The fields of a `fmt ` chunk, in file order. */
  datatype Fmt = Fmt(size: nat, formatTag: nat, channels: nat, sampleRate: nat,
                     byteRate: nat, blockAlign: nat, bitsPerSample: nat)

  /** Reads the RIFF size between the `RIFF` and `WAVE` tags. */
  function ParseRiff(b: seq<Byte>): Option<nat>
    requires |b| == 12
  {
    if b[0..4] != RiffTag || b[8..12] != WaveTag then None else Some(DecodeLE32(b[4..8]))
  }

  function ParseFmt(b: seq<Byte>): Option<Fmt>
    requires |b| == 24
  {
    if b[0..4] != FmtTag then None
    else Some(Fmt(DecodeLE32(b[4..8]), DecodeLE16(b[8..10]), DecodeLE16(b[10..12]),
                  DecodeLE32(b[12..16]), DecodeLE32(b[16..20]), DecodeLE16(b[20..22]),
                  DecodeLE16(b[22..24])))
  }

  function ParseData(b: seq<Byte>): Option<nat>
    requires |b| == 8
  {
    if b[0..4] != DataTag then None else Some(DecodeLE32(b[4..8]))
  }

  /** Reads a canonical 44-byte header: the RIFF header, the `fmt ` chunk and
      the `data` chunk header, each at its place, then the audio. */
  function ParseWav(w: seq<Byte>): (r: Option<(Header, seq<Byte>)>)
    ensures r.Some? ==> |w| >= 44 && r.value.1 == w[44..]
  {
    if |w| < 44 then None
    else
      var riff, fmt, data := ParseRiff(w[0..12]), ParseFmt(w[12..36]), ParseData(w[36..44]);
      if riff.None? || fmt.None? || data.None? then None
      else
        var f := fmt.value;
        Some((Header(riff.value, f.size, f.formatTag, f.channels, f.sampleRate, f.byteRate,
                     f.blockAlign, f.bitsPerSample, data.value), w[44..]))
  }

  lemma RiffRoundTrip(dataLen: nat)
    requires dataLen < Two32
    ensures ParseRiff(RiffHeader(dataLen)) == Some(U32(36 + dataLen))
  {
    var b := RiffHeader(dataLen);
    assert b[0..4] == RiffTag && b[4..8] == LE32(U32(36 + dataLen)) && b[8..12] == WaveTag;
    LE32RoundTrip(U32(36 + dataLen));
  }

  lemma FmtRoundTrip(sampleRate: int)
    ensures ParseFmt(FmtChunk(sampleRate))
            == Some(Fmt(16, 1, 1, U32(sampleRate), U32(sampleRate * 2), 2, 16))
  {
    var head := FmtTag + LE32(16) + LE16(1) + LE16(1);
    var rates := LE32(U32(sampleRate)) + LE32(U32(sampleRate * 2));
    var b := FmtChunk(sampleRate);
    assert b == head + rates + (LE16(2) + LE16(16));
    assert b[0..12] == head;
    assert b[12..20] == rates;
    assert head[0..4] == FmtTag;
    assert head[4..8] == LE32(16);
    assert head[8..10] == LE16(1);
    assert head[10..12] == LE16(1);
    assert rates[0..4] == LE32(U32(sampleRate));
    assert rates[4..8] == LE32(U32(sampleRate * 2));
    assert b[20..22] == LE16(2);
    assert b[22..24] == LE16(16);
    LE32RoundTrip(16);
    LE16RoundTrip(1);
    LE32RoundTrip(U32(sampleRate));
    LE32RoundTrip(U32(sampleRate * 2));
    LE16RoundTrip(2);
    LE16RoundTrip(16);
  }

  lemma DataRoundTrip(dataLen: nat)
    requires dataLen < Two32
    ensures ParseData(DataHeader(dataLen)) == Some(dataLen)
  {
    var b := DataHeader(dataLen);
    assert b[0..4] == DataTag && b[4..8] == LE32(dataLen);
    LE32RoundTrip(dataLen);
  }

  /** The header parses back to exactly the fields `pcmToWAV` meant to write,
      truncations included, and the audio follows it unchanged. */
  lemma WavRoundTrip(pcm: seq<Byte>, sampleRate: int)
    ensures ParseWav(PcmToWav(pcm, sampleRate)) == Some((HeaderFor(|pcm|, sampleRate), pcm))
  {
    var dataLen := U32(|pcm|);
    var w := PcmToWav(pcm, sampleRate);
    assert w[0..12] == RiffHeader(dataLen);
    assert w[12..36] == FmtChunk(sampleRate);
    assert w[36..44] == DataHeader(dataLen);
    RiffRoundTrip(dataLen);
    FmtRoundTrip(sampleRate);
    DataRoundTrip(dataLen);
  }

  /** For any audio shorter than 4 GiB minus the header and any sample rate
      below 2^31, the header is the consistent one the format defines: the
      RIFF size is the file size less 8, the data size is the audio length,
      and byte rate = sample rate * block align with block align = channels *
      bits per sample / 8. Beyond that the `uint32` conversions wrap. */
  lemma HeaderConsistent(pcm: seq<Byte>, sampleRate: int)
    requires |pcm| + 36 < Two32 && 0 <= sampleRate < Two32 / 2
    ensures var h := HeaderFor(|pcm|, sampleRate);
            && h.riffSize == |PcmToWav(pcm, sampleRate)| - 8
            && h.dataSize == |pcm|
            && h.sampleRate == sampleRate
            && h.blockAlign == h.channels * h.bitsPerSample / 8
            && h.byteRate == h.sampleRate * h.blockAlign
  {
  }
}
