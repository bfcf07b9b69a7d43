/**
 * `convert_to_wav`: prepends the canonical 44-byte RIFF/WAVE header for mono
 * PCM to raw sample bytes, with the bit depth and sample rate read from the
 * MIME type. Every multi-byte field is little-endian; `struct.pack` raises
 * when a value does not fit its field, which the model returns as a failure.
 */
module Wav {
  import opened Wrappers
  import opened AudioMime

  type byte = b: int | 0 <= b < 256

  const Two16 := 0x1_0000
  const Two32 := 0x1_0000_0000

  /** The four-character chunk identifiers, as ASCII bytes. */
  const Riff: seq<byte> := [0x52, 0x49, 0x46, 0x46]   // "RIFF"
  const Wave: seq<byte> := [0x57, 0x41, 0x56, 0x45]   // "WAVE"
  const Fmt: seq<byte> := [0x66, 0x6D, 0x74, 0x20]    // "fmt "
  const Data: seq<byte> := [0x64, 0x61, 0x74, 0x61]   // "data"

  const HeaderSize := 44
  const FmtChunkSize := 16
  const PcmFormat := 1
  const MonoChannels := 1

  /** Why `struct.pack` refuses to build the header. */
  datatype PackError = FieldOutOfRange

  // ---------------------------------------------------------------------------
  // Little-endian fields: struct.pack "<H" and "<I", and reading them back
  // ---------------------------------------------------------------------------

  function U16(n: int): (b: seq<byte>)
    requires 0 <= n < Two16
    ensures |b| == 2
  {
    [n % 256, n / 256]
  }

  function U32(n: int): (b: seq<byte>)
    requires 0 <= n < Two32
    ensures |b| == 4
  {
    U16(n % Two16) + U16(n / Two16)
  }

  function ReadU16(b: seq<byte>, at: nat): int
    requires at + 2 <= |b|
  {
    var lo: int := b[at];
    var hi: int := b[at + 1];
    lo + 256 * hi
  }

  function ReadU32(b: seq<byte>, at: nat): int
    requires at + 4 <= |b|
  {
    ReadU16(b, at) + Two16 * ReadU16(b, at + 2)
  }

  lemma ReadU16Bounds(b: seq<byte>, at: nat)
    requires at + 2 <= |b|
    ensures 0 <= ReadU16(b, at) < Two16
  {
  }

  lemma ReadU32Bounds(b: seq<byte>, at: nat)
    requires at + 4 <= |b|
    ensures 0 <= ReadU32(b, at) < Two32
  {
    ReadU16Bounds(b, at);
    ReadU16Bounds(b, at + 2);
  }

  /** Reading back a 16-bit field gives the value written. */
  lemma U16RoundTrip(n: int)
    requires 0 <= n < Two16
    ensures ReadU16(U16(n), 0) == n
  {
  }

  /** Reading back a 32-bit field gives the value written. */
  lemma U32RoundTrip(n: int)
    requires 0 <= n < Two32
    ensures ReadU32(U32(n), 0) == n
  {
    U16RoundTrip(n % Two16);
    U16RoundTrip(n / Two16);
    assert U32(n)[2..] == U16(n / Two16);
  }

  /** Any two bytes are the 16-bit encoding of what they read as. */
  lemma U16OfRead(b: seq<byte>, at: nat)
    requires at + 2 <= |b|
    ensures 0 <= ReadU16(b, at) < Two16 && U16(ReadU16(b, at)) == b[at..at + 2]
  {
  }

  /** Any four bytes are the 32-bit encoding of what they read as. */
  lemma U32OfRead(b: seq<byte>, at: nat)
    requires at + 4 <= |b|
    ensures 0 <= ReadU32(b, at) < Two32 && U32(ReadU32(b, at)) == b[at..at + 4]
  {
    var lo, hi := ReadU16(b, at), ReadU16(b, at + 2);
    ReadU16Bounds(b, at);
    ReadU16Bounds(b, at + 2);
    var n := lo + Two16 * hi;
    assert n % Two16 == lo && n / Two16 == hi;
    U16OfRead(b, at);
    U16OfRead(b, at + 2);
  }

  // ---------------------------------------------------------------------------
  // The header
  // ---------------------------------------------------------------------------

  /** `bits_per_sample // 8`: whole bytes per sample, which is also the block align of one channel. */
  function BytesPerSample(p: AudioParams): int
  {
    p.bitsPerSample / 8
  }

  /** Every value fits its field, which is exactly when `struct.pack("<4sI4s4sIHHIIHH4sI", ...)` succeeds. */
  predicate FieldsFit(p: AudioParams, dataLength: nat)
  {
    && 0 <= p.rate < Two32
    && 0 <= p.bitsPerSample < Two16
    && 0 <= p.rate * BytesPerSample(p) < Two32
    && 36 + dataLength < Two32
  }

  /** The 44 header bytes. */
  function Header(p: AudioParams, dataLength: nat): (h: seq<byte>)
    requires FieldsFit(p, dataLength)
  {
    Riff + U32(36 + dataLength) + Wave
    + Fmt + U32(FmtChunkSize) + U16(PcmFormat) + U16(MonoChannels)
    + U32(p.rate) + U32(p.rate * BytesPerSample(p)) + U16(BytesPerSample(p)) + U16(p.bitsPerSample)
    + Data + U32(dataLength)
  }

  /**
   * The canonical PCM layout, field by field, as a reader of the file sees it:
   * `b`'s first 44 bytes describe mono PCM with parameters `p` and `dataLength`
   * bytes of samples.
   */
  predicate IsCanonicalHeader(b: seq<byte>, p: AudioParams, dataLength: nat)
  {
    && |b| >= HeaderSize
    && b[0..4] == Riff
    && ReadU32(b, 4) == 36 + dataLength
    && b[8..12] == Wave
    && b[12..16] == Fmt
    && ReadU32(b, 16) == FmtChunkSize
    && ReadU16(b, 20) == PcmFormat
    && ReadU16(b, 22) == MonoChannels
    && ReadU32(b, 24) == p.rate
    && ReadU32(b, 28) == p.rate * BytesPerSample(p)
    && ReadU16(b, 32) == BytesPerSample(p)
    && ReadU16(b, 34) == p.bitsPerSample
    && b[36..40] == Data
    && ReadU32(b, 40) == dataLength
  }

  /** The header followed by the samples. */
  function WavFile(p: AudioParams, data: seq<byte>): seq<byte>
    requires FieldsFit(p, |data|)
  {
    Header(p, |data|) + data
  }

  /** The header `Header` builds has the canonical layout. */
  lemma HeaderLayout(p: AudioParams, dataLength: nat)
    requires FieldsFit(p, dataLength)
    ensures |Header(p, dataLength)| == HeaderSize
    ensures IsCanonicalHeader(Header(p, dataLength), p, dataLength)
  {
    var h := Header(p, dataLength);
    U32RoundTrip(36 + dataLength);
    U32RoundTrip(FmtChunkSize);
    U16RoundTrip(PcmFormat);
    U16RoundTrip(MonoChannels);
    U32RoundTrip(p.rate);
    U32RoundTrip(p.rate * BytesPerSample(p));
    U16RoundTrip(BytesPerSample(p));
    U16RoundTrip(p.bitsPerSample);
    U32RoundTrip(dataLength);
    assert h[4..8] == U32(36 + dataLength);
    assert h[16..20] == U32(FmtChunkSize);
    assert h[20..22] == U16(PcmFormat);
    assert h[22..24] == U16(MonoChannels);
    assert h[24..28] == U32(p.rate);
    assert h[28..32] == U32(p.rate * BytesPerSample(p));
    assert h[32..34] == U16(BytesPerSample(p));
    assert h[34..36] == U16(p.bitsPerSample);
    assert h[40..44] == U32(dataLength);
    ReadAt32(h, 4);
    ReadAt32(h, 16);
    ReadAt16(h, 20);
    ReadAt16(h, 22);
    ReadAt32(h, 24);
    ReadAt32(h, 28);
    ReadAt16(h, 32);
    ReadAt16(h, 34);
    ReadAt32(h, 40);
  }

  /** Reading a field in place is reading its own bytes. */
  lemma ReadAt16(b: seq<byte>, at: nat)
    requires at + 2 <= |b|
    ensures ReadU16(b, at) == ReadU16(b[at..at + 2], 0)
  {
  }

  lemma ReadAt32(b: seq<byte>, at: nat)
    requires at + 4 <= |b|
    ensures ReadU32(b, at) == ReadU32(b[at..at + 4], 0)
  {
  }

  /**
   * `convert_to_wav(audio_data, mime_type)`: the samples behind the header for
   * the parameters the MIME type gives, or the error `struct.pack` raises.
   */
  function ConvertToWav(data: seq<byte>, mime: string): (r: Result<seq<byte>, PackError>)
    ensures r.Success? <==> FieldsFit(MimeParams(mime), |data|)
    ensures r.Success? ==> |r.value| == HeaderSize + |data| && r.value[HeaderSize..] == data
    ensures r.Success? ==> IsCanonicalHeader(r.value, MimeParams(mime), |data|)
  {
    var p := MimeParams(mime);
    if FieldsFit(p, |data|) then
      HeaderLayout(p, |data|);
      var w := WavFile(p, data);
      assert w[..HeaderSize] == Header(p, |data|);
      CanonicalPrefix(w, HeaderSize, p, |data|);
      Success(w)
    else
      Failure(FieldOutOfRange)
  }

  /** The layout speaks only of the first 44 bytes. */
  lemma CanonicalPrefix(b: seq<byte>, n: nat, p: AudioParams, dataLength: nat)
    requires HeaderSize <= n <= |b|
    requires IsCanonicalHeader(b[..n], p, dataLength)
    ensures IsCanonicalHeader(b, p, dataLength)
  {
    var c := b[..n];
    assert b[0..4] == c[0..4] && b[8..12] == c[8..12] && b[12..16] == c[12..16] && b[36..40] == c[36..40];
  }

  // ---------------------------------------------------------------------------
  // Reading a file back
  // ---------------------------------------------------------------------------

  /**
   * A reader for the files `convert_to_wav` writes: the parameters and the
   * samples of `b`, when `b` is a canonical mono PCM file whose sizes agree
   * with its length.
   */
  function DecodeWav(b: seq<byte>): Option<(AudioParams, seq<byte>)>
  {
    if |b| < HeaderSize then None
    else
      var p := AudioParams(ReadU16(b, 34), ReadU32(b, 24));
      if IsCanonicalHeader(b, p, |b| - HeaderSize) then Some((p, b[HeaderSize..])) else None
  }

  /** Decoding a WAV file gives back the parameters and the samples it was built from. */
  lemma DecodeWavFile(p: AudioParams, data: seq<byte>)
    requires FieldsFit(p, |data|)
    ensures DecodeWav(WavFile(p, data)) == Some((p, data))
  {
    var w := WavFile(p, data);
    HeaderLayout(p, |data|);
    assert w[..HeaderSize] == Header(p, |data|);
    CanonicalPrefix(w, HeaderSize, p, |data|);
    assert w[HeaderSize..] == data;
  }

  /** A slice is its two halves, concatenated. */
  lemma SliceSplit(b: seq<byte>, i: nat, j: nat, k: nat)
    requires i <= j <= k <= |b|
    ensures b[i..k] == b[i..j] + b[j..k]
  {
  }

  /** A canonical header is, byte for byte, the header `Header` builds from its fields. */
  lemma HeaderFromFields(b: seq<byte>, p: AudioParams, dataLength: nat)
    requires IsCanonicalHeader(b, p, dataLength) && FieldsFit(p, dataLength)
    ensures Header(p, dataLength) == b[..HeaderSize]
  {
    U32OfRead(b, 4);
    U32OfRead(b, 16);
    U16OfRead(b, 20);
    U16OfRead(b, 22);
    U32OfRead(b, 24);
    U32OfRead(b, 28);
    U16OfRead(b, 32);
    U16OfRead(b, 34);
    U32OfRead(b, 40);
    SliceSplit(b, 0, 4, 8);
    SliceSplit(b, 0, 8, 12);
    SliceSplit(b, 0, 12, 16);
    SliceSplit(b, 0, 16, 20);
    SliceSplit(b, 0, 20, 22);
    SliceSplit(b, 0, 22, 24);
    SliceSplit(b, 0, 24, 28);
    SliceSplit(b, 0, 28, 32);
    SliceSplit(b, 0, 32, 34);
    SliceSplit(b, 0, 34, 36);
    SliceSplit(b, 0, 36, 40);
    SliceSplit(b, 0, 40, 44);
    assert b[..HeaderSize] == b[0..44];
  }

  /** Whatever the decoder accepts is exactly the file the encoder builds from what it returns. */
  lemma DecodedIsWavFile(b: seq<byte>)
    requires DecodeWav(b).Some?
    ensures FieldsFit(DecodeWav(b).value.0, |DecodeWav(b).value.1|)
    ensures WavFile(DecodeWav(b).value.0, DecodeWav(b).value.1) == b
  {
    var (p, data) := DecodeWav(b).value;
    assert IsCanonicalHeader(b, p, |data|);
    ReadU32Bounds(b, 4);
    ReadU32Bounds(b, 24);
    ReadU32Bounds(b, 28);
    ReadU16Bounds(b, 34);
    HeaderFromFields(b, p, |data|);
    assert b == b[..HeaderSize] + b[HeaderSize..];
  }

  /**
   * What `convert_to_wav` produces decodes to the rate and bit depth
   * `parse_audio_mime_type` read from the MIME type, followed by the samples.
   */
  lemma ConvertThenDecode(data: seq<byte>, mime: string)
    requires ConvertToWav(data, mime).Success?
    ensures DecodeWav(ConvertToWav(data, mime).value) == Some((MimeParams(mime), data))
  {
    DecodeWavFile(MimeParams(mime), data);
  }

  /** The generator's MIME type gives 24000 Hz, 16-bit mono: a byte rate of 48000 and a block align of 2. */
  lemma GeneratorHeader(data: seq<byte>, mime: string)
    requires mime == "audio/L16;rate=24000"
    requires 36 + |data| < Two32
    ensures ConvertToWav(data, mime).Success?
    ensures ReadU32(ConvertToWav(data, mime).value, 24) == 24000
    ensures ReadU32(ConvertToWav(data, mime).value, 28) == 48000
    ensures ReadU16(ConvertToWav(data, mime).value, 32) == 2
    ensures ReadU16(ConvertToWav(data, mime).value, 34) == 16
  {
    GeneratorMimeType();
    var p := MimeParams(mime);
    assert p == AudioParams(16, 24000);
    assert BytesPerSample(p) == 2;
  }
}
