/** Model of wavfile.c: the fixed 44-byte header that `read_wav` checks and
    decodes, and the sample reads of `read_data`. The file is a sequence of bytes
    and reading advances through it; the host is taken to be little-endian, as
    the field loads assume. */
module WavFile {
  import opened Results
  import Bits

  type Byte = b: int | 0 <= b < 256

  /** The four-character tags `read_wav` compares, as bytes. */
  const RiffTag: seq<Byte> := [0x52, 0x49, 0x46, 0x46]   // "RIFF"
  const WaveTag: seq<Byte> := [0x57, 0x41, 0x56, 0x45]   // "WAVE"
  const FmtTag: seq<Byte> := [0x66, 0x6D, 0x74, 0x20]    // "fmt "
  const DataTag: seq<Byte> := [0x64, 0x61, 0x74, 0x61]   // "data"

  /** Length of the header `read_wav` consumes before the samples. */
  const HeaderSize: nat := 44

  /** The decoded fields of a `WavData` (the `FILE*` is the rest of the byte sequence). */
  datatype WavData = WavData(
    fmtChunkSize: nat,
    formatTag: int,
    channels: nat,
    samplesPerSec: nat,
    avgBytesPerSec: nat,
    blockAlign: nat,
    bitsPerSample: nat,
    dataChunkSize: nat)

  datatype WavError =
    | Truncated                          // the file ends inside the header
    | SizeTooLarge(size: nat)            // `assert(size < 16)` in `read_cmp` fails
    | FormatError(expected: seq<Byte>)   // "Format error: <tag>", exit

  /** A little-endian unsigned 16-bit load. */
  function U16(b: seq<Byte>, pos: nat): (v: nat)
    requires pos + 2 <= |b|
    ensures v < 0x1_0000
  {
    b[pos] as int + 0x100 * b[pos + 1] as int
  }

  /** A little-endian signed 16-bit load (`short`). */
  function S16(b: seq<Byte>, pos: nat): (v: int)
    requires pos + 2 <= |b|
    ensures -0x8000 <= v < 0x8000
    ensures v >= 0 <==> b[pos + 1] < 0x80
  {
    var u := U16(b, pos);
    if u < 0x8000 then u else u - 0x1_0000
  }

  /** A little-endian unsigned 32-bit load. */
  function U32(b: seq<Byte>, pos: nat): (v: nat)
    requires pos + 4 <= |b|
    ensures v < 0x1_0000_0000
  {
    U16(b, pos) + 0x1_0000 * U16(b, pos + 2)
  }

  /** The little-endian bytes of an unsigned 16-bit value. */
  function LE16(v: nat): (b: seq<Byte>)
    requires v < 0x1_0000
    ensures |b| == 2 && U16(b, 0) == v
  {
    [v % 0x100, v / 0x100]
  }

  /** The little-endian bytes of a signed 16-bit value (two's complement). */
  function LE16Signed(v: int): (b: seq<Byte>)
    requires -0x8000 <= v < 0x8000
    ensures |b| == 2 && S16(b, 0) == v
  {
    LE16(if v >= 0 then v else v + 0x1_0000)
  }

  /** The little-endian bytes of an unsigned 32-bit value. */
  function LE32(v: nat): (b: seq<Byte>)
    requires v < 0x1_0000_0000
    ensures |b| == 4 && U32(b, 0) == v
  {
    var lo, hi := LE16(v % 0x1_0000), LE16(v / 0x1_0000);
    assert U16(lo + hi, 0) == U16(lo, 0) && U16(lo + hi, 2) == U16(hi, 0);
    lo + hi
  }

  /** `strncmp(a, e, n) == 0` from index `i` on, with `e` a C string: the byte past
      its end is its terminating NUL. Comparison stops at the first difference or
      at a NUL both strings share. */
  function StrnEqualFrom(a: seq<Byte>, e: seq<Byte>, i: nat, n: nat): bool
    requires n <= |a|
    decreases n - i
  {
    if i >= n then true
    else
      var c := if i < |e| then e[i] else 0;
      if a[i] != c then false
      else if a[i] == 0 then true
      else StrnEqualFrom(a, e, i + 1, n)
  }

  /** For a tag without NUL bytes at least `n` long, `strncmp` is byte equality of the first `n`. */
  lemma {:induction false} StrnEqualIsPrefixEquality(a: seq<Byte>, e: seq<Byte>, i: nat, n: nat)
    requires n <= |a| && n <= |e| && i <= n
    requires forall k :: 0 <= k < n ==> e[k] != 0
    ensures StrnEqualFrom(a, e, i, n) <==> a[i..n] == e[i..n]
    decreases n - i
  {
    if i < n {
      StrnEqualIsPrefixEquality(a, e, i + 1, n);
      assert a[i..n] == [a[i]] + a[i + 1..n];
      assert e[i..n] == [e[i]] + e[i + 1..n];
    }
  }

  /** `read_cmp(size, stream, expected)` at byte `pos`: the position after the
      `size` bytes read, or the failure. */
  function ReadCmp(b: seq<Byte>, pos: nat, size: nat, expected: seq<Byte>): (r: Result<nat, WavError>)
    ensures r.Ok? ==> r.value == pos + size && pos + size <= |b| && size < 16
    ensures size >= 16 ==> r == Err(SizeTooLarge(size))
  {
    if size >= 16 then Err(SizeTooLarge(size))
    else if pos + size > |b| then Err(Truncated)
    else if StrnEqualFrom(b[pos..pos + size], expected, 0, size) then Ok(pos + size)
    else Err(FormatError(expected))
  }

  /** `read_cmp` with one of the four tags accepts exactly the bytes of the tag. */
  lemma {:induction false} ReadCmpTag(b: seq<Byte>, pos: nat, tag: seq<Byte>)
    requires tag in {RiffTag, WaveTag, FmtTag, DataTag}
    requires pos + 4 <= |b|
    ensures ReadCmp(b, pos, 4, tag).Ok? <==> b[pos..pos + 4] == tag
    ensures ReadCmp(b, pos, 4, tag).Err? ==> ReadCmp(b, pos, 4, tag) == Err(FormatError(tag))
  {
    StrnEqualIsPrefixEquality(b[pos..pos + 4], tag, 0, 4);
    assert b[pos..pos + 4][0..4] == b[pos..pos + 4];
    assert tag[0..4] == tag;
  }

  /** An opened WAV file: the header fields and the bytes after the header. */
  datatype Opened = Opened(header: WavData, data: seq<Byte>)

  /** The fields at their fixed offsets in the 44-byte header. */
  function DecodeFields(b: seq<Byte>): WavData
    requires |b| >= HeaderSize
  {
    WavData(U32(b, 16), S16(b, 20), U16(b, 22), U32(b, 24), U32(b, 28), U16(b, 32), U16(b, 34), U32(b, 40))
  }

  /** The header bytes of a file that ends inside `dataChunkSize` (bytes 40-43):
      the bytes present, then zeros for the ones `fread` could not fill. */
  function PadHeader(b: seq<Byte>): (p: seq<Byte>)
    requires |b| >= 40
    ensures |p| >= HeaderSize && |p| >= |b|
    ensures forall k :: 0 <= k < |b| ==> p[k] == b[k]
    ensures |b| >= HeaderSize ==> p == b
  {
    if |b| >= HeaderSize then b else b + seq(HeaderSize - |b|, _ => 0)
  }

  /** `read_wav`: the tags in file order, the RIFF size skipped, the fields loaded
      without any check, and the file positioned after byte 43. The last load is
      the one short read the C survives: `Fread` exits only on a read error, and
      `fread` stopping at the end of the file is not one, so a file of 40 to 43
      bytes with its tags in place opens with no data. */
  function ReadWav(b: seq<Byte>): (r: Result<Opened, WavError>)
  {
    var p0 :- ReadCmp(b, 0, 4, RiffTag);
    if |b| < 8 then Err(Truncated)
    else
      var p1 :- ReadCmp(b, 8, 4, WaveTag);
      var p2 :- ReadCmp(b, 12, 4, FmtTag);
      if |b| < 36 then Err(Truncated)
      else
        var p3 :- ReadCmp(b, 36, 4, DataTag);
        Ok(Opened(DecodeFields(PadHeader(b)), if |b| < HeaderSize then [] else b[HeaderSize..]))
  }

  predicate TagsMatch(b: seq<Byte>)
    requires |b| >= 40
  {
    b[0..4] == RiffTag && b[8..12] == WaveTag && b[12..16] == FmtTag && b[36..40] == DataTag
  }

  /** A file opens exactly when it reaches byte 39 and the four tags sit at bytes
      0, 8, 12 and 36; it then yields the fields at their offsets and the bytes
      from 44 on. The first tag that is present but wrong is the error reported;
      a file ending before byte 40 is always an error. */
  lemma {:induction false} ReadWavAccepts(b: seq<Byte>)
    ensures ReadWav(b).Ok? <==> |b| >= 40 && TagsMatch(b)
    ensures ReadWav(b).Ok? ==> ReadWav(b) == Ok(Opened(DecodeFields(PadHeader(b)), if |b| < HeaderSize then [] else b[HeaderSize..]))
    ensures |b| >= 4 && b[0..4] != RiffTag ==> ReadWav(b) == Err(FormatError(RiffTag))
    ensures |b| >= 12 && b[0..4] == RiffTag && b[8..12] != WaveTag ==> ReadWav(b) == Err(FormatError(WaveTag))
    ensures |b| >= 16 && b[0..4] == RiffTag && b[8..12] == WaveTag && b[12..16] != FmtTag ==> ReadWav(b) == Err(FormatError(FmtTag))
    ensures |b| >= 40 && b[0..4] == RiffTag && b[8..12] == WaveTag && b[12..16] == FmtTag && b[36..40] != DataTag
            ==> ReadWav(b) == Err(FormatError(DataTag))
    ensures |b| < 40 ==> ReadWav(b).Err? && ReadWav(b).error in {Truncated, FormatError(RiffTag), FormatError(WaveTag), FormatError(FmtTag)}
  {
    if |b| >= 4 { ReadCmpTag(b, 0, RiffTag); }
    if |b| >= 12 { ReadCmpTag(b, 8, WaveTag); }
    if |b| >= 16 { ReadCmpTag(b, 12, FmtTag); }
    if |b| >= 40 { ReadCmpTag(b, 36, DataTag); }
  }

  /** Two files agreeing on the header bytes other than 4-7. */
  predicate SameHeaderBytes(b: seq<Byte>, c: seq<Byte>)
    requires |b| >= HeaderSize && |c| >= HeaderSize
  {
    forall k :: 0 <= k < HeaderSize && !(4 <= k < 8) ==> b[k] == c[k]
  }

  /** The header bytes other than 4-7 decide the fields and the tags. */
  lemma {:induction false} HeaderDecidedBy(b: seq<Byte>, c: seq<Byte>)
    requires |b| >= HeaderSize && |c| >= HeaderSize && SameHeaderBytes(b, c)
    ensures DecodeFields(b) == DecodeFields(c)
    ensures TagsMatch(b) <==> TagsMatch(c)
  {
    assert b[0..4] == c[0..4] && b[8..12] == c[8..12] && b[12..16] == c[12..16] && b[36..40] == c[36..40];
  }

  /** The RIFF size in bytes 4-7 is never looked at: files differing only there open alike. */
  lemma {:induction false} RiffSizeIgnored(b: seq<Byte>, c: seq<Byte>)
    requires |b| == |c| && |b| >= 8
    requires b[..4] == c[..4] && b[8..] == c[8..]
    ensures ReadWav(b) == ReadWav(c)
  {
    forall k | 8 <= k < |b| ensures b[k] == c[k] { assert b[k] == b[8..][k - 8]; }
    forall k | 0 <= k < 4 ensures b[k] == c[k] { assert b[k] == b[..4][k]; }
    SameTagRead(b, c, 0, RiffTag);
    SameTagRead(b, c, 8, WaveTag);
    SameTagRead(b, c, 12, FmtTag);
    SameTagRead(b, c, 36, DataTag);
    if |b| >= 40 {
      var pb, pc := PadHeader(b), PadHeader(c);
      assert SameHeaderBytes(pb, pc) by {
        forall k | 0 <= k < HeaderSize && !(4 <= k < 8) ensures pb[k] == pc[k] {
          if k >= |b| { assert pb == b + seq(HeaderSize - |b|, _ => 0) && pc == c + seq(HeaderSize - |c|, _ => 0); }
        }
      }
      HeaderDecidedBy(pb, pc);
      assert |b| >= HeaderSize ==> b[HeaderSize..] == c[HeaderSize..];
    }
  }

  /** `read_cmp` of a tag at `pos` sees only the four bytes there and the file length. */
  lemma {:induction false} SameTagRead(b: seq<Byte>, c: seq<Byte>, pos: nat, tag: seq<Byte>)
    requires |b| == |c|
    requires forall k :: pos <= k < pos + 4 && k < |b| ==> b[k] == c[k]
    ensures ReadCmp(b, pos, 4, tag) == ReadCmp(c, pos, 4, tag)
  {
    if pos + 4 <= |b| {
      assert b[pos..pos + 4] == c[pos..pos + 4];
    }
  }

  /** A header whose fields fit their widths (signed 16 bits for the format tag). */
  predicate Encodable(h: WavData) {
    h.fmtChunkSize < 0x1_0000_0000 && -0x8000 <= h.formatTag < 0x8000 && h.channels < 0x1_0000
    && h.samplesPerSec < 0x1_0000_0000 && h.avgBytesPerSec < 0x1_0000_0000
    && h.blockAlign < 0x1_0000 && h.bitsPerSample < 0x1_0000 && h.dataChunkSize < 0x1_0000_0000
  }

  /** Byte `i` of the canonical 44-byte PCM header of the WAVE form carrying `h`,
      with `riffSize` in bytes 4-7: each field at its fixed offset. */
  function HeaderByte(h: WavData, riffSize: nat, i: nat): Byte
    requires Encodable(h) && riffSize < 0x1_0000_0000 && i < HeaderSize
  {
    if i < 4 then RiffTag[i]
    else if i < 8 then LE32(riffSize)[i - 4]
    else if i < 12 then WaveTag[i - 8]
    else if i < 16 then FmtTag[i - 12]
    else if i < 20 then LE32(h.fmtChunkSize)[i - 16]
    else if i < 22 then LE16Signed(h.formatTag)[i - 20]
    else if i < 24 then LE16(h.channels)[i - 22]
    else if i < 28 then LE32(h.samplesPerSec)[i - 24]
    else if i < 32 then LE32(h.avgBytesPerSec)[i - 28]
    else if i < 34 then LE16(h.blockAlign)[i - 32]
    else if i < 36 then LE16(h.bitsPerSample)[i - 34]
    else if i < 40 then DataTag[i - 36]
    else LE32(h.dataChunkSize)[i - 40]
  }

  /** The canonical 44-byte PCM header carrying `h`. */
  function EncodeHeader(h: WavData, riffSize: nat): (b: seq<Byte>)
    requires Encodable(h) && riffSize < 0x1_0000_0000
    ensures |b| == HeaderSize
  {
    seq(HeaderSize, i requires 0 <= i < HeaderSize => HeaderByte(h, riffSize, i))
  }

  /** The bytes `pos ..` of the encoded header are `c` when the layout puts them there. */
  lemma {:induction false} HeaderSlice(h: WavData, riffSize: nat, pos: nat, c: seq<Byte>)
    requires Encodable(h) && riffSize < 0x1_0000_0000 && pos + |c| <= HeaderSize
    requires forall k :: 0 <= k < |c| ==> HeaderByte(h, riffSize, pos + k) == c[k]
    ensures EncodeHeader(h, riffSize)[pos..pos + |c|] == c
  {
  }

  lemma {:induction false} U16Slice(b: seq<Byte>, pos: nat, c: seq<Byte>)
    requires pos + 2 <= |b| && b[pos..pos + 2] == c
    ensures U16(b, pos) == U16(c, 0) && S16(b, pos) == S16(c, 0)
  {
    assert b[pos] == c[0] && b[pos + 1] == c[1];
  }

  lemma {:induction false} U32Slice(b: seq<Byte>, pos: nat, c: seq<Byte>)
    requires pos + 4 <= |b| && b[pos..pos + 4] == c
    ensures U32(b, pos) == U32(c, 0)
  {
    assert b[pos] == c[0] && b[pos + 1] == c[1] && b[pos + 2] == c[2] && b[pos + 3] == c[3];
  }

  lemma {:induction false} U16At(b: seq<Byte>, pos: nat, c: seq<Byte>)
    requires pos + 2 <= |b| && |c| == 2 && b[pos] == c[0] && b[pos + 1] == c[1]
    ensures U16(b, pos) == U16(c, 0) && S16(b, pos) == S16(c, 0)
  {
  }

  /** The encoded header decodes to the fields it carries and has the four tags in place. */
  lemma {:induction false} EncodeHeaderDecodes(h: WavData, riffSize: nat)
    requires Encodable(h) && riffSize < 0x1_0000_0000
    ensures TagsMatch(EncodeHeader(h, riffSize))
    ensures DecodeFields(EncodeHeader(h, riffSize)) == h
  {
    var e := EncodeHeader(h, riffSize);
    assert TagsMatch(e) by {
      HeaderSlice(h, riffSize, 0, RiffTag);
      HeaderSlice(h, riffSize, 8, WaveTag);
      HeaderSlice(h, riffSize, 12, FmtTag);
      HeaderSlice(h, riffSize, 36, DataTag);
    }
    assert U32(e, 16) == h.fmtChunkSize by {
      HeaderSlice(h, riffSize, 16, LE32(h.fmtChunkSize));
      U32Slice(e, 16, LE32(h.fmtChunkSize));
    }
    assert S16(e, 20) == h.formatTag by {
      HeaderSlice(h, riffSize, 20, LE16Signed(h.formatTag));
      U16Slice(e, 20, LE16Signed(h.formatTag));
    }
    assert U16(e, 22) == h.channels by {
      HeaderSlice(h, riffSize, 22, LE16(h.channels));
      U16Slice(e, 22, LE16(h.channels));
    }
    assert U32(e, 24) == h.samplesPerSec by {
      HeaderSlice(h, riffSize, 24, LE32(h.samplesPerSec));
      U32Slice(e, 24, LE32(h.samplesPerSec));
    }
    assert U32(e, 28) == h.avgBytesPerSec by {
      HeaderSlice(h, riffSize, 28, LE32(h.avgBytesPerSec));
      U32Slice(e, 28, LE32(h.avgBytesPerSec));
    }
    assert U16(e, 32) == h.blockAlign by {
      HeaderSlice(h, riffSize, 32, LE16(h.blockAlign));
      U16Slice(e, 32, LE16(h.blockAlign));
    }
    assert U16(e, 34) == h.bitsPerSample by {
      HeaderSlice(h, riffSize, 34, LE16(h.bitsPerSample));
      U16Slice(e, 34, LE16(h.bitsPerSample));
    }
    assert U32(e, 40) == h.dataChunkSize by {
      HeaderSlice(h, riffSize, 40, LE32(h.dataChunkSize));
      U32Slice(e, 40, LE32(h.dataChunkSize));
    }
  }

  /** Round trip: an encoded header followed by any samples opens to the same
      fields and exactly those samples, whatever the RIFF size says and whatever
      `fmtChunkSize` says. */
  lemma {:induction false} EncodeReadRoundTrip(h: WavData, riffSize: nat, data: seq<Byte>)
    requires Encodable(h) && riffSize < 0x1_0000_0000
    ensures ReadWav(EncodeHeader(h, riffSize) + data) == Ok(Opened(h, data))
  {
    var e := EncodeHeader(h, riffSize);
    var b := e + data;
    EncodeHeaderDecodes(h, riffSize);
    assert SameHeaderBytes(b, e);
    HeaderDecidedBy(b, e);
    ReadWavAccepts(b);
    assert b[HeaderSize..] == data;
  }

  /** A header announcing a longer `fmt ` chunk (18 bytes, with the extension size)
      is rejected even though it is well formed: `read_wav` looks for `data` at
      byte 36 instead of skipping `fmtChunkSize` bytes. */
  lemma {:induction false} ExtendedFmtRejected(h: WavData, riffSize: nat, data: seq<Byte>)
    requires Encodable(h) && riffSize < 0x1_0000_0000 && h.fmtChunkSize == 18
    ensures ReadWav(Extended(h, riffSize) + data) == Err(FormatError(DataTag))
  {
    var b := Extended(h, riffSize) + data;
    ReadCmpTag(b, 0, RiffTag);
    ReadCmpTag(b, 8, WaveTag);
    ReadCmpTag(b, 12, FmtTag);
    ReadCmpTag(b, 36, DataTag);
    assert b[36] == 0;
  }

  /** The header with a two-byte zero extension after the 16 fmt bytes. */
  function Extended(h: WavData, riffSize: nat): (b: seq<Byte>)
    requires Encodable(h) && riffSize < 0x1_0000_0000
    ensures |b| == HeaderSize + 2
    ensures b[0..4] == RiffTag && b[8..12] == WaveTag && b[12..16] == FmtTag && b[36] == 0
  {
    var e := EncodeHeader(h, riffSize);
    var b := e[..36] + [0, 0] + e[36..];
    EncodeHeaderDecodes(h, riffSize);
    assert forall k :: 0 <= k < 36 ==> b[k] == e[k];
    assert b[0..4] == e[0..4] && b[8..12] == e[8..12] && b[12..16] == e[12..16];
    b
  }

  /** What one `read_data(wav, buf, size)` call gives: the sample count it returns,
      the samples now at the front of `buf`, and the unread bytes. */
  datatype Read = Read(count: nat, samples: seq<int>, rest: seq<Byte>)

  /** The bytes of a signed 16-bit load, written back little-endian, are the bytes loaded. */
  lemma {:induction false} LE16SignedOfLoad(b: seq<Byte>, pos: nat)
    requires pos + 2 <= |b|
    ensures LE16Signed(S16(b, pos)) == b[pos..pos + 2]
  {
    var u := U16(b, pos);
    assert (if S16(b, pos) >= 0 then S16(b, pos) else S16(b, pos) + 0x1_0000) == u;
    Bits.DivModUnique(u, 0x100, b[pos + 1], b[pos]);
  }

  /** The first `count` signed 16-bit samples of `b`. */
  function Samples(b: seq<Byte>, count: nat): (s: seq<int>)
    requires 2 * count <= |b|
    ensures |s| == count
    ensures forall i :: 0 <= i < count ==> s[i] == S16(b, 2 * i)
  {
    seq(count, i requires 0 <= i < count => S16(b, 2 * i))
  }

  /** The first `n` samples are the first `m` followed by the `n - m` that start at byte `2 * m`. */
  lemma {:induction false} SamplesSplit(b: seq<Byte>, n: nat, m: nat)
    requires m <= n && 2 * n <= |b|
    ensures Samples(b, n) == Samples(b, m) + Samples(b[2 * m..], n - m)
  {
    var l, r := Samples(b, m), Samples(b[2 * m..], n - m);
    forall i | m <= i < n
      ensures r[i - m] == S16(b, 2 * i)
    {
      assert b[2 * m..][2 * (i - m)] == b[2 * i] && b[2 * m..][2 * (i - m) + 1] == b[2 * i + 1];
    }
    assert Samples(b, n) == l + r;
  }

  /** `read_data`: `fread` takes up to `2 * size` bytes and the call returns the
      number of whole samples among them. */
  function ReadData(stream: seq<Byte>, size: nat): (r: Read)
    ensures r.count <= size && 2 * r.count <= |stream|
    ensures r.count == size <==> |stream| >= 2 * size
    ensures r.count < size ==> |r.rest| == 0 && |stream| - 2 * r.count <= 1
    ensures r.count == size ==> r.rest == stream[2 * size..]
    ensures r.samples == Samples(stream, r.count)
    ensures r.count == 0 <==> size == 0 || |stream| <= 1
  {
    var bytes := if |stream| < 2 * size then |stream| else 2 * size;
    Read(bytes / 2, Samples(stream, bytes / 2), stream[bytes..])
  }

  /** The bytes of some 16-bit samples, little-endian. */
  function EncodeSamples(s: seq<int>): (b: seq<Byte>)
    requires forall i :: 0 <= i < |s| ==> -0x8000 <= s[i] < 0x8000
    ensures |b| == 2 * |s|
  {
    if |s| == 0 then [] else LE16Signed(s[0]) + EncodeSamples(s[1..])
  }

  /** Writing back the samples `read_data` loads gives the bytes they were loaded from:
      every byte of the `2 * count` read is accounted for. */
  lemma {:induction false} EncodeOfSamples(b: seq<Byte>, count: nat)
    requires 2 * count <= |b|
    ensures EncodeSamples(Samples(b, count)) == b[..2 * count]
    decreases count
  {
    if count > 0 {
      var s := Samples(b, count);
      SamplesSplit(b, count, 1);
      assert s[1..] == Samples(b[2..], count - 1);
      EncodeOfSamples(b[2..], count - 1);
      LE16SignedOfLoad(b, 0);
      assert EncodeSamples(s) == LE16Signed(s[0]) + EncodeSamples(s[1..]);
      assert b[..2 * count] == b[0..2] + b[2..][..2 * (count - 1)];
    }
  }

  /** Reading back encoded samples gives the same samples. */
  lemma {:induction false} SamplesRoundTrip(s: seq<int>, tail: seq<Byte>)
    requires forall i :: 0 <= i < |s| ==> -0x8000 <= s[i] < 0x8000
    ensures Samples(EncodeSamples(s) + tail, |s|) == s
    decreases |s|
  {
    if |s| > 0 {
      var b := EncodeSamples(s) + tail;
      var b' := EncodeSamples(s[1..]) + tail;
      SamplesRoundTrip(s[1..], tail);
      assert b == LE16Signed(s[0]) + b';
      forall i | 0 <= i < |s| ensures Samples(b, |s|)[i] == s[i] {
        if i == 0 {
          U16At(b, 0, LE16Signed(s[0]));
        } else {
          var c := b'[2 * i - 2..2 * i];
          U16At(b, 2 * i, c);
          U16At(b', 2 * i - 2, c);
          assert Samples(b', |s| - 1)[i - 1] == s[1..][i - 1];
        }
      }
    }
  }
}
