/**
 * `PcmWavRecorder.writeWavFile`: PCM bytes from the microphone are streamed
 * after 44 reserved header bytes, then the header is patched in place with
 * `RandomAccessFile.seek` / `writeInt` / `writeShort`. Java's 32-bit `int`
 * arithmetic and the byte orders of `writeInt` and `Integer.reverseBytes`
 * are written out.
 */
module PcmWav {
  import opened Results

  // ---------------------------------------------------------- Java integers

  type Byte = b: int | 0 <= b < 0x100
  /** Java `int`. */
  type Int32 = x: int | -0x8000_0000 <= x < 0x8000_0000
  /** Java `short`. */
  type Int16 = x: int | -0x8000 <= x < 0x8000

  const Two32: int := 0x1_0000_0000
  const Two16: int := 0x1_0000

  /** Two's-complement wrap-around of Java `int` arithmetic. */
  function ToInt32(x: int): (r: Int32)
    ensures (r - x) % Two32 == 0
  {
    var u := x % Two32;
    if u >= 0x8000_0000 then u - Two32 else u
  }

  /** The 32 bits of an `int`, read as an unsigned number. */
  function Unsigned32(v: Int32): (u: nat)
    ensures u < Two32 && (u - v) % Two32 == 0
  {
    if v < 0 then v + Two32 else v
  }

  function Unsigned16(v: Int16): (u: nat)
    ensures u < Two16 && (u - v) % Two16 == 0
  {
    if v < 0 then v + Two16 else v
  }

  /** Wrapping once or after every step gives the same `int`. */
  lemma WrapAdd(a: int, b: int)
    ensures ToInt32(ToInt32(a) + b) == ToInt32(a + b)
  {
    var k := (ToInt32(a) - a) / Two32;
    assert ToInt32(a) + b == (a + b) + k * Two32;
  }

  /** An `int` is its own unsigned bit pattern modulo 2^32. */
  lemma UnsignedOfWrap(x: int)
    ensures Unsigned32(ToInt32(x)) == x % Two32
  {
  }

  /** Division by 256 splits off the low byte, and only that. */
  lemma ByteSplit(n: nat)
    ensures n == (n / 0x100) * 0x100 + n % 0x100 && 0 <= n % 0x100 < 0x100
  {
  }

  lemma ByteJoin(q: nat, r: nat)
    requires r < 0x100
    ensures (q * 0x100 + r) / 0x100 == q && (q * 0x100 + r) % 0x100 == r
  {
  }

  /** The byte order `DataOutput.writeInt` uses: most significant first. */
  function BigEndian32(u: nat): (bs: seq<Byte>)
    requires u < Two32
    ensures |bs| == 4 && FromBigEndian32(bs) == u
  {
    var q1 := u / 0x100; var q2 := q1 / 0x100;
    ByteSplit(u); ByteSplit(q1); ByteSplit(q2);
    [q2 / 0x100, q2 % 0x100, q1 % 0x100, u % 0x100]
  }

  function FromBigEndian32(bs: seq<Byte>): (u: nat)
    requires |bs| == 4
    ensures u < Two32
  {
    (bs[0] as int) * 0x100_0000 + (bs[1] as int) * 0x1_0000 + (bs[2] as int) * 0x100 + bs[3]
  }

  /** Least significant byte first, as the RIFF format stores its numbers. */
  function LittleEndian32(u: nat): (bs: seq<Byte>)
    requires u < Two32
    ensures |bs| == 4 && FromLittleEndian32(bs) == u
  {
    var q1 := u / 0x100; var q2 := q1 / 0x100;
    ByteSplit(u); ByteSplit(q1); ByteSplit(q2);
    [u % 0x100, q1 % 0x100, q2 % 0x100, q2 / 0x100]
  }

  function FromLittleEndian32(bs: seq<Byte>): (u: nat)
    requires |bs| == 4
    ensures u < Two32
  {
    bs[0] + (bs[1] as int) * 0x100 + (bs[2] as int) * 0x1_0000 + (bs[3] as int) * 0x100_0000
  }

  function BigEndian16(u: nat): (bs: seq<Byte>)
    requires u < Two16
    ensures |bs| == 2 && (bs[0] as int) * 0x100 + bs[1] == u
  {
    [u / 0x100, u % 0x100]
  }

  function LittleEndian16(u: nat): (bs: seq<Byte>)
    requires u < Two16
    ensures |bs| == 2 && FromLittleEndian16(bs) == u
  {
    [u % 0x100, u / 0x100]
  }

  function FromLittleEndian16(bs: seq<Byte>): (u: nat)
    requires |bs| == 2
    ensures u < Two16
  {
    bs[0] + (bs[1] as int) * 0x100
  }

  /** A four-byte sequence is the big-endian form of its value. */
  lemma BigEndianOfValue(bs: seq<Byte>)
    requires |bs| == 4
    ensures BigEndian32(FromBigEndian32(bs)) == bs
  {
    var u := FromBigEndian32(bs);
    var q2 := (bs[0] as int) * 0x100 + bs[1];
    var q1 := q2 * 0x100 + bs[2];
    assert u == q1 * 0x100 + bs[3];
    ByteJoin(q1, bs[3]);
    ByteJoin(q2, bs[2]);
    ByteJoin(bs[0], bs[1]);
  }

  /** A number below 2^32 survives the round trip through an `int`. */
  lemma UnsignedOfSmall(w: nat)
    requires w < Two32
    ensures Unsigned32(ToInt32(w)) == w
  {
    assert w % Two32 == w;
  }

  /** The big-endian bytes of a number, reversed, are its little-endian bytes. */
  lemma ReversedBigEndian(u: nat)
    requires u < Two32
    ensures var b := BigEndian32(u); [b[3], b[2], b[1], b[0]] == LittleEndian32(u)
  {
  }

  /**
   * `Integer.reverseBytes`: the four bytes in the opposite order, so that
   * `writeInt` of the result writes `v` little-endian.
   */
  function ReverseBytes32(v: Int32): (r: Int32)
    ensures BigEndian32(Unsigned32(r)) == LittleEndian32(Unsigned32(v))
  {
    var u := Unsigned32(v);
    var b := BigEndian32(u);
    var rev := [b[3], b[2], b[1], b[0]];
    var w := FromBigEndian32(rev);
    UnsignedOfSmall(w);
    BigEndianOfValue(rev);
    ReversedBigEndian(u);
    ToInt32(w)
  }

  /** `Short.reverseBytes`, so that `writeShort` of the result writes `v` little-endian. */
  function ReverseBytes16(v: Int16): (r: Int16)
    ensures BigEndian16(Unsigned16(r)) == LittleEndian16(Unsigned16(v))
  {
    var u := Unsigned16(v);
    var w := (u % 0x100) * 0x100 + u / 0x100;
    if w >= 0x8000 then w - Two16 else w
  }

  // --------------------------------------------------------------- WAV layout

  function Zeros(k: nat): (z: seq<Byte>)
    ensures |z| == k && forall i :: 0 <= i < k ==> z[i] == 0
  {
    seq(k, _ => 0)
  }

  const SampleRate: nat := 16000
  /** Size of the reserved header, and offset of the first PCM byte. */
  const HeaderSize: nat := 44

  const RiffTag: seq<Byte> := [0x52, 0x49, 0x46, 0x46]   // "RIFF"
  const WaveTag: seq<Byte> := [0x57, 0x41, 0x56, 0x45]   // "WAVE"
  const FmtTag: seq<Byte> := [0x66, 0x6d, 0x74, 0x20]    // "fmt "
  const DataTag: seq<Byte> := [0x64, 0x61, 0x74, 0x61]   // "data"

  /** The header fields a RIFF/WAVE reader takes from a file, and the samples after them. */
  datatype WavInfo = WavInfo(
    chunkSize: nat, audioFormat: nat, channels: nat, sampleRate: nat,
    byteRate: nat, blockAlign: nat, bitsPerSample: nat, dataSize: nat, data: seq<Byte>)

  /** The little-endian number in the four bytes from offset `i`. */
  function Le32At(b: seq<Byte>, i: nat): nat
    requires i + 4 <= |b|
  {
    FromLittleEndian32([b[i], b[i + 1], b[i + 2], b[i + 3]])
  }

  /** The little-endian number in the two bytes from offset `i`. */
  function Le16At(b: seq<Byte>, i: nat): nat
    requires i + 2 <= |b|
  {
    FromLittleEndian16([b[i], b[i + 1]])
  }

  /** Four bytes that spell out `x` read as the number `x` encodes. */
  lemma Le32AtBytes(b: seq<Byte>, i: nat, x: seq<Byte>)
    requires i + 4 <= |b| && |x| == 4
    requires b[i] == x[0] && b[i + 1] == x[1] && b[i + 2] == x[2] && b[i + 3] == x[3]
    ensures Le32At(b, i) == FromLittleEndian32(x)
  {
    assert [b[i], b[i + 1], b[i + 2], b[i + 3]] == x;
  }

  /** The four-byte tag `tag` stands at offset `i`. */
  predicate TagAt(b: seq<Byte>, i: nat, tag: seq<Byte>)
    requires i + 4 <= |b| && |tag| == 4
  {
    b[i] == tag[0] && b[i + 1] == tag[1] && b[i + 2] == tag[2] && b[i + 3] == tag[3]
  }

  /**
   * A reader of the canonical 44-byte PCM WAVE header of the Microsoft RIFF
   * format: the RIFF, WAVE, "fmt " and "data" tags in their places and a
   * 16-byte format chunk; anything else is not a WAVE file.
   */
  function ReadWav(b: seq<Byte>): Option<WavInfo> {
    if |b| >= HeaderSize && TagAt(b, 0, RiffTag) && TagAt(b, 8, WaveTag) && TagAt(b, 12, FmtTag) &&
       Le32At(b, 16) == 16 && TagAt(b, 36, DataTag)
    then Some(WavInfo(
      Le32At(b, 4), Le16At(b, 20), Le16At(b, 22), Le32At(b, 24), Le32At(b, 28),
      Le16At(b, 32), Le16At(b, 34), Le32At(b, 40), b[HeaderSize..]))
    else None
  }

  /** The offsets `writeWavFile` patches: ChunkSize, the four fields from SampleRate on, and Subchunk2Size. */
  predicate PatchedAsWritten(i: int) {
    4 <= i < 8 || 24 <= i < 36 || 40 <= i < 44
  }

  /**
   * Byte `i` of the header `writeWavFile` leaves for `total` PCM bytes: the
   * six patched fields little-endian, the reserved zeros everywhere else.
   */
  function AsWrittenByte(total: Int32, i: nat): Byte
    requires i < HeaderSize
  {
    if 4 <= i < 8 then LittleEndian32(Unsigned32(ToInt32(36 + total)))[i - 4]    // ChunkSize
    else if 24 <= i < 28 then LittleEndian32(SampleRate)[i - 24]                 // SampleRate
    else if 28 <= i < 32 then LittleEndian32(SampleRate * 2)[i - 28]             // ByteRate
    else if 32 <= i < 34 then LittleEndian16(2)[i - 32]                          // BlockAlign
    else if 34 <= i < 36 then LittleEndian16(16)[i - 34]                         // BitsPerSample
    else if 40 <= i then LittleEndian32(Unsigned32(total))[i - 40]               // Subchunk2Size
    else 0
  }

  function AsWrittenHeader(total: Int32): (h: seq<Byte>)
    ensures |h| == HeaderSize
    ensures forall i :: 0 <= i < HeaderSize && !PatchedAsWritten(i) ==> h[i] == 0
  {
    seq(HeaderSize, i requires 0 <= i < HeaderSize => AsWrittenByte(total, i))
  }

  /** Byte `i` of the canonical header for `total` PCM bytes: 16 kHz, mono, 16-bit PCM. */
  function CanonicalByte(total: Int32, i: nat): Byte
    requires i < HeaderSize
  {
    if i < 4 then RiffTag[i]
    else if i < 8 then LittleEndian32(Unsigned32(ToInt32(36 + total)))[i - 4]   // ChunkSize
    else if i < 12 then WaveTag[i - 8]
    else if i < 16 then FmtTag[i - 12]
    else if i < 20 then LittleEndian32(16)[i - 16]                              // Subchunk1Size
    else if i < 22 then LittleEndian16(1)[i - 20]                               // AudioFormat: PCM
    else if i < 24 then LittleEndian16(1)[i - 22]                               // NumChannels: mono
    else if i < 36 then AsWrittenByte(total, i)                                 // the rate fields
    else if i < 40 then DataTag[i - 36]
    else LittleEndian32(Unsigned32(total))[i - 40]                              // Subchunk2Size
  }

  function CanonicalHeader(total: Int32): (h: seq<Byte>)
    ensures |h| == HeaderSize
  {
    seq(HeaderSize, i requires 0 <= i < HeaderSize => CanonicalByte(total, i))
  }

  // --------------------------------------------------------------- microphone

  /** One `AudioRecord.read` into the 4096-byte buffer: the bytes read, or a count that is zero or an error code. */
  datatype MicRead = Samples(bytes: seq<Byte>) | NoSamples(code: int)

  /** The bytes of the reads with a positive count, in order. */
  function Pcm(mic: seq<MicRead>): (pcm: seq<Byte>)
    ensures (forall i :: 0 <= i < |mic| ==> mic[i].NoSamples?) ==> pcm == []
    ensures forall i :: 0 <= i < |mic| && mic[i].Samples? ==> |mic[i].bytes| <= |pcm|
    decreases |mic|
  {
    if mic == [] then []
    else
      var last := mic[|mic| - 1];
      Pcm(mic[..|mic| - 1]) + (if last.Samples? then last.bytes else [])
  }

  /** Reads without samples add nothing, and the PCM data of two runs of reads is their concatenation. */
  lemma {:induction false} PcmConcat(a: seq<MicRead>, b: seq<MicRead>)
    ensures Pcm(a + b) == Pcm(a) + Pcm(b)
    decreases |b|
  {
    if b == [] {
      assert a + b == a;
    } else {
      var init, last := b[..|b| - 1], b[|b| - 1];
      assert (a + b)[..|a + b| - 1] == a + init && (a + b)[|a + b| - 1] == last;
      assert Pcm(a + b) == Pcm(a + init) + (if last.Samples? then last.bytes else []);
      assert Pcm(b) == Pcm(init) + (if last.Samples? then last.bytes else []);
      PcmConcat(a, init);
    }
  }

  // ------------------------------------------------------------ file access

  /** Byte `i` after writing `bs` at `at` over `s`: the written byte, else the old one, else a gap's zero. */
  function OverwrittenByte(s: seq<Byte>, at: nat, bs: seq<Byte>, i: nat): Byte {
    if at <= i < at + |bs| then bs[i - at] else if i < |s| then s[i] else 0
  }

  /** A write at `at`: the bytes there are replaced, a file too short grows (a gap reads as zeros). */
  function Overwrite(s: seq<Byte>, at: nat, bs: seq<Byte>): (r: seq<Byte>)
    ensures |r| == if at + |bs| > |s| then at + |bs| else |s|
    ensures forall i :: 0 <= i < |r| ==> r[i] == OverwrittenByte(s, at, bs, i)
  {
    var base := if at <= |s| then s else s + Zeros(at - |s|);
    base[..at] + bs + (if at + |bs| <= |base| then base[at + |bs|..] else [])
  }

  /** `java.io.RandomAccessFile` opened "rw" on the file: its bytes and the file pointer. */
  class RandomAccessFile {
    var bytes: seq<Byte>
    var pointer: nat

    constructor (bytes: seq<Byte>)
      ensures this.bytes == bytes && pointer == 0
    {
      this.bytes := bytes;
      pointer := 0;
    }

    method Seek(pos: nat)
      modifies this
      ensures bytes == old(bytes) && pointer == pos
    {
      pointer := pos;
    }

    method Write(bs: seq<Byte>)
      modifies this
      ensures bytes == Overwrite(old(bytes), old(pointer), bs) && pointer == old(pointer) + |bs|
    {
      bytes := Overwrite(bytes, pointer, bs);
      pointer := pointer + |bs|;
    }

    /** `writeInt`: four bytes, high byte first. */
    method WriteInt(v: Int32)
      modifies this
      ensures bytes == Overwrite(old(bytes), old(pointer), BigEndian32(Unsigned32(v)))
      ensures pointer == old(pointer) + 4
    {
      Write(BigEndian32(Unsigned32(v)));
    }

    /** `writeShort`: two bytes, high byte first. */
    method WriteShort(v: Int16)
      modifies this
      ensures bytes == Overwrite(old(bytes), old(pointer), BigEndian16(Unsigned16(v)))
      ensures pointer == old(pointer) + 2
    {
      Write(BigEndian16(Unsigned16(v)));
    }
  }

  // ------------------------------------------------------------ the writer

  /**
   * The header patch of `writeWavFile` as written: six fields at offsets 4,
   * 40, 24, 28, 32 and 34, each `reverseBytes`-ed so that it lands
   * little-endian. Every other byte of the file is left alone.
   */
  method PatchHeaderAsWritten(raf: RandomAccessFile, total: Int32)
    requires |raf.bytes| >= HeaderSize
    modifies raf
    ensures |raf.bytes| == |old(raf.bytes)|
    ensures forall i :: 0 <= i < HeaderSize && PatchedAsWritten(i) ==> raf.bytes[i] == AsWrittenHeader(total)[i]
    ensures forall i :: 0 <= i < |raf.bytes| && !PatchedAsWritten(i) ==> raf.bytes[i] == old(raf.bytes)[i]
  {
    ghost var b0 := raf.bytes;
    raf.Seek(4);
    raf.WriteInt(ReverseBytes32(ToInt32(36 + total)));
    raf.Seek(40);
    raf.WriteInt(ReverseBytes32(total));
    raf.Seek(24);
    raf.WriteInt(ReverseBytes32(SampleRate));
    raf.WriteInt(ReverseBytes32(SampleRate * 2));
    raf.WriteShort(ReverseBytes16(2));
    raf.WriteShort(ReverseBytes16(16));
    SixWrites(b0,
      LittleEndian32(Unsigned32(ToInt32(36 + total))), LittleEndian32(Unsigned32(total)),
      LittleEndian32(SampleRate), LittleEndian32(SampleRate * 2), LittleEndian16(2), LittleEndian16(16));
    forall i | 0 <= i < HeaderSize && PatchedAsWritten(i) ensures raf.bytes[i] == AsWrittenHeader(total)[i] {
      assert AsWrittenHeader(total)[i] == AsWrittenByte(total, i);
    }
  }

  /** The six header writes, each inside a file of at least 44 bytes, land at their offsets and nowhere else. */
  lemma SixWrites(b0: seq<Byte>, c1: seq<Byte>, c2: seq<Byte>, c3: seq<Byte>, c4: seq<Byte>, c5: seq<Byte>, c6: seq<Byte>)
    requires |b0| >= HeaderSize && |c1| == 4 && |c2| == 4 && |c3| == 4 && |c4| == 4 && |c5| == 2 && |c6| == 2
    ensures var r := Overwrite(Overwrite(Overwrite(Overwrite(Overwrite(Overwrite(b0, 4, c1), 40, c2), 24, c3), 28, c4), 32, c5), 34, c6);
      |r| == |b0| &&
      (forall i :: 0 <= i < |r| && !PatchedAsWritten(i) ==> r[i] == b0[i]) &&
      (forall i :: 4 <= i < 8 ==> r[i] == c1[i - 4]) &&
      (forall i :: 40 <= i < 44 ==> r[i] == c2[i - 40]) &&
      (forall i :: 24 <= i < 28 ==> r[i] == c3[i - 24]) &&
      (forall i :: 28 <= i < 32 ==> r[i] == c4[i - 28]) &&
      (forall i :: 32 <= i < 34 ==> r[i] == c5[i - 32]) &&
      (forall i :: 34 <= i < 36 ==> r[i] == c6[i - 34])
  {
    var b1 := Overwrite(b0, 4, c1);
    var b2 := Overwrite(b1, 40, c2);
    var b3 := Overwrite(b2, 24, c3);
    var b4 := Overwrite(b3, 28, c4);
    var b5 := Overwrite(b4, 32, c5);
    var r := Overwrite(b5, 34, c6);
    forall i | 0 <= i < |r| && !PatchedAsWritten(i) ensures r[i] == b0[i] {
      assert r[i] == b5[i] == b4[i] == b3[i] == b2[i] == b1[i] == b0[i];
    }
    forall i | 4 <= i < 8 ensures r[i] == c1[i - 4] {
      assert r[i] == b5[i] == b4[i] == b3[i] == b2[i] == b1[i];
    }
    forall i | 40 <= i < 44 ensures r[i] == c2[i - 40] {
      assert r[i] == b5[i] == b4[i] == b3[i] == b2[i];
    }
    forall i | 24 <= i < 28 ensures r[i] == c3[i - 24] {
      assert r[i] == b5[i] == b4[i] == b3[i];
    }
    forall i | 28 <= i < 32 ensures r[i] == c4[i - 28] {
      assert r[i] == b5[i] == b4[i];
    }
    forall i | 32 <= i < 34 ensures r[i] == c5[i - 32] {
      assert r[i] == b5[i];
    }
  }

  /** A write that lands inside the file replaces exactly the bytes it covers. */
  lemma OverwriteInside(p: seq<Byte>, r: seq<Byte>, bs: seq<Byte>)
    requires |bs| <= |r|
    ensures Overwrite(p + r, |p|, bs) == p + bs + r[|bs|..]
  {
    var s := p + r;
    assert s[..|p|] == p;
    assert s[|p| + |bs|..] == r[|bs|..];
  }

  /**
   * The corrected patch: the whole canonical header, written from offset 0
   * over the 44 reserved bytes.
   */
  method PatchHeader(raf: RandomAccessFile, total: Int32)
    requires |raf.bytes| >= HeaderSize
    modifies raf
    ensures raf.bytes == CanonicalHeader(total) + old(raf.bytes)[HeaderSize..]
  {
    ghost var o := raf.bytes;
    raf.Seek(0);
    raf.Write(CanonicalHeader(total));
    OverwriteInside([], o, CanonicalHeader(total));
    assert [] + o == o;
  }

  /**
   * The streaming half of `writeWavFile`: 44 reserved zero bytes, then the
   * bytes of every read with a positive count, while the byte count is
   * summed in a Java `int`.
   */
  method StreamPcm(mic: seq<MicRead>) returns (out: seq<Byte>, total: Int32)
    ensures out == Zeros(HeaderSize) + Pcm(mic)
    ensures total == ToInt32(|Pcm(mic)|)
  {
    out := Zeros(HeaderSize);
    total := 0;
    var i := 0;
    while i < |mic|
      invariant 0 <= i <= |mic|
      invariant out == Zeros(HeaderSize) + Pcm(mic[..i])
      invariant total == ToInt32(|out| - HeaderSize)
    {
      var r := mic[i];
      if r.Samples? && |r.bytes| > 0 {
        WrapAdd(|out| - HeaderSize, |r.bytes|);
        out := out + r.bytes;
        total := ToInt32(total + |r.bytes|);
      }
      assert mic[..i + 1][..i] == mic[..i];
      i := i + 1;
    }
    assert mic[..i] == mic;
  }

  /** The state of the platform `AudioRecord`. */
  datatype AudioRecordState = Initialized | Capturing | Released

  class PcmWavRecorder {
    var recorder: AudioRecordState
    var isRecording: bool
    /** Whether `recordingThread` is set. */
    var hasThread: bool
    /** The contents of `outputWav`. */
    var wav: seq<Byte>

    constructor (wav: seq<Byte>)
      ensures recorder == Initialized && !isRecording && !hasThread && this.wav == wav
    {
      recorder := Initialized;
      isRecording := false;
      hasThread := false;
      this.wav := wav;
    }

    /** `start`: the platform recorder starts capturing, the flag is raised and the writer thread starts. */
    method Start() returns (ok: bool)
      modifies this
      ensures ok == (old(recorder) != Released) && wav == old(wav)
      ensures ok ==> recorder == Capturing && isRecording && hasThread
      ensures !ok ==> recorder == old(recorder) && isRecording == old(isRecording) && hasThread == old(hasThread)
    {
      if recorder == Released {
        return false;   // startRecording() on a released AudioRecord throws
      }
      recorder := Capturing;
      isRecording := true;
      hasThread := true;
      return true;
    }

    /** `stop`: the flag is lowered, which ends the writer's loop, and the platform recorder is released. */
    method Stop() returns (ok: bool)
      modifies this
      ensures !isRecording && recorder == Released && wav == old(wav)
      ensures ok == (old(recorder) != Released)
      ensures hasThread == (!ok && old(hasThread))
    {
      isRecording := false;
      if recorder == Released {
        return false;   // stop() on a released AudioRecord throws
      }
      recorder := Released;
      hasThread := false;
      return true;
    }

    /**
     * `writeWavFile`, with `mic` the reads made while `isRecording` held:
     * stream the PCM data, then patch the header as the source does.
     */
    method WriteWavFile(mic: seq<MicRead>)
      modifies this
      ensures wav == AsWrittenHeader(ToInt32(|Pcm(mic)|)) + Pcm(mic)
      ensures recorder == old(recorder) && isRecording == old(isRecording) && hasThread == old(hasThread)
    {
      var out, total := StreamPcm(mic);
      var raf := new RandomAccessFile(out);
      PatchHeaderAsWritten(raf, total);
      assert forall i :: 0 <= i < HeaderSize && !PatchedAsWritten(i) ==> AsWrittenHeader(total)[i] == 0;
      assert forall i :: 0 <= i < |raf.bytes| ==> raf.bytes[i] == (AsWrittenHeader(total) + Pcm(mic))[i];
      wav := raf.bytes;
    }

    /** `writeWavFile` with the header patch completed to the canonical layout. */
    method WriteCanonicalWavFile(mic: seq<MicRead>)
      modifies this
      ensures wav == CanonicalHeader(ToInt32(|Pcm(mic)|)) + Pcm(mic)
      ensures recorder == old(recorder) && isRecording == old(isRecording) && hasThread == old(hasThread)
    {
      var out, total := StreamPcm(mic);
      var raf := new RandomAccessFile(out);
      PatchHeader(raf, total);
      assert out[HeaderSize..] == Pcm(mic);
      wav := raf.bytes;
    }
  }

  // ----------------------------------------------------------- properties

  /**
   * What `writeWavFile` leaves: the size fields count the PCM bytes modulo
   * 2^32, the rate fields say 16 kHz 16-bit, the PCM data starts at offset
   * 44, and bytes 0-3, 8-23 and 36-39 are still the reserved zeros.
   */
  lemma AsWrittenFields(pcm: seq<Byte>)
    ensures var f := AsWrittenHeader(ToInt32(|pcm|)) + pcm;
      |f| == HeaderSize + |pcm| && f[HeaderSize..] == pcm &&
      Le32At(f, 4) == (36 + |pcm|) % Two32 && Le32At(f, 40) == |pcm| % Two32 &&
      Le32At(f, 24) == SampleRate && Le32At(f, 28) == 2 * SampleRate &&
      Le16At(f, 32) == 2 && Le16At(f, 34) == 16 &&
      forall i :: 0 <= i < HeaderSize && !PatchedAsWritten(i) ==> f[i] == 0
  {
    var t := ToInt32(|pcm|);
    WrapAdd(|pcm|, 36);
    UnsignedOfWrap(36 + |pcm|);
    UnsignedOfWrap(|pcm|);
    var f := AsWrittenHeader(t) + pcm;
    assert f[HeaderSize..] == pcm;
  }

  /** Because its first four bytes are zeros and not "RIFF", no WAVE reader accepts what `writeWavFile` leaves. */
  lemma AsWrittenIsNotWav(total: Int32, pcm: seq<Byte>)
    ensures ReadWav(AsWrittenHeader(total) + pcm) == None
  {
    var f := AsWrittenHeader(total) + pcm;
    assert f[0] == 0 != RiffTag[0];
  }

  /** The corrected header agrees with the source's on every byte the source writes. */
  lemma CanonicalKeepsPatchedFields(total: Int32)
    ensures forall i :: 0 <= i < HeaderSize && PatchedAsWritten(i) ==> CanonicalHeader(total)[i] == AsWrittenHeader(total)[i]
  {
  }

  /** The header decides a reader's verdict: the bytes after it are only the data. */
  lemma ReadWavHeaderThenData(h: seq<Byte>, pcm: seq<Byte>)
    requires |h| == HeaderSize
    ensures ReadWav(h + pcm) == match ReadWav(h) case None => None case Some(w) => Some(w.(data := pcm))
  {
    var f := h + pcm;
    assert f[HeaderSize..] == pcm;
    assert forall i :: 0 <= i < HeaderSize ==> f[i] == h[i];
  }

  /** The fields of the canonical header, as a reader sees them. */
  lemma CanonicalHeaderReads(total: Int32)
    ensures ReadWav(CanonicalHeader(total)) == Some(WavInfo(
      Unsigned32(ToInt32(36 + total)), 1, 1, SampleRate, 2 * SampleRate, 2, 16, Unsigned32(total), []))
  {
    var h := CanonicalHeader(total);
    Le32AtBytes(h, 4, LittleEndian32(Unsigned32(ToInt32(36 + total))));
    Le32AtBytes(h, 40, LittleEndian32(Unsigned32(total)));
    assert h[HeaderSize..] == [];
  }

  /**
   * The corrected file reads back as a 16 kHz mono 16-bit PCM WAVE file
   * holding exactly the recorded bytes, for any recording WAVE can size.
   */
  lemma CanonicalIsWav(pcm: seq<Byte>)
    requires 36 + |pcm| < Two32
    ensures ReadWav(CanonicalHeader(ToInt32(|pcm|)) + pcm) ==
      Some(WavInfo(36 + |pcm|, 1, 1, SampleRate, 2 * SampleRate, 2, 16, |pcm|, pcm))
  {
    var t := ToInt32(|pcm|);
    WrapAdd(|pcm|, 36);
    UnsignedOfSmall(36 + |pcm|);
    UnsignedOfSmall(|pcm|);
    assert ToInt32(36 + t as int) == ToInt32(36 + |pcm|);
    CanonicalHeaderReads(t);
    ReadWavHeaderThenData(CanonicalHeader(t), pcm);
  }
}
