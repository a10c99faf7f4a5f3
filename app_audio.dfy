/** Turning the speech reply into playable samples (App.tsx): the decoded
    binary string is copied byte by byte into a Uint8Array, viewed as
    little-endian signed 16-bit PCM, and each sample is divided by 32768 into
    the single channel of a 24 kHz buffer. Every value involved is a multiple
    of 2^-15, so the reals below are what the Float32 channel holds. */
module AppAudio {

  import opened Types

  type Byte = x: int | 0 <= x < 256
  type Int16 = x: int | -32768 <= x < 32768

  // ---- decodeBase64: the byte-copy loop ----

  /** A Uint8Array element assigned a char code keeps the code modulo 256. */
  function ByteOf(c: char): Byte
  {
    (c as int) % 256
  }

  /** The bytes the copy loop produces from a binary string. */
  function BinaryBytes(s: string): (b: seq<Byte>)
    ensures |b| == |s|
  {
    seq(|s|, i requires 0 <= i < |s| => ByteOf(s[i]))
  }

  /** The output has one byte per character, byte i taken from character i. */
  method CopyBinaryString(binary: string) returns (bytes: array<Byte>)
    ensures bytes.Length == |binary|
    ensures forall i :: 0 <= i < |binary| ==> bytes[i] == ByteOf(binary[i])
    ensures bytes[..] == BinaryBytes(binary)
  {
    var len := |binary|;
    bytes := new Byte[len];
    var i := 0;
    while i < len
      invariant 0 <= i <= len
      invariant forall j :: 0 <= j < i ==> bytes[j] == ByteOf(binary[j])
    {
      bytes[i] := ByteOf(binary[i]);
      i := i + 1;
    }
  }

  /** A binary string (every character below 256, as the base64 decoder
      produces) is copied without change: byte i is char code i. */
  lemma BinaryBytesAreCharCodes(s: string)
    requires forall i :: 0 <= i < |s| ==> s[i] as int < 256
    ensures forall i :: 0 <= i < |s| ==> BinaryBytes(s)[i] == s[i] as int
  {
  }

  // ---- new Int16Array(bytes.buffer) ----

  /** The little-endian signed 16-bit value of two bytes. */
  function Le16(lo: Byte, hi: Byte): Int16
  {
    var u := lo + 256 * hi;
    if u >= 32768 then u - 65536 else u
  }

  /** The 16-bit view of a byte buffer; an odd length has none (the view's
      constructor throws a RangeError, which the read-aloud handler catches). */
  function Int16View(bytes: seq<Byte>): (r: Option<seq<Int16>>)
    ensures r.None? <==> |bytes| % 2 == 1
    ensures r.Some? ==> |r.value| == |bytes| / 2
  {
    if |bytes| % 2 == 1 then None
    else Some(seq(|bytes| / 2, i requires 0 <= i < |bytes| / 2 => Le16(bytes[2 * i], bytes[2 * i + 1])))
  }

  /** The two bytes a sample is stored as, low byte first. */
  function SampleBytes(s: Int16): seq<Byte>
  {
    var u := if s < 0 then s + 65536 else s;
    [u % 256, u / 256]
  }

  /** The byte buffer holding the given samples. */
  function PcmBytes(samples: seq<Int16>): (b: seq<Byte>)
    ensures |b| == 2 * |samples|
    decreases |samples|
  {
    if |samples| == 0 then [] else SampleBytes(samples[0]) + PcmBytes(samples[1..])
  }

  lemma SampleBytesRoundTrip(s: Int16)
    ensures Le16(SampleBytes(s)[0], SampleBytes(s)[1]) == s
  {
  }

  lemma {:induction false} PcmBytesAt(samples: seq<Int16>, i: nat)
    requires i < |samples|
    ensures PcmBytes(samples)[2 * i..2 * i + 2] == SampleBytes(samples[i])
    decreases |samples|
  {
    if i > 0 {
      PcmBytesAt(samples[1..], i - 1);
      assert PcmBytes(samples)[2..] == PcmBytes(samples[1..]);
    }
  }

  /** Viewing the encoded buffer gives back the samples. */
  lemma Int16ViewOfPcmBytes(samples: seq<Int16>)
    ensures Int16View(PcmBytes(samples)) == Some(samples)
  {
    var b := PcmBytes(samples);
    assert |b| % 2 == 0;
    var v := Int16View(b).value;
    forall i | 0 <= i < |samples| ensures v[i] == samples[i] {
      PcmBytesAt(samples, i);
      assert b[2 * i..2 * i + 2][0] == b[2 * i] && b[2 * i..2 * i + 2][1] == b[2 * i + 1];
      SampleBytesRoundTrip(samples[i]);
    }
    assert v == samples;
  }

  lemma Le16Bytes(lo: Byte, hi: Byte)
    ensures SampleBytes(Le16(lo, hi)) == [lo, hi]
  {
  }

  /** Every even-length buffer is the encoding of its view: the view loses nothing. */
  lemma {:induction false} PcmBytesOfInt16View(bytes: seq<Byte>)
    requires |bytes| % 2 == 0
    ensures PcmBytes(Int16View(bytes).value) == bytes
    decreases |bytes|
  {
    if |bytes| > 0 {
      var v := Int16View(bytes).value;
      var rest := bytes[2..];
      PcmBytesOfInt16View(rest);
      assert v[1..] == Int16View(rest).value;
      Le16Bytes(bytes[0], bytes[1]);
      assert SampleBytes(v[0]) == bytes[..2];
      assert bytes == bytes[..2] + rest;
    }
  }

  // ---- The channel loop ----

  /** Each sample divided by 32768. */
  function Normalized(pcm: seq<Int16>): (r: seq<real>)
    ensures |r| == |pcm|
  {
    seq(|pcm|, i requires 0 <= i < |pcm| => pcm[i] as real / 32768.0)
  }

  /** Fills the channel: one frame per sample, frame i is sample i / 32768. */
  method FillChannel(pcm: seq<Int16>) returns (channel: array<real>)
    ensures channel.Length == |pcm|
    ensures channel[..] == Normalized(pcm)
  {
    var frameCount := |pcm|;
    channel := new real[frameCount];
    var i := 0;
    while i < frameCount
      invariant 0 <= i <= frameCount
      invariant forall j :: 0 <= j < i ==> channel[j] == pcm[j] as real / 32768.0
    {
      channel[i] := pcm[i] as real / 32768.0;
      i := i + 1;
    }
  }

  /** Every output lies in [-1, 1). */
  lemma NormalizedInRange(pcm: seq<Int16>)
    ensures forall i :: 0 <= i < |pcm| ==> -1.0 <= Normalized(pcm)[i] < 1.0
  {
  }

  /** Multiplying an output by 32768 recovers the sample exactly. */
  lemma NormalizedScalesBack(pcm: seq<Int16>)
    ensures forall i :: 0 <= i < |pcm| ==> Normalized(pcm)[i] * 32768.0 == pcm[i] as real
  {
  }

  /** The reference vector. */
  lemma NormalizedReference()
    ensures Normalized([0, 16384, -32768, 32767]) == [0.0, 0.5, -1.0, 32767.0 / 32768.0]
  {
  }

  // ---- The whole reconstruction ----

  /** From the decoded binary string to the channel's samples; none for an odd byte count. */
  function DecodePcm(binary: string): (r: Option<seq<real>>)
    ensures r.None? <==> |binary| % 2 == 1
    ensures r.Some? ==> |r.value| == |binary| / 2
  {
    match Int16View(BinaryBytes(binary))
    case None => None
    case Some(pcm) => Some(Normalized(pcm))
  }

  /** The frame count is half the byte count, and sample i is the signed
      little-endian value of bytes 2i and 2i+1 divided by 32768. */
  lemma DecodePcmFrames(binary: string)
    ensures DecodePcm(binary).None? <==> |binary| % 2 == 1
    ensures DecodePcm(binary).Some? ==>
      var r := DecodePcm(binary).value;
      && |r| == |binary| / 2
      && forall i :: 0 <= i < |r| ==>
           r[i] == Le16(ByteOf(binary[2 * i]), ByteOf(binary[2 * i + 1])) as real / 32768.0
  {
  }
}
