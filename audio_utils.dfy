/**
 * WAV export and duration text (src/lib/audio-utils.ts). `audioBufferToWav`
 * writes a 44-byte RIFF WAVE PCM header and the interleaved 16-bit samples
 * into a fresh byte buffer through a `DataView`; `formatDuration` renders
 * seconds as `m:ss`.
 */
module AudioUtils {
  import opened Wrappers
  import opened Strings

  type Byte = b: int | 0 <= b < 256

  const HeaderSize: nat := 44
  const TwoTo16: nat := 0x1_0000
  const TwoTo32: nat := 0x1_0000_0000

  /**
   * The decoded audio the export reads: one sequence per channel, each
   * `length` long, holding the integer sample values the float-to-PCM
   * conversion produced.
   */
  datatype PcmBuffer = PcmBuffer(sampleRate: nat, length: nat, channels: seq<seq<int>>)
  {
    predicate WellFormed()
    {
      forall c :: 0 <= c < |channels| ==> |channels[c]| == length
    }

    function NumberOfChannels(): nat { |channels| }
  }

  // Little-endian readers: what a RIFF reader recovers from the bytes.

  function Uint16At(b: seq<Byte>, o: nat): (v: nat)
    requires o + 2 <= |b|
    ensures v < TwoTo16
  {
    b[o] as int + 256 * (b[o + 1] as int)
  }

  function Uint32At(b: seq<Byte>, o: nat): (v: nat)
    requires o + 4 <= |b|
    ensures v < TwoTo32
  {
    b[o] as int + 256 * (b[o + 1] as int + 256 * (b[o + 2] as int + 256 * (b[o + 3] as int)))
  }

  function Int16At(b: seq<Byte>, o: nat): (v: int)
    requires o + 2 <= |b|
    ensures -0x8000 <= v < 0x8000
  {
    var u := Uint16At(b, o);
    if u >= 0x8000 then u - TwoTo16 else u
  }

  /** The ECMAScript ToInt16 conversion `setInt16` applies to an integral value. */
  function ToInt16(v: int): (r: int)
    ensures -0x8000 <= r < 0x8000
    ensures (r - v) % TwoTo16 == 0
  {
    var u := v % TwoTo16;
    if u >= 0x8000 then u - TwoTo16 else u
  }

  /** A value already in the 16-bit range is stored unchanged. */
  lemma ToInt16InRange(v: int)
    requires -0x8000 <= v < 0x8000
    ensures ToInt16(v) == v
  {
  }

  /** `setUint8(o, s.charCodeAt(k))` for each `k`: the low byte of every code unit. */
  predicate Spells(b: seq<Byte>, o: nat, s: string)
  {
    o + |s| <= |b| && forall k :: 0 <= k < |s| ==> b[o + k] == (s[k] as int) % 256
  }

  /** `piece` written over `b` from offset `o` on. */
  function Splice(b: seq<Byte>, o: nat, piece: seq<Byte>): (r: seq<Byte>)
    requires o + |piece| <= |b|
    ensures |r| == |b|
  {
    b[..o] + piece + b[o + |piece|..]
  }

  /** The two bytes of a 16-bit field, low byte first. */
  function LE16(v: int): (r: seq<Byte>)
    ensures |r| == 2 && Uint16At(r, 0) == v % TwoTo16
  {
    var u := v % TwoTo16;
    [u % 256, u / 256]
  }

  /** The four bytes of a 32-bit field, low byte first. */
  function LE32(v: int): (r: seq<Byte>)
    ensures |r| == 4 && Uint32At(r, 0) == v % TwoTo32
  {
    var u := v % TwoTo32;
    var r1 := u / 256;
    var r2 := r1 / 256;
    [u % 256, r1 % 256, r2 % 256, r2 / 256]
  }

  /** The low byte of each UTF-16 code unit. */
  function Codes(s: string): (r: seq<Byte>)
    ensures |r| == |s| && forall k :: 0 <= k < |s| ==> r[k] == (s[k] as int) % 256
  {
    seq(|s|, k requires 0 <= k < |s| => (s[k] as int) % 256)
  }

  /** `DataView.setUint16(offset, v, true)`. */
  method SetUint16(view: array<Byte>, offset: nat, v: int)
    requires offset + 2 <= view.Length
    modifies view
    ensures view[..] == Splice(old(view[..]), offset, LE16(v))
  {
    var u := v % TwoTo16;
    view[offset] := u % 256;
    view[offset + 1] := u / 256;
  }

  /** `DataView.setInt16(offset, v, true)`: two's complement, low byte first. */
  method SetInt16(view: array<Byte>, offset: nat, v: int)
    requires offset + 2 <= view.Length
    modifies view
    ensures view[..] == Splice(old(view[..]), offset, LE16(v))
    ensures Int16At(view[..], offset) == ToInt16(v)
  {
    var u := v % TwoTo16;
    view[offset] := u % 256;
    view[offset + 1] := u / 256;
  }

  /** `DataView.setUint32(offset, v, true)`. */
  method SetUint32(view: array<Byte>, offset: nat, v: int)
    requires offset + 4 <= view.Length
    modifies view
    ensures view[..] == Splice(old(view[..]), offset, LE32(v))
  {
    var u := v % TwoTo32;
    var r1 := u / 256;
    var r2 := r1 / 256;
    view[offset] := u % 256;
    view[offset + 1] := r1 % 256;
    view[offset + 2] := r2 % 256;
    view[offset + 3] := r2 / 256;
  }

  /** Writing the byte after a spliced piece extends the piece. */
  lemma SpliceSnoc(b: seq<Byte>, o: nat, piece: seq<Byte>, x: Byte)
    requires o + |piece| < |b|
    ensures Splice(b, o, piece)[o + |piece| := x] == Splice(b, o, piece + [x])
  {
  }

  /** `writeString`: character `k` goes to `offset + k`, and nothing else is touched. */
  method WriteString(view: array<Byte>, offset: nat, s: string)
    requires offset + |s| <= view.Length
    modifies view
    ensures view[..] == Splice(old(view[..]), offset, Codes(s))
  {
    for i := 0 to |s|
      invariant view[..] == Splice(old(view[..]), offset, Codes(s[..i]))
    {
      assert Codes(s[..i + 1]) == Codes(s[..i]) + [(s[i] as int) % 256];
      SpliceSnoc(old(view[..]), offset, Codes(s[..i]), (s[i] as int) % 256);
      view[offset + i] := (s[i] as int) % 256;
    }
    assert s[..|s|] == s;
  }

  /** The header fields at their canonical offsets, every multi-byte one little-endian. */
  predicate HeaderFields(h: seq<Byte>, numChannels: nat, sampleRate: nat, dataSize: nat)
  {
    var blockAlign := numChannels * 2;
    && |h| == HeaderSize
    && Spells(h, 0, "RIFF")
    && Uint32At(h, 4) == (HeaderSize + dataSize - 8) % TwoTo32
    && Spells(h, 8, "WAVE")
    && Spells(h, 12, "fmt ")
    && Uint32At(h, 16) == 16
    && Uint16At(h, 20) == 1
    && Uint16At(h, 22) == numChannels % TwoTo16
    && Uint32At(h, 24) == sampleRate % TwoTo32
    && Uint32At(h, 28) == (sampleRate * blockAlign) % TwoTo32
    && Uint16At(h, 32) == blockAlign % TwoTo16
    && Uint16At(h, 34) == 16
    && Spells(h, 36, "data")
    && Uint32At(h, 40) == dataSize % TwoTo32
  }

  /** A whole file: 44 header bytes, then `samples` frames of `numChannels` 16-bit samples. */
  predicate WavHeader(b: seq<Byte>, numChannels: nat, sampleRate: nat, samples: nat)
  {
    var dataSize := samples * (numChannels * 2);
    |b| == HeaderSize + dataSize && HeaderFields(b[..HeaderSize], numChannels, sampleRate, dataSize)
  }

  /** Where sample `i` of channel `c` lives: frames of `numChannels` samples, two bytes each. */
  function SampleOffset(numChannels: nat, i: nat, c: nat): nat
  {
    HeaderSize + 2 * (i * numChannels + c)
  }

  /** Samples are laid out in increasing order of (frame, channel). */
  lemma SampleOffsetsIncrease(numChannels: nat, j: nat, c: nat, i: nat, channel: nat)
    requires c < numChannels
    requires j < i || (j == i && c < channel)
    ensures SampleOffset(numChannels, j, c) + 2 <= SampleOffset(numChannels, i, channel)
  {
    if j < i {
      assert j * numChannels + c < (j + 1) * numChannels;
      assert (j + 1) * numChannels <= i * numChannels;
    }
  }

  /** The last sample ends exactly at the end of the buffer. */
  lemma SampleInBounds(numChannels: nat, samples: nat, i: nat, c: nat)
    requires i < samples && c < numChannels
    ensures SampleOffset(numChannels, i, c) + 2 <= HeaderSize + samples * (numChannels * 2)
  {
    assert i * numChannels + c < (i + 1) * numChannels;
    assert (i + 1) * numChannels <= samples * numChannels;
  }

  /** Every sample of every channel can be read back at its interleaved offset. */
  predicate Interleaved(b: seq<Byte>, pcm: PcmBuffer)
    requires pcm.WellFormed()
  {
    Written(b, pcm, pcm.length, 0)
  }

  /** The samples before frame `i`, channel `channel` (in write order) can be read back. */
  predicate Written(b: seq<Byte>, pcm: PcmBuffer, i: nat, channel: nat)
    requires pcm.WellFormed()
  {
    var n := pcm.NumberOfChannels();
    forall j, c :: 0 <= j < pcm.length && 0 <= c < n && (j < i || (j == i && c < channel)) ==>
      SampleOffset(n, j, c) + 2 <= |b| && Int16At(b, SampleOffset(n, j, c)) == ToInt16(pcm.channels[c][j])
  }

  /** A write after a 16-bit field keeps what it decodes to. */
  lemma Int16Kept(b: seq<Byte>, off: nat, piece: seq<Byte>, o: nat)
    requires off + |piece| <= |b| && o + 2 <= off
    ensures Int16At(Splice(b, off, piece), o) == Int16At(b, o)
  {
    assert Splice(b, off, piece)[o] == b[o] && Splice(b, off, piece)[o + 1] == b[o + 1];
  }

  /** Writes at or beyond the header keep the header bytes. */
  lemma HeaderKept(b: seq<Byte>, o: nat, piece: seq<Byte>)
    requires HeaderSize <= o && o + |piece| <= |b|
    ensures Splice(b, o, piece)[..HeaderSize] == b[..HeaderSize]
  {
  }

  /** The header writes of `audioBufferToWav`, in source order. */
  method WriteHeader(view: array<Byte>, numChannels: nat, sampleRate: nat, samples: nat)
    requires view.Length == HeaderSize + samples * (numChannels * 2)
    modifies view
    ensures WavHeader(view[..], numChannels, sampleRate, samples)
  {
    var blockAlign := numChannels * 2;
    var dataSize := samples * blockAlign;
    var bufferSize := HeaderSize + dataSize;
    assert bufferSize == view.Length >= HeaderSize;
    ghost var b0 := view[..];
    WriteString(view, 0, "RIFF");
    SetUint32(view, 4, bufferSize - 8);
    WriteString(view, 8, "WAVE");
    WriteString(view, 12, "fmt ");
    SetUint32(view, 16, 16);
    SetUint16(view, 20, 1);
    SetUint16(view, 22, numChannels);
    SetUint32(view, 24, sampleRate);
    SetUint32(view, 28, sampleRate * blockAlign);
    SetUint16(view, 32, blockAlign);
    SetUint16(view, 34, 16);
    WriteString(view, 36, "data");
    SetUint32(view, 40, dataSize);
    HeaderOfWrites(b0, numChannels, sampleRate, samples);
  }

  /** The bytes the header writes leave, field by field. */
  function HeaderWrites(b0: seq<Byte>, numChannels: nat, sampleRate: nat, dataSize: nat): (b: seq<Byte>)
    requires |b0| >= HeaderSize
    ensures |b| == |b0|
  {
    var blockAlign := numChannels * 2;
    var b1 := Splice(b0, 0, Codes("RIFF"));
    var b2 := Splice(b1, 4, LE32(HeaderSize + dataSize - 8));
    var b3 := Splice(b2, 8, Codes("WAVE"));
    var b4 := Splice(b3, 12, Codes("fmt "));
    var b5 := Splice(b4, 16, LE32(16));
    var b6 := Splice(b5, 20, LE16(1));
    var b7 := Splice(b6, 22, LE16(numChannels));
    var b8 := Splice(b7, 24, LE32(sampleRate));
    var b9 := Splice(b8, 28, LE32(sampleRate * blockAlign));
    var b10 := Splice(b9, 32, LE16(blockAlign));
    var b11 := Splice(b10, 34, LE16(16));
    var b12 := Splice(b11, 36, Codes("data"));
    Splice(b12, 40, LE32(dataSize))
  }

  lemma HeaderOfWrites(b0: seq<Byte>, numChannels: nat, sampleRate: nat, samples: nat)
    requires |b0| == HeaderSize + samples * (numChannels * 2)
    ensures WavHeader(HeaderWrites(b0, numChannels, sampleRate, samples * (numChannels * 2)), numChannels, sampleRate, samples)
  {
  }

  /** Writing the next sample at its own offset extends what has been written. */
  lemma WrittenStep(before: seq<Byte>, after: seq<Byte>, pcm: PcmBuffer, i: nat, channel: nat)
    requires pcm.WellFormed() && i < pcm.length && channel < pcm.NumberOfChannels()
    requires Written(before, pcm, i, channel)
    requires SampleOffset(pcm.NumberOfChannels(), i, channel) + 2 <= |before|
    requires after == Splice(before, SampleOffset(pcm.NumberOfChannels(), i, channel), LE16(pcm.channels[channel][i]))
    requires Int16At(after, SampleOffset(pcm.NumberOfChannels(), i, channel)) == ToInt16(pcm.channels[channel][i])
    ensures Written(after, pcm, i, channel + 1)
  {
    var n := pcm.NumberOfChannels();
    var off := SampleOffset(n, i, channel);
    forall j, c | 0 <= j < pcm.length && 0 <= c < n && (j < i || (j == i && c < channel + 1))
      ensures SampleOffset(n, j, c) + 2 <= |after| && Int16At(after, SampleOffset(n, j, c)) == ToInt16(pcm.channels[c][j])
    {
      if j < i || c < channel {
        SampleOffsetsIncrease(n, j, c, i, channel);
        Int16Kept(before, off, LE16(pcm.channels[channel][i]), SampleOffset(n, j, c));
      }
    }
  }

  /** The end of one frame is the start of the next. */
  lemma NextFrame(b: seq<Byte>, pcm: PcmBuffer, i: nat)
    requires pcm.WellFormed() && Written(b, pcm, i, pcm.NumberOfChannels())
    ensures Written(b, pcm, i + 1, 0)
    ensures SampleOffset(pcm.NumberOfChannels(), i, pcm.NumberOfChannels()) == SampleOffset(pcm.NumberOfChannels(), i + 1, 0)
  {
    var n := pcm.NumberOfChannels();
    assert i * n + n == (i + 1) * n;
  }

  /** The inner loop of `audioBufferToWav`: frame `i`, channel by channel, from `offset` on. */
  method WriteFrame(view: array<Byte>, pcm: PcmBuffer, i: nat, offset: nat) returns (next: nat)
    requires pcm.WellFormed() && i < pcm.length
    requires view.Length == HeaderSize + pcm.length * (pcm.NumberOfChannels() * 2)
    requires offset == SampleOffset(pcm.NumberOfChannels(), i, 0)
    requires Written(view[..], pcm, i, 0)
    modifies view
    ensures view[..HeaderSize] == old(view[..HeaderSize])
    ensures next == SampleOffset(pcm.NumberOfChannels(), i + 1, 0)
    ensures Written(view[..], pcm, i + 1, 0)
  {
    var numChannels := pcm.NumberOfChannels();
    next := offset;
    for channel := 0 to numChannels
      invariant next == SampleOffset(numChannels, i, channel)
      invariant view[..HeaderSize] == old(view[..HeaderSize])
      invariant Written(view[..], pcm, i, channel)
    {
      SampleInBounds(numChannels, pcm.length, i, channel);
      ghost var before := view[..];
      SetInt16(view, next, pcm.channels[channel][i]);
      HeaderKept(before, next, LE16(pcm.channels[channel][i]));
      WrittenStep(before, view[..], pcm, i, channel);
      next := next + 2;
    }
    NextFrame(view[..], pcm, i);
  }

  /** `audioBufferToWav`: the header, then every frame's samples channel by channel. */
  method AudioBufferToWav(pcm: PcmBuffer) returns (wav: seq<Byte>)
    requires pcm.WellFormed()
    ensures WavHeader(wav, pcm.NumberOfChannels(), pcm.sampleRate, pcm.length)
    ensures Interleaved(wav, pcm)
  {
    var numChannels := pcm.NumberOfChannels();
    var blockAlign := numChannels * 2;
    var samples := pcm.length;
    var dataSize := samples * blockAlign;
    var bufferSize := HeaderSize + dataSize;
    var view := new Byte[bufferSize](_ => 0);
    WriteHeader(view, numChannels, pcm.sampleRate, samples);
    ghost var header := view[..HeaderSize];
    assert HeaderFields(header, numChannels, pcm.sampleRate, dataSize);

    var offset := HeaderSize;
    for i := 0 to samples
      invariant offset == SampleOffset(numChannels, i, 0)
      invariant view[..HeaderSize] == header
      invariant Written(view[..], pcm, i, 0)
    {
      offset := WriteFrame(view, pcm, i, offset);
    }
    wav := view[..];
    assert wav[..HeaderSize] == header;
  }

  // Duration text.

  /** JavaScript `%`: the remainder takes the sign of the dividend. */
  function JsRem(a: int, b: int): (r: int)
    requires b > 0
    ensures a >= 0 ==> r == a % b
    ensures a < 0 ==> -b < r <= 0 && r == -((-a) % b)
  {
    if a >= 0 then a % b else -((-a) % b)
  }

  /** `String.prototype.padStart(width, '0')`. */
  function PadStart(s: string, width: nat): (r: string)
    ensures |r| == if |s| >= width then |s| else width
    ensures EndsWith(r, s)
    ensures forall k :: 0 <= k < |r| - |s| ==> r[k] == '0'
  {
    if |s| >= width then s else seq(width - |s|, _ => '0') + s
  }

  /**
   * `formatDuration` on a whole number of seconds: `Math.floor(s / 60)`
   * (floor division), then `Math.floor(s % 60)` with JavaScript's remainder,
   * zero-padded to two characters.
   */
  function FormatDuration(seconds: int): string
  {
    var mins := seconds / 60;
    var secs := JsRem(seconds, 60);
    IntToString(mins) + ":" + PadStart(IntToString(secs), 2)
  }

  /** Reads `m:ss` text back to seconds. */
  function ParseDuration(t: string): Option<int>
  {
    var parts := Split(t, ":");
    if |parts| != 2 || |parts[1]| != 2 then None
    else
      match (ParseNat(parts[0]), ParseNat(parts[1]))
      case (Some(m), Some(s)) => if s < 60 then Some(m * 60 + s) else None
      case _ => None
  }

  /** A leading zero does not change a digit string's value. */
  lemma {:induction false} LeadingZero(x: string)
    requires AllDigits(x)
    ensures AllDigits("0" + x) && DigitsValue("0" + x) == DigitsValue(x)
    decreases |x|
  {
    if x != [] {
      var y := "0" + x;
      assert y[..|y| - 1] == "0" + x[..|x| - 1];
      LeadingZero(x[..|x| - 1]);
    } else {
      assert DigitsValue("0") == DigitsValue("") * 10 + DigitValue('0');
    }
  }

  /** The seconds field: two digits whose value is `s mod 60`. */
  lemma SecondsField(secs: nat)
    requires secs < 60
    ensures |PadStart(IntToString(secs), 2)| == 2
    ensures ParseNat(PadStart(IntToString(secs), 2)) == Some(secs)
    ensures ':' !in PadStart(IntToString(secs), 2)
  {
    var t := NatToString(secs);
    NatToStringRoundTrip(secs);
    if secs < 10 {
      assert t == [DigitChar(secs)];
      LeadingZero(t);
      assert seq(1, _ => '0') == "0";
    } else {
      assert t == NatToString(secs / 10) + [DigitChar(secs % 10)];
    }
    var p := PadStart(t, 2);
    assert AllDigits(p);
    assert forall k :: 0 <= k < |p| ==> p[k] != ':';
  }

  /** For a non-negative whole number of seconds the text is minutes, ':', then two-digit seconds. */
  lemma FormatDurationShape(seconds: nat)
    ensures FormatDuration(seconds) == NatToString(seconds / 60) + ":" + PadStart(NatToString(seconds % 60), 2)
  {
    assert JsRem(seconds, 60) == seconds % 60;
    assert IntToString(seconds / 60) == NatToString(seconds / 60);
    assert IntToString(seconds % 60) == NatToString(seconds % 60);
  }

  /** ... and that text reads back to the same number of seconds. */
  lemma FormatDurationRoundTrip(seconds: nat)
    ensures ParseDuration(FormatDuration(seconds)) == Some(seconds)
  {
    var m := NatToString(seconds / 60);
    var s := PadStart(NatToString(seconds % 60), 2);
    FormatDurationShape(seconds);
    SecondsField(seconds % 60);
    NatToStringRoundTrip(seconds / 60);
    SplitTwo(FormatDuration(seconds), m, s);
    ParseDurationOfParts(FormatDuration(seconds), m, s, seconds);
  }

  lemma SplitTwo(t: string, m: string, s: string)
    requires t == m + ":" + s && AllDigits(m) && ':' !in s
    ensures Split(t, ":") == [m, s]
  {
    assert forall k :: 0 <= k < |m| ==> m[k] != ':';
    assert Join([m, s], ":") == m + ":" + s;
    SplitJoin([m, s], ":");
  }

  lemma ParseDurationOfParts(t: string, m: string, s: string, seconds: nat)
    requires Split(t, ":") == [m, s] && |s| == 2
    requires ParseNat(m) == Some(seconds / 60) && ParseNat(s) == Some(seconds % 60)
    ensures ParseDuration(t) == Some(seconds)
  {
    assert ParseDuration(t) == Some((seconds / 60) * 60 + seconds % 60);
  }
}
