/**
 * Control-file encoder for the CAPS Eq10 LADSPA plugin as driven through
 * alsaequal: a gain per band is serialised into the binary `LADSPA_Control`
 * layout and the control file is rewritten with exactly that buffer.
 */
module Equalizer {
  import opened Wrappers

  newtype u32 = x: int | 0 <= x < 0x1_0000_0000
  newtype u64 = x: int | 0 <= x < 0x1_0000_0000_0000_0000

  const NumBands: nat := 10
  /** Per-band weight slots in the plugin's control record. */
  const NumChannels: nat := 16
  /** The Eq10 plugin's unique identifier. */
  const PluginEq10: nat := 1773
  /** Control-type tag meaning "output". */
  const ControlOutput: u32 := 0
  /** Words in one band record: control index, 16 weights, control type. */
  const BandWords: nat := 18
  /** Tail words the encoder writes: two indices and the ten band records. */
  const WrittenTailWords: nat := 182

  /** A word of the file: header words are 32- or 64-bit, the rest 32-bit. */
  datatype Word = U32(v32: u32) | U64(v64: u64)
  {
    function Bytes(): nat { if U32? then 4 else 8 }
    function Value(): nat { if U32? then v32 as nat else v64 as nat }
  }

  /** Length in bytes of a sequence of words. */
  function ByteSize(ws: seq<Word>): nat {
    if ws == [] then 0 else ByteSize(ws[..|ws| - 1]) + ws[|ws| - 1].Bytes()
  }

  function ChannelCount(mono: bool): nat { if mono then 1 else 2 }

  function HeaderWordBytes(longWords: bool): nat { if longWords then 8 else 4 }

  /**
   * `_calculateFileLength`: a four-word header, two 32-bit indices, ten
   * 72-byte band records and `channels * 10 * 4` further bytes, which the
   * plugin counts in its own length check.
   */
  function FileLength(mono: bool, longWords: bool): (n: nat)
    ensures !longWords && mono ==> n == 784
    ensures !longWords && !mono ==> n == 824
    ensures longWords && mono ==> n == 800
    ensures longWords && !mono ==> n == 840
  {
    4 * HeaderWordBytes(longWords) + 2 * 4 + NumBands * 72 + ChannelCount(mono) * NumBands * 4
  }

  /** Capacity in 32-bit words of the tail view over the buffer. */
  function TailLength(mono: bool, longWords: bool): (n: nat)
    ensures n * 4 == FileLength(mono, longWords) - 4 * HeaderWordBytes(longWords)
    ensures n == WrittenTailWords + ChannelCount(mono) * NumBands
  {
    (FileLength(mono, longWords) - 4 * HeaderWordBytes(longWords)) / 4
  }

  /** The header values: file length, plugin id, channel count, band count. */
  function HeaderValues(mono: bool, longWords: bool): seq<nat> {
    [FileLength(mono, longWords), PluginEq10, ChannelCount(mono), NumBands]
  }

  function HeaderWord(value: nat, longWords: bool): Word
    requires value < 0x1_0000_0000
  {
    if longWords then U64(value as u64) else U32(value as u32)
  }

  /**
   * Word `k` of the tail as the encoder leaves it: the input index (10),
   * the output index (11), then per band `i` its index, the gain bits in
   * weight slots 0 and 1, the bits of 0.0 in slots 2..15 and the control
   * type; every later word keeps the zero of the fresh buffer.
   */
  function TailWord(preset: seq<real>, floatBits: real -> u32, k: nat): u32
    requires |preset| == NumBands
  {
    if k == 0 then NumBands as u32
    else if k == 1 then (NumBands + 1) as u32
    else if k < WrittenTailWords then
      var band, slot := (k - 2) / BandWords, (k - 2) % BandWords;
      if slot == 0 then band as u32
      else if slot <= NumChannels then (if slot - 1 <= 1 then floatBits(preset[band]) else floatBits(0.0))
      else ControlOutput
    else 0
  }

  /** Where the word at `slot` of band record `band` sits in the tail. */
  lemma BandWordAt(preset: seq<real>, floatBits: real -> u32, band: nat, slot: nat)
    requires |preset| == NumBands && band < NumBands && slot < BandWords
    ensures TailWord(preset, floatBits, 2 + BandWords * band + slot) ==
      if slot == 0 then band as u32
      else if slot <= 2 then floatBits(preset[band])
      else if slot <= NumChannels then floatBits(0.0)
      else ControlOutput
  {
    var d := BandWords * band + slot;
    assert d / BandWords == band && d % BandWords == slot;
  }

  /** The whole control file that `loadPreset` writes. */
  function Image(preset: seq<real>, mono: bool, longWords: bool, floatBits: real -> u32): (img: seq<Word>)
    requires |preset| == NumBands
    ensures |img| == 4 + TailLength(mono, longWords)
    ensures forall k :: 0 <= k < 4 ==> img[k].Bytes() == HeaderWordBytes(longWords)
    ensures forall k :: 4 <= k < |img| ==> img[k] == U32(TailWord(preset, floatBits, k - 4))
  {
    var header := HeaderValues(mono, longWords);
    seq(4, k requires 0 <= k < 4 => HeaderWord(header[k], longWords))
      + seq(TailLength(mono, longWords), k requires 0 <= k => U32(TailWord(preset, floatBits, k)))
  }

  /**
   * The cursor loop of `loadPreset` over the tail view: the two indices,
   * then each band record in turn; words past the last record stay zero.
   */
  method FillTail(tail: array<u32>, preset: seq<real>, floatBits: real -> u32)
    requires |preset| == NumBands && tail.Length >= WrittenTailWords
    requires forall k :: 0 <= k < tail.Length ==> tail[k] == 0
    modifies tail
    ensures forall k :: 0 <= k < tail.Length ==> tail[k] == TailWord(preset, floatBits, k)
  {
    var cursor := 0;
    tail[cursor] := NumBands as u32;
    cursor := cursor + 1;
    tail[cursor] := (NumBands + 1) as u32;
    cursor := cursor + 1;

    for i := 0 to NumBands
      invariant cursor == 2 + BandWords * i
      invariant forall k :: 0 <= k < cursor ==> tail[k] == TailWord(preset, floatBits, k)
      invariant forall k :: cursor <= k < tail.Length ==> tail[k] == 0
    {
      BandWordAt(preset, floatBits, i, 0);
      tail[cursor] := i as u32;
      cursor := cursor + 1;
      for j := 0 to NumChannels
        invariant cursor == 2 + BandWords * i + 1 + j
        invariant forall k :: 0 <= k < cursor ==> tail[k] == TailWord(preset, floatBits, k)
        invariant forall k :: cursor <= k < tail.Length ==> tail[k] == 0
      {
        BandWordAt(preset, floatBits, i, 1 + j);
        if j <= 1 {
          tail[cursor] := floatBits(preset[i]);
        } else {
          tail[cursor] := floatBits(0.0);
        }
        cursor := cursor + 1;
      }
      BandWordAt(preset, floatBits, i, BandWords - 1);
      tail[cursor] := ControlOutput;
      cursor := cursor + 1;
    }
  }

  /**
   * The buffer-building part of `loadPreset`: a zero-filled buffer, a head
   * view of four header words, a tail view of 32-bit words, and a cursor
   * writing the indices and band records into the tail.
   */
  method Serialize(preset: seq<real>, mono: bool, longWords: bool, floatBits: real -> u32)
    returns (image: seq<Word>)
    requires |preset| == NumBands
    ensures image == Image(preset, mono, longWords, floatBits)
  {
    var fileLen := FileLength(mono, longWords);
    var headBytes := 4 * HeaderWordBytes(longWords);
    var head := new nat[4](_ => 0);
    var tail := new u32[(fileLen - headBytes) / 4](_ => 0);
    assert forall k :: 0 <= k < tail.Length ==> tail[k] == 0;

    var entries := [fileLen, PluginEq10, ChannelCount(mono), NumBands];
    var cursor := 0;
    while cursor < |entries|
      invariant 0 <= cursor <= 4
      invariant head[..cursor] == entries[..cursor]
      modifies head
    {
      head[cursor] := entries[cursor];
      cursor := cursor + 1;
    }

    FillTail(tail, preset, floatBits);

    var h, t := head[..], tail[..];
    assert h == HeaderValues(mono, longWords);
    image := seq(4, k requires 0 <= k < 4 => HeaderWord(h[k], longWords))
      + seq(|t|, k requires 0 <= k < |t| => U32(t[k]));
  }

  // Properties of the layout

  lemma {:induction false} ByteSizeAppend(a: seq<Word>, b: seq<Word>)
    ensures ByteSize(a + b) == ByteSize(a) + ByteSize(b)
    decreases |b|
  {
    if b != [] {
      assert (a + b)[..|a + b| - 1] == a + b[..|b| - 1];
      ByteSizeAppend(a, b[..|b| - 1]);
    } else {
      assert a + b == a;
    }
  }

  lemma {:induction false} ByteSizeUniform(ws: seq<Word>, width: nat)
    requires forall k :: 0 <= k < |ws| ==> ws[k].Bytes() == width
    ensures ByteSize(ws) == width * |ws|
  {
    if ws != [] {
      ByteSizeUniform(ws[..|ws| - 1], width);
    }
  }

  /**
   * Byte offsets: header word `k` starts at `k` header-word widths, tail
   * word `k - 4` right after the header at a multiple of 4 bytes, and the
   * whole image is exactly `FileLength` bytes, the length its first word
   * records.
   */
  lemma ImageOffsets(preset: seq<real>, mono: bool, longWords: bool, floatBits: real -> u32, k: nat)
    requires |preset| == NumBands
    requires k <= |Image(preset, mono, longWords, floatBits)|
    ensures var img := Image(preset, mono, longWords, floatBits);
      |img| == 4 + TailLength(mono, longWords) &&
      (k <= 4 ==> ByteSize(img[..k]) == HeaderWordBytes(longWords) * k) &&
      (k >= 4 ==> ByteSize(img[..k]) == 4 * HeaderWordBytes(longWords) + 4 * (k - 4)) &&
      ByteSize(img) == FileLength(mono, longWords) == img[0].Value()
  {
    var img := Image(preset, mono, longWords, floatBits);
    ImageWidths(preset, mono, longWords, floatBits);
    PrefixBytes(img, 4, HeaderWordBytes(longWords), k);
    PrefixBytes(img, 4, HeaderWordBytes(longWords), |img|);
    assert img[..|img|] == img;
  }

  /** The image has four header words of the long-word width, then 32-bit words. */
  lemma ImageWidths(preset: seq<real>, mono: bool, longWords: bool, floatBits: real -> u32)
    requires |preset| == NumBands
    ensures var img := Image(preset, mono, longWords, floatBits);
      |img| == 4 + TailLength(mono, longWords) &&
      (forall k :: 0 <= k < 4 ==> img[k].Bytes() == HeaderWordBytes(longWords)) &&
      (forall k :: 4 <= k < |img| ==> img[k].Bytes() == 4)
  {
  }

  /** Byte size of a prefix of `h` words of width `w` followed by 32-bit words. */
  lemma PrefixBytes(ws: seq<Word>, h: nat, w: nat, k: nat)
    requires h <= |ws| && k <= |ws|
    requires forall i :: 0 <= i < h ==> ws[i].Bytes() == w
    requires forall i :: h <= i < |ws| ==> ws[i].Bytes() == 4
    ensures k <= h ==> ByteSize(ws[..k]) == w * k
    ensures k >= h ==> ByteSize(ws[..k]) == w * h + 4 * (k - h)
  {
    if k <= h {
      ByteSizeUniform(ws[..k], w);
    } else {
      assert ws[..k] == ws[..h] + ws[h..k];
      ByteSizeUniform(ws[..h], w);
      ByteSizeUniform(ws[h..k], 4);
      ByteSizeAppend(ws[..h], ws[h..k]);
    }
  }

  /**
   * The header holds, in order, the file length, the plugin id 1773, the
   * channel count and the band count, each in a word of the configured width.
   */
  lemma HeaderLayout(preset: seq<real>, mono: bool, longWords: bool, floatBits: real -> u32)
    requires |preset| == NumBands
    ensures var img := Image(preset, mono, longWords, floatBits);
      |img| > 4 &&
      (forall k :: 0 <= k < 4 ==> img[k].Bytes() == HeaderWordBytes(longWords)) &&
      img[0].Value() == FileLength(mono, longWords) &&
      img[1].Value() == 1773 &&
      img[2].Value() == (if mono then 1 else 2) &&
      img[3].Value() == 10
  {
  }

  /**
   * After the header come the input index 10 and the output index 11; all
   * words after the ten band records are zero.
   */
  lemma TailLayout(preset: seq<real>, mono: bool, longWords: bool, floatBits: real -> u32)
    requires |preset| == NumBands
    ensures var img := Image(preset, mono, longWords, floatBits);
      |img| == 4 + WrittenTailWords + ChannelCount(mono) * NumBands &&
      (forall k :: 4 <= k < |img| ==> img[k].U32?) &&
      img[4] == U32(10) && img[5] == U32(11) &&
      (forall k :: 4 + WrittenTailWords <= k < |img| ==> img[k] == U32(0))
  {
  }

  /**
   * Band `band` occupies the 18 words from tail offset `2 + 18 * band`: its
   * index, the gain's bits in the first two weight slots, the bits of 0.0
   * (zero) in the other fourteen, and the output tag 0.
   */
  lemma BandRecord(preset: seq<real>, mono: bool, longWords: bool, floatBits: real -> u32, band: nat)
    requires |preset| == NumBands && band < NumBands
    requires floatBits(0.0) == 0
    ensures var img, at := Image(preset, mono, longWords, floatBits), 4 + 2 + BandWords * band;
      var gain := U32(floatBits(preset[band]));
      at + BandWords <= |img| &&
      img[at..at + BandWords] == [U32(band as u32), gain, gain] + seq(NumChannels - 2, _ => U32(0)) + [U32(ControlOutput)]
  {
    var img, at := Image(preset, mono, longWords, floatBits), 4 + 2 + BandWords * band;
    var gain := U32(floatBits(preset[band]));
    var rec := [U32(band as u32), gain, gain] + seq(NumChannels - 2, _ => U32(0)) + [U32(ControlOutput)];
    forall slot | 0 <= slot < BandWords ensures img[at + slot] == rec[slot] {
      BandWordAt(preset, floatBits, band, slot);
    }
  }

  /** The encoded file depends on the preset only through its gain bits. */
  lemma ImageDeterminedByGains(p: seq<real>, q: seq<real>, mono: bool, longWords: bool, floatBits: real -> u32)
    requires |p| == |q| == NumBands
    requires forall i :: 0 <= i < NumBands ==> floatBits(p[i]) == floatBits(q[i])
    ensures Image(p, mono, longWords, floatBits) == Image(q, mono, longWords, floatBits)
  {
    var a, b := Image(p, mono, longWords, floatBits), Image(q, mono, longWords, floatBits);
    forall k | 4 <= k < |a| ensures a[k] == b[k] {
      if 2 <= k - 4 < WrittenTailWords {
        var d := k - 4 - 2;
        BandWordAt(p, floatBits, d / BandWords, d % BandWords);
        BandWordAt(q, floatBits, d / BandWords, d % BandWords);
      }
    }
  }

  // The equaliser object

  /**
   * An equaliser bound to one control file. The word width of the header
   * is fixed at construction; `floatBits` is the IEEE-754 single-precision
   * bit pattern of a number. `fd` is the descriptor the open returned and
   * `file` the contents of the file this instance opened, if it opened one.
   */
  class Equalizer {
    const mono: bool
    const longWords: bool
    const floatBits: real -> u32
    var fd: Option<nat>
    var file: Option<seq<Word>>
    /** The preset most recently written to the file. */
    ghost var loaded: seq<real>

    /** The negation of JavaScript's `!this.fd`: a descriptor other than 0. */
    predicate Enabled()
      reads this
    {
      fd.Some? && fd.value != 0
    }

    /**
     * A file is open exactly when a descriptor is held, and anything in it
     * is the whole encoding of the last preset loaded.
     */
    ghost predicate Valid()
      reads this
    {
      (fd.Some? <==> file.Some?) &&
      (file.Some? && file.value != [] ==>
        Enabled() && |loaded| == NumBands && file.value == Image(loaded, mono, longWords, floatBits))
    }

    /**
     * Without a (non-empty) file name, or when opening the file for writing
     * fails (`openResult` is None), the equaliser stays disabled for good.
     * Otherwise the file is opened, which empties it, and a flat preset of
     * ten zero gains is loaded.
     */
    constructor (controlFilename: Option<string>, mono: bool, longWords: bool,
                 floatBits: real -> u32, openResult: Option<nat>)
      ensures Valid()
      ensures this.mono == mono && this.longWords == longWords && this.floatBits == floatBits
      ensures Enabled() <==> controlFilename.Some? && controlFilename.value != "" && openResult.Some? && openResult.value != 0
      ensures Enabled() ==> file == Some(Image(seq(NumBands, _ => 0.0), mono, longWords, floatBits))
      ensures fd == if controlFilename.Some? && controlFilename.value != "" then openResult else None
      ensures controlFilename.None? || controlFilename.value == "" || openResult.None? ==> file.None?
      ensures controlFilename.Some? && controlFilename.value != "" && openResult == Some(0) ==> file == Some([])
    {
      this.mono := mono;
      this.longWords := longWords;
      this.floatBits := floatBits;
      fd := None;
      file := None;
      loaded := [];
      new;
      if controlFilename.Some? && controlFilename.value != "" && openResult.Some? {
        fd := openResult;
        file := Some([]);
        var _ := LoadPreset(seq(NumBands, _ => 0.0));
      }
    }

    /**
     * `loadPreset`: a no-op when disabled, whatever the preset; otherwise a
     * preset that does not have ten gains fails the assertion (`ok` false,
     * file untouched), and a ten-gain preset is serialised afresh and the
     * file truncated to the new length and overwritten from offset 0, so it
     * then holds exactly the new image.
     */
    method LoadPreset(preset: seq<real>) returns (ok: bool)
      requires Valid()
      modifies this`file, this`loaded
      ensures Valid()
      ensures ok <==> !Enabled() || |preset| == NumBands
      ensures file == if Enabled() && |preset| == NumBands
                      then Some(Image(preset, mono, longWords, floatBits))
                      else old(file)
    {
      if !Enabled() {
        return true;
      }
      if |preset| != NumBands {
        return false;
      }
      var image := Serialize(preset, mono, longWords, floatBits);
      file := Some(image);
      loaded := preset;
      ok := true;
    }
  }
}
