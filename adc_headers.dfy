/** Header layouts of the three CAEN digitizer models (V1725, V1730,
    VX2740): decoding the fixed-width header words of one bank into its
    fields, and the inverse packing that states the layout independently. */
module AdcHeaders {
  import opened BitFields

  /** The hardware model that produced a bank. */
  datatype AdcModel = V1725 | V1730 | VX2740

  /** The model-specific header fields of the last bank parsed. */
  datatype Header =
    | V1725Header(eventSize: nat, channelMask: nat, zleCompressed: nat, eventCounter: nat,
                  triggerTag: nat, extendedTriggerTag: nat, triggerTime: nat)
    | V1730Header(channelMask: nat, flags: nat, samples: nat, triggerTime: nat)
    | VX2740Header(format: nat, eventCounter: nat, eventSize: nat, flags: nat, overlap: nat,
                   channelMask: nat, triggerTime: nat)

  const U16: nat := 0x1_0000
  const U32: nat := 0x1_0000_0000
  const U64: nat := 0x1_0000_0000_0000_0000

  /** Number of header words at the start of a bank. */
  function HeaderWords(model: AdcModel): nat
  {
    match model
    case V1725 => 4
    case V1730 => 8
    case VX2740 => 3
  }

  /** `2^W` for the model's word width W (32, 16 and 64 bits). */
  function WordBound(model: AdcModel): nat
  {
    match model
    case V1725 => U32
    case V1730 => U16
    case VX2740 => U64
  }

  predicate AllBelow(words: seq<nat>, bound: nat)
  {
    forall i :: 0 <= i < |words| ==> words[i] < bound
  }

  /** V1725: four 32-bit words.  The event size is the low 24 bits of word
      0.  The channel mask takes its low byte from the low byte of word 1 and
      its high byte from the top byte of word 2.  Bit 26 of word 1 is the
      zero-length-encoding flag and bits 8-23 of word 1 the extended trigger
      tag.  The event counter is the low 24 bits of word 2 and the trigger
      tag all of word 3.  The trigger time is the 48-bit tag (extended tag
      above trigger tag) in 8 ns ticks. */
  function DecodeV1725Header(w: seq<nat>): (h: Header)
    requires |w| == 4 && AllBelow(w, U32)
    ensures h.V1725Header?
    ensures h.eventSize < 0x100_0000 && h.channelMask < U16 && h.zleCompressed < 2
    ensures h.eventCounter < 0x100_0000 && h.triggerTag < U32 && h.extendedTriggerTag < U16
    ensures h.triggerTime < U64
  {
    var extTag := w[1] / 0x100 % 0x1_0000;
    var tag := w[3] % 0x1_0000_0000;
    V1725Header(
      eventSize := w[0] % 0x100_0000,
      channelMask := w[1] % 0x100 + w[2] / 0x100_0000 % 0x100 * 0x100,
      zleCompressed := w[1] / 0x400_0000 % 2,
      eventCounter := w[2] % 0x100_0000,
      triggerTag := tag,
      extendedTriggerTag := extTag,
      triggerTime := (extTag * 0x1_0000_0000 + tag) * 8)
  }

  /** V1730: eight 16-bit words, little-end first.  Word 0 is the channel
      mask and word 1 the flags.  Words 2-3 form the 32-bit sample count and
      words 4-7 the 64-bit trigger time. */
  function DecodeV1730Header(w: seq<nat>): (h: Header)
    requires |w| == 8 && AllBelow(w, U16)
    ensures h.V1730Header?
    ensures h.channelMask < U16 && h.flags < U16 && h.samples < U32 && h.triggerTime < U64
  {
    V1730Header(
      channelMask := w[0],
      flags := w[1],
      samples := w[3] * 0x1_0000 + w[2],
      triggerTime := w[7] * 0x1_0000_0000_0000 + w[6] * 0x1_0000_0000 + w[5] * 0x1_0000 + w[4])
  }

  /** VX2740: three 64-bit words.  Word 0 holds the format in its top byte,
      the event counter in bits 32-55 and the event size in its low 32 bits.
      Word 1 holds the flags in its top 12 bits and the overlap in bits
      48-51.  Its low 48 bits are the trigger time in 8 ns ticks.  Word 2 is
      the channel mask. */
  function DecodeVX2740Header(w: seq<nat>): (h: Header)
    requires |w| == 3 && AllBelow(w, U64)
    ensures h.VX2740Header?
    ensures h.format < 0x100 && h.eventCounter < 0x100_0000 && h.eventSize < U32
    ensures h.flags < 0x1000 && h.overlap < 0x10 && h.channelMask < U64
    ensures h.triggerTime < U64 && h.triggerTime % 8 == 0
  {
    VX2740Header(
      format := w[0] / 0x100_0000_0000_0000,
      eventCounter := w[0] / 0x1_0000_0000 % 0x100_0000,
      eventSize := w[0] % 0x1_0000_0000,
      flags := w[1] / 0x10_0000_0000_0000,
      overlap := w[1] / 0x1_0000_0000_0000 % 0x10,
      channelMask := w[2],
      triggerTime := w[1] % 0x1_0000_0000_0000 * 8)
  }

  /** The header of a bank of the given model, from its (cast) header words. */
  function DecodeHeader(model: AdcModel, w: seq<nat>): (h: Header)
    requires |w| == HeaderWords(model) && AllBelow(w, WordBound(model))
    ensures h.channelMask < WordBound(model)
  {
    match model
    case V1725 => DecodeV1725Header(w)
    case V1730 => DecodeV1730Header(w)
    case VX2740 => DecodeVX2740Header(w)
  }

  // ---------------------------------------------------------------------
  // The layouts written the other way round: packing field values into
  // header words.  Decoding a packed header gives the fields back.

  /** The field values a V1725 header can carry, with the trigger time it
      implies. */
  predicate ValidV1725(h: Header)
  {
    && h.V1725Header?
    && h.eventSize < 0x100_0000 && h.channelMask < U16 && h.zleCompressed < 2
    && h.eventCounter < 0x100_0000 && h.triggerTag < U32 && h.extendedTriggerTag < U16
    && h.triggerTime == (h.extendedTriggerTag * U32 + h.triggerTag) * 8
  }

  /** The V1725 header words for `h`; `top0` (bits 24-31 of w0), `bits24`
      (bits 24-25 of w1) and `bits27` (bits 27-31 of w1) are bits the
      decoder does not read. */
  function EncodeV1725Header(h: Header, top0: nat, bits24: nat, bits27: nat): (w: seq<nat>)
    requires ValidV1725(h) && top0 < 0x100 && bits24 < 4 && bits27 < 0x20
    ensures |w| == 4 && AllBelow(w, U32)
  {
    [ h.eventSize + 0x100_0000 * top0,
      h.channelMask % 0x100 + 0x100 * h.extendedTriggerTag
        + 0x100_0000 * (bits24 + 4 * h.zleCompressed + 8 * bits27),
      h.eventCounter + 0x100_0000 * (h.channelMask / 0x100),
      h.triggerTag ]
  }

  lemma V1725HeaderRoundTrip(h: Header, top0: nat, bits24: nat, bits27: nat)
    requires ValidV1725(h) && top0 < 0x100 && bits24 < 4 && bits27 < 0x20
    ensures DecodeV1725Header(EncodeV1725Header(h, top0, bits24, bits27)) == h
  {
    V1725Word0(h.eventSize, top0);
    V1725Word1(h.channelMask % 0x100, h.extendedTriggerTag, h.zleCompressed, bits24, bits27);
    V1725Word2(h.eventCounter, h.channelMask / 0x100);
  }

  lemma V1725Word0(size: nat, top0: nat)
    requires size < 0x100_0000 && top0 < 0x100
    ensures (size + 0x100_0000 * top0) % 0x100_0000 == size
  {
    FieldOfPacked(size, top0, 0, 0x100_0000, 0x100);
  }

  lemma V1725Word1(lo: nat, ext: nat, zle: nat, bits24: nat, bits27: nat)
    requires lo < 0x100 && ext < 0x1_0000 && zle < 2 && bits24 < 4 && bits27 < 0x20
    ensures var x := lo + 0x100 * ext + 0x100_0000 * (bits24 + 4 * zle + 8 * bits27);
            && x % 0x100 == lo && x / 0x100 % 0x1_0000 == ext && x / 0x400_0000 % 2 == zle
  {
    var x := lo + 0x100 * ext + 0x100_0000 * (bits24 + 4 * zle + 8 * bits27);
    var hi := bits24 + 4 * zle + 8 * bits27;
    FieldOfPacked(lo, ext, hi, 0x100, 0x1_0000);
    var below := lo + 0x100 * ext + 0x100_0000 * bits24;
    FieldOfPacked(below, zle, bits27, 0x400_0000, 2);
    assert x == below + 0x400_0000 * zle + 0x400_0000 * 2 * bits27;
  }

  lemma V1725Word2(counter: nat, maskHigh: nat)
    requires counter < 0x100_0000 && maskHigh < 0x100
    ensures (counter + 0x100_0000 * maskHigh) % 0x100_0000 == counter
    ensures (counter + 0x100_0000 * maskHigh) / 0x100_0000 % 0x100 == maskHigh
  {
    FieldOfPacked(counter, maskHigh, 0, 0x100_0000, 0x100);
  }

  /** Decoding V1725 header words and packing the fields again, with the
      bits the decoder does not read taken from the same words, gives back
      the words. */
  lemma V1725HeaderWordsRoundTrip(w: seq<nat>)
    requires |w| == 4 && AllBelow(w, U32)
    ensures ValidV1725(DecodeV1725Header(w))
    ensures EncodeV1725Header(DecodeV1725Header(w), w[0] / 0x100_0000, w[1] / 0x100_0000 % 4, w[1] / 0x800_0000) == w
  {
    var h := DecodeV1725Header(w);
    var maskHigh := w[2] / 0x100_0000;
    assert maskHigh < 0x100;
    FieldOfPacked(w[1] % 0x100, maskHigh, 0, 0x100, 0x100);
    assert h.channelMask == w[1] % 0x100 + 0x100 * maskHigh + 0x100 * 0x100 * 0;
    V1725Word1Split(w[1]);
  }

  /** Word 1 of a V1725 header, cut into the mask byte, the extended tag,
      bits 24-25, the ZLE flag and bits 27-31. */
  lemma V1725Word1Split(x: nat)
    ensures x == x % 0x100 + 0x100 * (x / 0x100 % 0x1_0000)
                 + 0x100_0000 * (x / 0x100_0000 % 4 + 4 * (x / 0x400_0000 % 2) + 8 * (x / 0x800_0000))
  {
    var y := x / 0x100_0000;
    DivDiv(x, 0x100, 0x1_0000);
    DivDiv(x, 0x100_0000, 4);
    DivDiv(x, 0x400_0000, 2);
    assert x / 0x100 == x / 0x100 % 0x1_0000 + 0x1_0000 * y;
    assert y == y % 4 + 4 * (x / 0x400_0000);
    assert x / 0x400_0000 == x / 0x400_0000 % 2 + 2 * (x / 0x800_0000);
  }

  /** The field values a V1730 header can carry. */
  predicate ValidV1730(h: Header)
  {
    h.V1730Header? && h.channelMask < U16 && h.flags < U16 && h.samples < U32 && h.triggerTime < U64
  }

  /** The eight 16-bit V1730 header words for `h`. */
  function EncodeV1730Header(h: Header): (w: seq<nat>)
    requires ValidV1730(h)
    ensures |w| == 8 && AllBelow(w, U16)
  {
    var t := h.triggerTime;
    [ h.channelMask, h.flags, h.samples % 0x1_0000, h.samples / 0x1_0000,
      t % 0x1_0000, t / 0x1_0000 % 0x1_0000, t / 0x1_0000_0000 % 0x1_0000,
      t / 0x1_0000_0000_0000 ]
  }

  /** Packing a V1730 header and decoding it gives the fields back. */
  lemma V1730HeaderRoundTrip(h: Header)
    requires ValidV1730(h)
    ensures DecodeV1730Header(EncodeV1730Header(h)) == h
  {
    var t := h.triggerTime;
    var e := EncodeV1730Header(h);
    DivDiv(t, 0x1_0000, 0x1_0000);
    DivDiv(t, 0x1_0000_0000, 0x1_0000);
    var hi := t / 0x1_0000_0000;
    assert hi == hi / 0x1_0000 * 0x1_0000 + hi % 0x1_0000;
    var lo := t % 0x1_0000_0000;
    assert t / 0x1_0000 / 0x1_0000 == hi;
    assert lo == t - hi * 0x1_0000_0000;
    assert lo / 0x1_0000 == t / 0x1_0000 % 0x1_0000 && lo % 0x1_0000 == t % 0x1_0000 by {
      DivModUnique(t / 0x1_0000, 0x1_0000, hi, t / 0x1_0000 % 0x1_0000);
      DivModUnique(lo, 0x1_0000, t / 0x1_0000 % 0x1_0000, t % 0x1_0000);
    }
  }

  /** Every bit of a V1730 header is a field bit: decoding a header and
      packing its fields gives back the same words. */
  lemma V1730HeaderWordsRoundTrip(w: seq<nat>)
    requires |w| == 8 && AllBelow(w, U16)
    ensures EncodeV1730Header(DecodeV1730Header(w)) == w
  {
    var t := DecodeV1730Header(w).triggerTime;
    assert t == w[4] + 0x1_0000 * w[5] + 0x1_0000_0000 * (w[6] + 0x1_0000 * w[7]);
    FieldOfPacked(w[4], w[5], w[6] + 0x1_0000 * w[7], 0x1_0000, 0x1_0000);
    FieldOfPacked(w[4] + 0x1_0000 * w[5], w[6], w[7], 0x1_0000_0000, 0x1_0000);
    FieldOfPacked(w[2], w[3], 0, 0x1_0000, 0x1_0000);
  }

  /** The field values a VX2740 header can carry. */
  predicate ValidVX2740(h: Header)
  {
    && h.VX2740Header?
    && h.format < 0x100 && h.eventCounter < 0x100_0000 && h.eventSize < U32
    && h.flags < 0x1000 && h.overlap < 0x10 && h.channelMask < U64
    && h.triggerTime % 8 == 0 && h.triggerTime / 8 < 0x1_0000_0000_0000
  }

  /** The three 64-bit VX2740 header words for `h`. */
  function EncodeVX2740Header(h: Header): (w: seq<nat>)
    requires ValidVX2740(h)
    ensures |w| == 3 && AllBelow(w, U64)
  {
    [ h.eventSize + 0x1_0000_0000 * h.eventCounter + 0x100_0000_0000_0000 * h.format,
      h.triggerTime / 8 + 0x1_0000_0000_0000 * h.overlap + 0x10_0000_0000_0000 * h.flags,
      h.channelMask ]
  }

  /** Packing the fields of a VX2740 header and decoding the words gives
      back the header. */
  lemma VX2740HeaderRoundTrip(h: Header)
    requires ValidVX2740(h)
    ensures DecodeVX2740Header(EncodeVX2740Header(h)) == h
  {
    var w := EncodeVX2740Header(h);
    var d := DecodeVX2740Header(w);
    FieldOfPacked(h.eventSize, h.eventCounter, h.format, 0x1_0000_0000, 0x100_0000);
    assert d.format == h.format && d.eventCounter == h.eventCounter && d.eventSize == h.eventSize;
    var t8 := h.triggerTime / 8;
    FieldOfPacked(t8, h.overlap, h.flags, 0x1_0000_0000_0000, 0x10);
    assert d.flags == h.flags && d.overlap == h.overlap;
    assert d.triggerTime == t8 * 8 == h.triggerTime;
  }

  /** Every bit of a VX2740 header word is a field bit: decoding the words
      and packing the fields gives back the same words. */
  lemma VX2740HeaderWordsRoundTrip(w: seq<nat>)
    requires |w| == 3 && AllBelow(w, U64)
    ensures EncodeVX2740Header(DecodeVX2740Header(w)) == w
  {
    Recompose(w[0], 0x1_0000_0000, 0x100_0000);
    Recompose(w[1], 0x1_0000_0000_0000, 0x10);
  }
}
