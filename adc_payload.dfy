/** Payload demultiplexing of the three digitizer models: the data words
    after the header become a `(channels, samples)` matrix, one row per
    enabled channel (`PopCount(channel_mask)` rows), built with the same
    ravel/reshape steps as the numpy code. */
module AdcPayload {
  import opened Wrappers
  import opened BitFields
  import opened NdArray
  import opened AdcHeaders

  /** Why a bank could not be decoded (the Python code raises). */
  datatype DecodeError =
    | ShortHeader      // fewer words than the header has: IndexError
    | NoChannels       // empty channel mask: division by zero in the size
    | BadEventSize     // event_size below the header length: see WordsPerChannel
    | ShapeMismatch    // word count does not fill the reshape: ValueError
    | ColumnMismatch   // vstack onto rows of another length: ValueError

  // ---------------------------------------------------------------------
  // V1725: two 14-bit samples per 32-bit word, channel after channel.

  /** The low 14 bits of a word: its earlier ("even") sample. */
  function EvenSample(x: nat): nat { x % 0x4000 }

  /** Bits 16-29 of a word: its later ("odd") sample. */
  function OddSample(x: nat): nat { x / 0x1_0000 % 0x4000 }

  /** The two samples of each word side by side, cut into `nchans` rows of
      `2 * m` samples. */
  function V1725Waveforms(data: seq<nat>, nchans: nat, m: nat): (w: Matrix)
    requires |data| == nchans * m
    ensures IsRect(w) && |w.rows| == nchans && w.cols == 2 * m
  {
    var slot1 := seq(|data|, i requires 0 <= i < |data| => EvenSample(data[i]));
    var slot2 := seq(|data|, i requires 0 <= i < |data| => OddSample(data[i]));
    var flat := RavelF(Matrix(|data|, [slot1, slot2]));
    assert |flat| == nchans * (2 * m);
    ReshapeC(flat, nchans, 2 * m)
  }

  /** Payload words per channel of a V1725 bank: the `event_size - 4`
      words after the header, divided evenly among the `nchans` enabled
      channels and rounded down. Below 4 the subtraction is negative (or
      wraps, depending on numpy's scalar promotion), and `Block` reports
      `BadEventSize` instead. */
  function V1725WordsPerChannel(eventSize: nat, nchans: nat): (m: nat)
    requires nchans > 0 && eventSize >= 4
    ensures nchans * m <= eventSize - 4 < nchans * (m + 1)
  {
    (eventSize - 4) / nchans
  }

  /** The number of header words the V1725 and VX2740 sizes count: the
      payload is `event_size` minus this. */
  function HeaderSizeWords(h: Header): nat
  {
    match h
    case V1725Header(_, _, _, _, _, _, _) => 4
    case V1730Header(_, _, _, _) => 0
    case VX2740Header(_, _, _, _, _, _, _) => 3
  }

  /** Channel `c` of a V1725 block takes words `c * m .. c * m + m - 1`;
      word `c * m + j` gives sample `2j` (bits 0-13) and sample `2j + 1`
      (bits 16-29) of that channel. */
  lemma V1725Layout(data: seq<nat>, nchans: nat, m: nat, c: nat, j: nat)
    requires |data| == nchans * m && c < nchans && j < m
    ensures c * m + j < |data|
    ensures V1725Waveforms(data, nchans, m).rows[c][2 * j] == data[c * m + j] % 0x4000
    ensures V1725Waveforms(data, nchans, m).rows[c][2 * j + 1] == data[c * m + j] / 0x1_0000 % 0x4000
  {
    LinearIndexBound(c, j, nchans, m);
    V1725SlotAt(data, nchans, m, c, j, 0);
    V1725SlotAt(data, nchans, m, c, j, 1);
  }

  /** Sample `2j + s` of channel `c` is slot `s` of word `c * m + j`. */
  lemma V1725SlotAt(data: seq<nat>, nchans: nat, m: nat, c: nat, j: nat, s: nat)
    requires |data| == nchans * m && c < nchans && j < m && s < 2
    requires c * m + j < |data|
    ensures V1725Waveforms(data, nchans, m).rows[c][2 * j + s]
            == if s == 0 then EvenSample(data[c * m + j]) else OddSample(data[c * m + j])
  {
    var k := c * m + j;
    var slot1 := seq(|data|, i requires 0 <= i < |data| => EvenSample(data[i]));
    var slot2 := seq(|data|, i requires 0 <= i < |data| => OddSample(data[i]));
    var pair := Matrix(|data|, [slot1, slot2]);
    var flat := RavelF(pair);
    SlotIndex(nchans, m, c, j, s);
    ReshapeCIndex(flat, nchans, 2 * m, c, 2 * j + s);
    RavelFIndex(pair, s, k);
  }

  lemma SlotIndex(nchans: nat, m: nat, c: nat, j: nat, s: nat)
    ensures 2 * (nchans * m) == nchans * (2 * m)
    ensures c * (2 * m) + (2 * j + s) == s + 2 * (c * m + j)
  {
  }

  // ---------------------------------------------------------------------
  // V1730: one 16-bit sample per word, row-major.

  /** Row `c`, column `j` of a V1730 block is word `c * samples + j`. */
  lemma V1730Layout(data: seq<nat>, nchans: nat, samples: nat, c: nat, j: nat)
    requires |data| == nchans * samples && c < nchans && j < samples
    ensures c * samples + j < |data|
    ensures ReshapeC(data, nchans, samples).rows[c][j] == data[c * samples + j]
  {
    ReshapeCIndex(data, nchans, samples, c, j);
  }

  // ---------------------------------------------------------------------
  // VX2740: four 16-bit sub-samples per 64-bit word, words interleaved
  // across channels.

  /** The 16-bit sub-sample in slot `k` (0..3, lowest first) of a word. */
  function Slot(x: nat, k: nat): nat
    requires k < 4
  {
    x / [0x1, 0x1_0000, 0x1_0000_0000, 0x1_0000_0000_0000][k] % 0x1_0000
  }

  /** Slot `k` of every word, laid out column by column into `nchans` rows
      of `ns` samples. */
  function SlotMatrix(data: seq<nat>, nchans: nat, ns: nat, k: nat): (m: Matrix)
    requires |data| == nchans * ns && k < 4
    ensures IsRect(m) && |m.rows| == nchans && m.cols == ns
  {
    ReshapeF(seq(|data|, i requires 0 <= i < |data| => Slot(data[i], k)), nchans, ns)
  }

  /** The four slot matrices,
      one below the other. */
  function StackSlots(data: seq<nat>, nchans: nat, ns: nat): (m: Matrix)
    requires |data| == nchans * ns
    ensures IsRect(m) && |m.rows| == 4 * nchans && m.cols == ns
  {
    Matrix(ns, SlotMatrix(data, nchans, ns, 0).rows + SlotMatrix(data, nchans, ns, 1).rows
               + SlotMatrix(data, nchans, ns, 2).rows + SlotMatrix(data, nchans, ns, 3).rows)
  }

  /** The stacked slot matrices reshaped column by column into `nchans`
      rows of `4 * ns` samples. */
  function VX2740Waveforms(data: seq<nat>, nchans: nat, ns: nat): (w: Matrix)
    requires |data| == nchans * ns
    ensures IsRect(w) && |w.rows| == nchans && w.cols == 4 * ns
  {
    var flat := RavelF(StackSlots(data, nchans, ns));
    assert |flat| == nchans * (4 * ns);
    ReshapeF(flat, nchans, 4 * ns)
  }

  /** Sample `4j + k` of channel `c` is slot `k` of word `j * nchans + c`:
      consecutive words go to consecutive channels, and a word's four slots
      are four time-consecutive samples of its channel. */
  lemma VX2740Layout(data: seq<nat>, nchans: nat, ns: nat, c: nat, j: nat, k: nat)
    requires |data| == nchans * ns && c < nchans && j < ns && k < 4
    ensures j * nchans + c < |data|
    ensures var w := VX2740Waveforms(data, nchans, ns);
            && c < |w.rows| && 4 * j + k < |w.rows[c]|
            && w.rows[c][4 * j + k] == Slot(data[j * nchans + c], k)
  {
    var stacked := StackSlots(data, nchans, ns);
    var flat := RavelF(stacked);
    var t := 4 * j + k;
    assert t < 4 * ns;
    assert |flat| == nchans * (4 * ns);
    ReshapeFIndex(flat, nchans, 4 * ns, c, t);
    InterleavedIndex(c, nchans, j, k);
    StackedRow(data, nchans, ns, c, k);
    RavelFIndex(stacked, c + nchans * k, j);
    SlotMatrixAt(data, nchans, ns, c, j, k);
  }

  lemma InterleavedIndex(c: nat, n: nat, j: nat, k: nat)
    ensures c + n * (4 * j + k) == (c + n * k) + (4 * n) * j
  {
  }

  /** Row `c + nchans * k` of the stacked slots is row `c` of slot `k`. */
  lemma StackedRow(data: seq<nat>, nchans: nat, ns: nat, c: nat, k: nat)
    requires |data| == nchans * ns && c < nchans && k < 4
    ensures c + nchans * k < 4 * nchans
    ensures StackSlots(data, nchans, ns).rows[c + nchans * k] == SlotMatrix(data, nchans, ns, k).rows[c]
  {
    QuarterIndex(SlotMatrix(data, nchans, ns, 0).rows, SlotMatrix(data, nchans, ns, 1).rows,
                 SlotMatrix(data, nchans, ns, 2).rows, SlotMatrix(data, nchans, ns, 3).rows, nchans, c, k);
  }

  /** Row `c + n * k` of four stacked blocks of `n` rows is row `c` of
      block `k`. */
  lemma QuarterIndex<T>(r0: seq<T>, r1: seq<T>, r2: seq<T>, r3: seq<T>, n: nat, c: nat, k: nat)
    requires |r0| == |r1| == |r2| == |r3| == n && c < n && k < 4
    ensures c + n * k < 4 * n
    ensures (r0 + r1 + r2 + r3)[c + n * k] == [r0, r1, r2, r3][k][c]
  {
    if k == 0 {
      assert c + n * k == c;
    } else if k == 1 {
      assert c + n * k == c + n;
    } else if k == 2 {
      assert c + n * k == c + 2 * n;
    } else {
      assert c + n * k == c + 3 * n;
    }
  }

  /** Element `(c, j)` of slot matrix `k` is slot `k` of word `j * nchans + c`. */
  lemma SlotMatrixAt(data: seq<nat>, nchans: nat, ns: nat, c: nat, j: nat, k: nat)
    requires |data| == nchans * ns && c < nchans && j < ns && k < 4
    ensures j * nchans + c < |data|
    ensures SlotMatrix(data, nchans, ns, k).rows[c][j] == Slot(data[j * nchans + c], k)
  {
    ReshapeFIndex(seq(|data|, i requires 0 <= i < |data| => Slot(data[i], k)), nchans, ns, c, j);
    assert c + nchans * j == j * nchans + c;
  }

  // ---------------------------------------------------------------------
  // One bank's block, or why there is none.

  /** The width of a model's channel mask: the most channels one board
      can enable. */
  function MaxChannels(model: AdcModel): nat
  {
    match model
    case V1725 => 16
    case V1730 => 16
    case VX2740 => 64
  }

  /** A decoded header enables at most `MaxChannels` channels, so a block
      has at most that many rows, and none exactly when its mask is 0. */
  lemma BoardChannels(model: AdcModel, w: seq<nat>)
    requires |w| == HeaderWords(model) && AllBelow(w, WordBound(model))
    ensures var h := DecodeHeader(model, w);
            && PopCount(h.channelMask) <= MaxChannels(model)
            && (PopCount(h.channelMask) == 0 <==> h.channelMask == 0)
  {
    Pow2Literals();
    PopCountBound(DecodeHeader(model, w).channelMask, MaxChannels(model));
  }

  /** The block a bank's payload words give under its parsed header. */
  function Block(h: Header, data: seq<nat>): (r: Result<Matrix, DecodeError>)
    ensures r.Ok? ==> IsRect(r.value) && |r.value.rows| == PopCount(h.channelMask)
  {
    var nchans := PopCount(h.channelMask);
    match h
    case V1725Header(_, _, _, _, _, _, _) =>
      if nchans == 0 then Err(NoChannels)
      else if h.eventSize < 4 then Err(BadEventSize)
      else
        var m := V1725WordsPerChannel(h.eventSize, nchans);
        if |data| != nchans * m then Err(ShapeMismatch)
        else Ok(V1725Waveforms(data, nchans, m))
    case V1730Header(_, _, _, _) =>
      if |data| != nchans * h.samples then Err(ShapeMismatch)
      else Ok(ReshapeC(data, nchans, h.samples))
    case VX2740Header(_, _, _, _, _, _, _) =>
      if nchans == 0 then Err(NoChannels)
      else if h.eventSize < 3 then Err(BadEventSize)
      else
        var ns := (h.eventSize - 3) / nchans;
        if |data| != nchans * ns then Err(ShapeMismatch)
        else Ok(VX2740Waveforms(data, nchans, ns))
  }

  /** The V1725 and VX2740 size computations divide by the channel count
      and subtract the header length: an empty mask is `NoChannels`, and a
      size below the header length `BadEventSize`.  The V1730 block has no
      such error. */
  lemma BlockErrors(h: Header, data: seq<nat>)
    ensures Block(h, data) == Err(NoChannels) <==> !h.V1730Header? && PopCount(h.channelMask) == 0
    ensures Block(h, data) == Err(BadEventSize)
            <==> !h.V1730Header? && PopCount(h.channelMask) > 0 && h.eventSize < HeaderSizeWords(h)
  {
    match h
    case V1725Header(_, _, _, _, _, _, _) =>
    case V1730Header(_, _, _, _) =>
    case VX2740Header(_, _, _, _, _, _, _) =>
  }

  /** Whether `unpack` goes on from the header to the payload: not for a
      ZLE-compressed V1725 bank, and for a VX2740 bank only in scope-data
      format 0x10. */
  predicate UnpacksData(h: Header)
  {
    match h
    case V1725Header(_, _, _, _, _, _, _) => h.zleCompressed == 0
    case V1730Header(_, _, _, _) => true
    case VX2740Header(_, _, _, _, _, _, _) => h.format == 0x10
  }

  /** A block is decoded exactly when the payload fills the shape the
      header gives, and it is then that model's waveform matrix: `2 * m`
      samples per channel for the V1725, `samples` for the V1730 and
      `4 * ns` for the VX2740. */
  lemma BlockContents(h: Header, data: seq<nat>)
    ensures var nchans := PopCount(h.channelMask);
            h.V1725Header? ==>
              (Block(h, data).Ok? <==> nchans > 0 && h.eventSize >= 4
                                       && |data| == nchans * V1725WordsPerChannel(h.eventSize, nchans))
              && (Block(h, data).Ok? ==>
                    var m := V1725WordsPerChannel(h.eventSize, nchans);
                    Block(h, data).value == V1725Waveforms(data, nchans, m)
                    && Block(h, data).value.cols == 2 * m)
    ensures var nchans := PopCount(h.channelMask);
            h.V1730Header? ==>
              (Block(h, data).Ok? <==> |data| == nchans * h.samples)
              && (Block(h, data).Ok? ==>
                    Block(h, data).value == ReshapeC(data, nchans, h.samples)
                    && Block(h, data).value.cols == h.samples)
    ensures var nchans := PopCount(h.channelMask);
            h.VX2740Header? ==>
              (Block(h, data).Ok? <==> nchans > 0 && h.eventSize >= 3
                                       && |data| == nchans * ((h.eventSize - 3) / nchans))
              && (Block(h, data).Ok? ==>
                    var ns := (h.eventSize - 3) / nchans;
                    Block(h, data).value == VX2740Waveforms(data, nchans, ns)
                    && Block(h, data).value.cols == 4 * ns)
  {
    match h
    case V1725Header(_, _, _, _, _, _, _) =>
    case V1730Header(_, _, _, _) =>
    case VX2740Header(_, _, _, _, _, _, _) =>
  }
}
