# wf_midas: MIDAS digitizer decoding and waveform segmentation, in Dafny

This project models the core of `wf_midas`, the part of a data-analysis
chain for liquid-argon detector prototypes that turns MIDAS run files into
waveform matrices.

- **Event dispatcher** (`MIDASreader`). It walks the events of a run's
  sub-run files in order and skips MIDAS-internal records. An end-of-run
  record makes it open the next sub-run file. For each data event it builds
  an unpacker of the configured digitizer model. It feeds that unpacker the
  event's ADC banks, those that are non-empty and named in the `MIDASconf`
  table, and tags it with the event's serial number.
- **Unpackers** (`unpack_ADC` and the V1725, V1730 and VX2740 subclasses).
  Each bank's header is sliced into bit fields with masks and shifts. The
  payload words are cut into 14- or 16-bit samples and laid out as a
  `(channels, samples)` matrix with numpy's ravel, reshape and vstack. Each
  bank's block of rows is appended below the rows already decoded.
- **Reconstruction helpers** (`Algos`):
  - `downsample_wf` keeps every `rebin`-th sample, with Python's stride
    rules, negative strides included;
  - `get_roi` sums each channel over a window;
  - `get_segments` finds the runs of 1s in every channel of a 0/1 matrix and
    merges runs closer than a threshold. It works with a shifted sum, a fake
    leading segment and an index-removal list.
- **Option parser** (`Config.__parse_skv`). It splits a
  `section:key:value` option into three stripped parts.

Modules, one per file:

| module | file | models |
|---|---|---|
| `Wrappers` | wrappers.dfy | `Option` / `Result` with `:-` failure propagation |
| `BitFields` | bitfields.dfy | masks and shifts as `% 2^w` and `/ 2^s`; numpy's unsigned-dtype cast; `bin(x).count('1')` |
| `NdArray` | ndarray.dfy | 2-D arrays; C- and F-order ravel and reshape; vstack |
| `AdcHeaders` | adc_headers.dfy | the three header layouts, each with an encoder proved to be its inverse |
| `AdcPayload` | adc_payload.dfy | the three payload layouts, with per-sample index lemmas |
| `AdcUnpacker` | adc_unpacker.dfy | the unpacker object: a `class` whose `Unpack` is proved against a step function |
| `MidasReader` | midas_reader.dfy | `MIDASconf`, `isADCbank`, `__next_subrun__` and `read`; the reader is a `class` |
| `Reco` | reco.dfy | `downsample_wf` and `get_roi` |
| `Segments` | segments.dfy | `get_segments`: a reference definition, the numpy computation, and their agreement |
| `Config` | config.dfy | `__parse_skv` |

Words are unbounded naturals. Every fixed width is written out: the dtype
cast is `% 2^W`, and shifts and masks are divisions and remainders by powers
of two. Python's exceptions become `Err` results, so each error path is part
of the contract. Where the source's result depends on numpy's scalar type
promotion (the size subtraction below the header length), the model reports
an error instead; "## Left out" says where.

## Model

| member | source | states |
|---|---|---|
| BitFields.Cast | wf_midas/midas_liverpool.py:142 | casting words to an unsigned `W`-bit dtype keeps their number, puts every element below `2^W`, and leaves words that already fit unchanged |
| BitFields.FieldOfPacked | wf_midas/midas_liverpool.py:143-149 | a field packed at offset `unit`, of width `width`, is recovered by shift-and-mask, and so are the bits below and above it |
| BitFields.PopCountBound | wf_midas/midas_liverpool.py:156 | the channel count of an `n`-bit mask is at most `n`, and 0 exactly when the mask is 0 |
| AdcHeaders.DecodeV1725Header | wf_midas/midas_liverpool.py:141-149 | every V1725 header field fits its width (24-bit size and counter, 16-bit mask, one-bit ZLE flag, 48-bit trigger tag shifted by 3) |
| AdcHeaders.DecodeV1730Header | wf_midas/midas_liverpool.py:173-179 | every V1730 header field fits its width (16-bit mask and flags, 32-bit sample count, 64-bit trigger time) |
| AdcHeaders.DecodeVX2740Header | wf_midas/midas_liverpool.py:202-210 | every VX2740 header field fits its width; the trigger time is a multiple of 8 ns |
| AdcHeaders.DecodeHeader | wf_midas/midas_liverpool.py:141-210 | the parsed channel mask fits the model's word width |
| AdcHeaders.EncodeV1725Header | wf_midas/midas_liverpool.py:141-149 | the encoder produces four 32-bit words, with any value in the bits the decoder ignores |
| AdcHeaders.V1725HeaderRoundTrip | wf_midas/midas_liverpool.py:141-149 | decoding an encoded V1725 header gives it back, whatever the ignored bits hold: the fields do not overlap |
| AdcHeaders.V1725HeaderWordsRoundTrip | wf_midas/midas_liverpool.py:141-149 | decoding four V1725 words and encoding the fields again, with the ignored bits taken from the same words, gives back the words: the decoder reads every other bit |
| AdcHeaders.EncodeV1730Header | wf_midas/midas_liverpool.py:173-179 | the encoder produces eight 16-bit words |
| AdcHeaders.V1730HeaderRoundTrip | wf_midas/midas_liverpool.py:173-179 | decoding an encoded V1730 header gives it back |
| AdcHeaders.V1730HeaderWordsRoundTrip | wf_midas/midas_liverpool.py:173-179 | encoding a decoded V1730 header gives back the eight words: the decoder loses no bit |
| AdcHeaders.EncodeVX2740Header | wf_midas/midas_liverpool.py:202-210 | the encoder produces three 64-bit words |
| AdcHeaders.VX2740HeaderRoundTrip | wf_midas/midas_liverpool.py:202-210 | decoding an encoded VX2740 header gives it back |
| AdcHeaders.VX2740HeaderWordsRoundTrip | wf_midas/midas_liverpool.py:202-210 | encoding a decoded VX2740 header gives back the three words: the decoder loses no bit |
| AdcPayload.V1725Waveforms | wf_midas/midas_liverpool.py:154-159 | the V1725 block has `nchans` rows of `2 * m` samples |
| AdcPayload.V1725WordsPerChannel | wf_midas/midas_liverpool.py:157 | the words per channel are the `event_size - 4` payload words divided evenly among the enabled channels, rounded down |
| AdcPayload.V1725Layout | wf_midas/midas_liverpool.py:154-159 | sample `2j` of channel `c` is bits 0-13 of word `c*m + j`, and sample `2j+1` is bits 16-29 of it |
| AdcPayload.V1725SlotAt | wf_midas/midas_liverpool.py:154-159 | sample `2j + s` of channel `c` is the even or odd sample of word `c*m + j`, as `s` is 0 or 1 |
| AdcPayload.V1730Layout | wf_midas/midas_liverpool.py:182-185 | sample `j` of channel `c` is word `c * samples + j` |
| AdcPayload.SlotMatrix | wf_midas/midas_liverpool.py:225-229 | each VX2740 slot matrix has `nchans` rows of `ns` samples |
| AdcPayload.SlotMatrixAt | wf_midas/midas_liverpool.py:225-229 | element `(c, j)` of slot matrix `k` is 16-bit slot `k` of word `j * nchans + c`: the words are interleaved across channels |
| AdcPayload.StackSlots | wf_midas/midas_liverpool.py:230 | the four stacked slot matrices have `4 * nchans` rows |
| AdcPayload.StackedRow | wf_midas/midas_liverpool.py:230 | row `c + nchans*k` of the stack is row `c` of slot matrix `k` |
| AdcPayload.VX2740Waveforms | wf_midas/midas_liverpool.py:218-230 | the VX2740 block has `nchans` rows of `4 * ns` samples |
| AdcPayload.VX2740Layout | wf_midas/midas_liverpool.py:218-230 | sample `4j + k` of channel `c` is 16-bit slot `k` of word `j * nchans + c` |
| AdcPayload.Block | wf_midas/midas_liverpool.py:151-231 | a decoded block is rectangular, with one row per bit set in the channel mask |
| AdcPayload.BlockErrors | wf_midas/midas_liverpool.py:151-224 | a V1725 or VX2740 block fails with `NoChannels` exactly when the mask is empty, and with `BadEventSize` exactly when the mask is not empty and `event_size` is below the header length; a V1730 block fails with neither |
| AdcPayload.BlockContents | wf_midas/midas_liverpool.py:151-231 | a block is decoded exactly when the payload fills the shape the header gives, and it is then the model's waveform matrix, with `2 * m` (V1725), `samples` (V1730) or `4 * ns` (VX2740) samples per channel |
| AdcPayload.BoardChannels | wf_midas/midas_liverpool.py:141-221 | a decoded header enables at most 16 channels (V1725, V1730) or 64 (VX2740), and no channel exactly when its mask is 0 |
| AdcUnpacker.ParseHeader | wf_midas/midas_liverpool.py:141-210 | parsing a header records it, its channel mask and its trigger time, reads the event counter (the V1730 increments it), and changes nothing else, so a consistent state stays consistent |
| AdcUnpacker.StackBlock | wf_midas/midas_liverpool.py:160 | a block goes below rows that hold samples, replaces a matrix without samples, and is refused exactly when rows holding samples have another sample count |
| AdcUnpacker.UnpackStep | wf_midas/midas_liverpool.py:132-200 | a bank shorter than the header fails with `ShortHeader`; a successful unpack records the bank's decoded header and keeps the event's serial number (its shape effects are `UnpackAppendsBlock` and `NoPayloadKeepsData`) |
| AdcUnpacker.HeadOf | wf_midas/midas_liverpool.py:133-194 | the header slice has the model's header length, cast to its word width |
| AdcUnpacker.PayloadOf | wf_midas/midas_liverpool.py:135-196 | the payload slice is all the bank after the header |
| AdcUnpacker.UnpackAppendsBlock | wf_midas/midas_liverpool.py:132-231 | an unpack that reaches the payload counts one more board and appends a block of `popcount(mask)` rows below the rows held (the first block of an event replaces the empty array); `nchannels` and `nsamples` are the new shape |
| AdcUnpacker.NoPayloadKeepsData | wf_midas/midas_liverpool.py:134-200 | a ZLE-compressed V1725 bank or a VX2740 bank not in format 0x10 records its header and leaves the matrix, `nboards`, `nchannels` and `nsamples` unchanged |
| AdcUnpacker.PayloadGate | wf_midas/midas_liverpool.py:132-210 | the payload is skipped exactly when bit 26 of V1725 word 1 is set, or when the top byte of VX2740 word 0 is not 0x10; V1730 never skips it |
| AdcUnpacker.V1730CounterIncrements | wf_midas/midas_liverpool.py:178 | each V1730 header parse adds one to the event counter |
| AdcUnpacker.UnpackAllConsistent | wf_midas/midas_liverpool.py:136-231 | along any sequence of successful unpacks the matrix stays rectangular, `nchannels` and `nsamples` give its shape, and the board count grows by at most one per bank |
| AdcUnpacker.Unpacker.constructor | wf_midas/midas_liverpool.py:113-122 | a fresh object has an empty matrix, zero counters and `midas_event = -1` |
| AdcUnpacker.Unpacker.Unpack | wf_midas/midas_liverpool.py:132-200 | the object's new state is the unpack step applied to its old state, and an error is reported exactly when that step fails |
| AdcUnpacker.Unpacker.UnpackHeader | wf_midas/midas_liverpool.py:141-210 | the header's fields become the object's; the V1730 counter is incremented instead of read |
| AdcUnpacker.Unpacker.UnpackData | wf_midas/midas_liverpool.py:151-231 | the board count goes up by one, and the block is stacked below the matrix or the error is reported with the matrix untouched |
| MidasReader.MidasConf | wf_midas/midas_liverpool.py:43-50 | the table knows exactly the formats `proto0`, `dart`, `NAsetup1` and `NAsetup2`, and each has a bank list and a positive `bin` |
| MidasReader.IsAdcBank | wf_midas/midas_liverpool.py:53-58 | a bank is an ADC bank when its name is on the list; `SelectedBanksIff` states the selection it makes |
| MidasReader.SelectedBanks | wf_midas/midas_liverpool.py:101-102 | the banks `read` unpacks; `SelectedBanksIff`, `SelectedBanksSnoc` and `SelectedBanksAppend` state which and in what order |
| MidasReader.ConfiguredModelsKnown | wf_midas/midas_liverpool.py:92-99 | every model the `MIDASconf` table names has a decoder, so a reader built from the table never raises the unknown-model error |
| MidasReader.SelectedBanksIff | wf_midas/midas_liverpool.py:101-102 | a bank's data is passed to `unpack` exactly when some bank with that data is non-empty and its name is on the ADC bank list |
| MidasReader.SelectedBanksSnoc | wf_midas/midas_liverpool.py:101-103 | the banks are passed in bank order: one more bank adds its data at the end, if it is selected |
| MidasReader.UnpackAllSnoc | wf_midas/midas_liverpool.py:101-103 | unpacking one more bank is one more unpack step on the state reached so far |
| MidasReader.SelectedBanksAppend | wf_midas/midas_liverpool.py:101-102 | the selection of two bank lists in a row is the two selections in a row |
| MidasReader.UnpackAllErrAppend | wf_midas/midas_liverpool.py:101-103 | once a bank fails, the banks after it do not matter: the event fails with that error |
| MidasReader.DecodeBankStep | wf_midas/midas_liverpool.py:101-103 | one turn of the bank loop: an unselected bank changes nothing, and a selected one is one unpack step whose error is the event's error |
| MidasReader.DecodeEvent | wf_midas/midas_liverpool.py:92-106 | decoding fails with the unknown-model error exactly when the model has no decoder, and otherwise only with a bank's error |
| MidasReader.DecodedEventShape | wf_midas/midas_liverpool.py:101-106 | a decoded event carries its record's serial number and a consistent shape; an event with no selected bank has no channels and no boards |
| MidasReader.NextSubrun | wf_midas/midas_liverpool.py:70-78 | `__next_subrun__` fails exactly when file `subidx` exists in the list but is missing; otherwise it opens that file's events and advances `subidx` by one, or (past the last file) changes nothing |
| MidasReader.NextDataEvent | wf_midas/midas_liverpool.py:85-90 | the search for the next data event consumes the open file or moves to a later sub-run file |
| MidasReader.DataEventNotInternal | wf_midas/midas_liverpool.py:85-90 | `read` returns only events that are not MIDAS-internal |
| MidasReader.StreamPrefix | wf_midas/midas_liverpool.py:85-90 | the data events at the front of the open file are yielded in order, one per `read` |
| MidasReader.SkipsInternal | wf_midas/midas_liverpool.py:86-90 | an internal record that is not an end-of-run record is skipped |
| MidasReader.EndOfRunOpensNext | wf_midas/midas_liverpool.py:86-88 | an end-of-run record drops the rest of the open file, and reading goes on from the start of the next sub-run file |
| MidasReader.MissingSubrun | wf_midas/midas_liverpool.py:70-88 | an end-of-run record whose next sub-run file is missing ends the stream with `FileNotFound` for that file, yielding nothing more |
| MidasReader.EndOfRunPastLast | wf_midas/midas_liverpool.py:70-88 | after the last sub-run file an end-of-run record opens nothing, and reading goes on in the open file |
| MidasReader.ClosedSubruns | wf_midas/midas_liverpool.py:70-90 | a run whose sub-run files each end with an end-of-run record (the last may instead hold data events only) yields the data events of every file, file after file, then the end of the stream |
| MidasReader.Reader.constructor | wf_midas/midas_liverpool.py:26-40 | a new reader holds the file list and no open file, with `subidx = 0` |
| MidasReader.Reader.Open | wf_midas/midas_liverpool.py:26-50 | building a reader opens the first sub-run file, then looks the data format up in `MIDASconf`; a missing file or an unknown format is the error |
| MidasReader.Reader.NextSubrunStep | wf_midas/midas_liverpool.py:70-78 | the reader's position becomes `NextSubrun`'s, or `FileNotFound` is reported with the position unchanged |
| MidasReader.Reader.Read | wf_midas/midas_liverpool.py:80-106 | `read` ends at the position of the next data event and returns that event decoded, `None` at the end of the stream, or the error met on the way |
| MidasReader.Reader.Decode | wf_midas/midas_liverpool.py:92-106 | a fresh unpacker fed the selected banks in order ends in the state `DecodeEvent` gives, or the first bank error is returned |
| NdArray.RavelC | wf_midas/midas_liverpool.py:159 | row-major flattening keeps the element count |
| NdArray.ReshapeC | wf_midas/midas_liverpool.py:185 | row-major reshape gives the requested shape |
| NdArray.RavelF | wf_midas/midas_liverpool.py:159 | column-major flattening keeps the element count |
| NdArray.ReshapeF | wf_midas/midas_liverpool.py:226-230 | column-major reshape gives the requested shape |
| NdArray.Transpose | wf_midas/midas_liverpool.py:159 | the transpose swaps the shape |
| NdArray.VStack | wf_midas/midas_liverpool.py:160 | stacking puts the first array's rows above the second's |
| NdArray.RavelCIndex | wf_midas/midas_liverpool.py:159 | element `(i, j)` of a row-major ravel is at `i * cols + j` |
| NdArray.ReshapeCIndex | wf_midas/midas_liverpool.py:159-185 | element `(r, c)` of a row-major reshape is flat element `r * ncols + c` |
| NdArray.ReshapeFIndex | wf_midas/midas_liverpool.py:226-230 | element `(r, c)` of a column-major reshape is flat element `r + nrows * c` |
| NdArray.RavelFIndex | wf_midas/midas_liverpool.py:159 | element `(r, c)` of a column-major ravel is at `r + rows * c` |
| Reco.Reverse | wf_midas/algos.py:39-40 | reversal keeps the length and mirrors the indices |
| Reco.StrideSpec | wf_midas/algos.py:39-40 | `w[::k]` keeps `ceil(n/k)` samples, sample `i` being `w[i*k]` |
| Reco.Downsample | wf_midas/algos.py:40 | a zero step is refused, and only a zero step |
| Reco.DownsampleForward | wf_midas/algos.py:40 | a positive `rebin` keeps `ceil(n/rebin)` samples, every `rebin`-th from the first |
| Reco.DownsampleBackward | wf_midas/algos.py:40 | a negative `rebin` keeps `ceil(n/-rebin)` samples, every `-rebin`-th from the last, backwards |
| Reco.DownsampleByOne | wf_midas/algos.py:40 | `rebin = 1` is the identity |
| Reco.DownsampleTwice | wf_midas/algos.py:40 | downsampling by `a`, then by `b`, is downsampling by `a * b` |
| Reco.DownsampleWfMatrix | wf_midas/algos.py:38-39 | on a matrix every channel is downsampled alike and the result is rectangular again |
| Reco.RowLength | wf_midas/algos.py:39-40 | every downsampled channel has the same length, fixed by the input length and `rebin` |
| Reco.DownsampleWf | wf_midas/algos.py:38-40 | the zero-step error is raised exactly for `rebin = 0`, and a result keeps the input's dimension |
| Reco.SliceBound | wf_midas/algos.py:44 | a normalised slice bound lies within the sequence |
| Reco.SumAppend | wf_midas/algos.py:44 | a sum over two pieces in a row is the sum of the two |
| Reco.SumOfConstant | wf_midas/algos.py:44 | samples all equal to `v` sum to `v` times their number |
| Reco.GetRoi | wf_midas/algos.py:43-44 | the result is a `(channels, 1)` array |
| Reco.Clip | wf_midas/algos.py:44 | the clipped bound is the smaller of the bound and the length |
| Reco.RoiWindow | wf_midas/algos.py:44 | for a non-negative start and gate, a channel's value is the sum of its samples from `start` to `start + gate`, clipped to its length |
| Reco.RoiOfConstant | wf_midas/algos.py:44 | a window whose samples all equal `v` (a flat baseline, or zeros) sums to `v` times the number of its samples inside the channel |
| Reco.RoiSplit | wf_midas/algos.py:44 | adjacent windows add up |
| Reco.SumSplit | wf_midas/algos.py:44 | a sum over a slice splits at any inner point |
| Reco.RoiWholeChannel | wf_midas/algos.py:44 | a window from 0 that reaches past the end sums the whole channel |
| Reco.ColumnSlice | wf_midas/algos.py:44-45 | the two-index slice succeeds exactly on a matrix, and then slices every channel alike |
| Reco.RoiOneDAsWrittenFails | wf_midas/algos.py:45 | the 1-D branch as written raises the indexing error for every waveform |
| Reco.RoiOneDWindow | wf_midas/algos.py:45 | the corrected 1-D branch returns the clipped window `[start, start + gate)`, and its sum is the 2-D branch's value for that waveform as the only channel |
| Segments.CoversCons | wf_midas/algos.py:53-55 | a sample is covered by a list with a segment in front exactly when the segment or the rest covers it |
| Segments.RunEnd | wf_midas/algos.py:53 | the run from `i` ends at the first sample that is not 1, and every sample before it is 1 |
| Segments.RunsFromShape | wf_midas/algos.py:53 | the maximal runs are ordered, separated by at least one sample, and inside the waveform |
| Segments.RunsFromCovers | wf_midas/algos.py:53 | the maximal runs cover exactly the samples that hold 1 |
| Segments.RunsFromSpec | wf_midas/algos.py:53 | the maximal runs from `i` are ordered, within the waveform, and cover exactly the 1s |
| Segments.RunsSpec | wf_midas/algos.py:53 | the maximal runs of a channel are ordered, within it, and cover exactly its 1s |
| Segments.OrderedCons | wf_midas/algos.py:53 | a segment in front of ordered segments that start after it keeps them ordered |
| Segments.MergeFromShape | wf_midas/algos.py:54 | the forward merge keeps the order, leaves gaps of at least `min_samples_to_merge`, spans from the first start to the last stop, and never adds a segment |
| Segments.ShapeCons | wf_midas/algos.py:54 | a segment in front of merged segments, with a large enough gap, keeps the merge's shape |
| Segments.MergeFromCovers | wf_midas/algos.py:54 | every sample a run covers is covered by a merged segment |
| Segments.ChannelReference | wf_midas/algos.py:53-55 | a channel's segments by the reference definition: its maximal runs, forward-merged; `ChannelReferenceSpec` states their properties |
| Segments.ChannelReferenceSpec | wf_midas/algos.py:53-55 | a channel's merged segments are ordered, within the channel, far enough apart, and cover every 1; there are none exactly when the channel holds no 1 |
| Segments.OrderedBounds | wf_midas/algos.py:53-55 | in an ordered list every segment lies between the first start and the last stop |
| Segments.Step | wf_midas/algos.py:74 | the shifted sum is one sample longer than the channel |
| Segments.StepInRun | wf_midas/algos.py:72-74 | inside a run the shifted sum is 2, and it is 1 at the run's first sample and one past its last |
| Segments.StepOutsideRun | wf_midas/algos.py:72-74 | between runs the shifted sum is 0 |
| Segments.Flatten | wf_midas/algos.py:95-101 | flattening a two-column array doubles its length |
| Segments.Pairs | wf_midas/algos.py:80 | `reshape(-1, 2)` pairs consecutive elements |
| Segments.FlattenIndex | wf_midas/algos.py:95-101 | flat element `2j` is segment `j`'s start and `2j + 1` its stop |
| Segments.PairsFlatten | wf_midas/algos.py:95-114 | pairing undoes flattening |
| Segments.TransitionsFrom | wf_midas/algos.py:74-80 | from a sample preceded by 0, the positions where the shifted sum is 1 are the starts and stops of the maximal runs, alternating |
| Segments.Transitions | wf_midas/algos.py:74-80 | `np.where(step == 1)` lists the starts and stops of the channel's maximal runs, alternating |
| Segments.NonZeroIn | wf_midas/algos.py:110 | `remove[remove != 0]` holds exactly the non-zero entries |
| Segments.RemovalSpec | wf_midas/algos.py:104-110 | for 0/1 flags, the removal list names the start of run `i` and the stop of run `i-1` exactly when flag `i > 0` is set |
| Segments.RemovalNames | wf_midas/algos.py:104-110 | every index the flags designate is on the removal list |
| Segments.RemovalNamesOnly | wf_midas/algos.py:104-110 | every index on the removal list is one the flags designate |
| Segments.Distance | wf_midas/algos.py:86-98 | with the fake segment in front, flag `i > 0` is set exactly when the gap before run `i` is below `min_samples_to_merge`, and every flag is 0 or 1 |
| Segments.RemovalMerged | wf_midas/algos.py:86-110 | the removal list names exactly the bounds that a forward merge removes |
| Segments.KeptUnmerged | wf_midas/algos.py:111-114 | a removal list naming exactly the merged-away bounds keeps the others, in order |
| Segments.KeptMergeFrom | wf_midas/algos.py:111-114 | the bounds kept after the start of a segment being built are the flattened forward merge from there |
| Segments.MergeAbsorb | wf_midas/algos.py:98-114 | a gap below the threshold loses both its bounds: the segment being built absorbs the next run |
| Segments.MergeSeparate | wf_midas/algos.py:98-114 | a gap of at least the threshold keeps both bounds: the segment being built is complete |
| Segments.UnmergedPair | wf_midas/algos.py:104-111 | a stop and the next start are removed together or kept together |
| Segments.KeptBoundsMerge | wf_midas/algos.py:86-114 | the fake segment, the flags and the removal list compute exactly the forward merge of the runs |
| Segments.GapOfFake | wf_midas/algos.py:86-95 | row `i > 0` of the `[stop, start]` pairs holds the stop of run `i-1` and the start of run `i` |
| Segments.ChannelSegments | wf_midas/algos.py:74-116 | the numpy computation for one channel equals the reference: the maximal runs, forward-merged |
| Segments.Label | wf_midas/algos.py:119 | each row is tagged with its channel number |
| Segments.GetSegments | wf_midas/algos.py:56-126 | the result is every channel's merged segments in channel order, or `None` when there are none |
| Segments.AllSegmentsSpec | wf_midas/algos.py:118-126 | every output row names an input channel and one of its merged segments, and rows come in ascending channel order |
| Segments.NoSegmentsIff | wf_midas/algos.py:123 | the `None` sentinel is returned exactly when no channel holds a 1 |
| Segments.NoSegmentsIffZeros | wf_midas/algos.py:123 | there are no segments exactly when every channel is all zeros |
| Config.Split | wf_midas/config.py:165 | `split` gives at least one piece |
| Config.SplitSpec | wf_midas/config.py:164-165 | `split` gives one more piece than there are separators, no piece holds the separator, and joining the pieces gives back the string |
| Config.StripLeftSpec | wf_midas/config.py:166 | stripping on the left drops exactly the leading whitespace |
| Config.StripRightSpec | wf_midas/config.py:166 | stripping on the right drops exactly the trailing whitespace |
| Config.StripSpec | wf_midas/config.py:166 | `strip` returns an inner slice, with only whitespace outside it and no whitespace at either end |
| Config.StripTrimmed | wf_midas/config.py:166 | `strip` leaves a string without surrounding whitespace unchanged |
| Config.ParseSkv | wf_midas/config.py:161-166 | the option is refused, with itself in the error, exactly when it does not hold two colons |
| Config.ParseSkvPieces | wf_midas/config.py:164-166 | an accepted option is `a:b:c` with no colon in the parts, and the result is the three parts stripped, in order |
| Config.ParseSkvStripped | wf_midas/config.py:166 | each part of the result has no whitespace at either end |
| Config.ParseSkvRoundTrip | wf_midas/config.py:161-166 | parsing `a:b:c` built from colon-free, trimmed parts gives the parts back |
| Config.SplitPieces | wf_midas/config.py:165 | splitting `a:b:c` on the colon gives `a`, `b` and `c` |
| Config.CountPieces | wf_midas/config.py:164 | `a:b:c` with colon-free parts holds exactly two colons |

## Left out

- File access is not modelled: the directory test, the `glob` listing and its sort (midas_liverpool.py:28-38), the `os.path.isfile` test and the MIDAS file reader (72-74). A sub-run file is given as its event sequence, or `None` when it does not exist.
- The `print` calls and `unpack_ADC.info` (midas_liverpool.py:30, 75, 124-126, 139, 200) are output only.
- The iterator protocol `__iter__`/`__next__` (midas_liverpool.py:60-68) is not modelled. `Reader.Read` returns `None` at the end of the stream, where `__next__` raises `StopIteration`.
- The manager object and its `config` lookups are abstracted. `Reader.Open` takes the file list and the `daq:data_format` string as parameters.
- `MIDASreader.event_number` (midas_liverpool.py:51) is set to 0 and never read; it is not modelled.
- The raw `self.header` array is kept only through its decoded fields: the bits no field reads (bits 24-31 of V1725 word 0, bits 24-25 and 27-31 of V1725 word 1) are dropped, and `V1725HeaderWordsRoundTrip` takes them back from the words. `flags`, `samples`, `overlap`, `format`, `trigger_tag` and `event_size` are fields of the parsed `Header` value, not separate object fields. The unused `bin` column of `MIDASconf` is carried in the table and used nowhere.
- The floating-point helpers `running_mean`, `get_baseline`, `get_subtracted_waveform` and `get_rms` (algos.py:19-35) are not modelled. They need a uniform filter, means and standard deviations.
- `int(rebin)`, `int(start)` and `int(start + gate)` (algos.py:39-45) are modelled on integers. The truncation of a float argument is not modelled.
- Segments.GetSegments: requires a 0/1 matrix (the input contract of algos.py:50). Its result is the rows as values; the `float` detour of `np.ones(nseg) * ch` and the final `astype(int)` (algos.py:119, 126) change no value for such input.
- The state of an unpacker or reader after an exception is not modelled. `unpackData` increments `nboards` before a failing reshape, but the caller sees only the exception.
- Errors are not tagged with the bank name or the file name.
- MidasReader.MidasEvent: an event's banks are a sequence in file order. The MIDAS reader's `event.banks` is a dictionary keyed by bank name (midas_liverpool.py:101), so bank names are unique there. The model does not require distinct names: with distinct names the two agree, and the lemmas hold either way.
- AdcUnpacker.UnpackStep: an unpack whose block has a different sample count from the rows already held fails with `ColumnMismatch`, which is numpy's `vstack` error.
- AdcPayload.Block: a V1725 or VX2740 header with an empty channel mask is an error. The source divides by zero there, and the infinite or NaN quotient has no meaningful `uint32` value.
- AdcPayload.Block: a VX2740 `event_size` below 3 is the error `BadEventSize`. The source's result there depends on numpy's scalar promotion: numpy 2 wraps the uint64 subtraction, numpy 1 computes a negative float. Neither gives a meaningful `uint32` sample count.
- AdcPayload.V1725WordsPerChannel: defined for an `event_size` of at least 4 only; below 4, `Block` reports `BadEventSize`. What the source computes there depends on numpy's scalar promotion. Under numpy 1 `header[0] & 0xffffff` is an int64, `event_size - 4` is negative, and the `uint32` cast of the negative quotient is 0 above -1 (a zero-payload bank with, say, `event_size = 3` and four channels then gives an empty block) and platform-dependent below. Under numpy 2 the uint32 subtraction wraps to a huge count and the reshape fails. The model commits to neither.
- AdcUnpacker.Unpacker.UnpackHeader: the V1730 `event_counter` is unbounded. The source wraps its uint64 counter after 2^64 increments.
- The 3-D and higher-dimensional inputs of `downsample_wf`, `get_roi` and `get_segments` are not modelled. Inputs are one waveform or a channel matrix.

## Findings

| source | as written | input that shows it | evidently intended | confidence | as-written member | corrected member |
|---|---|---|---|---|---|---|
| wf_midas/algos.py:45 | the 1-D branch of `get_roi` slices `wfs[:, start:start+gate]`, two indices on a one-dimensional array | any single waveform, e.g. `[1, 2, 3]` with `gate = 1`, `start = 0`: numpy raises `IndexError` (too many indices) | the window `wfs[start:start+gate]` of the single waveform, the window the 2-D branch sums for one channel | not executed; high (the branch cannot return for any input) | Reco.RoiOneDAsWrittenFails | Reco.RoiOneDWindow |
