/** The per-event unpacker object (`unpack_ADC` and its three subclasses):
    each call of `Unpack` parses one bank's header into the object's fields
    and, where the model and header allow it, appends the bank's block of
    channel rows to the object's sample matrix. */
module AdcUnpacker {
  import opened Wrappers
  import opened BitFields
  import opened NdArray
  import opened AdcHeaders
  import opened AdcPayload

  /** The fields of an unpacker object, as a value. */
  datatype EventState = EventState(
    adcData: Matrix,
    nboards: nat,
    nchannels: nat,
    nsamples: nat,
    midasEvent: int,
    eventCounter: nat,
    triggerTime: nat,
    channelMask: nat,
    header: Option<Header>)

  /** A fresh object: empty `adc_data`, zero counters, `midas_event = -1`. */
  const Initial := EventState(Matrix(0, []), 0, 0, 0, -1, 0, 0, 0, None)

  /** The matrix is rectangular and `nchannels`, `nsamples` are its shape. */
  predicate Consistent(st: EventState)
  {
    IsRect(st.adcData) && st.nchannels == |st.adcData.rows| && st.nsamples == st.adcData.cols
  }

  /** `unpackHeader`: the header's fields become the object's.  The V1730
      header carries no event counter: the object's counter is incremented
      instead. */
  function ParseHeader(st: EventState, h: Header): (r: EventState)
    ensures r.header == Some(h) && r.channelMask == h.channelMask && r.triggerTime == h.triggerTime
    ensures r.eventCounter == if h.V1730Header? then st.eventCounter + 1 else h.eventCounter
    ensures r.adcData == st.adcData && r.nboards == st.nboards && r.midasEvent == st.midasEvent
    ensures r.nchannels == st.nchannels && r.nsamples == st.nsamples
    ensures Consistent(st) ==> Consistent(r)
  {
    var counter := if h.V1730Header? then st.eventCounter + 1 else h.eventCounter;
    st.(channelMask := h.channelMask, eventCounter := counter, triggerTime := h.triggerTime,
        header := Some(h))
  }

  /** A decoded block goes below the rows already held; the first block of
      an event is taken as it is.  Only a block of another sample count
      than rows already holding samples is refused. */
  function StackBlock(adcData: Matrix, block: Matrix): (r: Result<Matrix, DecodeError>)
    ensures r.Err? <==> Size(adcData) != 0 && adcData.cols != block.cols
    ensures r.Ok? ==> r.value.cols == block.cols
    ensures r.Ok? ==> r.value.rows == (if Size(adcData) == 0 then [] else adcData.rows) + block.rows
    ensures r.Ok? && IsRect(adcData) && IsRect(block) ==> IsRect(r.value)
  {
    if Size(adcData) == 0 then Ok(block)
    else if adcData.cols != block.cols then Err(ColumnMismatch)
    else Ok(VStack(adcData, block))
  }

  /** `unpackData` followed by the shape update in `unpack`. */
  function AddBlock(st: EventState, block: Matrix): Result<EventState, DecodeError>
  {
    var m :- StackBlock(st.adcData, block);
    Ok(st.(adcData := m, nboards := st.nboards + 1, nchannels := |m.rows|, nsamples := m.cols))
  }

  /** The header words of a bank, cast to the model's word width. */
  function HeadOf(model: AdcModel, bank: seq<nat>): (w: seq<nat>)
    requires |bank| >= HeaderWords(model)
    ensures |w| == HeaderWords(model) && AllBelow(w, WordBound(model))
  {
    Cast(bank[..HeaderWords(model)], WordBound(model))
  }

  /** The payload words of a bank, cast to the model's word width. */
  function PayloadOf(model: AdcModel, bank: seq<nat>): (w: seq<nat>)
    requires |bank| >= HeaderWords(model)
    ensures |w| == |bank| - HeaderWords(model)
  {
    Cast(bank[HeaderWords(model)..], WordBound(model))
  }

  /** One call of `unpack(bank_data)` on an object of the given model. */
  function UnpackStep(model: AdcModel, st: EventState, bank: seq<nat>): (r: Result<EventState, DecodeError>)
    ensures |bank| < HeaderWords(model) ==> r == Err(ShortHeader)
    ensures r.Ok? ==> |bank| >= HeaderWords(model)
                      && r.value.header == Some(DecodeHeader(model, HeadOf(model, bank)))
                      && r.value.midasEvent == st.midasEvent
  {
    if |bank| < HeaderWords(model) then Err(ShortHeader)
    else
      var h := DecodeHeader(model, HeadOf(model, bank));
      var parsed := ParseHeader(st, h);
      if !UnpacksData(h) then Ok(parsed)
      else
        var block :- Block(h, PayloadOf(model, bank));
        AddBlock(parsed, block)
  }

  /** The object after `unpack` has been called on each bank in turn. */
  function UnpackAll(model: AdcModel, st: EventState, banks: seq<seq<nat>>): Result<EventState, DecodeError>
    decreases |banks|
  {
    if banks == [] then Ok(st)
    else
      var next :- UnpackStep(model, st, banks[0]);
      UnpackAll(model, next, banks[1..])
  }

  // ---------------------------------------------------------------------
  // What one unpack does to the object.

  /** A bank whose payload is unpacked counts one more board, and its block
      of `PopCount(channel_mask)` rows goes below the rows already there
      (which replace nothing, unless the matrix held no samples at all);
      `nchannels` and `nsamples` are the new shape. */
  lemma UnpackAppendsBlock(model: AdcModel, st: EventState, bank: seq<nat>)
    requires Consistent(st) && UnpackStep(model, st, bank).Ok?
    requires UnpacksData(DecodeHeader(model, HeadOf(model, bank)))
    ensures var h := DecodeHeader(model, HeadOf(model, bank));
            var block := Block(h, PayloadOf(model, bank));
            var st' := UnpackStep(model, st, bank).value;
            && block.Ok?
            && |block.value.rows| == PopCount(h.channelMask)
            && st'.nboards == st.nboards + 1
            && st'.adcData.rows
               == (if Size(st.adcData) == 0 then [] else st.adcData.rows) + block.value.rows
            && Consistent(st')
  {
  }

  /** A ZLE-compressed V1725 bank or a VX2740 bank not in scope-data format
      records its header and leaves the sample matrix, `nboards`,
      `nchannels` and `nsamples` as they were. */
  lemma NoPayloadKeepsData(model: AdcModel, st: EventState, bank: seq<nat>)
    requires |bank| >= HeaderWords(model)
    requires !UnpacksData(DecodeHeader(model, HeadOf(model, bank)))
    ensures UnpackStep(model, st, bank).Ok?
    ensures var st' := UnpackStep(model, st, bank).value;
            && st'.adcData == st.adcData && st'.nboards == st.nboards
            && st'.nchannels == st.nchannels && st'.nsamples == st.nsamples
            && st'.header == Some(DecodeHeader(model, HeadOf(model, bank)))
  {
  }

  /** Only V1725 and VX2740 banks can skip their payload, and a V1725 bank
      does exactly when bit 26 of header word 1 is set. */
  lemma PayloadGate(model: AdcModel, bank: seq<nat>)
    requires |bank| >= HeaderWords(model)
    ensures var h := DecodeHeader(model, HeadOf(model, bank));
            && (model == V1730 ==> UnpacksData(h))
            && (model == V1725 ==> (UnpacksData(h) <==> bank[1] % U32 / 0x400_0000 % 2 == 0))
            && (model == VX2740 ==> (UnpacksData(h) <==> bank[0] % U64 / 0x100_0000_0000_0000 == 0x10))
  {
  }

  /** Every V1730 header parse increments the event counter by one. */
  lemma V1730CounterIncrements(st: EventState, bank: seq<nat>)
    requires UnpackStep(V1730, st, bank).Ok?
    ensures UnpackStep(V1730, st, bank).value.eventCounter == st.eventCounter + 1
  {
  }

  /** Every successful unpack keeps the object `Consistent`, so along a
      whole event the matrix stays rectangular and `nchannels`, `nsamples`
      describe it. */
  lemma {:induction false} UnpackAllConsistent(model: AdcModel, st: EventState, banks: seq<seq<nat>>)
    requires Consistent(st) && UnpackAll(model, st, banks).Ok?
    ensures Consistent(UnpackAll(model, st, banks).value)
    ensures UnpackAll(model, st, banks).value.nboards <= st.nboards + |banks|
    decreases |banks|
  {
    if banks != [] {
      var next := UnpackStep(model, st, banks[0]).value;
      var h := DecodeHeader(model, HeadOf(model, banks[0]));
      if UnpacksData(h) {
        UnpackAppendsBlock(model, st, banks[0]);
      } else {
        NoPayloadKeepsData(model, st, banks[0]);
      }
      UnpackAllConsistent(model, next, banks[1..]);
    }
  }

  /** An unpacker object: `unpack_V1725`, `unpack_V1730` or `unpack_VX2740`
      according to `model`. */
  class Unpacker {
    const model: AdcModel
    var adcData: Matrix
    var nboards: nat
    var nchannels: nat
    var nsamples: nat
    var midasEvent: int
    var eventCounter: nat
    var triggerTime: nat
    var channelMask: nat
    var header: Option<Header>

    function State(): EventState
      reads this
    {
      EventState(adcData, nboards, nchannels, nsamples, midasEvent, eventCounter, triggerTime,
                 channelMask, header)
    }

    constructor (model: AdcModel)
      ensures this.model == model && State() == Initial
    {
      this.model := model;
      adcData := Matrix(0, []);
      nboards, nchannels, nsamples := 0, 0, 0;
      midasEvent := -1;
      eventCounter, triggerTime, channelMask := 0, 0, 0;
      header := None;
    }

    /** `unpack(bank_data)`; an error is the exception the Python code
        raises, after which the object is not used again. */
    method Unpack(bank: seq<nat>) returns (err: Option<DecodeError>)
      modifies this
      ensures var next := UnpackStep(model, old(State()), bank);
              && (err.None? <==> next.Ok?)
              && (next.Err? ==> err == Some(next.error))
              && (next.Ok? ==> State() == next.value)
    {
      var k := HeaderWords(model);
      if |bank| < k {
        return Some(ShortHeader);
      }
      UnpackHeader(bank[..k]);
      if UnpacksData(header.value) {
        err := UnpackData(bank[k..]);
        if err.None? {
          nchannels := |adcData.rows|;
          nsamples := adcData.cols;
        }
      } else {
        err := None;
      }
    }

    /** `unpackHeader(head_data)` */
    method UnpackHeader(head: seq<nat>)
      requires |head| == HeaderWords(model)
      modifies this
      ensures State() == ParseHeader(old(State()), DecodeHeader(model, Cast(head, WordBound(model))))
    {
      var h := DecodeHeader(model, Cast(head, WordBound(model)));
      channelMask := h.channelMask;
      if h.V1730Header? {
        eventCounter := eventCounter + 1;
      } else {
        eventCounter := h.eventCounter;
      }
      triggerTime := h.triggerTime;
      header := Some(h);
    }

    /** `unpackData(bank_data)`: count the board, build the block, stack it. */
    method UnpackData(payload: seq<nat>) returns (err: Option<DecodeError>)
      requires header.Some?
      modifies this`nboards, this`adcData
      ensures nboards == old(nboards) + 1
      ensures var block := Block(header.value, Cast(payload, WordBound(model)));
              var stacked := if block.Ok? then StackBlock(old(adcData), block.value) else Err(block.error);
              && (err.None? <==> stacked.Ok?)
              && (stacked.Err? ==> err == Some(stacked.error))
              && adcData == (if stacked.Ok? then stacked.value else old(adcData))
    {
      nboards := nboards + 1;
      var block := Block(header.value, Cast(payload, WordBound(model)));
      if block.Err? {
        return Some(block.error);
      }
      var stacked := StackBlock(adcData, block.value);
      if stacked.Err? {
        return Some(stacked.error);
      }
      adcData := stacked.value;
      err := None;
    }
  }
}
