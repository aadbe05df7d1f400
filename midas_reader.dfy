/** The event dispatcher (`MIDASreader`): it walks the events of a run's
    sub-run files in order, skips MIDAS-internal records, moves to the next
    sub-run file on an end-of-run record, and decodes each data event's ADC
    banks with an unpacker of the configured digitizer model.

    The MIDAS file reader is abstracted: a sub-run file is the sequence of
    its events (or `None` when the file does not exist), and the reader's
    open file is the sequence of events not yet read from it. */
module MidasReader {
  import opened Wrappers
  import opened AdcHeaders
  import opened AdcPayload
  import opened AdcUnpacker

  datatype EventHeader = EventHeader(isInternal: bool, isEndOfRun: bool, serialNumber: int)

  /** A named bank and its data words. */
  datatype Bank = Bank(name: string, data: seq<nat>)

  /** One event record, its banks in file order. */
  datatype MidasEvent = MidasEvent(header: EventHeader, banks: seq<Bank>)

  /** A sub-run file: its events, or `None` when it does not exist. */
  type SubrunFile = Option<seq<MidasEvent>>

  /** One row of the `MIDASconf` table. */
  datatype DaqConf = DaqConf(adc: string, banks: seq<string>, bin: nat)

  /** The `MIDASconf` table, keyed by the `daq:data_format` option. */
  function MidasConf(dataFormat: string): (r: Option<DaqConf>)
    ensures r.Some? <==> dataFormat in ["proto0", "dart", "NAsetup1", "NAsetup2"]
    ensures r.Some? ==> |r.value.banks| > 0 && r.value.bin > 0
  {
    if dataFormat == "proto0" then Some(DaqConf("V1725", ["W200", "W201", "W202", "W203"], 4))
    else if dataFormat == "dart" then Some(DaqConf("V1730", ["WF00"], 4))
    else if dataFormat == "NAsetup1" then Some(DaqConf("V1725", ["W200", "W201", "W202", "W203"], 4))
    else if dataFormat == "NAsetup2" then Some(DaqConf("VX2740", ["D000", "D001"], 8))
    else None
  }

  /** The decoder class chosen by the model name. */
  function ModelOf(adcModel: string): Option<AdcModel>
  {
    if adcModel == "V1725" then Some(V1725)
    else if adcModel == "V1730" then Some(V1730)
    else if adcModel == "VX2740" then Some(VX2740)
    else None
  }

  /** Every model the table names has a decoder, so a reader built from
      the table never reaches the unknown-model error. */
  lemma ConfiguredModelsKnown(dataFormat: string)
    requires MidasConf(dataFormat).Some?
    ensures ModelOf(MidasConf(dataFormat).value.adc).Some?
  {
  }

  datatype ReaderError =
    | FileNotFound(subrun: nat)   // FileNotFoundError
    | NoSubrunOpen                // no file was ever opened: AttributeError
    | UnknownDataFormat           // not a key of MIDASconf: KeyError
    | UnknownAdcModel             // ValueError
    | BankError(error: DecodeError)

  /** `isADCbank`: data from the digitizers, not from other equipment. */
  predicate IsAdcBank(adcBanks: seq<string>, name: string)
  {
    name in adcBanks
  }

  /** The data of the banks `read` passes to `unpack`, in bank order: those
      with data whose name is on the ADC bank list. */
  function SelectedBanks(banks: seq<Bank>, adcBanks: seq<string>): seq<seq<nat>>
    decreases |banks|
  {
    if banks == [] then []
    else
      (if |banks[0].data| > 0 && IsAdcBank(adcBanks, banks[0].name) then [banks[0].data] else [])
      + SelectedBanks(banks[1..], adcBanks)
  }

  /** A bank's data goes to the decoder exactly when it is non-empty and
      its name is on the list. */
  lemma {:induction false} SelectedBanksIff(banks: seq<Bank>, adcBanks: seq<string>, x: seq<nat>)
    ensures x in SelectedBanks(banks, adcBanks)
            <==> exists i :: 0 <= i < |banks| && banks[i].data == x && |x| > 0 && banks[i].name in adcBanks
    decreases |banks|
  {
    if banks != [] {
      SelectedBanksIff(banks[1..], adcBanks, x);
      if x in SelectedBanks(banks[1..], adcBanks) {
        var i :| 0 <= i < |banks[1..]| && banks[1..][i].data == x && |x| > 0 && banks[1..][i].name in adcBanks;
        assert banks[i + 1] == banks[1..][i];
      }
      if exists i :: 0 <= i < |banks| && banks[i].data == x && |x| > 0 && banks[i].name in adcBanks {
        var i :| 0 <= i < |banks| && banks[i].data == x && |x| > 0 && banks[i].name in adcBanks;
        if i > 0 {
          assert banks[1..][i - 1] == banks[i];
        }
      }
    }
  }

  lemma {:induction false} SelectedBanksSnoc(banks: seq<Bank>, b: Bank, adcBanks: seq<string>)
    ensures SelectedBanks(banks + [b], adcBanks)
            == SelectedBanks(banks, adcBanks) + (if |b.data| > 0 && IsAdcBank(adcBanks, b.name) then [b.data] else [])
    decreases |banks|
  {
    if banks != [] {
      assert (banks + [b])[1..] == banks[1..] + [b];
      SelectedBanksSnoc(banks[1..], b, adcBanks);
    }
  }

  lemma {:induction false} UnpackAllSnoc(model: AdcModel, st: EventState, banks: seq<seq<nat>>, b: seq<nat>)
    requires UnpackAll(model, st, banks).Ok?
    ensures UnpackAll(model, st, banks + [b]) == UnpackStep(model, UnpackAll(model, st, banks).value, b)
    decreases |banks|
  {
    if banks != [] {
      assert (banks + [b])[1..] == banks[1..] + [b];
      UnpackAllSnoc(model, UnpackStep(model, st, banks[0]).value, banks[1..], b);
    }
  }

  lemma {:induction false} SelectedBanksAppend(xs: seq<Bank>, ys: seq<Bank>, adcBanks: seq<string>)
    ensures SelectedBanks(xs + ys, adcBanks) == SelectedBanks(xs, adcBanks) + SelectedBanks(ys, adcBanks)
    decreases |xs|
  {
    if xs != [] {
      var head := if |xs[0].data| > 0 && IsAdcBank(adcBanks, xs[0].name) then [xs[0].data] else [];
      assert (xs + ys)[0] == xs[0];
      assert (xs + ys)[1..] == xs[1..] + ys;
      SelectedBanksAppend(xs[1..], ys, adcBanks);
      calc {
        SelectedBanks(xs + ys, adcBanks);
        head + SelectedBanks(xs[1..] + ys, adcBanks);
        head + (SelectedBanks(xs[1..], adcBanks) + SelectedBanks(ys, adcBanks));
        (head + SelectedBanks(xs[1..], adcBanks)) + SelectedBanks(ys, adcBanks);
        SelectedBanks(xs, adcBanks) + SelectedBanks(ys, adcBanks);
      }
    } else {
      assert xs + ys == ys;
    }
  }

  /** Once a bank fails, the banks after it are never decoded. */
  lemma {:induction false} UnpackAllErrAppend(model: AdcModel, st: EventState, xs: seq<seq<nat>>, ys: seq<seq<nat>>)
    requires UnpackAll(model, st, xs).Err?
    ensures UnpackAll(model, st, xs + ys) == UnpackAll(model, st, xs)
    decreases |xs|
  {
    assert xs != [];
    assert (xs + ys)[0] == xs[0];
    assert (xs + ys)[1..] == xs[1..] + ys;
    if UnpackStep(model, st, xs[0]).Ok? {
      UnpackAllErrAppend(model, UnpackStep(model, st, xs[0]).value, xs[1..], ys);
    }
  }

  /** One turn of the bank loop of `read`: a bank that is not selected
      leaves the object as it is, a selected one goes through `unpack`, and
      an error stops the loop with the error of the whole event. */
  lemma DecodeBankStep(model: AdcModel, banks: seq<Bank>, adcBanks: seq<string>, i: nat, st: EventState)
    requires i < |banks|
    requires UnpackAll(model, Initial, SelectedBanks(banks[..i], adcBanks)) == Ok(st)
    ensures var b := banks[i];
            var all := UnpackAll(model, Initial, SelectedBanks(banks, adcBanks));
            var next := UnpackAll(model, Initial, SelectedBanks(banks[..i + 1], adcBanks));
            if |b.data| > 0 && IsAdcBank(adcBanks, b.name) then
              && next == UnpackStep(model, st, b.data)
              && (next.Err? ==> all == next)
            else next == Ok(st)
  {
    var b := banks[i];
    var pre := SelectedBanks(banks[..i], adcBanks);
    assert banks[..i + 1] == banks[..i] + [b];
    SelectedBanksSnoc(banks[..i], b, adcBanks);
    if |b.data| > 0 && IsAdcBank(adcBanks, b.name) {
      UnpackAllSnoc(model, Initial, pre, b.data);
      if UnpackStep(model, st, b.data).Err? {
        assert banks == banks[..i + 1] + banks[i + 1..];
        SelectedBanksAppend(banks[..i + 1], banks[i + 1..], adcBanks);
        UnpackAllErrAppend(model, Initial, SelectedBanks(banks[..i + 1], adcBanks),
                           SelectedBanks(banks[i + 1..], adcBanks));
      }
    } else {
      assert pre + [] == pre;
    }
  }

  /** The object `read` returns for a data event: a fresh unpacker of the
      configured model fed the selected banks, tagged with the event's
      serial number. */
  function DecodeEvent(adcModel: string, adcBanks: seq<string>, ev: MidasEvent): (r: Result<EventState, ReaderError>)
    ensures r == Err(UnknownAdcModel) <==> ModelOf(adcModel).None?
    ensures r.Err? ==> r.error == UnknownAdcModel || r.error.BankError?
  {
    match ModelOf(adcModel)
    case None => Err(UnknownAdcModel)
    case Some(model) =>
      match UnpackAll(model, Initial, SelectedBanks(ev.banks, adcBanks))
      case Err(e) => Err(BankError(e))
      case Ok(st) => Ok(st.(midasEvent := ev.header.serialNumber))
  }

  /** A decoded event carries the serial number of its record, and
      `nchannels` and `nsamples` give the shape of its matrix; an event
      with no selected bank is the empty event with no channels. */
  lemma DecodedEventShape(adcModel: string, adcBanks: seq<string>, ev: MidasEvent)
    requires DecodeEvent(adcModel, adcBanks, ev).Ok?
    ensures var st := DecodeEvent(adcModel, adcBanks, ev).value;
            && st.midasEvent == ev.header.serialNumber
            && Consistent(st)
            && (SelectedBanks(ev.banks, adcBanks) == [] ==> st.nchannels == 0 && st.nboards == 0)
  {
    var model := ModelOf(adcModel).value;
    UnpackAllConsistent(model, Initial, SelectedBanks(ev.banks, adcBanks));
  }

  // ---------------------------------------------------------------------
  // The reading position and the next data event.

  /** `subidx` (the next sub-run file to open) and the events still to be
      read from the open file (`None` before any file was opened). */
  datatype Position = Position(subidx: nat, mfile: Option<seq<MidasEvent>>)

  /** `__next_subrun__`: open file `subidx` if there is one; `None` when
      that file is missing.  Past the last file nothing changes. */
  function NextSubrun(files: seq<SubrunFile>, pos: Position): (r: Option<Position>)
    ensures r.None? <==> pos.subidx < |files| && files[pos.subidx].None?
    ensures r.Some? && pos.subidx < |files| ==> r.value == Position(pos.subidx + 1, files[pos.subidx])
    ensures pos.subidx >= |files| ==> r == Some(pos)
  {
    if pos.subidx < |files| then
      match files[pos.subidx]
      case Some(events) => Some(Position(pos.subidx + 1, Some(events)))
      case None => None
    else Some(pos)
  }

  /** What one `read` call finds. */
  datatype ReadOutcome = DataEvent(event: MidasEvent) | EndOfStream | MissingFile(subrun: nat) | NotOpen

  function Remaining(pos: Position): nat
  {
    if pos.mfile.Some? then |pos.mfile.value| else 0
  }

  /** The loop of `read` up to the first data event: internal records are
      skipped, an end-of-run record opens the next sub-run file and reading
      goes on there.  Returns the outcome and the position after it. */
  function NextDataEvent(files: seq<SubrunFile>, pos: Position): (r: (ReadOutcome, Position))
    ensures r.0.DataEvent? ==>
              (r.1.subidx == pos.subidx && Remaining(r.1) < Remaining(pos))
              || (pos.subidx < r.1.subidx <= |files|)
    decreases |files| - pos.subidx, Remaining(pos)
  {
    if pos.mfile.None? then (NotOpen, pos)
    else if pos.mfile.value == [] then (EndOfStream, pos)
    else
      var ev := pos.mfile.value[0];
      var rest := Position(pos.subidx, Some(pos.mfile.value[1..]));
      if !ev.header.isInternal then (DataEvent(ev), rest)
      else if !ev.header.isEndOfRun then NextDataEvent(files, rest)
      else
        match NextSubrun(files, rest)
        case None => (MissingFile(pos.subidx), rest)
        case Some(next) => NextDataEvent(files, next)
  }

  /** `read` only ever returns data events. */
  lemma {:induction false} DataEventNotInternal(files: seq<SubrunFile>, pos: Position)
    requires NextDataEvent(files, pos).0.DataEvent?
    ensures !NextDataEvent(files, pos).0.event.header.isInternal
    decreases |files| - pos.subidx, Remaining(pos)
  {
    var ev := pos.mfile.value[0];
    var rest := Position(pos.subidx, Some(pos.mfile.value[1..]));
    if ev.header.isInternal {
      if !ev.header.isEndOfRun {
        DataEventNotInternal(files, rest);
      } else {
        DataEventNotInternal(files, NextSubrun(files, rest).value);
      }
    }
  }

  /** The data events the reader yields from `pos` on, and how the stream
      ends. */
  function Stream(files: seq<SubrunFile>, pos: Position): (seq<MidasEvent>, ReadOutcome)
    decreases |files| - pos.subidx, Remaining(pos)
  {
    var (outcome, next) := NextDataEvent(files, pos);
    if outcome.DataEvent? then
      var (events, end) := Stream(files, next);
      ([outcome.event] + events, end)
    else ([], outcome)
  }

  predicate NoInternal(events: seq<MidasEvent>)
  {
    forall i :: 0 <= i < |events| ==> !events[i].header.isInternal
  }

  /** Data events at the front of the open file are yielded one by one,
      in order. */
  lemma {:induction false} StreamPrefix(files: seq<SubrunFile>, subidx: nat, a: seq<MidasEvent>, rest: seq<MidasEvent>)
    requires NoInternal(a)
    ensures Stream(files, Position(subidx, Some(a + rest))).0
            == a + Stream(files, Position(subidx, Some(rest))).0
    ensures Stream(files, Position(subidx, Some(a + rest))).1
            == Stream(files, Position(subidx, Some(rest))).1
    decreases |a|
  {
    if a == [] {
      assert a + rest == rest;
    } else {
      assert (a + rest)[1..] == a[1..] + rest;
      assert (a + rest)[0] == a[0];
      assert NextDataEvent(files, Position(subidx, Some(a + rest)))
             == (DataEvent(a[0]), Position(subidx, Some(a[1..] + rest)));
      StreamPrefix(files, subidx, a[1..], rest);
      assert a == [a[0]] + a[1..];
    }
  }

  /** An internal record other than an end-of-run is skipped. */
  lemma SkipsInternal(files: seq<SubrunFile>, i: nat, ev: MidasEvent, rest: seq<MidasEvent>)
    requires ev.header.isInternal && !ev.header.isEndOfRun
    ensures Stream(files, Position(i, Some([ev] + rest))) == Stream(files, Position(i, Some(rest)))
  {
    assert ([ev] + rest)[1..] == rest;
  }

  predicate EndOfRun(ev: MidasEvent)
  {
    ev.header.isInternal && ev.header.isEndOfRun
  }

  /** An end-of-run record with sub-run file `i` still to open abandons
      the rest of the open file, and reading goes on from the start of file
      `i`. */
  lemma EndOfRunOpensNext(files: seq<SubrunFile>, i: nat, eor: MidasEvent, rest: seq<MidasEvent>)
    requires EndOfRun(eor) && i < |files| && files[i].Some?
    ensures Stream(files, Position(i, Some([eor] + rest))) == Stream(files, Position(i + 1, files[i]))
  {
    assert ([eor] + rest)[1..] == rest;
    assert NextDataEvent(files, Position(i, Some([eor] + rest)))
           == NextDataEvent(files, Position(i + 1, files[i]));
  }

  /** An end-of-run record whose next sub-run file is missing ends the
      stream with that file's index, and no event is yielded. */
  lemma MissingSubrun(files: seq<SubrunFile>, i: nat, eor: MidasEvent, rest: seq<MidasEvent>)
    requires EndOfRun(eor) && i < |files| && files[i].None?
    ensures Stream(files, Position(i, Some([eor] + rest))) == ([], MissingFile(i))
  {
  }

  /** After the last sub-run file an end-of-run record opens nothing, and
      reading goes on in the open file. */
  lemma EndOfRunPastLast(files: seq<SubrunFile>, i: nat, eor: MidasEvent, rest: seq<MidasEvent>)
    requires EndOfRun(eor) && i >= |files|
    ensures Stream(files, Position(i, Some([eor] + rest))) == Stream(files, Position(i, Some(rest)))
  {
    assert ([eor] + rest)[1..] == rest;
  }

  /** A sub-run file of data events closed by an end-of-run record. */
  predicate ClosedSubrun(f: SubrunFile)
  {
    f.Some? && |f.value| > 0 && EndOfRun(f.value[|f.value| - 1]) && NoInternal(f.value[..|f.value| - 1])
  }

  /** Files `j..` of a run: each closed by an end-of-run record, except
      that the last may instead hold data events only. */
  predicate WellClosedFrom(files: seq<SubrunFile>, j: nat)
  {
    forall k :: j <= k < |files| ==>
      ClosedSubrun(files[k]) || (k == |files| - 1 && files[k].Some? && NoInternal(files[k].value))
  }

  /** The data events of files `j..`, file after file. */
  function RunData(files: seq<SubrunFile>, j: nat): seq<MidasEvent>
    requires j <= |files| && WellClosedFrom(files, j)
    decreases |files| - j
  {
    if j == |files| then []
    else
      var f := files[j].value;
      (if ClosedSubrun(files[j]) then f[..|f| - 1] else f) + RunData(files, j + 1)
  }

  /** A run read from an open file `i - 1` on: the reader goes from each
      sub-run file into the next without the caller's help, yields the data
      events of all of them in order, and ends only after the last. */
  lemma {:induction false} ClosedSubruns(files: seq<SubrunFile>, i: nat)
    requires 1 <= i <= |files| && WellClosedFrom(files, i - 1)
    ensures Stream(files, Position(i, files[i - 1])) == (RunData(files, i - 1), EndOfStream)
    decreases |files| - i
  {
    var f := files[i - 1].value;
    if ClosedSubrun(files[i - 1]) {
      var a, eor := f[..|f| - 1], f[|f| - 1];
      assert f == a + [eor];
      StreamPrefix(files, i, a, [eor]);
      assert [eor] + [] == [eor];
      if i < |files| {
        EndOfRunOpensNext(files, i, eor, []);
        ClosedSubruns(files, i + 1);
      } else {
        EndOfRunPastLast(files, i, eor, []);
      }
    } else {
      StreamPrefix(files, i, f, []);
      assert f + [] == f;
    }
  }

  /** Reading the events of a MIDAS run.  `files` is `midas_files`, the
      sub-run files in processing order. */
  class Reader {
    const files: seq<SubrunFile>
    var subidx: nat
    var mfile: Option<seq<MidasEvent>>
    var adcModel: string
    var adcBanks: seq<string>

    function Pos(): Position
      reads this
    {
      Position(subidx, mfile)
    }

    constructor (files: seq<SubrunFile>)
      ensures this.files == files && Pos() == Position(0, None)
      ensures adcModel == "" && adcBanks == []
    {
      this.files := files;
      subidx := 0;
      mfile := None;
      adcModel := "";
      adcBanks := [];
    }

    /** `MIDASreader(manager)`: open the first sub-run file, then look the
        data format up in `MIDASconf`. */
    static method Open(files: seq<SubrunFile>, dataFormat: string) returns (r: Result<Reader, ReaderError>)
      ensures var first := NextSubrun(files, Position(0, None));
              match r
              case Err(e) =>
                e == (if first.None? then FileNotFound(0) else UnknownDataFormat)
              case Ok(reader) =>
                && fresh(reader) && first.Some? && MidasConf(dataFormat).Some?
                && reader.files == files && reader.Pos() == first.value
                && reader.adcModel == MidasConf(dataFormat).value.adc
                && reader.adcBanks == MidasConf(dataFormat).value.banks
    {
      var reader := new Reader(files);
      var err := reader.NextSubrunStep();
      if err.Some? {
        return Err(err.value);
      }
      var conf := MidasConf(dataFormat);
      if conf.None? {
        return Err(UnknownDataFormat);
      }
      reader.adcModel := conf.value.adc;
      reader.adcBanks := conf.value.banks;
      return Ok(reader);
    }

    /** `__next_subrun__` */
    method NextSubrunStep() returns (err: Option<ReaderError>)
      modifies this
      ensures var next := NextSubrun(files, old(Pos()));
              && (err.Some? <==> next.None?)
              && (next.None? ==> err.value == FileNotFound(old(subidx)) && Pos() == old(Pos()))
              && (next.Some? ==> Pos() == next.value)
      ensures adcModel == old(adcModel) && adcBanks == old(adcBanks)
    {
      if subidx < |files| {
        var f := files[subidx];
        if f.Some? {
          mfile := Some(f.value);
          subidx := subidx + 1;
          err := None;
        } else {
          err := Some(FileNotFound(subidx));
        }
      } else {
        err := None;
      }
    }

    /** `read()`: the next data event decoded, `None` at the end of the
        stream, or the error `read` raises. */
    method Read() returns (r: Result<Option<Unpacker>, ReaderError>)
      modifies this
      ensures adcModel == old(adcModel) && adcBanks == old(adcBanks)
      ensures var (outcome, next) := NextDataEvent(files, old(Pos()));
              && Pos() == next
              && match outcome
                 case EndOfStream => r == Ok(None)
                 case NotOpen => r == Err(NoSubrunOpen)
                 case MissingFile(i) => r == Err(FileNotFound(i))
                 case DataEvent(ev) =>
                   var decoded := DecodeEvent(adcModel, adcBanks, ev);
                   && (decoded.Err? ==> r == Err(decoded.error))
                   && (decoded.Ok? ==> r.Ok? && r.value.Some? && fresh(r.value.value)
                                       && r.value.value.State() == decoded.value)
    {
      while true
        invariant NextDataEvent(files, Pos()) == NextDataEvent(files, old(Pos()))
        invariant adcModel == old(adcModel) && adcBanks == old(adcBanks)
        decreases |files| - subidx, Remaining(Pos())
      {
        if mfile.None? {
          return Err(NoSubrunOpen);
        }
        var events := mfile.value;
        if events == [] {
          return Ok(None);
        }
        var event := events[0];
        mfile := Some(events[1..]);
        if event.header.isInternal {
          if event.header.isEndOfRun {
            var err := NextSubrunStep();
            if err.Some? {
              return Err(err.value);
            }
          }
          continue;
        }
        var raw :- Decode(adcModel, adcBanks, event);
        return Ok(Some(raw));
      }
    }

    /** The part of `read()` that decodes one data event: a fresh unpacker
        of the configured model, fed each selected bank in turn. */
    static method Decode(adcModel: string, adcBanks: seq<string>, event: MidasEvent) returns (r: Result<Unpacker, ReaderError>)
      ensures var decoded := DecodeEvent(adcModel, adcBanks, event);
              && (decoded.Err? ==> r == Err(decoded.error))
              && (decoded.Ok? ==> r.Ok? && fresh(r.value) && r.value.State() == decoded.value)
    {
      var model := ModelOf(adcModel);
      if model.None? {
        return Err(UnknownAdcModel);
      }
      var raw := new Unpacker(model.value);
      var i := 0;
      while i < |event.banks|
        invariant 0 <= i <= |event.banks|
        invariant UnpackAll(model.value, Initial, SelectedBanks(event.banks[..i], adcBanks)) == Ok(raw.State())
        modifies raw
      {
        var bank := event.banks[i];
        DecodeBankStep(model.value, event.banks, adcBanks, i, raw.State());
        if |bank.data| > 0 && IsAdcBank(adcBanks, bank.name) {
          var err := raw.Unpack(bank.data);
          if err.Some? {
            return Err(BankError(err.value));
          }
        }
        i := i + 1;
      }
      assert event.banks[..i] == event.banks;
      raw.midasEvent := event.header.serialNumber;
      return Ok(raw);
    }
  }
}
