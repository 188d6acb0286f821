/** The record store of the second version (LaS3.py): class `LotSampleApp` with
    its two in-memory lists and the file they mirror, code generation, and the
    operations that change them (`add_lot`, `add_sample`, `load_data`,
    `save_notes`). The random digit draws and the clock are inputs. */
module LaS3App {
  import opened Lists
  import opened Text
  import opened LaS3Rows
  import opened LaS3Queries

  /** One draw of `random.randint(0, 9)`. */
  type Digit = d: int | 0 <= d <= 9

  const LotCodeLength := 8
  const SerialLength := 4

  function DigitChar(d: Digit): (c: char)
    ensures IsDigit(c) && c as int - '0' as int == d
  {
    ('0' as int + d) as char
  }

  /** `generate_code(n)` with its `n` draws given: one decimal digit per draw, in order. */
  function GenerateCode(draws: seq<Digit>): (code: string)
    ensures |code| == |draws|
    ensures IsDigits(code)
    ensures forall k :: 0 <= k < |draws| ==> code[k] as int - '0' as int == draws[k]
  {
    if draws == [] then "" else [DigitChar(draws[0])] + GenerateCode(draws[1..])
  }

  /** Why an add is refused, after the error message the form shows. */
  datatype AddError = EmptyName | UnknownLot

  datatype Result<T> = Ok(value: T) | Err(error: AddError)

  /** Lot codes as `add_lot` makes them: eight digits. */
  predicate WellCoded(lots: seq<Row>)
  {
    forall k :: 0 <= k < |lots| ==> |lots[k].lot| == LotCodeLength && IsDigits(lots[k].lot)
  }

  /** The record `add_lot` builds from the text of the name entry: refused when
      the stripped name is empty, otherwise a lot with an eight-digit code, the
      stripped name and every other column empty. */
  function NewLot(nameEntry: string, draws: seq<Digit>): (r: Result<Row>)
    requires |draws| == LotCodeLength
    ensures r.Err? <==> Strip(nameEntry) == ""
    ensures r.Err? ==> r.error == EmptyName
    ensures r.Ok? ==>
      IsLotRow(r.value) && WellCoded([r.value]) && r.value.name == Strip(nameEntry) &&
      r.value == BlankRow.(lot := r.value.lot, name := r.value.name)
  {
    var name := Strip(nameEntry);
    if name == "" then Err(EmptyName)
    else Ok(BlankRow.(lot := GenerateCode(draws), name := name))
  }

  /** The record `add_sample` builds: refused when the stripped name is empty or
      no lot has the selected name; otherwise a sample of the first lot with that
      name, with a four-digit serial, full code = lot code followed by serial,
      empty notes and `Active` set to `False`. */
  function NewSample(nameEntry: string, selectedLot: string, lots: seq<Row>, draws: seq<Digit>, now: string): (r: Result<Row>)
    requires |draws| == SerialLength
    ensures r == Err(EmptyName) <==> Strip(nameEntry) == ""
    ensures r == Err(UnknownLot) <==> Strip(nameEntry) != "" && LotCodeByName(lots, selectedLot).None?
    ensures r.Ok? ==>
      LotCodeByName(lots, selectedLot).Some? &&
      var code := LotCodeByName(lots, selectedLot).value;
      var s := r.value;
      s.lot == code && |s.serial| == SerialLength && IsDigits(s.serial) &&
      s.fullCode == code + s.serial && s.fullCode[..|code|] == code &&
      s.datetime == now && s.name == Strip(nameEntry) && s.notes == "" && s.active == "False" &&
      IsLoadedSample(s)
  {
    var name := Strip(nameEntry);
    if name == "" then Err(EmptyName)
    else
      match LotCodeByName(lots, selectedLot)
      case None => Err(UnknownLot)
      case Some(code) =>
        var serial := GenerateCode(draws);
        Ok(Row(now, code, serial, code + serial, name, "", "False"))
  }

  /** When every lot code is eight digits, as `add_lot` makes them, a new sample's
      full code is twelve digits whose first eight are its lot's code. */
  lemma NewSampleFullCode(nameEntry: string, selectedLot: string, lots: seq<Row>, draws: seq<Digit>, now: string)
    requires |draws| == SerialLength
    requires WellCoded(lots)
    requires NewSample(nameEntry, selectedLot, lots, draws, now).Ok?
    ensures var s := NewSample(nameEntry, selectedLot, lots, draws, now).value;
      |s.fullCode| == FullCodeLength && IsDigits(s.fullCode) && s.fullCode[..LotCodeLength] == s.lot
  {
    var s := NewSample(nameEntry, selectedLot, lots, draws, now).value;
    var k :| 0 <= k < |lots| && lots[k].name == selectedLot && s.lot == lots[k].lot;
    assert |s.lot| == LotCodeLength && IsDigits(s.lot);
    assert forall i :: 0 <= i < |s.fullCode| ==> s.fullCode[i] == if i < LotCodeLength then s.lot[i] else s.serial[i - LotCodeLength];
  }

  /** A sample added with a full code no earlier sample has is what a search for
      that code finds: its name, `Active` false, and its lot's name. */
  lemma SearchFindsNewSample(lots: seq<Row>, samples: seq<Row>, file: seq<Row>, s: Row)
    requires IsDigits(s.fullCode)
    requires forall k :: 0 <= k < |samples| ==> samples[k].fullCode != s.fullCode
    requires s.active == "False"
    ensures SearchCode(lots, samples + [s], file, s.fullCode) == Found(ReturnLotName(file, s.lot), s.name, false)
  {
    DigitsAreBare(s.fullCode);
    FirstIndexIs(samples + [s], FullCodeIs(s.fullCode), |samples|);
  }

  /** The rewrite loop of `save_notes`: every lot in order, then every sample in order. */
  method WriteAll(lots: seq<Row>, samples: seq<Row>) returns (rows: seq<Row>)
    ensures rows == lots + samples
  {
    rows := [];
    var i := 0;
    while i < |lots|
      invariant 0 <= i <= |lots|
      invariant rows == lots[..i]
    {
      rows := rows + [lots[i]];
      i := i + 1;
    }
    assert lots[..i] == lots;
    i := 0;
    while i < |samples|
      invariant 0 <= i <= |samples|
      invariant rows == lots + samples[..i]
    {
      rows := rows + [samples[i]];
      i := i + 1;
    }
    assert samples[..i] == samples;
  }

  class LotSampleApp {
    /** The rows of `lots_and_samples.csv` below its header. */
    var file: seq<Row>
    var lots: seq<Row>
    var samples: seq<Row>

    /** The lists are what loading the file gives. */
    ghost predicate Valid()
      reads this
    {
      lots == LotRows(file) && samples == SampleRows(file)
    }

    /** Start-up: the file is created with its bootstrap timestamp row when it does
        not exist (`existing` is None), then loaded. */
    constructor (existing: Option<seq<Row>>, now: string)
      ensures file == (if existing.None? then [BootstrapRow(now)] else existing.value)
      ensures Valid()
    {
      file := if existing.None? then [BootstrapRow(now)] else existing.value;
      new;
      LoadData();
    }

    /** `load_data`: the lists are reset and refilled from the file. */
    method LoadData()
      modifies this
      ensures file == old(file)
      ensures lots == LotRows(file) && samples == SampleRows(file)
      ensures Valid()
    {
      samples := [];
      lots := [];
      lots, samples := ClassifyRows(file);
    }

    /** `find_lot_name_by_lot_number`: the name of the first lot with that code. */
    method FindLotNameByLotNumber(lotNumber: string) returns (name: Option<string>)
      ensures name == LotNameByCode(lots, lotNumber)
    {
      var i := 0;
      while i < |lots|
        invariant 0 <= i <= |lots|
        invariant forall k :: 0 <= k < i ==> lots[k].lot != lotNumber
      {
        if lots[i].lot == lotNumber {
          FirstIndexIs(lots, LotIs(lotNumber), i);
          return Some(lots[i].name);
        }
        i := i + 1;
      }
      return None;
    }

    /** `add_lot`: on a non-empty stripped name one lot row is appended to the
        file and to `lots`; nothing changes otherwise. */
    method AddLot(nameEntry: string, draws: seq<Digit>) returns (r: Result<Row>)
      requires Valid()
      requires |draws| == LotCodeLength
      modifies this
      ensures Valid()
      ensures r == NewLot(nameEntry, draws)
      ensures samples == old(samples)
      ensures r.Ok? ==> file == old(file) + [r.value] && lots == old(lots) + [r.value]
      ensures r.Err? ==> file == old(file) && lots == old(lots)
    {
      r := NewLot(nameEntry, draws);
      if r.Err? {
        return;
      }
      var lot := r.value;
      ClassifyAppend(file, lot);
      file := file + [lot];
      lots := lots + [lot];
    }

    /** `add_sample`: on a non-empty stripped name and a known lot one sample row
        is appended to the file and to `samples`; nothing changes otherwise. */
    method AddSample(nameEntry: string, selectedLot: string, draws: seq<Digit>, now: string) returns (r: Result<Row>)
      requires Valid()
      requires |draws| == SerialLength
      modifies this
      ensures Valid()
      ensures r == NewSample(nameEntry, selectedLot, old(lots), draws, now)
      ensures lots == old(lots)
      ensures r.Ok? ==> file == old(file) + [r.value] && samples == old(samples) + [r.value]
      ensures r.Err? ==> file == old(file) && samples == old(samples)
    {
      r := NewSample(nameEntry, selectedLot, lots, draws, now);
      if r.Err? {
        return;
      }
      var sample := r.value;
      ClassifyAppend(file, sample);
      file := file + [sample];
      samples := samples + [sample];
    }

    /** `save_notes`: the sample chosen by `SaveTarget` gets the stripped notes and
        the active flag; then the file is rewritten as all lots followed by all
        samples. With no such sample nothing changes. */
    method SaveNotes(notesText: string, searchEntry: string, selectedLot: string, selectedSample: string, active: bool)
      returns (updated: bool)
      requires Valid()
      modifies this
      ensures Valid()
      ensures lots == old(lots)
      ensures var t := SaveTarget(old(lots), old(samples), Strip(searchEntry), selectedLot, selectedSample);
        updated == t.Some? &&
        samples == ApplySave(old(samples), t, Strip(notesText), active)
      ensures updated ==> file == lots + samples
      ensures !updated ==> file == old(file)
    {
      var notes := Strip(notesText);
      var t := SaveTarget(lots, samples, Strip(searchEntry), selectedLot, selectedSample);
      updated := t.Some?;
      if !updated {
        return;
      }
      samples := ApplySave(samples, t, notes, active);
      file := WriteAll(lots, samples);
      RewriteRoundTrip(lots, samples);
    }
  }
}
