/** The read-only side of the second version (LaS3.py): the first-match lookups
    written with `next(...)`, the code search, the per-lot sample dropdown, the
    display of a selected sample and the choice of the sample `save_notes`
    edits. The lists are the application's `lots` and `samples`; the UI inputs
    (selected lot, selected sample, search entry) are plain strings. */
module LaS3Queries {
  import opened Lists
  import opened Text
  import opened LaS3Rows

  const FullCodeLength := 12
  const LegacyMinFields := 7

  // Match conditions, one per lookup, as values so that lemmas name the same predicate.

  function NameIs(name: string): Row -> bool { (r: Row) => r.name == name }
  function LotIs(code: string): Row -> bool { (r: Row) => r.lot == code }
  function FullCodeIs(code: string): Row -> bool { (r: Row) => r.fullCode == code }
  function SerialIs(serial: string): Row -> bool { (r: Row) => r.serial == serial }
  function NamedInLot(name: string, code: string): Row -> bool
  {
    (r: Row) => r.name == name && r.lot == code
  }
  /** The test `return_lot_name` applies to a file row: that `Lot` and no `Serial`. */
  function FileLotIs(id: string): Row -> bool { (r: Row) => r.lot == id && r.serial == "" }

  /** The `Lot` of the first lot named `name`: the lookup of the selected lot
      in `add_sample`, `load_selected_sample` and `save_notes`. */
  function LotCodeByName(lots: seq<Row>, name: string): (code: Option<string>)
    ensures code.None? <==> forall k :: 0 <= k < |lots| ==> lots[k].name != name
    ensures code.Some? ==>
      exists k :: 0 <= k < |lots| && lots[k].name == name && code.value == lots[k].lot &&
        forall j :: 0 <= j < k ==> lots[j].name != name
  {
    match FirstIndex(lots, NameIs(name))
    case None => None
    case Some(k) => Some(lots[k].lot)
  }

  /** `find_lot_name_by_lot_number`, and the lot lookup of the legacy search: the
      `Name` of the first lot whose `Lot` is `code`. */
  function LotNameByCode(lots: seq<Row>, code: string): (name: Option<string>)
    ensures name.None? <==> forall k :: 0 <= k < |lots| ==> lots[k].lot != code
    ensures name.Some? ==>
      exists k :: 0 <= k < |lots| && lots[k].lot == code && name.value == lots[k].name &&
        forall j :: 0 <= j < k ==> lots[j].lot != code
  {
    match FirstIndex(lots, LotIs(code))
    case None => None
    case Some(k) => Some(lots[k].name)
  }

  /** `return_lot_name`: the `Name` of the first row of the file with that `Lot`
      and no `Serial`. */
  function ReturnLotName(file: seq<Row>, id: string): (name: Option<string>)
    ensures name.None? <==> forall k :: 0 <= k < |file| ==> !(file[k].lot == id && file[k].serial == "")
    ensures name.Some? ==>
      exists k :: 0 <= k < |file| && file[k].lot == id && file[k].serial == "" &&
        name.value == file[k].name &&
        forall j :: 0 <= j < k ==> !(file[j].lot == id && file[j].serial == "")
  {
    match FirstIndex(file, FileLotIs(id))
    case None => None
    case Some(k) => Some(file[k].name)
  }

  lemma ReturnLotNameCons(x: Row, rest: seq<Row>, id: string)
    ensures ReturnLotName([x] + rest, id)
         == if x.lot == id && x.serial == "" then Some(x.name) else ReturnLotName(rest, id)
  {
    FirstIndexCons(x, rest, FileLotIs(id));
    assert ([x] + rest)[0] == x;
    assert forall i :: 0 <= i < |rest| ==> ([x] + rest)[i + 1] == rest[i];
  }

  lemma LotNameByCodeCons(x: Row, rest: seq<Row>, code: string)
    ensures LotNameByCode([x] + rest, code)
         == if x.lot == code then Some(x.name) else LotNameByCode(rest, code)
  {
    FirstIndexCons(x, rest, LotIs(code));
    assert ([x] + rest)[0] == x;
    assert forall i :: 0 <= i < |rest| ==> ([x] + rest)[i + 1] == rest[i];
  }

  /** For any non-empty lot code, reading the lot name from the file agrees with
      looking it up among the loaded lots. (For the empty code the file lookup
      can hit an ignored row such as the bootstrap row.) */
  lemma {:induction false} ReturnLotNameAgrees(file: seq<Row>, id: string)
    requires id != ""
    ensures ReturnLotName(file, id) == LotNameByCode(LotRows(file), id)
    decreases |file|
  {
    if file != [] {
      var x, rest := file[0], file[1..];
      assert file == [x] + rest;
      ReturnLotNameAgrees(rest, id);
      ReturnLotNameCons(x, rest, id);
      FilterCons(x, rest, IsLotRow);
      assert LotRows(file) == (if IsLotRow(x) then [x] else []) + LotRows(rest);
      if IsLotRow(x) {
        LotNameByCodeCons(x, LotRows(rest), id);
      } else {
        assert !(x.lot == id && x.serial == "");
        assert LotRows(file) == LotRows(rest);
      }
    }
  }

  /** Index of the first sample whose `FullCode` is `code`. */
  function SampleIndexByFullCode(samples: seq<Row>, code: string): (i: Option<nat>)
    ensures i.None? <==> forall k :: 0 <= k < |samples| ==> samples[k].fullCode != code
    ensures i.Some? ==>
      i.value < |samples| && samples[i.value].fullCode == code &&
      forall k :: 0 <= k < i.value ==> samples[k].fullCode != code
  {
    FirstIndex(samples, FullCodeIs(code))
  }

  /** Index of the first sample called `name` in the lot with code `code`. */
  function SampleIndexByNameInLot(samples: seq<Row>, name: string, code: string): (i: Option<nat>)
    ensures i.None? <==> forall k :: 0 <= k < |samples| ==> !(samples[k].name == name && samples[k].lot == code)
    ensures i.Some? ==>
      i.value < |samples| && samples[i.value].name == name && samples[i.value].lot == code &&
      forall k :: 0 <= k < i.value ==> !(samples[k].name == name && samples[k].lot == code)
  {
    FirstIndex(samples, NamedInLot(name, code))
  }

  /** The `Name` of the first sample whose `Serial` is `serial`. */
  function SampleNameBySerial(samples: seq<Row>, serial: string): (name: Option<string>)
    ensures name.None? <==> forall k :: 0 <= k < |samples| ==> samples[k].serial != serial
    ensures name.Some? ==>
      exists k :: 0 <= k < |samples| && samples[k].serial == serial && name.value == samples[k].name &&
        forall j :: 0 <= j < k ==> samples[j].serial != serial
  {
    match FirstIndex(samples, SerialIs(serial))
    case None => None
    case Some(k) => Some(samples[k].name)
  }

  /** Python truthiness of a lookup result: found, and not the empty string. */
  predicate Truthy(o: Option<string>)
  {
    o.Some? && o.value != ""
  }

  /** What a search shows: the lot and sample to select and the active flag; or
      one of the two error messages, with the lot selection the search left
      behind (None: unchanged). */
  datatype SearchResult =
    | Found(lotName: Option<string>, sampleName: string, active: bool)
    | NotFound(lotSelection: Option<string>)
    | BadFormat(lotSelection: Option<string>)

  /** `search_code` on the text of the search entry. Without a comma the stripped
      text is a full code; with one, the lot selection is first set by
      `PrefixLotName`, and the text is a legacy line of at least seven
      comma-separated fields, read at fields 1 (lot code), 2 (serial) and 6
      (active). */
  function SearchCode(lots: seq<Row>, samples: seq<Row>, file: seq<Row>, entry: string): (r: SearchResult)
    ensures r.BadFormat? <==> ',' in Strip(entry) && |Split(Strip(entry))| < LegacyMinFields
    ensures ',' !in Strip(entry) ==>
      (r.Found? <==> exists k :: 0 <= k < |samples| && samples[k].fullCode == Strip(entry))
    ensures ',' !in Strip(entry) && r.NotFound? ==> r.lotSelection == None
    ensures ',' in Strip(entry) && !r.Found? ==> r.lotSelection == Some(PrefixLotName(lots, Strip(entry)))
  {
    var code := Strip(entry);
    if ',' !in code then
      match SampleIndexByFullCode(samples, code)
      case None => NotFound(None)
      case Some(k) =>
        var s := samples[k];
        Found(ReturnLotName(file, s.lot), s.name, s.active == "True")
    else
      var selection := Some(PrefixLotName(lots, code));
      var fields := Split(code);
      if |fields| < LegacyMinFields then BadFormat(selection)
      else
        var lotName := LotNameByCode(lots, fields[1]);
        var sampleName := SampleNameBySerial(samples, fields[2]);
        if Truthy(lotName) && Truthy(sampleName) then
          Found(lotName, sampleName.value, Strip(fields[6]) == "True")
        else NotFound(selection)
  }

  /** A search without a comma shows the first sample with the stripped text
      as full code: its name, its active flag, and the lot name read from the file. */
  lemma SearchByFullCode(lots: seq<Row>, samples: seq<Row>, file: seq<Row>, entry: string)
    requires ',' !in Strip(entry)
    ensures var r := SearchCode(lots, samples, file, entry);
      r.Found? ==>
        exists k :: 0 <= k < |samples| && samples[k].fullCode == Strip(entry) &&
          (forall j :: 0 <= j < k ==> samples[j].fullCode != Strip(entry)) &&
          r == Found(ReturnLotName(file, samples[k].lot), samples[k].name, samples[k].active == "True")
  {
  }

  /** The test `search_code` applies to a lot before taking its name for the
      browse selection: the code is the prefix, and the `Serial` is absent or not
      four characters long once stripped. */
  predicate PrefixLot(l: Row, prefix: string)
  {
    l.lot == prefix && (l.serial == "" || |Strip(l.serial)| != 4)
  }

  function PrefixLotIs(prefix: string): Row -> bool { (l: Row) => PrefixLot(l, prefix) }

  /** The lot name the browse dropdown is set to while a comma search runs: the
      name of the first lot that passes `PrefixLot` for the first eight
      characters of the text; empty if none does. */
  function PrefixLotName(lots: seq<Row>, code: string): (name: string)
    ensures var prefix := if |code| <= 8 then code else code[..8];
      ((forall k :: 0 <= k < |lots| ==> !PrefixLot(lots[k], prefix)) ==> name == "") &&
      ((exists k :: 0 <= k < |lots| && PrefixLot(lots[k], prefix)) ==>
         exists k :: 0 <= k < |lots| && PrefixLot(lots[k], prefix) && name == lots[k].name &&
           forall j :: 0 <= j < k ==> !PrefixLot(lots[j], prefix))
  {
    var prefix := if |code| <= 8 then code else code[..8];
    match FirstIndex(lots, PrefixLotIs(prefix))
    case None => ""
    case Some(k) => lots[k].name
  }

  /** A legacy line, the seven columns of a file row joined with commas, is
      resolved from its second, third and seventh fields alone. */
  lemma LegacyLineResolves(lots: seq<Row>, samples: seq<Row>, file: seq<Row>, fields: seq<string>)
    requires |fields| >= LegacyMinFields
    requires forall k :: 0 <= k < |fields| ==> ',' !in fields[k]
    requires Strip(Join(fields)) == Join(fields)
    ensures var r := SearchCode(lots, samples, file, Join(fields));
      var lotName := LotNameByCode(lots, fields[1]);
      var sampleName := SampleNameBySerial(samples, fields[2]);
      r == if Truthy(lotName) && Truthy(sampleName)
           then Found(lotName, sampleName.value, Strip(fields[6]) == "True")
           else NotFound(Some(PrefixLotName(lots, Join(fields))))
  {
    SplitJoin(fields);
    JoinHasComma(fields);
  }

  /** A comma-separated line with fewer than seven fields is a format error,
      whatever the store holds. */
  lemma ShortLegacyLineRejected(lots: seq<Row>, samples: seq<Row>, file: seq<Row>, fields: seq<string>)
    requires 2 <= |fields| < LegacyMinFields
    requires forall k :: 0 <= k < |fields| ==> ',' !in fields[k]
    requires Strip(Join(fields)) == Join(fields)
    ensures SearchCode(lots, samples, file, Join(fields)) == BadFormat(Some(PrefixLotName(lots, Join(fields))))
  {
    SplitJoin(fields);
    JoinHasComma(fields);
  }

  /** The samples of the lot with code `code`, in list order. */
  function SamplesOfLot(samples: seq<Row>, code: string): (related: seq<Row>)
    ensures forall k :: 0 <= k < |related| ==> related[k].lot == code && related[k] in samples
    ensures forall k :: 0 <= k < |samples| && samples[k].lot == code ==> samples[k] in related
  {
    FilterMembers(samples, LotIs(code));
    Filter(samples, LotIs(code))
  }

  function Names(rows: seq<Row>): (names: seq<string>)
    ensures |names| == |rows|
  {
    seq(|rows|, k requires 0 <= k < |rows| => rows[k].name)
  }

  /** The sample dropdown: its values, and the value it is set to (None: the
      selection is left as it was). */
  datatype SampleChoices = SampleChoices(values: seq<string>, selection: Option<string>)

  /** `update_sample_dropdown`: the names of the samples of the first lot with the
      selected name, in insertion order, defaulting to the first of them (or to
      the empty string); no values and no change of selection when no lot has
      that name. */
  function UpdateSampleDropdown(lots: seq<Row>, samples: seq<Row>, selectedLot: string): (c: SampleChoices)
    ensures LotCodeByName(lots, selectedLot).None? ==> c == SampleChoices([], None)
    ensures LotCodeByName(lots, selectedLot).Some? ==>
      var related := SamplesOfLot(samples, LotCodeByName(lots, selectedLot).value);
      c.values == Names(related) &&
      c.selection == Some(if related == [] then "" else related[0].name)
  {
    match FirstIndex(lots, NameIs(selectedLot))
    case None => SampleChoices([], None)
    case Some(k) =>
      var related := SamplesOfLot(samples, lots[k].lot);
      SampleChoices(Names(related), Some(if related == [] then "" else related[0].name))
  }

  /** Appending a sample adds its name to the end of the dropdown of its own lot
      and leaves the dropdown of every other lot as it was. */
  lemma DropdownAfterAppend(lots: seq<Row>, samples: seq<Row>, s: Row, selectedLot: string)
    requires LotCodeByName(lots, selectedLot).Some?
    ensures var code := LotCodeByName(lots, selectedLot).value;
      UpdateSampleDropdown(lots, samples + [s], selectedLot).values
        == UpdateSampleDropdown(lots, samples, selectedLot).values + (if s.lot == code then [s.name] else [])
  {
    var code := LotCodeByName(lots, selectedLot).value;
    FilterAppend(samples, [s], LotIs(code));
    assert Filter([s], LotIs(code)) == (if s.lot == code then [s] else []) by {
      assert [s][..0] == [];
    }
  }

  /** What `load_selected_sample` puts into the notes box and the active box. */
  datatype Shown = Shown(notes: string, active: bool)

  /** `load_selected_sample`: nothing when the selected lot has no code or no
      sample is selected, otherwise the notes and active flag of the first sample
      with the selected name in that lot, if there is one. */
  function LoadSelectedSample(lots: seq<Row>, samples: seq<Row>, selectedLot: string, selectedSample: string): (r: Option<Shown>)
    ensures r.Some? ==>
      Truthy(LotCodeByName(lots, selectedLot)) && selectedSample != "" &&
      exists k :: 0 <= k < |samples| && samples[k].name == selectedSample &&
        samples[k].lot == LotCodeByName(lots, selectedLot).value &&
        r.value == Shown(samples[k].notes, samples[k].active == "True") &&
        forall j :: 0 <= j < k ==>
          !(samples[j].name == selectedSample && samples[j].lot == LotCodeByName(lots, selectedLot).value)
    ensures r.None? <==>
      !Truthy(LotCodeByName(lots, selectedLot)) || selectedSample == "" ||
      forall k :: 0 <= k < |samples| ==>
        !(samples[k].name == selectedSample && samples[k].lot == LotCodeByName(lots, selectedLot).value)
  {
    var lotCode := LotCodeByName(lots, selectedLot);
    if !Truthy(lotCode) || selectedSample == "" then None
    else
      match SampleIndexByNameInLot(samples, selectedSample, lotCode.value)
      case None => None
      case Some(k) => Some(Shown(samples[k].notes, samples[k].active == "True"))
  }

  /** The sample `save_notes` edits: with a twelve-character search text, the
      first sample with that full code; otherwise the first sample with the
      selected name in the first lot with the selected name. */
  function SaveTarget(lots: seq<Row>, samples: seq<Row>, search: string, selectedLot: string, selectedSample: string): (t: Option<nat>)
    ensures t.Some? ==> t.value < |samples|
    ensures |search| == FullCodeLength ==> t == SampleIndexByFullCode(samples, search)
    ensures |search| != FullCodeLength ==>
      (t.None? <==>
         (LotCodeByName(lots, selectedLot).None? ||
          SampleIndexByNameInLot(samples, selectedSample, LotCodeByName(lots, selectedLot).value).None?)) &&
      (t.Some? ==> samples[t.value].name == selectedSample &&
                   samples[t.value].lot == LotCodeByName(lots, selectedLot).value &&
                   forall j :: 0 <= j < t.value ==>
                     !(samples[j].name == selectedSample && samples[j].lot == LotCodeByName(lots, selectedLot).value))
  {
    if |search| == FullCodeLength then SampleIndexByFullCode(samples, search)
    else
      match LotCodeByName(lots, selectedLot)
      case None => None
      case Some(code) => SampleIndexByNameInLot(samples, selectedSample, code)
  }

  /** The sample with its notes and active flag replaced as `save_notes` does. */
  function WithNotes(s: Row, notes: string, active: bool): (e: Row)
    ensures e.notes == notes && (e.active == "True" <==> active)
    ensures IsLoadedSample(s) ==> IsLoadedSample(e)
    ensures e.(notes := s.notes, active := s.active) == s
  {
    s.(notes := notes, active := if active then "True" else "False")
  }

  /** The samples after an edit of sample `t`: that one changed, all others as they were. */
  function ApplySave(samples: seq<Row>, t: Option<nat>, notes: string, active: bool): (after: seq<Row>)
    requires t.Some? ==> t.value < |samples|
    ensures |after| == |samples|
    ensures forall k :: 0 <= k < |samples| && t != Some(k) ==> after[k] == samples[k]
    ensures t.Some? ==> after[t.value] == WithNotes(samples[t.value], notes, active)
    ensures (forall k :: 0 <= k < |samples| ==> IsLoadedSample(samples[k])) ==>
      forall k :: 0 <= k < |after| ==> IsLoadedSample(after[k])
  {
    if t.Some? then samples[t.value := WithNotes(samples[t.value], notes, active)] else samples
  }

  /** After saving through the selected lot and sample, loading that selection
      shows exactly the saved notes and active flag. */
  lemma SaveThenLoadSelected(lots: seq<Row>, samples: seq<Row>, search: string,
                             selectedLot: string, selectedSample: string, notes: string, active: bool)
    requires |search| != FullCodeLength
    requires SaveTarget(lots, samples, search, selectedLot, selectedSample).Some?
    requires Truthy(LotCodeByName(lots, selectedLot)) && selectedSample != ""
    ensures var after := ApplySave(samples, SaveTarget(lots, samples, search, selectedLot, selectedSample), notes, active);
      LoadSelectedSample(lots, after, selectedLot, selectedSample) == Some(Shown(notes, active))
  {
    var t := SaveTarget(lots, samples, search, selectedLot, selectedSample);
    var code := LotCodeByName(lots, selectedLot).value;
    var after := ApplySave(samples, t, notes, active);
    var i := SampleIndexByNameInLot(samples, selectedSample, code).value;
    assert t == Some(i);
    FirstIndexIs(after, NamedInLot(selectedSample, code), i);
  }

  /** After saving through a full code (`SaveTarget` picks the first sample with
      that code when the search text has twelve characters), searching that code
      finds the same sample with the saved active flag. */
  lemma SaveThenSearchByCode(lots: seq<Row>, samples: seq<Row>, file: seq<Row>, search: string,
                             notes: string, active: bool)
    requires ',' !in search && Strip(search) == search
    requires SampleIndexByFullCode(samples, search).Some?
    ensures var t := SampleIndexByFullCode(samples, search);
      var after := ApplySave(samples, t, notes, active);
      SearchCode(lots, after, file, search)
        == Found(ReturnLotName(file, samples[t.value].lot), samples[t.value].name, active)
  {
    var t := SampleIndexByFullCode(samples, search);
    var after := ApplySave(samples, t, notes, active);
    FirstIndexIs(after, FullCodeIs(search), t.value);
  }
}
