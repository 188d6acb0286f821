/** The first version of the store (LaS1.py): lots and samples kept as
    positional rows in two module-level lists that mirror `lots.csv` and
    `samples.csv`. A lot row is `[id, name, notes]`, a sample row is
    `[id, name, description, associated lot name]`. A file is None while it
    does not exist; the texts of the entry widgets and dropdowns are inputs. */
module LaS1 {
  import opened Lists
  import opened Text

  type Fields = seq<string>

  /** Columns the code indexes: a lot's name is column 1; a sample's name,
      notes and lot are columns 1, 2 and 3. */
  predicate LotsShaped(lots: seq<Fields>)
  {
    forall k :: 0 <= k < |lots| ==> |lots[k]| >= 2
  }

  predicate SamplesShaped(samples: seq<Fields>)
  {
    forall k :: 0 <= k < |samples| ==> |samples[k]| >= 4
  }

  /** `load_from_csv`: the rows of the file, or no rows when it does not exist. */
  function LoadFromCsv(file: Option<seq<Fields>>): (rows: seq<Fields>)
    ensures file.None? ==> rows == []
    ensures file.Some? ==> rows == file.value
  {
    match file
    case None => []
    case Some(rows) => rows
  }

  /** `save_to_csv`: append one row, creating the file if needed. */
  function SaveToCsv(file: Option<seq<Fields>>, row: Fields): (file': Option<seq<Fields>>)
    ensures file'.Some?
    ensures LoadFromCsv(file') == LoadFromCsv(file) + [row]
  {
    Some(LoadFromCsv(file) + [row])
  }

  /** The name column (column 1) of rows, in order: `update_lot_dropdown` shows
      it for every lot, `update_sample_dropdown` for the samples of one lot. */
  function NameColumn(rows: seq<Fields>): (names: seq<string>)
    requires LotsShaped(rows)
    ensures |names| == |rows|
    ensures forall k :: 0 <= k < |rows| ==> names[k] == rows[k][1]
  {
    seq(|rows|, k requires 0 <= k < |rows| => rows[k][1])
  }

  /** The test `update_sample_dropdown` applies: the lot column is the selected lot. */
  predicate InLot(row: Fields, selectedLot: string)
  {
    |row| >= 4 && row[3] == selectedLot
  }

  function InLotIs(selectedLot: string): Fields -> bool { (row: Fields) => InLot(row, selectedLot) }

  /** The samples `update_sample_dropdown` lists, in order. */
  function SamplesInLot(samples: seq<Fields>, selectedLot: string): (related: seq<Fields>)
    ensures LotsShaped(related)
    ensures forall k :: 0 <= k < |related| ==> related[k] in samples && InLot(related[k], selectedLot)
    ensures forall k :: 0 <= k < |samples| && InLot(samples[k], selectedLot) ==> samples[k] in related
  {
    FilterMembers(samples, InLotIs(selectedLot));
    Filter(samples, InLotIs(selectedLot))
  }

  /** Every sample of the selected lot gives its name to the name column of
      `SamplesInLot`, and every name there comes from such a sample. */
  lemma SamplesInLotNames(samples: seq<Fields>, selectedLot: string, names: seq<string>)
    requires SamplesShaped(samples)
    requires names == NameColumn(SamplesInLot(samples, selectedLot))
    ensures forall k :: 0 <= k < |samples| && samples[k][3] == selectedLot ==> samples[k][1] in names
    ensures forall n :: n in names ==>
      exists k :: 0 <= k < |samples| && samples[k][3] == selectedLot && samples[k][1] == n
  {
    var related := SamplesInLot(samples, selectedLot);
    forall k | 0 <= k < |samples| && samples[k][3] == selectedLot ensures samples[k][1] in names {
      assert InLot(samples[k], selectedLot);
      var i :| 0 <= i < |related| && related[i] == samples[k];
      assert names[i] == samples[k][1];
    }
    forall n | n in names
      ensures exists k :: 0 <= k < |samples| && samples[k][3] == selectedLot && samples[k][1] == n
    {
      var i :| 0 <= i < |names| && names[i] == n;
      assert related[i] in samples;
      var k :| 0 <= k < |samples| && samples[k] == related[i];
      assert samples[k][1] == names[i];
    }
  }

  /** `update_sample_dropdown`: the names of the samples whose lot column is the
      selected lot, in order. */
  function SampleDropdown(samples: seq<Fields>, selectedLot: string): (names: seq<string>)
    requires SamplesShaped(samples)
    ensures |names| <= |samples|
    ensures forall k :: 0 <= k < |samples| && samples[k][3] == selectedLot ==> samples[k][1] in names
    ensures forall n :: n in names ==>
      exists k :: 0 <= k < |samples| && samples[k][3] == selectedLot && samples[k][1] == n
  {
    var names := NameColumn(SamplesInLot(samples, selectedLot));
    SamplesInLotNames(samples, selectedLot, names);
    names
  }

  /** The test `load_notes` and `save_edited_notes` apply to a sample row. */
  predicate Matches(row: Fields, selectedLot: string, selectedSample: string)
  {
    |row| >= 4 && row[1] == selectedSample && row[3] == selectedLot
  }

  function MatchesIs(selectedLot: string, selectedSample: string): Fields -> bool
  {
    (row: Fields) => Matches(row, selectedLot, selectedSample)
  }

  /** `load_notes`: the notes column of the first sample with the selected name
      and lot; None (the notes box left as it was) when there is none. */
  function LoadNotes(samples: seq<Fields>, selectedLot: string, selectedSample: string): (notes: Option<string>)
    requires SamplesShaped(samples)
    ensures notes.None? <==> forall k :: 0 <= k < |samples| ==> !Matches(samples[k], selectedLot, selectedSample)
    ensures notes.Some? ==>
      exists k :: 0 <= k < |samples| && Matches(samples[k], selectedLot, selectedSample) &&
        notes.value == samples[k][2] &&
        forall j :: 0 <= j < k ==> !Matches(samples[j], selectedLot, selectedSample)
  {
    match FirstIndex(samples, MatchesIs(selectedLot, selectedSample))
    case None => None
    case Some(k) => Some(samples[k][2])
  }

  /** What `save_edited_notes` leaves in memory: every sample with the selected
      name and lot has its notes column replaced, every other row is unchanged. */
  function EditNotes(samples: seq<Fields>, selectedLot: string, selectedSample: string, notes: string): (edited: seq<Fields>)
    requires SamplesShaped(samples)
    ensures |edited| == |samples| && SamplesShaped(edited)
    ensures forall k :: 0 <= k < |samples| && Matches(samples[k], selectedLot, selectedSample) ==>
      |edited[k]| == |samples[k]| && edited[k][2] == notes &&
      forall c :: 0 <= c < |samples[k]| && c != 2 ==> edited[k][c] == samples[k][c]
    ensures forall k :: 0 <= k < |samples| && !Matches(samples[k], selectedLot, selectedSample) ==>
      edited[k] == samples[k]
  {
    seq(|samples|, k requires 0 <= k < |samples| =>
      if Matches(samples[k], selectedLot, selectedSample) then samples[k][2 := notes] else samples[k])
  }

  /** An edit keeps the name and lot columns, so the same rows match any selection. */
  lemma EditKeepsMatches(samples: seq<Fields>, selectedLot: string, selectedSample: string, notes: string,
                         lot: string, sample: string)
    requires SamplesShaped(samples)
    ensures var edited := EditNotes(samples, selectedLot, selectedSample, notes);
      forall k :: 0 <= k < |samples| ==> (Matches(edited[k], lot, sample) <==> Matches(samples[k], lot, sample))
  {
    var edited := EditNotes(samples, selectedLot, selectedSample, notes);
    forall k | 0 <= k < |samples| ensures Matches(edited[k], lot, sample) <==> Matches(samples[k], lot, sample) {
      if Matches(samples[k], selectedLot, selectedSample) {
        assert edited[k][1] == samples[k][1] && edited[k][3] == samples[k][3];
      }
    }
  }

  /** After an edit, loading the notes of the edited selection gives the new
      notes whenever some sample matched. */
  lemma EditThenLoadNotes(samples: seq<Fields>, selectedLot: string, selectedSample: string, notes: string)
    requires SamplesShaped(samples)
    requires exists k :: 0 <= k < |samples| && Matches(samples[k], selectedLot, selectedSample)
    ensures LoadNotes(EditNotes(samples, selectedLot, selectedSample, notes), selectedLot, selectedSample) == Some(notes)
  {
    var edited := EditNotes(samples, selectedLot, selectedSample, notes);
    EditKeepsMatches(samples, selectedLot, selectedSample, notes, selectedLot, selectedSample);
    var i := FirstIndex(edited, MatchesIs(selectedLot, selectedSample)).value;
    assert Matches(samples[i], selectedLot, selectedSample);
  }

  /** Two sample lists that match the selection at the same positions, with the
      same notes there, show the same notes for it. */
  lemma LoadNotesAgree(a: seq<Fields>, b: seq<Fields>, selectedLot: string, selectedSample: string)
    requires SamplesShaped(a) && SamplesShaped(b) && |a| == |b|
    requires forall k :: 0 <= k < |a| ==>
      (Matches(a[k], selectedLot, selectedSample) <==> Matches(b[k], selectedLot, selectedSample))
    requires forall k :: 0 <= k < |a| && Matches(a[k], selectedLot, selectedSample) ==> a[k][2] == b[k][2]
    ensures LoadNotes(a, selectedLot, selectedSample) == LoadNotes(b, selectedLot, selectedSample)
  {
    var p := MatchesIs(selectedLot, selectedSample);
    match FirstIndex(a, p)
    case None =>
    case Some(i) => FirstIndexIs(b, p, i);
  }

  /** An edit leaves what every other selection shows unchanged. */
  lemma EditKeepsOtherSelections(samples: seq<Fields>, selectedLot: string, selectedSample: string, notes: string,
                                 otherLot: string, otherSample: string)
    requires SamplesShaped(samples)
    requires otherLot != selectedLot || otherSample != selectedSample
    ensures LoadNotes(EditNotes(samples, selectedLot, selectedSample, notes), otherLot, otherSample)
         == LoadNotes(samples, otherLot, otherSample)
  {
    var edited := EditNotes(samples, selectedLot, selectedSample, notes);
    EditKeepsMatches(samples, selectedLot, selectedSample, notes, otherLot, otherSample);
    LoadNotesAgree(edited, samples, otherLot, otherSample);
  }

  /** Adding a lot adds its name at the end of the lot dropdown. */
  lemma LotDropdownAfterAddLot(lots: seq<Fields>, id: string, name: string, notes: string)
    requires LotsShaped(lots)
    ensures LotsShaped(lots + [[id, name, notes]])
    ensures NameColumn(lots + [[id, name, notes]]) == NameColumn(lots) + [name]
  {
  }

  /** The name column of two row lists joined is their name columns joined. */
  lemma NameColumnAppend(a: seq<Fields>, b: seq<Fields>)
    requires LotsShaped(a) && LotsShaped(b)
    ensures LotsShaped(a + b)
    ensures NameColumn(a + b) == NameColumn(a) + NameColumn(b)
  {
  }

  /** One more sample joins the samples of the selected lot exactly when its lot
      column is that lot. */
  lemma SamplesInLotAppend(samples: seq<Fields>, row: Fields, selectedLot: string)
    ensures SamplesInLot(samples + [row], selectedLot)
         == SamplesInLot(samples, selectedLot) + (if InLot(row, selectedLot) then [row] else [])
  {
    assert (samples + [row])[..|samples|] == samples;
  }

  /** Adding a sample adds its name at the end of its lot's sample dropdown and
      leaves every other lot's dropdown as it was. */
  lemma SampleDropdownAfterAddSample(samples: seq<Fields>, id: string, name: string, desc: string,
                                     lot: string, selectedLot: string)
    requires SamplesShaped(samples)
    ensures SamplesShaped(samples + [[id, name, desc, lot]])
    ensures SampleDropdown(samples + [[id, name, desc, lot]], selectedLot)
         == SampleDropdown(samples, selectedLot) + (if lot == selectedLot then [name] else [])
  {
    var row := [id, name, desc, lot];
    SamplesInLotAppend(samples, row, selectedLot);
    var added := if lot == selectedLot then [row] else [];
    NameColumnAppend(SamplesInLot(samples, selectedLot), added);
  }

  class Store {
    var lots: seq<Fields>
    var samples: seq<Fields>
    /** `lots.csv` and `samples.csv`. */
    var lotFile: Option<seq<Fields>>
    var sampleFile: Option<seq<Fields>>

    /** Each list is what loading its file gives. */
    ghost predicate Valid()
      reads this
    {
      lots == LoadFromCsv(lotFile) && samples == LoadFromCsv(sampleFile) &&
      LotsShaped(lots) && SamplesShaped(samples)
    }

    /** Start-up: both lists are loaded from their files. */
    constructor (lotFile: Option<seq<Fields>>, sampleFile: Option<seq<Fields>>)
      requires LotsShaped(LoadFromCsv(lotFile)) && SamplesShaped(LoadFromCsv(sampleFile))
      ensures Valid()
      ensures this.lotFile == lotFile && this.sampleFile == sampleFile
    {
      this.lotFile := lotFile;
      this.sampleFile := sampleFile;
      lots := LoadFromCsv(lotFile);
      samples := LoadFromCsv(sampleFile);
    }

    /** `add_lot`: `[id, name, notes]` is appended to the file and to `lots`,
        whatever the texts are. */
    method AddLot(id: string, name: string, notes: string)
      requires Valid()
      modifies this
      ensures Valid()
      ensures lots == old(lots) + [[id, name, notes]]
      ensures samples == old(samples) && sampleFile == old(sampleFile)
    {
      lotFile := SaveToCsv(lotFile, [id, name, notes]);
      lots := lots + [[id, name, notes]];
    }

    /** `add_sample`: `[id, name, desc, associatedLot]` is appended to the file
        and to `samples`, whatever the texts are. */
    method AddSample(id: string, name: string, desc: string, associatedLot: string)
      requires Valid()
      modifies this
      ensures Valid()
      ensures samples == old(samples) + [[id, name, desc, associatedLot]]
      ensures lots == old(lots) && lotFile == old(lotFile)
    {
      sampleFile := SaveToCsv(sampleFile, [id, name, desc, associatedLot]);
      samples := samples + [[id, name, desc, associatedLot]];
    }

    /** `save_edited_notes`: every sample with the selected name and lot gets the
        stripped notes text; the sample file is rewritten after each match, so it
        holds the edited list when anything matched and is untouched otherwise. */
    method SaveEditedNotes(selectedLot: string, selectedSample: string, notesText: string)
      requires Valid()
      modifies this
      ensures Valid()
      ensures lots == old(lots) && lotFile == old(lotFile)
      ensures samples == EditNotes(old(samples), selectedLot, selectedSample, Strip(notesText))
      ensures (exists k :: 0 <= k < |old(samples)| && Matches(old(samples)[k], selectedLot, selectedSample))
              ==> sampleFile == Some(samples)
      ensures (forall k :: 0 <= k < |old(samples)| ==> !Matches(old(samples)[k], selectedLot, selectedSample))
              ==> sampleFile == old(sampleFile)
    {
      var i := 0;
      while i < |samples|
        invariant 0 <= i <= |samples| == |old(samples)|
        invariant lots == old(lots) && lotFile == old(lotFile)
        invariant forall k :: 0 <= k < |samples| ==> |samples[k]| >= 4
        invariant forall k :: 0 <= k < i ==>
          samples[k] == if Matches(old(samples)[k], selectedLot, selectedSample)
                        then old(samples)[k][2 := Strip(notesText)] else old(samples)[k]
        invariant forall k :: i <= k < |samples| ==> samples[k] == old(samples)[k]
        invariant (exists k :: 0 <= k < i && Matches(old(samples)[k], selectedLot, selectedSample))
                  ==> sampleFile == Some(samples)
        invariant (forall k :: 0 <= k < i ==> !Matches(old(samples)[k], selectedLot, selectedSample))
                  ==> sampleFile == old(sampleFile)
      {
        if samples[i][1] == selectedSample && samples[i][3] == selectedLot {
          samples := samples[i := samples[i][2 := Strip(notesText)]];
          sampleFile := Some(samples);
        }
        i := i + 1;
      }
    }
  }
}
