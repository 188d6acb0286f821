# Lot and sample record store

A Dafny model of the record store at the core of two versions of a small
laboratory tool for lots and the samples taken from them.

**Second version, `LaS3.py`.** Class `LotSampleApp` keeps two in-memory lists,
lots and samples. They mirror one delimited file, `lots_and_samples.csv`, whose
columns are `datetime, Lot, Serial, FullCode, Name, Notes, Active`.
- Loading sorts each row by the columns it has. A row with a `Lot` and no
  `Serial` is a lot. A row with a `Serial` is a sample. Any other row is dropped,
  among them the timestamp-only row written when the file is created.
- Adding a lot checks the name and draws an 8-digit code.
- Adding a sample checks the name and finds the lot by its name. It then draws a
  4-digit serial and builds the 12-character full code from the lot code and the
  serial.
- A search text is one of two things. Without a comma it is a full code. With a
  comma it is a legacy line of at least seven fields.
- Saving notes edits the first matching sample. It then rewrites the file as all
  lots followed by all samples.

**First version, `LaS1.py`.** Two lists of positional rows mirror two files.
A lot row is `[id, name, notes]` and a sample row is `[id, name, description, lot name]`.

Modules:
- `Lists` holds the first-match search and the order-keeping filter behind Python's
  `next(...)` and `[... if ...]`.
- `Text` holds `str.strip` with Python's whitespace set, and `split(',')` with its
  inverse `Join`.
- `LaS3Rows` holds the file row and the load classification.
- `LaS3Queries` holds the lookups, the search, the dropdown and the save target.
- `LaS3App` holds code generation, record construction and the class `LotSampleApp`.
- `LaS1` holds the first version and its class `Store`.

The file of each version is a field of its class, holding a sequence of records.
The class invariant `Valid()` says that each list is what loading the file
gives. For `LotSampleApp` this makes the rewrite done by `save_notes` a proved
write-then-reload round trip.

## Model

| member | source | states |
|---|---|---|
| Lists.FirstIndex | LaS3.py:182 | The index of the first element passing the test. It is None exactly when no element passes, and no earlier element passes. |
| Lists.Filter | LaS3.py:276 | Every kept element passes the test, and no more elements are kept than given. |
| Lists.FilterMembers | LaS3.py:276 | Every kept element comes from the list, and every element of the list that passes is kept. |
| Lists.FilterAppend | LaS3.py:276 | Filtering distributes over concatenation, so the filter keeps list order. |
| Text.Strip | LaS3.py:122 | No leading or trailing whitespace remains. The result is empty exactly when the text is all whitespace. |
| Text.StripTrims | LaS3.py:122 | The result is a contiguous part `s[i..j]` of the text, and everything cut off before `i` and after `j` is whitespace. |
| Text.Split | LaS3.py:243 | At least one field, and no field contains a comma. |
| Text.JoinSplit | LaS3.py:243 | Joining the fields of a split with commas gives back the text. |
| Text.SplitJoin | LaS3.py:243 | Splitting comma-free fields joined with commas gives back the fields. |
| LaS3App.GenerateCode | LaS3.py:17 | `n` draws give exactly `n` characters, each a decimal digit, equal to the draws in order. |
| LaS3App.NewLot | LaS3.py:121-132 | Refused exactly when the stripped name is empty. Otherwise: a lot row with an 8-digit code, the stripped name, and every other column empty. |
| LaS3App.LotSampleApp.AddLot | LaS3.py:121-140 | On a refused name, nothing changes. Otherwise exactly one lot is appended to both the file and `lots`, and the samples are unchanged. The file/list invariant is kept. |
| LaS3Queries.LotCodeByName | LaS3.py:182 | The code of the first lot with the selected name; None exactly when no lot has that name. |
| LaS3App.NewSample | LaS3.py:176-198 | Empty stripped name gives EmptyName. An unknown lot name gives UnknownLot. Otherwise: the first such lot's code, a 4-digit serial, `FullCode = Lot + Serial`, the timestamp, empty notes and `Active` "False". |
| LaS3App.NewSampleFullCode | LaS3.py:187-188 | With 8-digit lot codes, the full code is 12 digits and its first 8 are the lot code. |
| LaS3App.LotSampleApp.AddSample | LaS3.py:176-215 | A refused add changes nothing. Otherwise exactly one sample is appended to both the file and `samples`, and the lots are unchanged. The file/list invariant is kept. |
| LaS3App.SearchFindsNewSample | LaS3.py:218-229 | A new sample whose full code is unused is found by searching that code. The search gives its name, `Active` false, and its lot name. |
| LaS3Rows.NormalizeActive | LaS3.py:165-166 | The loaded `Active` is "True" exactly when the file held "True". Otherwise it is "False". No other column changes. |
| LaS3Rows.LotRows | LaS3.py:162-164 | Every lot found has a `Lot` and no `Serial`. |
| LaS3Rows.SampleRows | LaS3.py:162-167 | Every sample found has a `Serial` and an `Active` of "True" or "False". |
| LaS3Rows.ClassifyAppend | LaS3.py:157-167 | One more row goes to the lots if it is a lot and to the samples if it is a sample, normalised, and to neither otherwise. |
| LaS3Rows.ClassificationPartition | LaS3.py:162-167 | Lots, samples and dropped rows together number exactly the rows. No row is lost or counted twice. |
| LaS3Rows.RewriteRoundTrip | LaS3.py:327-339 | Reloading "all lots, then all samples" gives back the same two lists. |
| LaS3Rows.ClassifyRows | LaS3.py:157-167 | The classification loop yields exactly `LotRows` and `SampleRows` of the file, in file order. |
| LaS3App.LotSampleApp.constructor | LaS3.py:10-15 | A missing file starts as the bootstrap timestamp row. An existing file is kept. The lists are then loaded from it. |
| LaS3App.LotSampleApp.LoadData | LaS3.py:157-167 | The lists are reset and refilled from the file, which is unchanged. |
| LaS3App.LotSampleApp.FindLotNameByLotNumber | LaS3.py:142-146 | The loop returns the name of the first lot with that code, or None. |
| LaS3Queries.LotNameByCode | LaS3.py:142-146 | The name of the first lot with that code; None exactly when no lot has it. |
| LaS3Queries.ReturnLotName | LaS3.py:149-155 | The name of the first file row with that `Lot` and no `Serial`; None exactly when there is none. |
| LaS3Queries.ReturnLotNameAgrees | LaS3.py:149-155 | For a non-empty code, reading the lot name from the file agrees with looking it up in the loaded lots. |
| LaS3Queries.SampleIndexByFullCode | LaS3.py:223 | The first sample with that full code; None exactly when there is none. |
| LaS3Queries.SampleIndexByNameInLot | LaS3.py:292 | The first sample with that name and lot code; None exactly when there is none. |
| LaS3Queries.SampleNameBySerial | LaS3.py:252 | The name of the first sample with that serial; None exactly when there is none. |
| LaS3Queries.SearchCode | LaS3.py:218-265 | A format error exactly when the stripped text has a comma and fewer than 7 fields. Without a comma, found exactly when some sample has that full code, and a miss leaves the lot selection alone. A comma search that fails leaves the lot selection at `PrefixLotName`. |
| LaS3Queries.SearchByFullCode | LaS3.py:221-229 | A comma-free search shows the first sample with that full code: its name, its active flag, and its lot name read from the file. |
| LaS3Queries.PrefixLotName | LaS3.py:234-242 | The name of the first lot whose code is the first 8 characters of the text and whose `Serial` is absent or not 4 characters once stripped. Empty when no lot passes that test. |
| LaS3Queries.LegacyLineResolves | LaS3.py:243-265 | A legacy line of at least 7 fields is resolved from fields 1, 2 and 6 alone. Lot and sample are looked up independently, and the active flag is `field6.strip() == "True"`. When either lookup fails, the lot selection is left at `PrefixLotName`. |
| LaS3Queries.ShortLegacyLineRejected | LaS3.py:234-246 | A comma-separated line of fewer than 7 fields is a format error, whatever the store holds. The lot selection is left at `PrefixLotName`. |
| LaS3Queries.SamplesOfLot | LaS3.py:276 | Exactly the samples whose `Lot` is the code. |
| LaS3Queries.UpdateSampleDropdown | LaS3.py:267-283 | An unknown lot name gives no values and leaves the selection alone. Otherwise the values are the names of the lot's samples in list order, and the selection is the first of them or empty. |
| LaS3Queries.DropdownAfterAppend | LaS3.py:75-79 | An appended sample's name is added at the end of its own lot's dropdown, and every other lot's dropdown is unchanged. |
| LaS3Queries.LoadSelectedSample | LaS3.py:285-298 | Nothing is shown exactly when the lot has no code, no sample is selected, or no sample of that lot has that name. Otherwise the notes and active flag of the first sample of that lot with that name are shown. |
| LaS3Queries.SaveTarget | LaS3.py:300-321 | A 12-character search text selects the first sample with that full code, and nothing when there is none. Any other text selects the first sample with the selected name in the selected lot's code, and no earlier sample matches. |
| LaS3Queries.WithNotes | LaS3.py:319-325 | Only the notes and the `Active` text ("True"/"False" from the check box) change. |
| LaS3Queries.ApplySave | LaS3.py:308-325 | The length is unchanged. Only the target sample changes, and it gets the notes and the active flag. |
| LaS3Queries.SaveThenLoadSelected | LaS3.py:315-325 | After saving through the selected lot and sample, loading that selection shows exactly the saved notes and flag. |
| LaS3Queries.SaveThenSearchByCode | LaS3.py:308-314 | After saving through a full code, searching that code finds the same sample with the saved flag. |
| LaS3App.WriteAll | LaS3.py:327-339 | The rewrite loops emit all lots in order, then all samples in order. |
| LaS3App.LotSampleApp.SaveNotes | LaS3.py:300-339 | With no target, nothing changes. Otherwise only the target sample is edited, the file becomes all lots then all samples, and reloading it gives back the same lists. |
| LaS1.LoadFromCsv | LaS1.py:21-27 | A missing file loads as no rows; an existing one as its rows. |
| LaS1.SaveToCsv | LaS1.py:15-18 | The file then exists, and loading it gives the old rows plus the new row at the end. |
| LaS1.Store.constructor | LaS1.py:29-31 | Both lists are loaded from their files. |
| LaS1.Store.AddLot | LaS1.py:34-43 | `[id, name, notes]` is appended to the lot file and to `lots`, without validation. Samples and their file are unchanged. |
| LaS1.Store.AddSample | LaS1.py:46-56 | `[id, name, desc, lot]` is appended to the sample file and to `samples`, without validation. Lots and their file are unchanged. |
| LaS1.NameColumn | LaS1.py:59-61 | Column 1 of every row, in order and one value per row. Used for the lot dropdown and for the samples of a lot. |
| LaS1.SamplesInLot | LaS1.py:66 | Exactly the samples whose column 3 is the selected lot. |
| LaS1.LotDropdownAfterAddLot | LaS1.py:34-43 | Adding a lot adds its name at the end of the lot dropdown. |
| LaS1.SampleDropdown | LaS1.py:64-67 | Every sample whose column 3 is the selected lot contributes its column 1. Every value comes from such a sample, and there are no more values than samples. |
| LaS1.SampleDropdownAfterAddSample | LaS1.py:46-56 | Adding a sample adds its name to its lot's dropdown only, at the end. |
| LaS1.LoadNotes | LaS1.py:70-77 | Column 2 of the first sample matching both name and lot. None, so the box is left as it was, exactly when no sample matches. |
| LaS1.EditNotes | LaS1.py:80-85 | Every sample matching both name and lot gets the notes in column 2 and keeps every other column. Every other sample is unchanged, and so is the number of samples. |
| LaS1.EditKeepsMatches | LaS1.py:80-85 | An edit does not change which samples match any (lot, sample) selection. |
| LaS1.Store.SaveEditedNotes | LaS1.py:80-88 | Every matching sample gets the stripped notes and every other row is unchanged. The file is rewritten to the edited list exactly when something matched, and is untouched otherwise. |
| LaS1.EditThenLoadNotes | LaS1.py:80-88 | After an edit that matched, loading that selection shows the new notes. |
| LaS1.EditKeepsOtherSelections | LaS1.py:80-85 | An edit leaves what every other (lot, sample) selection shows unchanged. |

## Left out

- All tkinter code is left out: widgets, message boxes, clearing entry fields after an add, and the main loop. The entry texts, dropdown selections and check box are parameters, and each error message is an `AddError` or `SearchResult` value.
- CSV quoting and escaping, and real file I/O, are left out. Each file is a sequence of records held by the class. For `lots_and_samples.csv` only the rows below the header are modelled.
- Randomness and the clock are left out. The digits of `random.randint(0, 9)` arrive as a `seq<Digit>`, and `datetime.now()` is an opaque timestamp string.
- Code uniqueness is left out. The source has no retry when a drawn code collides, so no contract claims that codes are unique.
- `search_notes` (LaS3.py:102-119) is left out. Nothing calls it.
- `update_lot_dropdown` (LaS3.py:172-174) is left out. It only copies lot names into widgets.
- The refreshes done by `search_code` and `add_sample` are left out: the calls to `load_data` (LaS3.py:228, LaS3.py:263) and the call to `update_sample_dropdown` (LaS3.py:215). The results of `UpdateSampleDropdown` and `LoadSelectedSample` are modelled as separate functions. The refresh at LaS3.py:215 runs after LaS3.py:211 has cleared the selected lot, so it only empties the sample values; `DropdownAfterAppend` is about the refresh the browse dropdown makes when it is opened or a lot is chosen (LaS3.py:75-79).
- LaS3Rows.NormalizeActive: `Active` is kept as the text "True"/"False". The source turns it into a Python bool on load (LaS3.py:166), then compares it to the string 'True' (LaS3.py:227, LaS3.py:297) and finally shows its truthiness (LaS3.py:298). The model reads all three places as "the flag is True". It therefore does not capture that, after a load, LaS3.py:227 sets the flag off for a sample found by full code. The `load_data` refresh that follows at LaS3.py:228, which is left out, calls `load_selected_sample` (LaS3.py:169) and LaS3.py:298 then overwrites the flag with the loaded value.
- LaS3Queries.SearchCode: when `return_lot_name` finds no lot, the model gives the lot name as None. The source puts None into the selection variable. In `NotFound` and `BadFormat`, a `lotSelection` of None means the browse selection is left as it was, and `Some(name)` means it is set to `name` (LaS3.py:238-242).
- LaS3Queries.SaveThenSearchByCode: the contract does not require the code to be 12 characters long. It holds for any comma-free stripped code that `SaveTarget`'s full-code branch could pick.
- LaS1.Store.constructor: requires every lot row to have at least two columns and every sample row at least four. Shorter rows make the source raise IndexError the first time it indexes a missing column. For a lot that is at start-up (LaS1.py:150, LaS1.py:60). For a sample it is the first sample dropdown refresh (LaS1.py:66). `load_notes` and `save_edited_notes` test column 1 first (LaS1.py:74, LaS1.py:84), so there a 2- or 3-column sample raises only when its name is the selected one. The crash itself is not modelled; in `Matches` a row shorter than four columns never matches.
- The load in `LaS3.py` never reports a corrupt store. Unclassifiable rows are silently dropped, and the model follows the code.
- A full-code search takes the lot name from the file row whose `Lot` is the sample's `Lot`, through `return_lot_name`. It does not take it from the first eight characters of the code, and the model follows the code.
