# CT-DeDupe core in Dafny

CT-DeDupe is a Streamlit app for deduplicating clinical-trial records.

It takes records from five bibliographic sources:
- Cochrane CENTRAL and Embase (RIS exports);
- ClinicalTrials.gov and ScanMedicine (CSV);
- WHO ICTRP (XML).

It merges them into one 14-column table and marks one `Master` per trial identifier. The master is the record from the source with the highest priority: `Source_Code` 1 (CENTRAL) to 5 (ScanMedicine). It then lists, all unticked, the master records whose stripped, lower-cased title and stripped year coincide. The reviewer ticks the records to remove, and every row with a ticked identifier is demoted to `Duplicate`. Finally it prepares per-database download files. For CENTRAL and Embase, those files include the non-registry records that skip deduplication.

This model covers the core of `CT-DeDupe_app.py`:

- `strings.dfy`: Python's `str.strip()` and `str.lower()`, and the two `str.extract` year patterns `^[0-9]{4}` and `[0-9]{4}`.
- `ordering.dfy`: pandas' multi-column `sort_values`, with ascending keys and missing values last. It is modelled as a stable insertion sort over a lexicographic key. The file also holds the `cumcount() == 0` and `duplicated(keep='first')` test and `unique`.
- `records.dfy`: the unified record, the `Source_Code` priorities and the status table.
- `adapters.dfy`: the five source adapters and how their batches are assembled. Three of the adapters are imperative in the source: they loop over the optional columns and strip the identifier columns of the session's frames in place. Each of those is a method proved equal to a functional reference.
- `dedup.dfy`: exact deduplication by `Trial_ID`.
- `candidates.dfy`: the Title/Year candidate table and its keep/remove highlight.
- `manual.dfy`: "Remove Checked Records".
- `export.dfy`: the export tab's per-database files.
- `session.dfy`: the `st.session_state` entries the core reads and writes. These are a class with one state field. Its methods are the upload reset, the auto-deduplication run, the removal button and the export view. Its invariant is that the stored results come from the stored uploads.

A cell is `Option<string>`, where `None` is pandas' missing value (NaN). Where the code assigns `""` for a missing optional column, the model stores `Some("")`. Reading a column that is not there raises `KeyError` in the source. It is modelled as `Failure(MissingColumn(name))`.

## Model

| member | source | states |
|---|---|---|
| Strings.Strip | CT-DeDupe_app.py:364 | `str.strip()`: the result is the input with only whitespace (as `str.isspace` defines it) removed at each end, and neither end of the result is whitespace |
| Strings.StripIdempotent | CT-DeDupe_app.py:383 | stripping a stripped identifier changes nothing, as happens when the ICTRP and ScanMedicine adapters strip an already stripped identifier again |
| Strings.Lower | CT-DeDupe_app.py:502 | `str.lower()` on ASCII: same length, no capital remains, only capitals change, each by +32 |
| Strings.LowerIdempotent | CT-DeDupe_app.py:502 | lowering twice is lowering once |
| Strings.LeadingYear | CT-DeDupe_app.py:396 | `^[0-9]{4}` matches exactly when the text starts with four digits, and the match is that prefix |
| Strings.EmbeddedYear | CT-DeDupe_app.py:422 | `[0-9]{4}` fails exactly when no four consecutive digits occur, and a match is four digits |
| Strings.EmbeddedYearIsLeftmost | CT-DeDupe_app.py:422 | the unanchored match is the leftmost run of four digits |
| Strings.LeadingYearIsEmbeddedYear | CT-DeDupe_app.py:396 | when the anchored pattern matches, the unanchored one gives the same year |
| Ordering.SortByAscending | CT-DeDupe_app.py:463 | the sort's output is in ascending key order |
| Ordering.SortBy | CT-DeDupe_app.py:463 | the sort's output is a permutation of its input |
| Ordering.SortByAscendingIsIdentity | CT-DeDupe_app.py:463 | sorting an already sorted table leaves it unchanged, including the order of equal keys |
| Ordering.KeyLeTransitive | CT-DeDupe_app.py:463 | the multi-column order with missing values last is transitive |
| Ordering.KeyLeTotal | CT-DeDupe_app.py:463 | any two sort keys are comparable |
| Ordering.SortByProject | CT-DeDupe_app.py:506 | sorting keeps the multiset of every column |
| Ordering.Unique | CT-DeDupe_app.py:499 | `unique()`: no repeats, and exactly the values of the input |
| Ordering.IndexOf | CT-DeDupe_app.py:464 | the first position holding a value: that position holds it and no earlier one does |
| Ordering.CountAtLeastTwo | CT-DeDupe_app.py:504 | a value counts at least twice exactly when another position holds it |
| Records.Code | CT-DeDupe_app.py:366 | each source has a priority code between 1 and 5 |
| Records.CodeInjective | CT-DeDupe_app.py:366 | distinct sources have distinct codes |
| Records.StripCell | CT-DeDupe_app.py:364 | `.str.strip()` keeps NaN as NaN and strips text |
| Records.WithStatus | CT-DeDupe_app.py:500 | the `Status` filter keeps exactly the rows with that status |
| Records.OfDb | CT-DeDupe_app.py:566-567 | the `Database` filter keeps exactly the rows of that source, and no more rows than the input has |
| Records.OfDbCons | CT-DeDupe_app.py:566-567 | filtering a row in front of a sequence keeps that row first exactly when it is from that source and then filters the rest, so the filter keeps the order of the rows |
| Records.OfDbSingle | CT-DeDupe_app.py:566-567 | a single row is kept exactly when it is from that source |
| Records.OfDbCounts | CT-DeDupe_app.py:566-567 | each row of the source is kept as many times as it occurs, and no other row is kept |
| Records.StatusSplits | CT-DeDupe_app.py:667-668 | the Master rows and the Duplicate rows together are all rows |
| Adapters.CentralRecord | CT-DeDupe_app.py:361-369 | a CENTRAL record is labelled CENTRAL with code 1, identified by its stripped `Author`, and keeps every RIS column |
| Adapters.EmbaseRecord | CT-DeDupe_app.py:371-380 | an Embase record is labelled EMBASE with code 2, identified by its stripped `Acession_Number`, and keeps every RIS column |
| Adapters.CentralRecords | CT-DeDupe_app.py:361-369 | one CENTRAL record per RIS row, in order |
| Adapters.EmbaseRecords | CT-DeDupe_app.py:371-380 | one Embase record per RIS row, in order |
| Adapters.SubsetColumns | CT-DeDupe_app.py:387-391 | the targeted-column loop copies each column the frame has and fills each missing one with `""` |
| Adapters.YearFromStart | CT-DeDupe_app.py:396 | the anchored year extraction on a cell: NaN gives NaN |
| Adapters.YearAnywhere | CT-DeDupe_app.py:422 | the unanchored year extraction on a cell: NaN gives NaN |
| Adapters.CtRecord | CT-DeDupe_app.py:382-405 | a ClinicalTrials.gov record: stripped NCT number as identifier, author and accession; title, URL and abstract copied; year from the start of `First Posted`; `Note` built from `Study Status` and the outcome columns with the labels `Study Status: ` and ` OUTCOMS: `; fixed source text; empty keywords, volume and issue; code 3 |
| Adapters.ClinicalTrialsRecords | CT-DeDupe_app.py:382-406 | the adapter fails exactly when `NCT Number` is missing; otherwise row i becomes `CtRecord` of row i |
| Adapters.AdaptClinicalTrials | CT-DeDupe_app.py:382-406 | the column-by-column construction gives the same records as `ClinicalTrialsRecords` |
| Adapters.IctrpRecord | CT-DeDupe_app.py:407-431 | a WHO ICTRP record: stripped `TrialID` as identifier and author; accession from `Internal_Number`; year is the first four digits anywhere in `Date_registration`; `Abstract` built from the intervention, condition, outcome and inclusion columns; `Note` built from the scientific title, recruitment status (label `Recruitment_Status:` with no space after the colon) and countries; fixed source text; empty keywords, volume and issue; code 4 |
| Adapters.IctrpRecords | CT-DeDupe_app.py:407-431 | the adapter fails exactly when `TrialID` is missing; otherwise row i becomes `IctrpRecord` of row i |
| Adapters.AdaptIctrp | CT-DeDupe_app.py:407-431 | the column-by-column construction gives the same records as `IctrpRecords` |
| Adapters.ScanMedicineRecord | CT-DeDupe_app.py:433-457 | a ScanMedicine record: stripped `MainID` as identifier, author and accession; year from the start of `DateOfRegistration`; `Abstract` and `Note` built with the same labels as ICTRP's, except the status label `TrialStatus:`; fixed source text; empty keywords, volume and issue; code 5 |
| Adapters.ScanMedicineRecords | CT-DeDupe_app.py:433-457 | the adapter fails exactly when `MainID` is missing; otherwise row i becomes `ScanMedicineRecord` of row i |
| Adapters.AdaptScanMedicine | CT-DeDupe_app.py:433-457 | the column-by-column construction gives the same records as `ScanMedicineRecords` |
| Adapters.TableBatches | CT-DeDupe_app.py:382-457 | the tabular adapters succeed exactly when every uploaded table has its identifier column; the first missing one, in the order CT, ICTRP, ScanMedicine, is the error; on success the value is the CT batch, then ICTRP, then ScanMedicine, and every record carries its source's code |
| Adapters.Combined | CT-DeDupe_app.py:360-462 | `pd.concat(dfs)` is the CENTRAL batch, then Embase, then the tables, and every record's code matches its label |
| Adapters.CombineSources | CT-DeDupe_app.py:360-462 | appending the batches one source at a time builds `Combined` |
| Adapters.AdaptTables | CT-DeDupe_app.py:382-457 | running the tabular adapters in turn, where the first failure ends the run, builds `TableBatches` |
| Adapters.StripColumn | CT-DeDupe_app.py:383 | the in-place strip keeps the columns and the number of rows |
| Adapters.StripColumnCells | CT-DeDupe_app.py:383 | after the in-place strip, only the stripped column reads differently |
| Adapters.CtAfterStrip | CT-DeDupe_app.py:383 | the ClinicalTrials.gov adapter gives the same records on the frame it has already stripped |
| Adapters.IctrpAfterStrip | CT-DeDupe_app.py:408 | the WHO ICTRP adapter gives the same records on the frame it has already stripped |
| Adapters.ScanMedicineAfterStrip | CT-DeDupe_app.py:434 | the ScanMedicine adapter gives the same records on the frame it has already stripped |
| Adapters.CombinedAfterStrip | CT-DeDupe_app.py:383-434 | a rerun over the session frames modified in place merges the same records |
| Dedup.ExactDedup | CT-DeDupe_app.py:462-464 | `sorted_df` is a permutation of the merged records, ascending by (`Trial_ID`, `Source_Code`); a row is Master exactly when its identifier is present and does not occur earlier |
| Dedup.DedupMarksLaterRows | CT-DeDupe_app.py:464 | a row whose identifier occurs earlier is a Duplicate |
| Dedup.ExactlyOneMaster | CT-DeDupe_app.py:463-464 | no two masters share a `Trial_ID`, and every present `Trial_ID` has a master |
| Dedup.MasterHasLowestCode | CT-DeDupe_app.py:463-464 | a master's `Source_Code` is at most that of every row with its identifier |
| Dedup.MasterIsHighestPriority | CT-DeDupe_app.py:463-464 | a master comes from the highest-priority source among the merged records of its trial |
| Dedup.ExactDedupIdempotent | CT-DeDupe_app.py:462-464 | deduplicating the records of `sorted_df` again gives `sorted_df` |
| Candidates.NormaliseTitle | CT-DeDupe_app.py:501-502 | a normalised title keeps NaN, is stripped, is no longer than before and has no capital; it is exactly `Lower(Strip(title))` |
| Candidates.SameNormalisedTitle | CT-DeDupe_app.py:501-504 | two titles get the same normalised title exactly when, once stripped, they have the same length and agree letter by letter up to ASCII case |
| Candidates.NormaliseTitleIdempotent | CT-DeDupe_app.py:501-502 | normalising twice is normalising once |
| Candidates.MasterRecords | CT-DeDupe_app.py:500-503 | `master_records_df` is the Master rows in order, each with its title stripped and lower-cased, its year stripped and every other column copied |
| Candidates.MasterRecordsStable | CT-DeDupe_app.py:500-503 | normalising the master records again changes nothing |
| Candidates.MasterIds | CT-DeDupe_app.py:499 | `master_ids` is the distinct identifiers of the master rows, exactly |
| Candidates.FindCandidates | CT-DeDupe_app.py:504-507 | the candidate table is a permutation of the masters with a repeated (Title, Year), sorted by (Title, Year, `Source_Code`), with `Select` false everywhere |
| Candidates.CandidateIffRepeated | CT-DeDupe_app.py:504-505 | a master is a candidate if and only if another master has the same normalised title and year |
| Candidates.CandidatesAreMasters | CT-DeDupe_app.py:505 | every candidate is a master record |
| Candidates.CandidatesArePaired | CT-DeDupe_app.py:504-506 | every candidate shares its title and year with another candidate |
| Candidates.Suggest | CT-DeDupe_app.py:509-515 | a row is green exactly when its (Title, Year) does not occur earlier in the table |
| Candidates.OneKeepPerGroup | CT-DeDupe_app.py:509-515 | each group has a green row at or before any of its rows, and every later row of the group is red |
| Candidates.SortedKeepHasLowestCode | CT-DeDupe_app.py:506-515 | in a table sorted by (Title, Year, `Source_Code`), a group's green row has its lowest code |
| Candidates.KeepHasLowestCode | CT-DeDupe_app.py:504-515 | in the candidate table, a group's green row has its lowest code |
| Candidates.EveryKeepHasRemove | CT-DeDupe_app.py:504-515 | every green row has a red row in its group |
| Manual.SelectedIds | CT-DeDupe_app.py:528-529 | the selected identifiers are exactly the `Trial_ID`s of the ticked rows, one entry per ticked row |
| Manual.Ticked | CT-DeDupe_app.py:520-524 | the data editor changes only `Select`, ticking exactly the chosen positions |
| Manual.Demoted | CT-DeDupe_app.py:531-532 | `sorted_df_manual` keeps every record; a row is Master exactly when it was a Master and its identifier is not selected |
| Manual.DropSelected | CT-DeDupe_app.py:530-533 | the new `master_records_df` keeps exactly the master records whose identifier is not selected |
| Manual.DemotedIdempotent | CT-DeDupe_app.py:531-532 | demoting the same selection again changes nothing |
| Manual.DemotedTwice | CT-DeDupe_app.py:531-532 | two demotions in a row are one demotion of both selections together |
| Manual.DemotedOnlyDemotes | CT-DeDupe_app.py:532 | a removal never turns a Duplicate into a Master |
| Manual.DemotedRemovesSelected | CT-DeDupe_app.py:532 | every row of a selected identifier becomes Duplicate, and every other row is unchanged |
| Manual.MastersAfterDemotion | CT-DeDupe_app.py:530-533 | the masters of `sorted_df_manual` are the masters of `sorted_df` without the selected identifiers |
| Manual.DropSelectedNormalised | CT-DeDupe_app.py:530-533 | dropping by identifier commutes with title and year normalisation |
| Manual.MasterRecordsAfterRemoval | CT-DeDupe_app.py:530-536 | the stored `master_records_df` is exactly the normalised masters of the stored `sorted_df_manual` |
| Manual.DemotedKeepsOneMaster | CT-DeDupe_app.py:532 | a removal keeps at most one master per identifier |
| Export.NonTrialCode | CT-DeDupe_app.py:574-593 | CENTRAL non-registry rows get code 1; Embase non-registry rows get code 3 |
| Export.NonTrialRecord | CT-DeDupe_app.py:570-576 | a non-registry record has an empty `Trial_ID`, its source's label and every RIS column kept |
| Export.NonTrialsFor | CT-DeDupe_app.py:568-606 | only CENTRAL and Embase get non-registry rows; row i is `NonTrialRecord` of uploaded row i, with an empty `Trial_ID`, that source's label and code 1 or 3 |
| Export.MasterCsv | CT-DeDupe_app.py:577-578 | the master CSV is the master rows, then the non-registry rows, in order |
| Export.ExportAuto | CT-DeDupe_app.py:664-672 | before a removal, a database's master and duplicate files hold exactly its Master and Duplicate rows of `sorted_df` |
| Export.ExportManual | CT-DeDupe_app.py:546-567 | after a removal, the master files hold the stored master records of the database, and the duplicate files hold its Duplicate rows of `sorted_df_manual` |
| Export.RankOrdersLabels | CT-DeDupe_app.py:553-564 | the rank order of the five sources is the string order of their labels |
| Export.ExportDatabases | CT-DeDupe_app.py:553-564 | the summary table's index is exactly the databases with a row, in string order of their labels |
| Export.AutoExportPartition | CT-DeDupe_app.py:664-672 | before a removal, a database's master and duplicate files together are exactly its rows |
| Export.ManualExportPartition | CT-DeDupe_app.py:546-567 | after a removal, a database's master files are the normalised masters of `sorted_df_manual`, and with its duplicate files they partition its rows |
| Export.AutoDownloads | CT-DeDupe_app.py:651-717 | one entry per summary-table database, each partitioning that database's rows |
| Export.ManualDownloads | CT-DeDupe_app.py:540-567 | one entry per database of `sorted_df_manual`, each built from the stored results |
| Session.StoredRemovalAgrees | CT-DeDupe_app.py:534-536 | in a consistent session, the stored master records are the normalised masters of the stored `sorted_df_manual` |
| Session.StoredSortedHasOneMaster | CT-DeDupe_app.py:477 | in a consistent session, the stored `sorted_df` has exactly one master per identifier, and the stored manual table at most one |
| Session.SelectionIsOfCandidates | CT-DeDupe_app.py:520-529 | every identifier ticked in the candidate table is a master identifier |
| Session.AppSession.constructor | CT-DeDupe_app.py:66-83 | a fresh session holds no uploads and no results |
| Session.AppSession.Upload | CT-DeDupe_app.py:92-129 | an upload replaces the parsed sources and resets `sorted_df`, `master_ids` and `master_records_df`, keeping `sorted_df_manual` |
| Session.AppSession.AutoDeduplicate | CT-DeDupe_app.py:359-477 | the run fails exactly when an uploaded table lacks its identifier column; each adapter that ran has stripped its frame in place; after any upload, `sorted_df` becomes the deduplication of the uploads; the session stays consistent |
| Session.AppSession.ShownCandidates | CT-DeDupe_app.py:498-524 | the editor starts with nothing ticked and shows only master records |
| Session.AppSession.RemoveChecked | CT-DeDupe_app.py:527-537 | the removal stores `master_ids`, the master records without the ticked identifiers and the demoted copy of `sorted_df`; it reports the number of ticked rows; the session stays consistent |
| Session.AppSession.Downloads | CT-DeDupe_app.py:539-545 | the export uses the stored manual results when both are present, otherwise `sorted_df`, otherwise nothing |

## Left out

- The Streamlit interface is not modelled: layout, captions, previews, colour styling, the first-100-rows slices and the download buttons. `Export.Files` records the rows each of the four files receives.
- The parsers (`CENTRAL_Parse`, `Embase_Parse`, `ClinicalTrialsGov_Parse`, `WHO_ICTRP_Parse`, `ScanMedicine_Parse`, `concatenate_files`) and the CSV/RIS serialisers (`convert_df_to_csv`, `convert_df_to_ris`, `convert_non_trial_df_to_ris`) are not part of this model. Parsed sources enter as parameters: `Adapters.RisRow` rows and `Adapters.Frame` tables.
- The pivot counts of the summary table are not modelled. Only its index, the databases it lists in order, is modelled, by `Export.ExportDatabases`.
- Session.AppSession.Upload: the five per-source reset callbacks are modelled as one upload that replaces every parsed source at once. A per-source callback resets the same results and clears only its own source.
- Session.AppSession.RemoveChecked: the data editor is a parameter. Its output is the candidate table with `Select` edited, as `Manual.Ticked` builds it. The warning message is left out; only its count is returned.
- Strings.Lower: only ASCII capitals are lowered. Python's `str.lower()` also lowers non-ASCII letters.
- Cells are text or NaN. The column types pandas infers are not modelled. If an identifier or date column is entirely empty, pandas gives it a float type, and `.str.strip()` or `.str.extract` raises `AttributeError` (CT-DeDupe_app.py:383, 396, 422). The model accepts such a column: its identifiers and years are `None`.
- Missing identifiers follow pandas 2: `groupby('Trial_ID')` drops NaN keys, so such a row's `cumcount()` is NaN, `== 0` is false, and it becomes a `Duplicate`. `Dedup.ExactDedup` states this.
- As in the code, Embase non-registry rows get `Source_Code` 3, the ClinicalTrials.gov code, where the registry Embase rows get 2. `Export.NonTrialCode` states this. The value only appears in the download files.
- The order of rows with equal sort keys follows a stable sort. pandas' default multi-column sort (a lexsort) is stable as well.
