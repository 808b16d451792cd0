/**
 * The source adapters: each maps the parsed rows of one source into unified
 * records with that source's `Database` label and `Source_Code`, and the
 * list of adapted sources is assembled for the merge.
 *
 * CENTRAL and Embase arrive as RIS rows already split into registry and
 * non-registry records by their parsers; ClinicalTrials.gov, WHO ICTRP and
 * ScanMedicine arrive as tables whose optional columns may be absent.
 */
module Adapters {
  import opened Basics
  import opened Strings
  import opened Records

  /** A row of a parsed RIS export (CENTRAL or Embase), restricted to the columns the adapters read. */
  datatype RisRow = RisRow(
    author: Cell,
    title: Cell,
    year: Cell,
    url: Cell,
    abstractText: Cell,
    keywords: Cell,
    note: Cell,
    accession: Cell,
    source: Cell,
    volume: Cell,
    issue: Cell)

  /** A parsed tabular export: its column names and its rows, each mapping column names to cells. */
  datatype Frame = Frame(columns: set<string>, rows: seq<map<string, Cell>>)

  /** Reading a column the frame does not have (pandas raises `KeyError`). */
  datatype AdaptError = MissingColumn(name: string)

  /** The records of one batch all carry the label and the priority code of source `db`. */
  predicate FromSource(rs: seq<Record>, db: Db) {
    forall i :: 0 <= i < |rs| ==> rs[i].database == db && rs[i].sourceCode == Code(db)
  }

  // ---------------------------------------------------------------- CENTRAL and Embase

  /** The RIS columns of a unified record. */
  function RisColumns(rec: Record): RisRow {
    RisRow(rec.author, rec.title, rec.year, rec.url, rec.abstractText, rec.keywords, rec.note,
           rec.accession, rec.source, rec.volume, rec.issue)
  }

  /** The record of a registry RIS row of source `db`, identified by the cell `id`. */
  function RisRecord(r: RisRow, id: Cell, db: Db): Record {
    Record(StripCell(id), r.author, r.title, r.source, r.year, r.url, r.abstractText, r.keywords,
           r.note, r.accession, r.volume, r.issue, db, Code(db))
  }

  /** A CENTRAL registry record: identified by its trimmed `Author`, every RIS column kept. */
  function CentralRecord(r: RisRow): (rec: Record)
    ensures rec.database == CENTRAL && rec.sourceCode == Code(CENTRAL)
    ensures rec.trialId == StripCell(r.author)
    ensures RisColumns(rec) == r
  {
    RisRecord(r, r.author, CENTRAL)
  }

  /** An Embase registry record: identified by its trimmed `Acession_Number`, every RIS column kept. */
  function EmbaseRecord(r: RisRow): (rec: Record)
    ensures rec.database == EMBASE && rec.sourceCode == Code(EMBASE)
    ensures rec.trialId == StripCell(r.accession)
    ensures RisColumns(rec) == r
  {
    RisRecord(r, r.accession, EMBASE)
  }

  function CentralRecords(rows: seq<RisRow>): (rs: seq<Record>)
    ensures |rs| == |rows| && FromSource(rs, CENTRAL)
    ensures forall i :: 0 <= i < |rows| ==> rs[i] == CentralRecord(rows[i])
  {
    seq(|rows|, i requires 0 <= i < |rows| => CentralRecord(rows[i]))
  }

  function EmbaseRecords(rows: seq<RisRow>): (rs: seq<Record>)
    ensures |rs| == |rows| && FromSource(rs, EMBASE)
    ensures forall i :: 0 <= i < |rows| ==> rs[i] == EmbaseRecord(rows[i])
  {
    seq(|rows|, i requires 0 <= i < |rows| => EmbaseRecord(rows[i]))
  }

  // ---------------------------------------------------------------- tabular sources

  /** The cell of column `name` as the adapters copy it: `""` when the frame lacks the column. */
  function Col(f: Frame, row: map<string, Cell>, name: string): Cell {
    if name !in f.columns then Some("") else if name in row then row[name] else None
  }

  /** A whole column as the adapters copy it. */
  function Column(f: Frame, name: string): (c: seq<Cell>)
    ensures |c| == |f.rows|
  {
    seq(|f.rows|, i requires 0 <= i < |f.rows| => Col(f, f.rows[i], name))
  }

  /**
   * The loop over a source's targeted columns: each is copied when the frame
   * has it and filled with `""` otherwise.
   */
  method SubsetColumns(f: Frame, tags: seq<string>) returns (sub: map<string, seq<Cell>>)
    ensures forall k :: 0 <= k < |tags| ==> tags[k] in sub && sub[tags[k]] == Column(f, tags[k])
  {
    sub := map[];
    for k := 0 to |tags|
      invariant forall t :: t in tags[..k] ==> t in sub && sub[t] == Column(f, t)
    {
      var tag := tags[k];
      if tag in f.columns {
        sub := sub[tag := seq(|f.rows|, i requires 0 <= i < |f.rows| =>
                                if tag in f.rows[i] then f.rows[i][tag] else None)];
      } else {
        sub := sub[tag := seq(|f.rows|, i => Some(""))];
      }
      assert tags[..k + 1] == tags[..k] + [tag];
    }
    assert tags[..|tags|] == tags;
  }

  /** `.str.extract(r'(^[0-9]{4})')` on a cell. */
  function YearFromStart(c: Cell): (y: Cell)
    ensures y.Some? <==> c.Some? && DigitRunAt(c.value, 0)
    ensures y.Some? ==> IsYear(y.value) && c.value == y.value + c.value[4..]
  {
    match c
    case None => None
    case Some(s) => LeadingYear(s)
  }

  /** `.str.extract(r'([0-9]{4})')` on a cell. */
  function YearAnywhere(c: Cell): (y: Cell)
    ensures y.None? <==> c.None? || forall k :: !DigitRunAt(c.value, k)
    ensures y.Some? ==> IsYear(y.value)
  {
    match c
    case None => None
    case Some(s) => EmbeddedYear(s)
  }

  /** pandas `.str.strip()` applied in place to column `name` of a frame. */
  function StripColumn(f: Frame, name: string): (g: Frame)
    ensures g.columns == f.columns && |g.rows| == |f.rows|
  {
    Frame(f.columns, seq(|f.rows|, i requires 0 <= i < |f.rows| =>
      if name in f.rows[i] then f.rows[i][name := StripCell(f.rows[i][name])] else f.rows[i]))
  }

  /** After stripping column `id` in place, every other column reads as before and `id` reads stripped. */
  lemma StripColumnCells(f: Frame, id: string, i: int, name: string)
    requires 0 <= i < |f.rows|
    ensures var g := StripColumn(f, id);
      Col(g, g.rows[i], name) == (if name == id && name in f.columns then StripCell(Col(f, f.rows[i], name))
                                 else Col(f, f.rows[i], name))
  {
  }

  /** The cells of the targeted columns `tags` in one row, as the adapters copy them. */
  function Cells(f: Frame, row: map<string, Cell>, tags: seq<string>): (c: seq<Cell>)
    ensures |c| == |tags| && forall k :: 0 <= k < |tags| ==> c[k] == Col(f, row, tags[k])
  {
    seq(|tags|, k requires 0 <= k < |tags| => Col(f, row, tags[k]))
  }

  /** Row `i` of the columns collected by `SubsetColumns`. */
  function Picked(sub: map<string, seq<Cell>>, tags: seq<string>, i: nat): (c: seq<Cell>)
    requires forall k :: 0 <= k < |tags| ==> tags[k] in sub && i < |sub[tags[k]]|
    ensures |c| == |tags|
  {
    seq(|tags|, k requires 0 <= k < |tags| => sub[tags[k]][i])
  }

  /** The collected columns hold, row by row, the cells the adapters copy. */
  lemma PickedCells(f: Frame, sub: map<string, seq<Cell>>, tags: seq<string>, i: nat)
    requires i < |f.rows|
    requires forall k :: 0 <= k < |tags| ==> tags[k] in sub && sub[tags[k]] == Column(f, tags[k])
    requires forall k :: 0 <= k < |tags| ==> |sub[tags[k]]| == |f.rows|
    ensures Picked(sub, tags, i) == Cells(f, f.rows[i], tags)
  {
  }

  // ClinicalTrials.gov

  const NctNumber := "NCT Number"
  const StudyTitle := "Study Title"
  const FirstPosted := "First Posted"
  const StudyUrl := "Study URL"
  const BriefSummary := "Brief Summary"
  const PrimaryOutcomeMeasures := "Primary Outcome Measures"
  const SecondaryOutcomeMeasures := "Secondary Outcome Measures"
  const StudyStatus := "Study Status"
  const CtTags := [StudyTitle, FirstPosted, StudyUrl, BriefSummary,
                   PrimaryOutcomeMeasures, SecondaryOutcomeMeasures, StudyStatus]

  /** The `Note` of a ClinicalTrials.gov record. */
  function CtNote(status: Cell, primary: Cell, secondary: Cell): string {
    "Study Status: " + Text(status) + " " + "OUTCOMS: " + Text(primary) + " " + Text(secondary)
  }

  /** A ClinicalTrials.gov record from its identifier and the cells of `CtTags`, in that order. */
  function CtRecordOf(id: Cell, c: seq<Cell>): Record
    requires |c| == |CtTags|
  {
    Record(id, id, c[0], Some("ClinicalTrials.gov"), YearFromStart(c[1]), c[2], c[3], Some(""),
           Some(CtNote(c[6], c[4], c[5])),
           id, Some(""), Some(""), ClinicalTrialsGov, 3)
  }

  /** The record of a ClinicalTrials.gov row. */
  function CtRecord(f: Frame, row: map<string, Cell>): (rec: Record)
    ensures rec.database == ClinicalTrialsGov && rec.sourceCode == Code(ClinicalTrialsGov)
    ensures rec.trialId == StripCell(Col(f, row, NctNumber))
    ensures rec.author == rec.trialId && rec.accession == rec.trialId
    ensures rec.year == YearFromStart(Col(f, row, FirstPosted))
    ensures rec.title == Col(f, row, StudyTitle) && rec.url == Col(f, row, StudyUrl)
    ensures rec.abstractText == Col(f, row, BriefSummary)
    ensures rec.note == Some(CtNote(Col(f, row, StudyStatus), Col(f, row, PrimaryOutcomeMeasures),
                                    Col(f, row, SecondaryOutcomeMeasures)))
    ensures rec.source == Some("ClinicalTrials.gov")
    ensures rec.keywords == Some("") && rec.volume == Some("") && rec.issue == Some("")
  {
    var c := Cells(f, row, CtTags);
    CtRecordOf(StripCell(Col(f, row, NctNumber)), c)
  }

  /** The ClinicalTrials.gov adapter as a function of its input frame. */
  function ClinicalTrialsRecords(f: Frame): (r: Result<seq<Record>, AdaptError>)
    ensures r.Success? <==> NctNumber in f.columns
    ensures r.Failure? ==> r.error == MissingColumn(NctNumber)
    ensures r.Success? ==> |r.value| == |f.rows| && FromSource(r.value, ClinicalTrialsGov)
    ensures r.Success? ==> forall i :: 0 <= i < |f.rows| ==> r.value[i] == CtRecord(f, f.rows[i])
  {
    if NctNumber !in f.columns then Failure(MissingColumn(NctNumber))
    else Success(seq(|f.rows|, i requires 0 <= i < |f.rows| => CtRecord(f, f.rows[i])))
  }

  /** The ClinicalTrials.gov adapter as the source builds it, column by column. */
  method AdaptClinicalTrials(f: Frame) returns (r: Result<seq<Record>, AdaptError>)
    ensures r == ClinicalTrialsRecords(f)
  {
    if NctNumber !in f.columns {
      return Failure(MissingColumn(NctNumber));
    }
    var n := |f.rows|;
    var ids := seq(n, i requires 0 <= i < n => StripCell(Col(f, f.rows[i], NctNumber)));
    var sub := SubsetColumns(f, CtTags);
    var recs := seq(n, i requires 0 <= i < n => CtRecordOf(ids[i], Picked(sub, CtTags, i)));
    forall i | 0 <= i < n ensures recs[i] == CtRecord(f, f.rows[i]) {
      PickedCells(f, sub, CtTags, i);
    }
    assert recs == ClinicalTrialsRecords(f).value;
    r := Success(recs);
  }

  // WHO ICTRP and ScanMedicine

  function RegistryAbstract(intervention: Cell, condition: Cell, primary: Cell, secondary: Cell, inclusion: Cell): string {
    "INTERVENTION: " + Text(intervention) + " CONDITION: " + Text(condition)
    + " PRIMARY OUTCOME: " + Text(primary) + " SECONDARY OUTCOME: " + Text(secondary)
    + " INCLUSION CRITERIA: " + Text(inclusion)
  }

  function RegistryNote(scientificTitle: Cell, statusLabel: string, status: Cell, countries: Cell): string {
    "Scientific title: " + Text(scientificTitle) + " " + statusLabel + ":" + Text(status)
    + " Country: " + Text(countries)
  }

  const IctrpId := "TrialID"
  const PublicTitle := "Public_title"
  const DateRegistration := "Date_registration"
  const WebAddress := "web_address"
  const InternalNumber := "Internal_Number"
  const RecruitmentStatus := "Recruitment_Status"
  const Condition := "Condition"
  const Intervention := "Intervention"
  const PrimaryOutcome := "Primary_outcome"
  const SecondaryOutcome := "Secondary_outcome"
  const InclusionCriteria := "Inclusion_Criteria"
  const Countries := "Countries"
  const ScientificTitle := "Scientific_title"
  const IctrpTags := [PublicTitle, DateRegistration, WebAddress, RecruitmentStatus, Condition,
                      Intervention, PrimaryOutcome, SecondaryOutcome, InclusionCriteria, Countries,
                      ScientificTitle, InternalNumber]

  /** A WHO ICTRP record from its identifier and the cells of `IctrpTags`, in that order. */
  function IctrpRecordOf(id: Cell, c: seq<Cell>): Record
    requires |c| == |IctrpTags|
  {
    Record(id, StripCell(id), c[0], Some("WHO ICTRP"), YearAnywhere(c[1]), c[2],
           Some(RegistryAbstract(c[5], c[4], c[6], c[7], c[8])), Some(""),
           Some(RegistryNote(c[10], "Recruitment_Status", c[3], c[9])),
           c[11], Some(""), Some(""), WHO_ICTRP, 4)
  }

  /** The record of a WHO ICTRP row. */
  function IctrpRecord(f: Frame, row: map<string, Cell>): (rec: Record)
    ensures rec.database == WHO_ICTRP && rec.sourceCode == Code(WHO_ICTRP)
    ensures rec.trialId == StripCell(Col(f, row, IctrpId))
    ensures rec.author == rec.trialId
    ensures rec.accession == Col(f, row, InternalNumber)
    ensures rec.year == YearAnywhere(Col(f, row, DateRegistration))
    ensures rec.title == Col(f, row, PublicTitle) && rec.url == Col(f, row, WebAddress)
    ensures rec.abstractText == Some(RegistryAbstract(Col(f, row, Intervention), Col(f, row, Condition),
                                                      Col(f, row, PrimaryOutcome), Col(f, row, SecondaryOutcome),
                                                      Col(f, row, InclusionCriteria)))
    ensures rec.note == Some(RegistryNote(Col(f, row, ScientificTitle), "Recruitment_Status",
                                          Col(f, row, RecruitmentStatus), Col(f, row, Countries)))
    ensures rec.source == Some("WHO ICTRP")
    ensures rec.keywords == Some("") && rec.volume == Some("") && rec.issue == Some("")
  {
    StripCellIdempotent(Col(f, row, IctrpId));
    var c := Cells(f, row, IctrpTags);
    IctrpRecordOf(StripCell(Col(f, row, IctrpId)), c)
  }

  function IctrpRecords(f: Frame): (r: Result<seq<Record>, AdaptError>)
    ensures r.Success? <==> IctrpId in f.columns
    ensures r.Failure? ==> r.error == MissingColumn(IctrpId)
    ensures r.Success? ==> |r.value| == |f.rows| && FromSource(r.value, WHO_ICTRP)
    ensures r.Success? ==> forall i :: 0 <= i < |f.rows| ==> r.value[i] == IctrpRecord(f, f.rows[i])
  {
    if IctrpId !in f.columns then Failure(MissingColumn(IctrpId))
    else Success(seq(|f.rows|, i requires 0 <= i < |f.rows| => IctrpRecord(f, f.rows[i])))
  }

  method AdaptIctrp(f: Frame) returns (r: Result<seq<Record>, AdaptError>)
    ensures r == IctrpRecords(f)
  {
    if IctrpId !in f.columns {
      return Failure(MissingColumn(IctrpId));
    }
    var n := |f.rows|;
    var ids := seq(n, i requires 0 <= i < n => StripCell(Col(f, f.rows[i], IctrpId)));
    var sub := SubsetColumns(f, IctrpTags);
    var recs := seq(n, i requires 0 <= i < n => IctrpRecordOf(ids[i], Picked(sub, IctrpTags, i)));
    forall i | 0 <= i < n ensures recs[i] == IctrpRecord(f, f.rows[i]) {
      PickedCells(f, sub, IctrpTags, i);
    }
    assert recs == IctrpRecords(f).value;
    r := Success(recs);
  }

  const ScanMedicineId := "MainID"
  const SmPublicTitle := "PublicTitle"
  const DateOfRegistration := "DateOfRegistration"
  const DocUrl := "DocURL"
  const TrialStatus := "TrialStatus"
  const HealthCondition := "HealthConditionOrProblemStudied"
  const Interventions := "Interventions"
  const PrimaryOutcomes := "PrimaryOutcomes"
  const SmInclusionCriteria := "InclusionCriteria"
  const SecondaryOutcomes := "SecondaryOutcomes"
  const CountriesOfRecruitment := "CountriesOfRecruitment"
  const SmScientificTitle := "ScientificTitle"
  const ScanMedicineTags := [SmPublicTitle, DateOfRegistration, DocUrl, TrialStatus,
                             HealthCondition, Interventions, PrimaryOutcomes,
                             SmInclusionCriteria, SecondaryOutcomes, CountriesOfRecruitment,
                             SmScientificTitle]

  /** A ScanMedicine record from its identifier and the cells of `ScanMedicineTags`, in that order. */
  function ScanMedicineRecordOf(id: Cell, c: seq<Cell>): Record
    requires |c| == |ScanMedicineTags|
  {
    Record(id, StripCell(id), c[0], Some("ScanMedicine"), YearFromStart(c[1]), c[2],
           Some(RegistryAbstract(c[5], c[4], c[6], c[8], c[7])), Some(""),
           Some(RegistryNote(c[10], "TrialStatus", c[3], c[9])),
           id, Some(""), Some(""), ScanMedicine, 5)
  }

  /** The record of a ScanMedicine row. */
  function ScanMedicineRecord(f: Frame, row: map<string, Cell>): (rec: Record)
    ensures rec.database == ScanMedicine && rec.sourceCode == Code(ScanMedicine)
    ensures rec.trialId == StripCell(Col(f, row, ScanMedicineId))
    ensures rec.author == rec.trialId && rec.accession == rec.trialId
    ensures rec.year == YearFromStart(Col(f, row, DateOfRegistration))
    ensures rec.title == Col(f, row, SmPublicTitle) && rec.url == Col(f, row, DocUrl)
    ensures rec.abstractText == Some(RegistryAbstract(Col(f, row, Interventions), Col(f, row, HealthCondition),
                                                      Col(f, row, PrimaryOutcomes), Col(f, row, SecondaryOutcomes),
                                                      Col(f, row, SmInclusionCriteria)))
    ensures rec.note == Some(RegistryNote(Col(f, row, SmScientificTitle), "TrialStatus",
                                          Col(f, row, TrialStatus), Col(f, row, CountriesOfRecruitment)))
    ensures rec.source == Some("ScanMedicine")
    ensures rec.keywords == Some("") && rec.volume == Some("") && rec.issue == Some("")
  {
    StripCellIdempotent(Col(f, row, ScanMedicineId));
    var c := Cells(f, row, ScanMedicineTags);
    ScanMedicineRecordOf(StripCell(Col(f, row, ScanMedicineId)), c)
  }

  function ScanMedicineRecords(f: Frame): (r: Result<seq<Record>, AdaptError>)
    ensures r.Success? <==> ScanMedicineId in f.columns
    ensures r.Failure? ==> r.error == MissingColumn(ScanMedicineId)
    ensures r.Success? ==> |r.value| == |f.rows| && FromSource(r.value, ScanMedicine)
    ensures r.Success? ==> forall i :: 0 <= i < |f.rows| ==> r.value[i] == ScanMedicineRecord(f, f.rows[i])
  {
    if ScanMedicineId !in f.columns then Failure(MissingColumn(ScanMedicineId))
    else Success(seq(|f.rows|, i requires 0 <= i < |f.rows| => ScanMedicineRecord(f, f.rows[i])))
  }

  method AdaptScanMedicine(f: Frame) returns (r: Result<seq<Record>, AdaptError>)
    ensures r == ScanMedicineRecords(f)
  {
    if ScanMedicineId !in f.columns {
      return Failure(MissingColumn(ScanMedicineId));
    }
    var n := |f.rows|;
    var ids := seq(n, i requires 0 <= i < n => StripCell(Col(f, f.rows[i], ScanMedicineId)));
    var sub := SubsetColumns(f, ScanMedicineTags);
    var recs := seq(n, i requires 0 <= i < n => ScanMedicineRecordOf(ids[i], Picked(sub, ScanMedicineTags, i)));
    forall i | 0 <= i < n ensures recs[i] == ScanMedicineRecord(f, f.rows[i]) {
      PickedCells(f, sub, ScanMedicineTags, i);
    }
    assert recs == ScanMedicineRecords(f).value;
    r := Success(recs);
  }

  // ---------------------------------------------------------------- assembling the merge input

  /** The parsed uploads held by the session; `None` where the source was not uploaded. */
  datatype Uploads = Uploads(
    central: Option<seq<RisRow>>,
    centralNonTrials: Option<seq<RisRow>>,
    embase: Option<seq<RisRow>>,
    embaseNonTrials: Option<seq<RisRow>>,
    ct: Option<Frame>,
    ictrp: Option<Frame>,
    scanMedicine: Option<Frame>)

  /** Every record carries the priority code of the source it is labelled with. */
  predicate WellCoded(rs: seq<Record>) {
    forall i :: 0 <= i < |rs| ==> rs[i].sourceCode == Code(rs[i].database)
  }

  lemma WellCodedAppend(a: seq<Record>, b: seq<Record>)
    requires WellCoded(a) && WellCoded(b)
    ensures WellCoded(a + b)
  {
  }

  /** A frame is absent or has the identifier column `id`, so its adapter cannot fail. */
  predicate HasId(f: Option<Frame>, id: string) {
    f.None? || id in f.value.columns
  }

  function RisBatch(rows: Option<seq<RisRow>>, db: Db): (rs: seq<Record>)
    requires db == CENTRAL || db == EMBASE
    ensures rows.None? ==> rs == []
    ensures rows.Some? && db == CENTRAL ==> rs == CentralRecords(rows.value)
    ensures rows.Some? && db == EMBASE ==> rs == EmbaseRecords(rows.value)
    ensures FromSource(rs, db) && WellCoded(rs)
  {
    match rows
    case None => []
    case Some(r) => if db == CENTRAL then CentralRecords(r) else EmbaseRecords(r)
  }

  function CtBatch(f: Option<Frame>): (r: Result<seq<Record>, AdaptError>)
    ensures r.Success? <==> HasId(f, NctNumber)
    ensures r.Failure? ==> r.error == MissingColumn(NctNumber)
    ensures r.Success? ==> WellCoded(r.value)
    ensures f.None? ==> r == Success([])
    ensures f.Some? ==> r == ClinicalTrialsRecords(f.value)
  {
    if f.None? then Success([]) else ClinicalTrialsRecords(f.value)
  }

  function IctrpBatch(f: Option<Frame>): (r: Result<seq<Record>, AdaptError>)
    ensures r.Success? <==> HasId(f, IctrpId)
    ensures r.Failure? ==> r.error == MissingColumn(IctrpId)
    ensures r.Success? ==> WellCoded(r.value)
    ensures f.None? ==> r == Success([])
    ensures f.Some? ==> r == IctrpRecords(f.value)
  {
    if f.None? then Success([]) else IctrpRecords(f.value)
  }

  function ScanMedicineBatch(f: Option<Frame>): (r: Result<seq<Record>, AdaptError>)
    ensures r.Success? <==> HasId(f, ScanMedicineId)
    ensures r.Failure? ==> r.error == MissingColumn(ScanMedicineId)
    ensures r.Success? ==> WellCoded(r.value)
    ensures f.None? ==> r == Success([])
    ensures f.Some? ==> r == ScanMedicineRecords(f.value)
  {
    if f.None? then Success([]) else ScanMedicineRecords(f.value)
  }

  /** The records of the uploaded tabular sources, in the order ClinicalTrials.gov, WHO ICTRP, ScanMedicine; the first frame without its identifier column stops the run. */
  function TableBatches(u: Uploads): (r: Result<seq<Record>, AdaptError>)
    ensures r.Success? <==> HasId(u.ct, NctNumber) && HasId(u.ictrp, IctrpId) && HasId(u.scanMedicine, ScanMedicineId)
    ensures r.Failure? && !HasId(u.ct, NctNumber) ==> r.error == MissingColumn(NctNumber)
    ensures r.Failure? && HasId(u.ct, NctNumber) && !HasId(u.ictrp, IctrpId) ==> r.error == MissingColumn(IctrpId)
    ensures r.Failure? && HasId(u.ct, NctNumber) && HasId(u.ictrp, IctrpId) ==> r.error == MissingColumn(ScanMedicineId)
    ensures r.Success? ==> WellCoded(r.value)
    ensures r.Success? ==> r.value == CtBatch(u.ct).value + IctrpBatch(u.ictrp).value + ScanMedicineBatch(u.scanMedicine).value
  {
    var ct := CtBatch(u.ct);
    var ictrp := IctrpBatch(u.ictrp);
    var sm := ScanMedicineBatch(u.scanMedicine);
    if ct.Failure? then Failure(ct.error)
    else if ictrp.Failure? then Failure(ictrp.error)
    else if sm.Failure? then Failure(sm.error)
    else
      WellCodedAppend(ct.value, ictrp.value);
      WellCodedAppend(ct.value + ictrp.value, sm.value);
      Success(ct.value + ictrp.value + sm.value)
  }

  /**
   * `pd.concat(dfs)`: the registry records of CENTRAL and Embase, then the
   * tabular sources, each batch in its upload order.
   */
  function Combined(u: Uploads): (r: Result<seq<Record>, AdaptError>)
    ensures r.Success? <==> TableBatches(u).Success?
    ensures r.Failure? ==> r == TableBatches(u)
    ensures r.Success? ==> r.value == RisBatch(u.central, CENTRAL) + RisBatch(u.embase, EMBASE) + TableBatches(u).value
    ensures r.Success? ==> WellCoded(r.value)
  {
    var t := TableBatches(u);
    if t.Failure? then t
    else
      var ris := RisBatch(u.central, CENTRAL) + RisBatch(u.embase, EMBASE);
      WellCodedAppend(RisBatch(u.central, CENTRAL), RisBatch(u.embase, EMBASE));
      WellCodedAppend(ris, t.value);
      Success(ris + t.value)
  }

  /** The adapters' list of batches, appended one source at a time: the two RIS sources, then the tables. */
  method CombineSources(u: Uploads) returns (r: Result<seq<Record>, AdaptError>)
    ensures r == Combined(u)
  {
    var dfs: seq<Record> := [];
    if u.central.Some? {
      dfs := dfs + CentralRecords(u.central.value);
    }
    if u.embase.Some? {
      dfs := dfs + EmbaseRecords(u.embase.value);
    }
    assert dfs == RisBatch(u.central, CENTRAL) + RisBatch(u.embase, EMBASE);
    var tables := AdaptTables(u);
    if tables.Failure? {
      return Failure(tables.error);
    }
    r := Success(dfs + tables.value);
  }

  /** The tabular part of the batch list: each uploaded table adapted in turn, the first failure ending the run. */
  method AdaptTables(u: Uploads) returns (r: Result<seq<Record>, AdaptError>)
    ensures r == TableBatches(u)
  {
    var dfs: seq<Record> := [];
    if u.ct.Some? {
      var b := AdaptClinicalTrials(u.ct.value);
      if b.Failure? {
        return Failure(b.error);
      }
      dfs := dfs + b.value;
    }
    ghost var ct := CtBatch(u.ct);
    assert ct.Success? && dfs == ct.value;
    if u.ictrp.Some? {
      var b := AdaptIctrp(u.ictrp.value);
      if b.Failure? {
        return Failure(b.error);
      }
      dfs := dfs + b.value;
    }
    ghost var ictrp := IctrpBatch(u.ictrp);
    assert ictrp.Success? && dfs == ct.value + ictrp.value;
    if u.scanMedicine.Some? {
      var b := AdaptScanMedicine(u.scanMedicine.value);
      if b.Failure? {
        return Failure(b.error);
      }
      dfs := dfs + b.value;
    }
    ghost var sm := ScanMedicineBatch(u.scanMedicine);
    assert sm.Success? && dfs == ct.value + ictrp.value + sm.value;
    r := Success(dfs);
  }

  // ---------------------------------------------------------------- stripping the identifiers in place

  /** The uploads after the adapters strip the identifier column of each tabular frame that has one. */
  function StripIds(u: Uploads): (v: Uploads)
    ensures v.central == u.central && v.centralNonTrials == u.centralNonTrials
    ensures v.embase == u.embase && v.embaseNonTrials == u.embaseNonTrials
  {
    u.(ct := StripIdOf(u.ct, NctNumber), ictrp := StripIdOf(u.ictrp, IctrpId),
       scanMedicine := StripIdOf(u.scanMedicine, ScanMedicineId))
  }

  function StripIdOf(f: Option<Frame>, id: string): (g: Option<Frame>)
    ensures g.None? <==> f.None?
    ensures g.Some? ==> g.value.columns == f.value.columns && |g.value.rows| == |f.value.rows|
  {
    if f.Some? && id in f.value.columns then Some(StripColumn(f.value, id)) else f
  }

  lemma StripColumnCol(f: Frame, name: string, i: nat, tag: string)
    requires i < |f.rows|
    ensures Col(StripColumn(f, name), StripColumn(f, name).rows[i], tag)
            == if tag == name then StripCell(Col(f, f.rows[i], tag)) else Col(f, f.rows[i], tag)
    ensures tag == name ==>
      StripCell(Col(StripColumn(f, name), StripColumn(f, name).rows[i], tag)) == StripCell(Col(f, f.rows[i], tag))
  {
    if tag == name {
      StripCellIdempotent(Col(f, f.rows[i], tag));
      if name in f.columns && name in f.rows[i] {
        StripCellIdempotent(f.rows[i][name]);
      }
    }
  }

  lemma CellsAfterStrip(f: Frame, name: string, i: nat, tags: seq<string>)
    requires i < |f.rows| && name !in tags
    ensures Cells(StripColumn(f, name), StripColumn(f, name).rows[i], tags) == Cells(f, f.rows[i], tags)
  {
    forall k | 0 <= k < |tags| {
      StripColumnCol(f, name, i, tags[k]);
    }
  }

  lemma CtAfterStrip(f: Frame)
    ensures ClinicalTrialsRecords(StripColumn(f, NctNumber)) == ClinicalTrialsRecords(f)
  {
    var g := StripColumn(f, NctNumber);
    if NctNumber in f.columns {
      assert NctNumber !in CtTags;
      forall i | 0 <= i < |f.rows| ensures CtRecord(g, g.rows[i]) == CtRecord(f, f.rows[i]) {
        StripColumnCol(f, NctNumber, i, NctNumber);
        CellsAfterStrip(f, NctNumber, i, CtTags);
      }
      assert ClinicalTrialsRecords(g).value == ClinicalTrialsRecords(f).value;
    }
  }

  lemma IctrpAfterStrip(f: Frame)
    ensures IctrpRecords(StripColumn(f, IctrpId)) == IctrpRecords(f)
  {
    var g := StripColumn(f, IctrpId);
    if IctrpId in f.columns {
      assert IctrpId !in IctrpTags;
      forall i | 0 <= i < |f.rows| ensures IctrpRecord(g, g.rows[i]) == IctrpRecord(f, f.rows[i]) {
        StripColumnCol(f, IctrpId, i, IctrpId);
        CellsAfterStrip(f, IctrpId, i, IctrpTags);
      }
      assert IctrpRecords(g).value == IctrpRecords(f).value;
    }
  }

  lemma ScanMedicineAfterStrip(f: Frame)
    ensures ScanMedicineRecords(StripColumn(f, ScanMedicineId)) == ScanMedicineRecords(f)
  {
    var g := StripColumn(f, ScanMedicineId);
    if ScanMedicineId in f.columns {
      assert ScanMedicineId !in ScanMedicineTags;
      forall i | 0 <= i < |f.rows| ensures ScanMedicineRecord(g, g.rows[i]) == ScanMedicineRecord(f, f.rows[i]) {
        StripColumnCol(f, ScanMedicineId, i, ScanMedicineId);
        CellsAfterStrip(f, ScanMedicineId, i, ScanMedicineTags);
      }
      assert ScanMedicineRecords(g).value == ScanMedicineRecords(f).value;
    }
  }

  /**
   * Stripping the identifier columns in place does not change what the
   * adapters produce: a rerun over the modified session frames merges the
   * same records.
   */
  lemma CombinedAfterStrip(u: Uploads)
    ensures Combined(StripIds(u)) == Combined(u)
  {
    if u.ct.Some? && NctNumber in u.ct.value.columns {
      CtAfterStrip(u.ct.value);
    }
    if u.ictrp.Some? && IctrpId in u.ictrp.value.columns {
      IctrpAfterStrip(u.ictrp.value);
    }
    if u.scanMedicine.Some? && ScanMedicineId in u.scanMedicine.value.columns {
      ScanMedicineAfterStrip(u.scanMedicine.value);
    }
    assert TableBatches(StripIds(u)) == TableBatches(u);
  }
}
