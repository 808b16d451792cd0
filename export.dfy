/**
 * Export composition: for each database of the summary table, the master
 * records, the duplicate records and, for CENTRAL and Embase, the
 * non-registry records that bypassed deduplication and are appended to the
 * master files.
 */
module Export {
  import opened Basics
  import opened Ordering
  import opened Records
  import opened Adapters
  import opened Candidates
  import opened Manual

  /** The `Source_Code` the non-registry records of a RIS source are given for export. */
  function NonTrialCode(db: Db): (c: int)
    requires db == CENTRAL || db == EMBASE
    ensures db == CENTRAL ==> c == Code(CENTRAL)
    ensures db == EMBASE ==> c == Code(ClinicalTrialsGov)
  {
    if db == CENTRAL then 1 else 3
  }

  /** A non-registry RIS row as exported: an empty `Trial_ID`, the source's label, every RIS column kept. */
  function NonTrialRecord(r: RisRow, db: Db): (rec: Record)
    requires db == CENTRAL || db == EMBASE
    ensures rec.trialId == Some("") && rec.database == db && rec.sourceCode == NonTrialCode(db)
    ensures RisColumns(rec) == r
  {
    Record(Some(""), r.author, r.title, r.source, r.year, r.url, r.abstractText, r.keywords,
           r.note, r.accession, r.volume, r.issue, db, NonTrialCode(db))
  }

  /** The non-registry records appended to the master files of `db`; none for the registries. */
  function NonTrialsFor(u: Uploads, db: Db): (rs: seq<Record>)
    ensures rs != [] ==> (db == CENTRAL && u.centralNonTrials.Some?) || (db == EMBASE && u.embaseNonTrials.Some?)
    ensures forall i :: 0 <= i < |rs| ==> rs[i].trialId == Some("") && rs[i].database == db
    ensures db == CENTRAL && u.centralNonTrials.Some? ==> |rs| == |u.centralNonTrials.value|
    ensures db == EMBASE && u.embaseNonTrials.Some? ==> |rs| == |u.embaseNonTrials.value|
    ensures db == CENTRAL && u.centralNonTrials.Some? ==>
      forall i :: 0 <= i < |rs| ==> rs[i] == NonTrialRecord(u.centralNonTrials.value[i], CENTRAL)
    ensures db == EMBASE && u.embaseNonTrials.Some? ==>
      forall i :: 0 <= i < |rs| ==> rs[i] == NonTrialRecord(u.embaseNonTrials.value[i], EMBASE)
  {
    var rows := if db == CENTRAL && u.centralNonTrials.Some? then u.centralNonTrials.value
                else if db == EMBASE && u.embaseNonTrials.Some? then u.embaseNonTrials.value
                else [];
    seq(|rows|, i requires 0 <= i < |rows| => NonTrialRecord(rows[i], db))
  }

  /**
   * The content of the four download files of one database: the master rows
   * (given to `Master.csv` and `Master.ris`), the non-registry records
   * appended to both master files, and the duplicate rows (given to
   * `Duplicate.csv` and `Duplicate.ris`).
   */
  datatype Files = Files(masters: seq<Tagged>, nonTrials: seq<Record>, duplicates: seq<Tagged>)

  /** A row of a master CSV file: non-registry rows have no `Status`. */
  datatype CsvRow = CsvRow(status: Option<Status>, rec: Record)

  /** `pd.concat([data_to_export, non_trials_subset])`: the master rows, then the non-registry rows. */
  function MasterCsv(f: Files): (rows: seq<CsvRow>)
    ensures |rows| == |f.masters| + |f.nonTrials|
    ensures forall i :: 0 <= i < |f.masters| ==> rows[i] == CsvRow(Some(f.masters[i].status), f.masters[i].rec)
    ensures forall i :: 0 <= i < |f.nonTrials| ==> rows[|f.masters| + i] == CsvRow(None, f.nonTrials[i])
  {
    seq(|f.masters|, i requires 0 <= i < |f.masters| => CsvRow(Some(f.masters[i].status), f.masters[i].rec))
    + seq(|f.nonTrials|, i requires 0 <= i < |f.nonTrials| => CsvRow(None, f.nonTrials[i]))
  }

  /** The export before any manual removal: the masters and duplicates of `sorted_df`. */
  function ExportAuto(sorted: seq<Tagged>, u: Uploads, db: Db): (f: Files)
    ensures forall t :: t in f.masters <==> t in sorted && t.status == Master && t.rec.database == db
    ensures forall t :: t in f.duplicates <==> t in sorted && t.status == Duplicate && t.rec.database == db
    ensures f.nonTrials == NonTrialsFor(u, db)
  {
    Files(OfDb(WithStatus(sorted, Master), db), NonTrialsFor(u, db), OfDb(WithStatus(sorted, Duplicate), db))
  }

  /** The export after a manual removal: the stored master records and the duplicates of `sorted_df_manual`. */
  function ExportManual(masterRecords: seq<Tagged>, manual: seq<Tagged>, u: Uploads, db: Db): (f: Files)
    ensures forall t :: t in f.masters <==> t in masterRecords && t.rec.database == db
    ensures forall t :: t in f.duplicates <==> t in manual && t.status == Duplicate && t.rec.database == db
    ensures f.nonTrials == NonTrialsFor(u, db)
  {
    Files(OfDb(masterRecords, db), NonTrialsFor(u, db), OfDb(WithStatus(manual, Duplicate), db))
  }

  /** The position of a database's label among the five labels in string order. */
  function Rank(db: Db): (k: nat)
    ensures k < 5
  {
    match db
    case CENTRAL => 0
    case ClinicalTrialsGov => 1
    case EMBASE => 2
    case ScanMedicine => 3
    case WHO_ICTRP => 4
  }

  function OfRank(k: nat): (db: Db)
    requires k < 5
    ensures Rank(db) == k
  {
    [CENTRAL, ClinicalTrialsGov, EMBASE, ScanMedicine, WHO_ICTRP][k]
  }

  /** `Rank` follows Python's order on the labels. */
  lemma RankOrdersLabels(a: Db, b: Db)
    requires Rank(a) < Rank(b)
    ensures StrLt(Label(a), Label(b))
  {
    assert StrLt("CENTRAL", "ClinicalTrialsGov");
    assert StrLt("ClinicalTrialsGov", "EMBASE");
    assert StrLt("EMBASE", "ScanMedicine");
    assert StrLt("ScanMedicine", "WHO_ICTRP");
    if Rank(b) - Rank(a) >= 2 {
      StrLtTransitive(Label(a), Label(OfRank(Rank(a) + 1)), Label(b));
    }
  }

  /** The databases of rank `k` and above that label some row, by rank. */
  function PresentFrom(rows: seq<Tagged>, k: nat): (dbs: seq<Db>)
    requires k <= 5
    decreases 5 - k
    ensures forall db :: db in dbs <==> Rank(db) >= k && OfDb(rows, db) != []
    ensures forall i, j :: 0 <= i < j < |dbs| ==> Rank(dbs[i]) < Rank(dbs[j])
  {
    if k == 5 then []
    else
      var rest := PresentFrom(rows, k + 1);
      if OfDb(rows, OfRank(k)) != [] then [OfRank(k)] + rest else rest
  }

  /**
   * The summary table's index, which the export loop runs over: the
   * databases with at least one row, in the order of their labels.
   */
  function ExportDatabases(rows: seq<Tagged>): (dbs: seq<Db>)
    ensures forall db :: db in dbs <==> OfDb(rows, db) != []
    ensures forall i, j :: 0 <= i < j < |dbs| ==> StrLt(Label(dbs[i]), Label(dbs[j]))
  {
    var dbs := PresentFrom(rows, 0);
    forall i, j | 0 <= i < j < |dbs| ensures StrLt(Label(dbs[i]), Label(dbs[j])) {
      RankOrdersLabels(dbs[i], dbs[j]);
    }
    dbs
  }

  lemma {:induction false} OfDbWithStatus(rows: seq<Tagged>, st: Status, db: Db)
    ensures OfDb(WithStatus(rows, st), db) == WithStatus(OfDb(rows, db), st)
  {
    if rows != [] {
      OfDbWithStatus(rows[1..], st, db);
      var ws := WithStatus(rows, st);
      var od := OfDb(rows, db);
      if rows[0].status == st {
        assert ws[0] == rows[0] && ws[1..] == WithStatus(rows[1..], st);
      } else {
        assert ws == WithStatus(rows[1..], st);
      }
      if rows[0].rec.database == db {
        assert od[0] == rows[0] && od[1..] == OfDb(rows[1..], db);
      } else {
        assert od == OfDb(rows[1..], db);
      }
    }
  }

  lemma {:induction false} OfDbNormalised(ms: seq<Tagged>, db: Db)
    ensures OfDb(Project(ms, Normalised), db) == Project(OfDb(ms, db), Normalised)
  {
    if ms != [] {
      OfDbNormalised(ms[1..], db);
      var head := if ms[0].rec.database == db then [ms[0]] else [];
      ProjectAppend(head, OfDb(ms[1..], db), Normalised);
      assert Project(ms, Normalised)[1..] == Project(ms[1..], Normalised);
    }
  }

  /** Before any manual removal, the master and duplicate files of a database split its rows of `sorted_df`. */
  lemma AutoExportPartition(sorted: seq<Tagged>, u: Uploads, db: Db)
    ensures var f := ExportAuto(sorted, u, db);
      multiset(f.masters) + multiset(f.duplicates) == multiset(OfDb(sorted, db))
  {
    OfDbWithStatus(sorted, Master, db);
    OfDbWithStatus(sorted, Duplicate, db);
    StatusSplits(OfDb(sorted, db));
  }

  /**
   * After a manual removal, the master files of a database hold exactly the
   * (normalised) masters of `sorted_df_manual` for it, and with the duplicate
   * files they split its rows.
   */
  lemma ManualExportPartition(sorted: seq<Tagged>, sel: seq<Cell>, u: Uploads, db: Db)
    ensures var manual := Demoted(sorted, sel);
      var f := ExportManual(DropSelected(MasterRecords(sorted), sel), manual, u, db);
      f.masters == Project(OfDb(WithStatus(manual, Master), db), Normalised)
      && multiset(OfDb(WithStatus(manual, Master), db)) + multiset(f.duplicates) == multiset(OfDb(manual, db))
  {
    var manual := Demoted(sorted, sel);
    MasterRecordsAfterRemoval(sorted, sel);
    OfDbNormalised(WithStatus(manual, Master), db);
    OfDbWithStatus(manual, Master, db);
    OfDbWithStatus(manual, Duplicate, db);
    StatusSplits(OfDb(manual, db));
  }

  /** The export loop before any manual removal: one entry per database of the summary table. */
  function AutoDownloads(sorted: seq<Tagged>, u: Uploads): (d: seq<(Db, Files)>)
    ensures |d| == |ExportDatabases(sorted)|
    ensures forall i :: 0 <= i < |d| ==> d[i].0 == ExportDatabases(sorted)[i] && d[i].1 == ExportAuto(sorted, u, d[i].0)
    ensures forall i :: 0 <= i < |d| ==>
      multiset(d[i].1.masters) + multiset(d[i].1.duplicates) == multiset(OfDb(sorted, d[i].0))
  {
    var dbs := ExportDatabases(sorted);
    forall db | db in dbs ensures
      multiset(ExportAuto(sorted, u, db).masters) + multiset(ExportAuto(sorted, u, db).duplicates)
        == multiset(OfDb(sorted, db))
    {
      AutoExportPartition(sorted, u, db);
    }
    seq(|dbs|, i requires 0 <= i < |dbs| => (dbs[i], ExportAuto(sorted, u, dbs[i])))
  }

  /** The export loop after a manual removal, over the databases of `sorted_df_manual`. */
  function ManualDownloads(masterRecords: seq<Tagged>, manual: seq<Tagged>, u: Uploads): (d: seq<(Db, Files)>)
    ensures |d| == |ExportDatabases(manual)|
    ensures forall i :: 0 <= i < |d| ==>
      d[i].0 == ExportDatabases(manual)[i] && d[i].1 == ExportManual(masterRecords, manual, u, d[i].0)
  {
    var dbs := ExportDatabases(manual);
    seq(|dbs|, i requires 0 <= i < |dbs| => (dbs[i], ExportManual(masterRecords, manual, u, dbs[i])))
  }
}
