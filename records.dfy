/**
 * The unified record every source is mapped into, the status table the
 * deduplication produces, and the row filters the later stages use.
 */
module Records {
  import opened Basics
  import opened Strings

  /** A table cell: `None` is pandas' missing value (NaN). */
  type Cell = Option<string>

  /** pandas `.str.strip()` on a cell: NaN stays NaN. */
  function StripCell(c: Cell): (r: Cell)
    ensures r.None? <==> c.None?
    ensures r.Some? ==> Trimmed(r.value) && Unpadded(c.value, r.value)
  {
    match c
    case None => None
    case Some(s) => Some(Strip(s))
  }

  lemma StripCellIdempotent(c: Cell)
    ensures StripCell(StripCell(c)) == StripCell(c)
  {
    if c.Some? {
      StripIdempotent(c.value);
    }
  }

  /** `.fillna('').astype(str)`: the text of a cell, NaN read as empty. */
  function Text(c: Cell): string {
    match c
    case None => ""
    case Some(s) => s
  }

  /** The five bibliographic sources. */
  datatype Db = CENTRAL | EMBASE | ClinicalTrialsGov | WHO_ICTRP | ScanMedicine

  /** The `Source_Code` of a source: its rank when a master record is chosen, 1 ranking first. */
  function Code(db: Db): (c: int)
    ensures 1 <= c <= 5
  {
    match db
    case CENTRAL => 1
    case EMBASE => 2
    case ClinicalTrialsGov => 3
    case WHO_ICTRP => 4
    case ScanMedicine => 5
  }

  /** The priority ranks are distinct: the codes order the five sources totally. */
  lemma CodeInjective(a: Db, b: Db)
    requires Code(a) == Code(b)
    ensures a == b
  {
  }

  /** The `Database` column value of a source. */
  function Label(db: Db): string {
    match db
    case CENTRAL => "CENTRAL"
    case EMBASE => "EMBASE"
    case ClinicalTrialsGov => "ClinicalTrialsGov"
    case WHO_ICTRP => "WHO_ICTRP"
    case ScanMedicine => "ScanMedicine"
  }

  /** The unified 14-column record. */
  datatype Record = Record(
    trialId: Cell,
    author: Cell,
    title: Cell,
    source: Cell,
    year: Cell,
    url: Cell,
    abstractText: Cell,
    keywords: Cell,
    note: Cell,
    accession: Cell,
    volume: Cell,
    issue: Cell,
    database: Db,
    sourceCode: int)

  datatype Status = Master | Duplicate

  /** A row of the deduplicated table: a record and its `Status`. */
  datatype Tagged = Tagged(status: Status, rec: Record)

  /** The records of a status table, in order. */
  function Untagged(rows: seq<Tagged>): (r: seq<Record>)
    ensures |r| == |rows|
    ensures forall i :: 0 <= i < |rows| ==> r[i] == rows[i].rec
  {
    seq(|rows|, i requires 0 <= i < |rows| => rows[i].rec)
  }

  /** `rows[rows['Status'] == st]`: the rows with status `st`, in order. */
  function WithStatus(rows: seq<Tagged>, st: Status): (r: seq<Tagged>)
    ensures forall t :: t in r <==> t in rows && t.status == st
    ensures |r| <= |rows|
  {
    if rows == [] then []
    else (if rows[0].status == st then [rows[0]] else []) + WithStatus(rows[1..], st)
  }

  /** `rows[rows['Database'] == db]`: the rows of source `db`, in order. */
  function OfDb(rows: seq<Tagged>, db: Db): (r: seq<Tagged>)
    ensures forall t :: t in r <==> t in rows && t.rec.database == db
    ensures |r| <= |rows|
  {
    if rows == [] then []
    else (if rows[0].rec.database == db then [rows[0]] else []) + OfDb(rows[1..], db)
  }

  /** The filter by source on a row in front of a sequence. */
  lemma OfDbCons(t: Tagged, s: seq<Tagged>, db: Db)
    ensures OfDb([t] + s, db) == (if t.rec.database == db then [t] else []) + OfDb(s, db)
  {
    assert ([t] + s)[0] == t && ([t] + s)[1..] == s;
  }

  /** The filter by source keeps a single row exactly when it is from that source. */
  lemma OfDbSingle(t: Tagged, db: Db)
    ensures OfDb([t], db) == if t.rec.database == db then [t] else []
  {
  }

  /** The filter by source keeps every row of that source as often as it occurs, and no other row. */
  lemma {:induction false} OfDbCounts(rows: seq<Tagged>, db: Db, t: Tagged)
    ensures multiset(OfDb(rows, db))[t] == if t.rec.database == db then multiset(rows)[t] else 0
  {
    if rows != [] {
      OfDbCounts(rows[1..], db, t);
      assert rows == [rows[0]] + rows[1..];
    }
  }

  /** Splitting rows by status loses and adds nothing. */
  lemma {:induction false} StatusSplits(rows: seq<Tagged>)
    ensures multiset(WithStatus(rows, Master)) + multiset(WithStatus(rows, Duplicate)) == multiset(rows)
  {
    if rows != [] {
      StatusSplits(rows[1..]);
      var m, d := WithStatus(rows[1..], Master), WithStatus(rows[1..], Duplicate);
      assert rows == [rows[0]] + rows[1..];
      if rows[0].status == Master {
        assert WithStatus(rows, Master) == [rows[0]] + m && WithStatus(rows, Duplicate) == d;
      } else {
        assert WithStatus(rows, Master) == m && WithStatus(rows, Duplicate) == [rows[0]] + d;
      }
    }
  }
}
