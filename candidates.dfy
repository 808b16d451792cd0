/**
 * The Title/Year candidate finder behind manual deduplication: the master
 * records, with titles trimmed and lower-cased and years trimmed, are
 * searched for (`Title`, `Year`) pairs that occur more than once. Those
 * records are listed unselected, sorted by (`Title`, `Year`, `Source_Code`),
 * and the first row of each pair group is suggested for keeping.
 */
module Candidates {
  import opened Basics
  import opened Strings
  import opened Ordering
  import opened Records

  /** `.str.strip()` then `.str.lower()` on a title cell. */
  function NormaliseTitle(c: Cell): (r: Cell)
    ensures r.None? <==> c.None?
    ensures r.Some? ==> Trimmed(r.value) && |r.value| <= |c.value|
    ensures r.Some? ==> forall k :: 0 <= k < |r.value| ==> !IsUpper(r.value[k])
    ensures r.Some? ==> r.value == Lower(Strip(c.value))
  {
    match c
    case None => None
    case Some(s) =>
      LowerKeepsTrimmed(Strip(s));
      Some(Lower(Strip(s)))
  }

  /** Normalising a normalised title changes nothing. */
  lemma NormaliseTitleIdempotent(c: Cell)
    ensures NormaliseTitle(NormaliseTitle(c)) == NormaliseTitle(c)
  {
    if c.Some? {
      var t := Lower(Strip(c.value));
      StripTrimmed(t);
      LowerIdempotent(Strip(c.value));
    }
  }

  /**
   * Two titles are grouped together exactly when, once stripped, they have
   * the same length and agree letter by letter up to ASCII case.
   */
  lemma SameNormalisedTitle(a: string, b: string)
    ensures NormaliseTitle(Some(a)) == NormaliseTitle(Some(b)) <==>
      |Strip(a)| == |Strip(b)| && forall k :: 0 <= k < |Strip(a)| ==> LowerChar(Strip(a)[k]) == LowerChar(Strip(b)[k])
  {
    var x, y := Lower(Strip(a)), Lower(Strip(b));
    if x == y {
      forall k | 0 <= k < |Strip(a)| ensures LowerChar(Strip(a)[k]) == LowerChar(Strip(b)[k]) {
        assert x[k] == y[k];
      }
    }
  }

  /** A master row as `master_records_df` holds it. */
  function Normalised(t: Tagged): Tagged {
    t.(rec := t.rec.(title := NormaliseTitle(t.rec.title), year := StripCell(t.rec.year)))
  }

  /** `master_records_df`: the masters of `sorted_df`, in order, with normalised title and year. */
  function MasterRecords(sorted: seq<Tagged>): (m: seq<Tagged>)
    ensures |m| == |WithStatus(sorted, Master)|
    ensures forall i :: 0 <= i < |m| ==> m[i].status == Master
    ensures forall i :: 0 <= i < |m| ==>
      m[i].rec.trialId == WithStatus(sorted, Master)[i].rec.trialId
      && m[i].rec.database == WithStatus(sorted, Master)[i].rec.database
      && m[i].rec.sourceCode == WithStatus(sorted, Master)[i].rec.sourceCode
    ensures forall i :: 0 <= i < |m| ==> m[i] == Normalised(WithStatus(sorted, Master)[i])
  {
    var ms := WithStatus(sorted, Master);
    assert forall i :: 0 <= i < |ms| ==> ms[i] in ms;
    Project(ms, Normalised)
  }

  /** The normalisation is idempotent: normalising the master records again yields them. */
  lemma MasterRecordsStable(sorted: seq<Tagged>)
    ensures Project(MasterRecords(sorted), Normalised) == MasterRecords(sorted)
  {
    var m := MasterRecords(sorted);
    forall i | 0 <= i < |m| ensures Normalised(m[i]) == m[i] {
      var t := WithStatus(sorted, Master)[i];
      NormaliseTitleIdempotent(t.rec.title);
      StripCellIdempotent(t.rec.year);
    }
  }

  /** `master_ids`: the distinct identifiers of the masters, in order. */
  function MasterIds(sorted: seq<Tagged>): (ids: seq<Cell>)
    ensures forall i, j :: 0 <= i < j < |ids| ==> ids[i] != ids[j]
    ensures forall id :: id in ids <==> exists t :: t in sorted && t.status == Master && t.rec.trialId == id
  {
    var ms := WithStatus(sorted, Master);
    var all := Project(ms, (t: Tagged) => t.rec.trialId);
    assert forall t :: t in ms ==> t.rec.trialId in all by {
      forall t | t in ms ensures t.rec.trialId in all {
        var i :| 0 <= i < |ms| && ms[i] == t;
        assert all[i] == t.rec.trialId;
      }
    }
    Unique(all)
  }

  /** The duplicate-detection columns `['Title', 'Year']`. */
  function GroupKey(t: Tagged): (Cell, Cell) {
    (t.rec.title, t.rec.year)
  }

  /** The candidate sort `['Title', 'Year', 'Source_Code']`, ascending, NaN last. */
  function CandidateOrder(t: Tagged): SortKey {
    [CellField(t.rec.title), CellField(t.rec.year), Number(t.rec.sourceCode)]
  }

  /** The rows of `rows`, in order, whose (`Title`, `Year`) pair occurs at least twice in `counts`. */
  function KeepRepeated(rows: seq<Tagged>, counts: multiset<(Cell, Cell)>): (r: seq<Tagged>)
    ensures forall t :: t in r <==> t in rows && counts[GroupKey(t)] >= 2
  {
    if rows == [] then []
    else (if counts[GroupKey(rows[0])] >= 2 then [rows[0]] else []) + KeepRepeated(rows[1..], counts)
  }

  /** `master_records_df[duplicated(['Title', 'Year'], keep=False)]`. */
  function Repeated(masters: seq<Tagged>): seq<Tagged> {
    KeepRepeated(masters, multiset(Project(masters, GroupKey)))
  }

  /** A row of the candidate editor: the `Select` checkbox and the record. */
  datatype Candidate = Candidate(select: bool, row: Tagged)

  function CandidateRow(c: Candidate): Tagged {
    c.row
  }

  /** The records of a candidate table, in order. */
  function Rows(cs: seq<Candidate>): (r: seq<Tagged>)
    ensures |r| == |cs| && forall i :: 0 <= i < |cs| ==> r[i] == cs[i].row
  {
    Project(cs, CandidateRow)
  }

  /** The candidate table shown for manual review. */
  function FindCandidates(masters: seq<Tagged>): (c: seq<Candidate>)
    ensures |c| == |Repeated(masters)|
    ensures forall k :: 0 <= k < |c| ==> !c[k].select
    ensures multiset(Rows(c)) == multiset(Repeated(masters))
    ensures Ascending(Rows(c), CandidateOrder)
  {
    var sorted := SortBy(Repeated(masters), CandidateOrder);
    SortByAscending(Repeated(masters), CandidateOrder);
    var c := seq(|sorted|, k requires 0 <= k < |sorted| => Candidate(false, sorted[k]));
    assert Rows(c) == sorted;
    c
  }

  /**
   * A record is a candidate exactly when it is a master and another master
   * has the same normalised title and year.
   */
  lemma CandidateIffRepeated(masters: seq<Tagged>, i: nat)
    requires i < |masters|
    ensures masters[i] in Rows(FindCandidates(masters)) <==>
      exists j :: 0 <= j < |masters| && j != i && GroupKey(masters[j]) == GroupKey(masters[i])
  {
    var keys := Project(masters, GroupKey);
    CountAtLeastTwo(keys, i);
    var rows := Rows(FindCandidates(masters));
    assert masters[i] in rows <==> masters[i] in multiset(rows);
    assert masters[i] in Repeated(masters) <==> masters[i] in multiset(Repeated(masters));
  }

  /** Every row a candidate table holds is a master row of its input. */
  lemma CandidatesAreMasters(masters: seq<Tagged>, t: Tagged)
    requires t in Rows(FindCandidates(masters))
    ensures t in masters
  {
    assert t in multiset(Rows(FindCandidates(masters)));
  }

  /** Keeping the rows of repeated pairs keeps every row of each such pair. */
  lemma {:induction false} KeepRepeatedCounts(rows: seq<Tagged>, counts: multiset<(Cell, Cell)>, k: (Cell, Cell))
    requires counts[k] >= 2
    ensures multiset(Project(KeepRepeated(rows, counts), GroupKey))[k] == multiset(Project(rows, GroupKey))[k]
  {
    if rows != [] {
      KeepRepeatedCounts(rows[1..], counts, k);
      var head := if counts[GroupKey(rows[0])] >= 2 then [rows[0]] else [];
      ProjectAppend(head, KeepRepeated(rows[1..], counts), GroupKey);
      ProjectAppend([rows[0]], rows[1..], GroupKey);
      assert rows == [rows[0]] + rows[1..];
    }
  }

  /** No candidate stands alone: each shares its title and year with another row of the table. */
  lemma CandidatesArePaired(masters: seq<Tagged>, i: nat)
    requires i < |FindCandidates(masters)|
    ensures exists j ::
      0 <= j < |FindCandidates(masters)| && j != i
      && GroupKey(Rows(FindCandidates(masters))[j]) == GroupKey(Rows(FindCandidates(masters))[i])
  {
    var rows := Rows(FindCandidates(masters));
    var rep := Repeated(masters);
    var counts := multiset(Project(masters, GroupKey));
    var k := GroupKey(rows[i]);
    assert rows == SortBy(rep, CandidateOrder);
    SortByProject(rep, CandidateOrder, GroupKey);
    assert rows[i] in multiset(rep);
    assert counts[k] >= 2;
    KeepRepeatedCounts(masters, counts, k);
    var keys := Project(rows, GroupKey);
    assert keys[i] == k;
    CountAtLeastTwo(keys, i);
  }

  /** The highlight of a candidate row. */
  datatype Suggestion = Keep | Remove

  /** `highlight_rows`: the first row of each (`Title`, `Year`) group is suggested to keep, the rest to remove. */
  function Suggest(cs: seq<Candidate>): (s: seq<Suggestion>)
    ensures |s| == |cs|
    ensures forall i :: 0 <= i < |cs| ==>
      (s[i] == Keep <==> GroupKey(cs[i].row) !in Project(Rows(cs), GroupKey)[..i])
  {
    var first := FirstOccurrences(Project(Rows(cs), GroupKey));
    seq(|cs|, i requires 0 <= i < |cs| => if first[i] then Keep else Remove)
  }

  /** Each group has exactly one row suggested to keep: one exists, and every later row of the group is red. */
  lemma OneKeepPerGroup(cs: seq<Candidate>, i: nat)
    requires i < |cs|
    ensures exists j :: 0 <= j <= i && GroupKey(cs[j].row) == GroupKey(cs[i].row) && Suggest(cs)[j] == Keep
    ensures forall j :: i < j < |cs| && GroupKey(cs[j].row) == GroupKey(cs[i].row) ==> Suggest(cs)[j] == Remove
  {
    var keys := Project(Rows(cs), GroupKey);
    var j := IndexOf(keys, keys[i]);
    assert keys[..i + 1][i] == keys[i];
    assert j <= i && Suggest(cs)[j] == Keep;
    forall j | i < j < |cs| && GroupKey(cs[j].row) == GroupKey(cs[i].row) ensures Suggest(cs)[j] == Remove {
      assert keys[..j][i] == keys[i];
    }
  }

  /** In a table sorted by `CandidateOrder` the green row of a group has the lowest `Source_Code` of the group. */
  lemma SortedKeepHasLowestCode(cs: seq<Candidate>, i: nat, j: nat)
    requires Ascending(Rows(cs), CandidateOrder)
    requires i < |cs| && j < |cs| && Suggest(cs)[i] == Keep
    requires GroupKey(cs[j].row) == GroupKey(cs[i].row)
    ensures cs[i].row.rec.sourceCode <= cs[j].row.rec.sourceCode
  {
    var rows := Rows(cs);
    OneKeepPerGroup(cs, j);
    if i < j {
      var g := [CellField(rows[i].rec.title), CellField(rows[i].rec.year)];
      assert CandidateOrder(rows[i]) == g + [Number(rows[i].rec.sourceCode)];
      assert CandidateOrder(rows[j]) == g + [Number(rows[j].rec.sourceCode)];
      KeyLeOnLastNumber(g, rows[i].rec.sourceCode, rows[j].rec.sourceCode);
    }
  }

  /** In the candidate table the green row of a group has the lowest `Source_Code` of the group. */
  lemma KeepHasLowestCode(masters: seq<Tagged>, i: nat, j: nat)
    requires i < |FindCandidates(masters)| && j < |FindCandidates(masters)|
    requires Suggest(FindCandidates(masters))[i] == Keep
    requires GroupKey(FindCandidates(masters)[j].row) == GroupKey(FindCandidates(masters)[i].row)
    ensures FindCandidates(masters)[i].row.rec.sourceCode <= FindCandidates(masters)[j].row.rec.sourceCode
  {
    SortedKeepHasLowestCode(FindCandidates(masters), i, j);
  }

  /** Every group of the candidate table holds a row suggested for removal. */
  lemma EveryKeepHasRemove(masters: seq<Tagged>, i: nat)
    requires i < |FindCandidates(masters)| && Suggest(FindCandidates(masters))[i] == Keep
    ensures exists j ::
      0 <= j < |FindCandidates(masters)|
      && GroupKey(Rows(FindCandidates(masters))[j]) == GroupKey(Rows(FindCandidates(masters))[i])
      && Suggest(FindCandidates(masters))[j] == Remove
  {
    var cs := FindCandidates(masters);
    CandidatesArePaired(masters, i);
    var j :| 0 <= j < |cs| && j != i && GroupKey(Rows(cs)[j]) == GroupKey(Rows(cs)[i]);
    OneKeepPerGroup(cs, i);
    OneKeepPerGroup(cs, j);
  }
}
