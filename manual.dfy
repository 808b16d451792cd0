/**
 * Manual removal: the identifiers of the candidate rows the reviewer ticked
 * are demoted to `Duplicate` throughout a copy of `sorted_df`, and the master
 * records with those identifiers are dropped.
 */
module Manual {
  import opened Basics
  import opened Ordering
  import opened Records
  import opened Dedup
  import opened Candidates

  /** The positions of the ticked rows: `edited_df[edited_df['Select'] == True]`. */
  function TickedPositions(edited: seq<Candidate>): set<nat> {
    set k: nat | k < |edited| && edited[k].select
  }

  /**
   * `list(edited_df[edited_df['Select'] == True]['Trial_ID'])`: one
   * identifier per ticked row, in table order.
   */
  function SelectedIds(edited: seq<Candidate>): (ids: seq<Cell>)
    ensures forall id :: id in ids <==> exists k :: 0 <= k < |edited| && edited[k].select && edited[k].row.rec.trialId == id
    ensures |ids| == |TickedPositions(edited)|
  {
    if edited == [] then
      assert TickedPositions(edited) == {};
      []
    else
      var n := |edited| - 1;
      var front := edited[..n];
      var rest := SelectedIds(front);
      assert forall k :: 0 <= k < n ==> front[k] == edited[k];
      var ticked := TickedPositions(front);
      assert TickedPositions(edited) == if edited[n].select then ticked + {n} else ticked;
      assert n !in ticked;
      rest + (if edited[n].select then [edited[n].row.rec.trialId] else [])
  }

  /**
   * The candidate table after the reviewer ticked the rows at positions
   * `ticks`: only the `Select` column is editable.
   */
  function Ticked(cands: seq<Candidate>, ticks: set<nat>): (edited: seq<Candidate>)
    ensures |edited| == |cands|
    ensures forall k :: 0 <= k < |cands| ==> edited[k].row == cands[k].row && (edited[k].select <==> k in ticks)
  {
    seq(|cands|, k requires 0 <= k < |cands| => Candidate(k in ticks, cands[k].row))
  }

  /** One row of `sorted_df_manual`: demoted when its `Trial_ID` is selected. */
  function Demote(t: Tagged, sel: seq<Cell>): Tagged {
    if t.rec.trialId in sel then t.(status := Duplicate) else t
  }

  /** `sorted_df_manual`: a copy of the table with every row of a selected identifier set to `Duplicate`. */
  function Demoted(rows: seq<Tagged>, sel: seq<Cell>): (r: seq<Tagged>)
    ensures |r| == |rows| && Untagged(r) == Untagged(rows)
    ensures forall i :: 0 <= i < |rows| ==>
      (r[i].status == Master <==> rows[i].status == Master && rows[i].rec.trialId !in sel)
  {
    var r := seq(|rows|, i requires 0 <= i < |rows| => Demote(rows[i], sel));
    assert Untagged(r) == Untagged(rows);
    r
  }

  /** `master_records_df[~master_records_df['Trial_ID'].isin(unwanted_values)]`. */
  function DropSelected(masters: seq<Tagged>, sel: seq<Cell>): (r: seq<Tagged>)
    ensures forall t :: t in r <==> t in masters && t.rec.trialId !in sel
    ensures |r| <= |masters|
  {
    if masters == [] then []
    else (if masters[0].rec.trialId in sel then [] else [masters[0]]) + DropSelected(masters[1..], sel)
  }

  /** Demoting the same selection again changes nothing. */
  lemma DemotedIdempotent(rows: seq<Tagged>, sel: seq<Cell>)
    ensures Demoted(Demoted(rows, sel), sel) == Demoted(rows, sel)
  {
  }

  /** Two removals in a row demote the union of their selections. */
  lemma DemotedTwice(rows: seq<Tagged>, a: seq<Cell>, b: seq<Cell>)
    ensures Demoted(Demoted(rows, a), b) == Demoted(rows, a + b)
  {
  }

  /** A removal only demotes: every master after it was a master before, and no duplicate comes back. */
  lemma DemotedOnlyDemotes(rows: seq<Tagged>, sel: seq<Cell>, i: nat)
    requires i < |rows|
    ensures Demoted(rows, sel)[i].status == Master ==> rows[i].status == Master
    ensures rows[i].status == Duplicate ==> Demoted(rows, sel)[i].status == Duplicate
  {
  }

  /** No selected identifier keeps a master row, and every unselected master stays. */
  lemma DemotedRemovesSelected(rows: seq<Tagged>, sel: seq<Cell>, i: nat)
    requires i < |rows|
    ensures rows[i].rec.trialId in sel ==> Demoted(rows, sel)[i].status == Duplicate
    ensures rows[i].rec.trialId !in sel ==> Demoted(rows, sel)[i] == rows[i]
  {
  }

  /** The masters of a demoted table are the masters of the original with the selected identifiers dropped. */
  lemma {:induction false} MastersAfterDemotion(rows: seq<Tagged>, sel: seq<Cell>)
    ensures WithStatus(Demoted(rows, sel), Master) == DropSelected(WithStatus(rows, Master), sel)
  {
    if rows != [] {
      var d := Demoted(rows, sel);
      assert d[1..] == Demoted(rows[1..], sel);
      MastersAfterDemotion(rows[1..], sel);
      var ms := WithStatus(rows, Master);
      if rows[0].status == Master {
        assert ms == [rows[0]] + WithStatus(rows[1..], Master);
        assert ms[1..] == WithStatus(rows[1..], Master);
      } else {
        assert ms == WithStatus(rows[1..], Master);
      }
    }
  }

  /** Dropping by identifier commutes with the title and year normalisation, which keeps identifiers. */
  lemma {:induction false} DropSelectedNormalised(ms: seq<Tagged>, sel: seq<Cell>)
    ensures Project(DropSelected(ms, sel), Normalised) == DropSelected(Project(ms, Normalised), sel)
  {
    if ms != [] {
      DropSelectedNormalised(ms[1..], sel);
      var head := if ms[0].rec.trialId in sel then [] else [ms[0]];
      ProjectAppend(head, DropSelected(ms[1..], sel), Normalised);
      assert Project(ms, Normalised)[1..] == Project(ms[1..], Normalised);
    }
  }

  /**
   * The two results of a removal agree: the stored master records are
   * exactly the normalised masters of the stored demoted table.
   */
  lemma MasterRecordsAfterRemoval(sorted: seq<Tagged>, sel: seq<Cell>)
    ensures MasterRecords(Demoted(sorted, sel)) == DropSelected(MasterRecords(sorted), sel)
  {
    MastersAfterDemotion(sorted, sel);
    DropSelectedNormalised(WithStatus(sorted, Master), sel);
  }

  /** A removal keeps the one-master-per-identifier property of the table. */
  lemma DemotedKeepsOneMaster(rows: seq<Tagged>, sel: seq<Cell>)
    requires OneMasterPerId(rows)
    ensures OneMasterPerId(Demoted(rows, sel))
  {
  }
}
