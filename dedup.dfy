/**
 * Auto-deduplication by trial identifier: the merged records are sorted by
 * (`Trial_ID`, `Source_Code`) and the first row of each identifier becomes the
 * `Master`, every later row a `Duplicate`. Because the sort puts the lower
 * code first, the master of a trial is its record from the highest-priority
 * source.
 */
module Dedup {
  import opened Basics
  import opened Ordering
  import opened Records

  /** The sort columns `['Trial_ID', 'Source_Code']`, both ascending, NaN last. */
  function DedupKey(r: Record): SortKey {
    [CellField(r.trialId), Number(r.sourceCode)]
  }

  /** The `Trial_ID` column of a run of records. */
  function Ids(rs: seq<Record>): (ids: seq<Cell>)
    ensures |ids| == |rs| && forall i :: 0 <= i < |rs| ==> ids[i] == rs[i].trialId
  {
    seq(|rs|, i requires 0 <= i < |rs| => rs[i].trialId)
  }

  /**
   * `sorted_df`: the merged records in (`Trial_ID`, `Source_Code`) order, each
   * tagged `Master` when it is the first row of its identifier. A missing
   * identifier forms no group, so such rows are all `Duplicate`.
   */
  function ExactDedup(combined: seq<Record>): (out: seq<Tagged>)
    ensures |out| == |combined|
    ensures multiset(Untagged(out)) == multiset(combined)
    ensures Ascending(Untagged(out), DedupKey)
    ensures forall i :: 0 <= i < |out| ==>
      (out[i].status == Master <==> out[i].rec.trialId.Some? && out[i].rec.trialId !in Ids(Untagged(out))[..i])
  {
    var sorted := SortBy(combined, DedupKey);
    SortByAscending(combined, DedupKey);
    var first := FirstOccurrences(Ids(sorted));
    var out := seq(|sorted|, i requires 0 <= i < |sorted| =>
      Tagged(if first[i] && sorted[i].trialId.Some? then Master else Duplicate, sorted[i]));
    assert Untagged(out) == sorted;
    out
  }

  /** No two masters share an identifier. */
  ghost predicate OneMasterPerId(rows: seq<Tagged>) {
    forall i, j ::
      (0 <= i < |rows| && 0 <= j < |rows| && rows[i].status == Master && rows[j].status == Master
       && rows[i].rec.trialId == rows[j].rec.trialId) ==> i == j
  }

  /** Every present identifier has a master. */
  ghost predicate EveryIdHasMaster(rows: seq<Tagged>) {
    forall i :: 0 <= i < |rows| && rows[i].rec.trialId.Some? ==>
      exists j :: 0 <= j < |rows| && rows[j].status == Master && rows[j].rec.trialId == rows[i].rec.trialId
  }

  /** A row whose identifier already occurred earlier in the table is a duplicate. */
  ghost predicate LaterRowsAreDuplicates(rows: seq<Tagged>) {
    forall i, j :: 0 <= i < j < |rows| && rows[i].rec.trialId == rows[j].rec.trialId ==> rows[j].status == Duplicate
  }

  lemma DedupMarksLaterRows(combined: seq<Record>)
    ensures LaterRowsAreDuplicates(ExactDedup(combined))
  {
    var out := ExactDedup(combined);
    var ids := Ids(Untagged(out));
    forall i, j | 0 <= i < j < |out| && out[i].rec.trialId == out[j].rec.trialId
      ensures out[j].status == Duplicate
    {
      assert ids[..j][i] == ids[i];
    }
  }

  /** Exactly one master per `Trial_ID`. */
  lemma ExactlyOneMaster(combined: seq<Record>)
    ensures OneMasterPerId(ExactDedup(combined))
    ensures EveryIdHasMaster(ExactDedup(combined))
  {
    var out := ExactDedup(combined);
    var ids := Ids(Untagged(out));
    DedupMarksLaterRows(combined);
    forall i | 0 <= i < |out| && out[i].rec.trialId.Some?
      ensures exists j :: 0 <= j < |out| && out[j].status == Master && out[j].rec.trialId == out[i].rec.trialId
    {
      var j := IndexOf(ids, ids[i]);
      assert out[j].status == Master;
    }
  }

  /** The master of a trial has the lowest `Source_Code` of all rows with its identifier. */
  lemma MasterHasLowestCode(combined: seq<Record>, i: nat, j: nat)
    requires i < |combined| && j < |combined|
    requires ExactDedup(combined)[i].status == Master
    requires ExactDedup(combined)[j].rec.trialId == ExactDedup(combined)[i].rec.trialId
    ensures ExactDedup(combined)[i].rec.sourceCode <= ExactDedup(combined)[j].rec.sourceCode
  {
    var out := ExactDedup(combined);
    var rs := Untagged(out);
    DedupMarksLaterRows(combined);
    if i < j {
      var g := [CellField(rs[i].trialId)];
      assert DedupKey(rs[i]) == g + [Number(rs[i].sourceCode)];
      assert DedupKey(rs[j]) == g + [Number(rs[j].sourceCode)];
      KeyLeOnLastNumber(g, rs[i].sourceCode, rs[j].sourceCode);
    }
  }

  /**
   * Stated on the merged input: each master record comes from a source at
   * least as high in priority as every merged record with its identifier.
   */
  lemma MasterIsHighestPriority(combined: seq<Record>, i: nat, r: Record)
    requires i < |combined| && ExactDedup(combined)[i].status == Master
    requires r in combined && r.trialId == ExactDedup(combined)[i].rec.trialId
    ensures ExactDedup(combined)[i].rec.sourceCode <= r.sourceCode
  {
    var out := ExactDedup(combined);
    var rs := Untagged(out);
    assert r in multiset(rs);
    var j :| 0 <= j < |rs| && rs[j] == r;
    MasterHasLowestCode(combined, i, j);
  }

  /** Deduplicating the records of a deduplicated table gives the same table. */
  lemma ExactDedupIdempotent(combined: seq<Record>)
    ensures ExactDedup(Untagged(ExactDedup(combined))) == ExactDedup(combined)
  {
    var rs := Untagged(ExactDedup(combined));
    SortByAscendingIsIdentity(rs, DedupKey);
  }
}
