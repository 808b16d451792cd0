/**
 * The session state the app keeps between reruns and the three steps that
 * change it: a new upload, which resets the results; the auto-deduplication
 * tab, which strips the identifier columns of the stored tables in place
 * and stores `sorted_df`; the "Remove Checked Records" button, which stores
 * `master_ids`, `master_records_df` and `sorted_df_manual`. The export tab
 * reads the state and picks the manual results when they are present.
 */
module Session {
  import opened Basics
  import opened Records
  import opened Adapters
  import opened Dedup
  import opened Candidates
  import opened Manual
  import opened Export

  /** Some source was uploaded, so the adapters' batch list is not empty. */
  predicate AnyUpload(u: Uploads) {
    u.central.Some? || u.embase.Some? || u.ct.Some? || u.ictrp.Some? || u.scanMedicine.Some?
  }

  /** The `sorted_df` the uploads produce, when their adapters succeed. */
  function Deduplicated(u: Uploads): Option<seq<Tagged>> {
    var c := Combined(u);
    if c.Success? then Some(ExactDedup(c.value)) else None
  }

  /** The entries of `st.session_state` the core reads and writes. */
  datatype State = State(
    uploads: Uploads,
    /** `sorted_df` */
    sorted: Option<seq<Tagged>>,
    /** `master_ids` */
    masterIds: Option<seq<Cell>>,
    /** `master_records_df` */
    masterRecords: Option<seq<Tagged>>,
    /** `sorted_df_manual` */
    manual: Option<seq<Tagged>>)

  /** The three results one removal of the identifiers `sel` stores for the table `sorted`. */
  ghost predicate RemovalOf(sorted: seq<Tagged>, sel: seq<Cell>, ids: Option<seq<Cell>>,
                            recs: Option<seq<Tagged>>, manual: Option<seq<Tagged>>) {
    ids == Some(MasterIds(sorted))
    && recs == Some(DropSelected(MasterRecords(sorted), sel))
    && manual == Some(Demoted(sorted, sel))
  }

  /**
   * A stored `sorted_df` is the deduplication of the stored uploads, and the
   * stored manual results come from one removal of `sel` applied to it.
   */
  ghost predicate Consistent(s: State, sel: seq<Cell>) {
    (s.sorted.Some? ==> s.sorted == Deduplicated(s.uploads))
    && (s.masterIds.Some? <==> s.masterRecords.Some?)
    && (s.masterRecords.Some? ==> s.sorted.Some? && RemovalOf(s.sorted.value, sel, s.masterIds, s.masterRecords, s.manual))
  }

  /** The stored manual results agree with each other: the master records are the normalised masters of `sorted_df_manual`. */
  lemma StoredRemovalAgrees(s: State, sel: seq<Cell>)
    requires Consistent(s, sel) && s.masterRecords.Some?
    ensures s.manual.Some? && s.masterRecords.value == MasterRecords(s.manual.value)
  {
    MasterRecordsAfterRemoval(s.sorted.value, sel);
  }

  /** In a consistent state every stored master is the only master of its identifier. */
  lemma StoredSortedHasOneMaster(s: State, sel: seq<Cell>)
    requires Consistent(s, sel) && s.sorted.Some?
    ensures OneMasterPerId(s.sorted.value) && EveryIdHasMaster(s.sorted.value)
    ensures s.manual.Some? && s.masterRecords.Some? ==> OneMasterPerId(s.manual.value)
  {
    ExactlyOneMaster(Combined(s.uploads).value);
    if s.masterRecords.Some? {
      DemotedKeepsOneMaster(s.sorted.value, sel);
    }
  }

  /**
   * The ticked rows of the candidate table name master identifiers only, so
   * a removal demotes candidates and nothing else.
   */
  lemma SelectionIsOfCandidates(sorted: seq<Tagged>, ticks: set<nat>, id: Cell)
    requires id in SelectedIds(Ticked(FindCandidates(MasterRecords(sorted)), ticks))
    ensures id in MasterIds(sorted)
  {
    var cands := FindCandidates(MasterRecords(sorted));
    var edited := Ticked(cands, ticks);
    var k :| 0 <= k < |edited| && edited[k].select && edited[k].row.rec.trialId == id;
    assert Rows(cands)[k] == cands[k].row;
    CandidatesAreMasters(MasterRecords(sorted), cands[k].row);
    var m := MasterRecords(sorted);
    var i :| 0 <= i < |m| && m[i] == cands[k].row;
    var t := WithStatus(sorted, Master)[i];
    assert t in WithStatus(sorted, Master);
  }

  class AppSession {
    var state: State
    /** The identifiers of the last manual removal. */
    ghost var selection: seq<Cell>

    ghost predicate Valid()
      reads this
    {
      Consistent(state, selection)
    }

    /** A fresh session: nothing uploaded, nothing computed. */
    constructor ()
      ensures Valid()
      ensures state == State(Uploads(None, None, None, None, None, None, None), None, None, None, None)
    {
      state := State(Uploads(None, None, None, None, None, None, None), None, None, None, None);
      selection := [];
    }

    /**
     * A file uploader's change callback and the parse that follows it: the
     * uploads are replaced and the stored results are reset, except
     * `sorted_df_manual`, which the callbacks leave in place.
     */
    method Upload(u: Uploads)
      requires Valid()
      modifies this
      ensures Valid()
      ensures state == State(u, None, None, None, old(state).manual)
      ensures selection == old(selection)
    {
      state := State(u, None, None, None, state.manual);
    }

    /**
     * The auto-deduplication tab: each uploaded table has its identifier
     * column stripped in place as its adapter runs, a missing identifier
     * column stops the run, and otherwise the deduplicated table is stored.
     */
    method AutoDeduplicate() returns (err: Option<AdaptError>)
      requires Valid()
      modifies this
      ensures Valid()
      ensures err.Some? <==> Combined(old(state).uploads).Failure?
      ensures err.Some? ==> err.value == Combined(old(state).uploads).error
      ensures state.uploads.ct == StripIdOf(old(state).uploads.ct, NctNumber)
      ensures state.uploads.ictrp ==
        if HasId(old(state).uploads.ct, NctNumber) then StripIdOf(old(state).uploads.ictrp, IctrpId)
        else old(state).uploads.ictrp
      ensures state.uploads.scanMedicine ==
        if HasId(old(state).uploads.ct, NctNumber) && HasId(old(state).uploads.ictrp, IctrpId)
        then StripIdOf(old(state).uploads.scanMedicine, ScanMedicineId) else old(state).uploads.scanMedicine
      ensures state.uploads.central == old(state).uploads.central && state.uploads.embase == old(state).uploads.embase
      ensures state.uploads.centralNonTrials == old(state).uploads.centralNonTrials
      ensures state.uploads.embaseNonTrials == old(state).uploads.embaseNonTrials
      ensures state.sorted ==
        if err.None? && AnyUpload(old(state).uploads) then Deduplicated(old(state).uploads) else old(state).sorted
      ensures state.masterIds == old(state).masterIds && state.masterRecords == old(state).masterRecords
      ensures state.manual == old(state).manual
      ensures selection == old(selection)
    {
      var u := state.uploads;
      ghost var before := u;
      if u.ct.Some? {
        if NctNumber !in u.ct.value.columns {
          return Some(MissingColumn(NctNumber));
        }
        u := u.(ct := Some(StripColumn(u.ct.value, NctNumber)));
      }
      if u.ictrp.Some? {
        if IctrpId !in u.ictrp.value.columns {
          state := state.(uploads := u);
          return Some(MissingColumn(IctrpId));
        }
        u := u.(ictrp := Some(StripColumn(u.ictrp.value, IctrpId)));
      }
      if u.scanMedicine.Some? {
        if ScanMedicineId !in u.scanMedicine.value.columns {
          state := state.(uploads := u);
          return Some(MissingColumn(ScanMedicineId));
        }
        u := u.(scanMedicine := Some(StripColumn(u.scanMedicine.value, ScanMedicineId)));
      }
      assert u == StripIds(before);
      CombinedAfterStrip(before);
      var combined := CombineSources(u);
      if AnyUpload(u) {
        state := state.(uploads := u, sorted := Some(ExactDedup(combined.value)));
      } else {
        state := state.(uploads := u);
      }
      err := None;
    }

    /** The candidate table the manual-deduplication tab shows for the stored `sorted_df`. */
    function ShownCandidates(): (c: seq<Candidate>)
      reads this
      requires state.sorted.Some?
      ensures forall k :: 0 <= k < |c| ==> !c[k].select
      ensures forall k :: 0 <= k < |c| ==> c[k].row in MasterRecords(state.sorted.value)
    {
      var c := FindCandidates(MasterRecords(state.sorted.value));
      forall k | 0 <= k < |c| ensures c[k].row in MasterRecords(state.sorted.value) {
        assert Rows(c)[k] == c[k].row;
        CandidatesAreMasters(MasterRecords(state.sorted.value), c[k].row);
      }
      c
    }

    /**
     * "Remove Checked Records" on the table `edited` the data editor returns:
     * the identifiers of its ticked rows are demoted in a copy of `sorted_df`
     * and dropped from the master records.
     */
    method RemoveChecked(edited: seq<Candidate>) returns (removed: nat)
      requires Valid() && state.sorted.Some?
      modifies this
      ensures selection == SelectedIds(edited)
      ensures state == old(state).(masterIds := Some(MasterIds(old(state).sorted.value)),
                                   masterRecords := Some(DropSelected(MasterRecords(old(state).sorted.value), selection)),
                                   manual := Some(Demoted(old(state).sorted.value, selection)))
      ensures removed == |selection|
      ensures Valid()
    {
      var rows := state.sorted.value;
      var sel := SelectedIds(edited);
      state := state.(masterIds := Some(MasterIds(rows)),
                      masterRecords := Some(DropSelected(MasterRecords(rows), sel)),
                      manual := Some(Demoted(rows, sel)));
      selection := sel;
      removed := |sel|;
    }

    /** The export tab: the manual results when a removal stored them, the automatic ones otherwise. */
    function Downloads(): (d: seq<(Db, Files)>)
      reads this
      requires state.masterIds.Some? && state.masterRecords.Some? ==> state.manual.Some?
      ensures state.masterIds.Some? && state.masterRecords.Some? ==>
        d == ManualDownloads(state.masterRecords.value, state.manual.value, state.uploads)
      ensures !(state.masterIds.Some? && state.masterRecords.Some?) && state.sorted.Some? ==>
        d == AutoDownloads(state.sorted.value, state.uploads)
      ensures !(state.masterIds.Some? && state.masterRecords.Some?) && state.sorted.None? ==> d == []
    {
      if state.masterIds.Some? && state.masterRecords.Some? then
        ManualDownloads(state.masterRecords.value, state.manual.value, state.uploads)
      else if state.sorted.Some? then AutoDownloads(state.sorted.value, state.uploads)
      else []
    }
  }
}
