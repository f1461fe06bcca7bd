/** Each step of the store, guards and refusals included, is the step of the reference machine. */
module MvccRefine {
  import opened Bytes
  import opened VersionChain
  import opened SnapshotSpec
  import opened MvccInvariant
  import opened MvccHistory
  import opened MvccSteps
  import opened MvccCommit
  import opened MvccReads
  import opened MvccWrites
  import opened MvccPurge

  /** The store has reached `next`, kept its invariant, and answered as the machine does. */
  ghost predicate Refines(s: State, c: Command, next: (State, Reply)) {
    Inv(next.0) && Steps(s.spec, c, next.0.spec, next.1)
  }

  ghost function TxnGuard(s: State, t: nat): Reply {
    if t !in s.pinned then Unknown
    else if s.parking.Some? && s.parking.value.txn == t then Busy
    else Done
  }

  ghost function RowGuard(s: State, t: nat): Reply {
    if t !in s.pinned then Unknown else if s.parking.Some? then Busy else Done
  }

  // Transactions ---------------------------------------------------------------------------------

  ghost function BeginNext(s: State): (State, Reply) { (Begun(s), Id(s.nextTxn)) }

  lemma BeginStep(s: State)
    requires Inv(s) && s.nextTxn < NO_UNDO
    ensures Refines(s, Begin, BeginNext(s))
  {
    hide Inv;
    Basics(s, 0);
    BeginKeeps(s);
  }

  ghost function RefreshNext(s: State, t: nat): (State, Reply) {
    if TxnGuard(s, t) != Done then (s, TxnGuard(s, t)) else (Refreshed(s, t), Done)
  }

  lemma RefreshStep(s: State, t: nat)
    requires Inv(s)
    ensures Refines(s, Refresh(t), RefreshNext(s, t))
  {
    hide Inv;
    Basics(s, t);
    if TxnGuard(s, t) == Done { RefreshKeeps(s, t); }
  }

  lemma DrainedHasNone(s: State, t: nat)
    ensures NoScans(Drained(s, t), t)
  {
  }

  ghost function CommitNext(s: State, t: nat): (State, Reply) {
    if TxnGuard(s, t) != Done then (s, TxnGuard(s, t)) else (Committed(Drained(s, t), t), Done)
  }

  lemma CommitStep(s: State, t: nat)
    requires Inv(s)
    ensures Refines(s, Commit(t), CommitNext(s, t))
  {
    hide Inv;
    Basics(s, t);
    if TxnGuard(s, t) == Done {
      DrainKeeps(s, t);
      DrainedHasNone(s, t);
      CommitKeeps(Drained(s, t), t);
    }
  }

  ghost function AbortNext(s: State, t: nat): (State, Reply) {
    if TxnGuard(s, t) != Done then (s, TxnGuard(s, t)) else (Aborted(Drained(s, t), t), Done)
  }

  lemma AbortStep(s: State, t: nat)
    requires Inv(s)
    ensures Refines(s, Abort(t), AbortNext(s, t))
  {
    hide Inv;
    Basics(s, t);
    if TxnGuard(s, t) == Done {
      DrainKeeps(s, t);
      DrainedHasNone(s, t);
      AbortKeeps(Drained(s, t), t);
    }
  }

  ghost function FinishNext(s: State, t: nat): (State, Reply) {
    if t !in s.active || t in s.pinned then (s, Unknown)
    else if LogOf(s, t) != [] then (s, Busy)
    else (Finished(s, t), Done)
  }

  lemma FinishStep(s: State, t: nat)
    requires Inv(s)
    ensures Refines(s, Finish(t), FinishNext(s, t))
  {
    hide Inv;
    Basics(s, t);
    if FinishNext(s, t).1 == Done { FinishKeeps(s, t); }
  }

  ghost function BackNext(s: State, t: nat): (State, Reply) {
    if t !in s.active then (s, Unknown)
    else if s.parking.Some? then (s, Busy)
    else (BackState(Drained(s, t), t), Done)
  }

  lemma BackStep(s: State, t: nat)
    requires Inv(s)
    ensures Refines(s, StepBack(t), BackNext(s, t))
  {
    hide Inv;
    Basics(s, t);
    if t in s.active && s.parking.None? {
      var d := Drained(s, t);
      DrainKeeps(s, t);
      DrainedHasNone(s, t);
      if s.undo[t] != [] {
        BackReady(d, t);
        BackKeeps(d, t);
      } else {
        assert StepsBack(d.spec, t).writes == d.spec.writes;
      }
    }
  }

  lemma BackReady(s: State, t: nat)
    requires Inv(s) && t in s.active && LogOf(s, t) != []
    ensures t in s.undo && s.undo[t] != []
    ensures var op := s.undo[t][|s.undo[t]| - 1]; op.row in s.rows && op.row in s.hist && s.hist[op.row] != []
  {
    hide RowsOk;
    BackTop(s, t);
  }

  // Writes ---------------------------------------------------------------------------------------

  ghost function InsertNext(s: State, t: nat, tuple: Tuple): (State, Reply) {
    if RowGuard(s, t) != Done then (s, RowGuard(s, t)) else (InsertedState(s, t, tuple), Id(s.nextRow))
  }

  lemma InsertStep(s: State, t: nat, tuple: Tuple)
    requires Inv(s)
    ensures Refines(s, Insert(t, tuple), InsertNext(s, t, tuple))
  {
    hide Inv;
    Basics(s, t);
    if RowGuard(s, t) == Done { InsertKeeps(s, t, tuple); }
  }

  /** What the header of the row's newest version says to a writer. */
  ghost function Admission(s: State, t: nat, row: nat): Reply {
    if row !in s.rows || t !in s.pinned then NotFound
    else AdmitWrite(s.active, s.pinned[t], t, s.rows[row].meta)
  }

  lemma AdmissionIs(s: State, t: nat, row: nat)
    requires Inv(s) && t in s.pinned
    ensures t in s.spec.writes && t in s.spec.at && s.spec.history != [] && Admission(s, t, row) == Admit(s.spec, t, row)
    ensures Admission(s, t, row) == Done ==> MayWrite(s, t, row) && row in s.hist && s.hist[row] != []
  {
    hide RowOk, TxnOk, ScanOk, SlotOk, PassesOk, Admit;
    Basics(s, t);
    AdmitExact(s, t, row);
    if row in s.rows { LeafHasHistory(s, row); }
  }

  lemma LeafHasHistory(s: State, row: nat)
    requires RowsOk(s) && row in s.rows
    ensures row in s.hist && s.hist[row] != []
  {
    assert RowOk(s, row);
  }

  ghost function DeleteNext(s: State, t: nat, row: nat): (State, Reply) {
    if RowGuard(s, t) != Done then (s, RowGuard(s, t))
    else if Admission(s, t, row) != Done then (Drained(s, t), Admission(s, t, row))
    else (DeletedState(Drained(s, t), t, row), Done)
  }

  lemma DeleteStep(s: State, t: nat, row: nat)
    requires Inv(s)
    ensures Refines(s, Delete(t, row), DeleteNext(s, t, row))
  {
    hide Inv, MayWrite, Admit, AdmitWrite;
    Basics(s, t);
    if RowGuard(s, t) == Done {
      AdmissionIs(s, t, row);
      DrainKeeps(s, t);
      DrainedHasNone(s, t);
      if Admission(s, t, row) == Done {
        AdmissionIs(Drained(s, t), t, row);
        DeleteKeeps(Drained(s, t), t, row);
      }
    }
  }

  ghost function ParkNext(s: State, t: nat, row: nat): (State, Reply) {
    if RowGuard(s, t) != Done then (s, RowGuard(s, t))
    else if Admission(s, t, row) != Done then (Drained(s, t), Admission(s, t, row))
    else (ParkedState(Drained(s, t), t, row), Done)
  }

  lemma ParkStep(s: State, t: nat, row: nat)
    requires Inv(s) && |s.arena| < NO_UNDO
    ensures Refines(s, Park(t, row), ParkNext(s, t, row))
  {
    hide Inv, MayWrite, Admit, AdmitWrite;
    Basics(s, t);
    if RowGuard(s, t) == Done {
      AdmissionIs(s, t, row);
      DrainKeeps(s, t);
      DrainedHasNone(s, t);
      if Admission(s, t, row) == Done {
        AdmissionIs(Drained(s, t), t, row);
        ParkKeeps(Drained(s, t), t, row);
      }
    }
  }

  ghost function InstallNext(s: State, tuple: Tuple): (State, Reply) {
    if s.parking.None? then (s, Unknown) else (InstalledState(s, tuple), Done)
  }

  lemma InstallStep(s: State, tuple: Tuple)
    requires Inv(s)
    ensures Refines(s, Install(tuple), InstallNext(s, tuple))
  {
    hide RowsOk, ViewsOk, PassesOk, SlotsOk, TxnOk;
    Basics(s, 0);
    if s.parking.Some? {
      LeafHasHistory(s, s.parking.value.row);
      InstallKeeps(s, tuple);
    }
  }

  lemma ParkingReady(s: State)
    requires Inv(s) && s.parking.Some?
    ensures s.parking.value.txn in s.undo && s.parking.value.row in s.rows
  {
    hide RowsOk, ViewsOk, PassesOk, SlotsOk, TxnOk;
  }

  lemma FreeInRange(s: State)
    requires Inv(s)
    ensures s.free != [] ==> s.free[|s.free| - 1] < |s.arena|
  {
    hide RowsOk, ViewsOk, PassesOk, TxnsOk;
  }

  // Scans ----------------------------------------------------------------------------------------

  ghost function OpenNext(s: State, t: nat): (State, Reply) {
    if TxnGuard(s, t) != Done then (s, TxnGuard(s, t)) else (Opened(s, t), Id(s.nextScan))
  }

  lemma OpenStep(s: State, t: nat)
    requires Inv(s)
    ensures Refines(s, OpenScan(t), OpenNext(s, t))
  {
    hide Inv;
    Basics(s, t);
    if TxnGuard(s, t) == Done { OpenKeeps(s, t); }
  }

  ghost function CloseNext(s: State, k: nat): (State, Reply) {
    if k !in s.scans then (s, Unknown) else (Closed(s, k), Done)
  }

  lemma CloseStep(s: State, k: nat)
    requires Inv(s)
    ensures Refines(s, CloseScan(k), CloseNext(s, k))
  {
    hide Inv;
    Basics(s, k);
    CloseKeeps(s, k);
  }

  /** The undo pointers of a row lead through its whole history, and never to a freed slot. */
  lemma {:induction false} WalkReady(s: State, row: nat)
    requires Inv(s) && row in s.rows
    ensures Follows(s.rows[row].meta, s.arena, Older(Hist(s, row)))
    ensures Hist(s, row) == [s.rows[row]] + Older(Hist(s, row))
    ensures row in s.hist && Linked(s.arena, s.use, row, s.hist[row])
  {
    hide TxnsOk, ViewsOk, PassesOk, SlotsOk, ParkingOk, Stacked, Base;
    assert RowOk(s, row);
    LinkedFollows(s.arena, s.use, row, s.hist[row]);
  }

  // Reads ----------------------------------------------------------------------------------------

  lemma NoLeaf(s: State, row: nat)
    requires Inv(s) && row !in s.rows
    ensures Hist(s, row) == []
  {
    hide TxnsOk, ViewsOk, PassesOk, SlotsOk, ParkingOk;
    assert RowOk(s, row);
  }

  lemma ReadUnknown(s: State, t: nat, row: nat)
    requires Inv(s) && t !in s.pinned
    ensures Steps(s.spec, Read(t, row), s.spec, Unknown)
  {
    hide Inv;
    Basics(s, t);
  }

  lemma ScanUnknown(s: State, k: nat, row: nat)
    requires Inv(s) && k !in s.scans
    ensures Steps(s.spec, ReadScan(k, row), s.spec, Unknown)
  {
    hide Inv;
    Basics(s, k);
  }

  /** A transaction reads its snapshot plus its own writes. */
  lemma ReadStep(s: State, t: nat, row: nat)
    requires Inv(s) && t in s.pinned
    ensures Steps(s.spec, Read(t, row), s.spec, Value(Shown(Hist(s, row), SeenBy(s.pinned[t]))))
  {
    hide RowOk, ScanOk, SlotOk, TxnOk, PassesOk, ParkingOk, Shown, SeenBy, ViewOk;
    Basics(s, t);
    assert RowOk(s, row) && Saw(s, row) && PinnedOk(s, t);
    PinnedLive(s, t);
    ReadExact(s, s.pinned[t], t, s.spec.at[t], row);
  }

  /** A scan reads, however late, the table as it stood for its transaction when it was opened. */
  lemma ScanStep(s: State, k: nat, row: nat)
    requires Inv(s) && k in s.scans
    ensures Steps(s.spec, ReadScan(k, row), s.spec,
                  Value(if row < s.scans[k].end then Shown(Hist(s, row), SeenBy(s.scans[k].view)) else None))
  {
    hide RowOk, SlotOk, TxnOk, PassesOk, ParkingOk, Shown, SeenBy, ViewOk, PinnedOk;
    Basics(s, k);
    assert RowOk(s, row) && Saw(s, row) && ScanOk(s, k);
    var c, at := s.scans[k], s.scanAt[k];
    ViewTime(s, c.view, c.txn, at);
    assert Get(s.spec.cursors[k].content, row) == if row < c.end then Expected(s.spec, c.txn, at, row) else None;
    assert LiveTime(s, at);
    ReadExact(s, c.view, c.txn, at, row);
  }

  // Purge ----------------------------------------------------------------------------------------

  ghost function SnapshotNext(s: State): (State, Reply) {
    (s.(passes := s.passes + [SnapshotPass(s)]), Done)
  }

  lemma SnapshotStep(s: State)
    requires Inv(s)
    ensures Refines(s, PurgeSnapshot, SnapshotNext(s))
  {
    hide Inv;
    Basics(s, 0);
    SnapshotKeeps(s);
  }

  lemma PassSettles(s: State, x: nat)
    requires Inv(s)
    ensures Settled(SnapshotPass(s), x) <==> SeenByAll(s, x)
    ensures SeenByAll(s.(passes := s.passes + [SnapshotPass(s)]), x) <==> SeenByAll(s, x)
  {
    SnapshotSettles(s, x);
  }

  ghost function PurgeRowNext(s: State, i: nat, row: nat): State {
    if i >= |s.passes| || s.parking.Some? || row !in s.rows then s
    else
      var p, m := s.passes[i], s.rows[row].meta;
      if m.xmax != NO_XMAX && Settled(p, m.xmax) then RemovedState(s, row)
      else if m.undo != NO_UNDO && Settled(p, m.xmin) then UnchainedState(s, row)
      else s
  }

  /** A pass acts on a row only when every observer sees the stamp it acts on. */
  lemma PurgeRowKeeps(s: State, i: nat, row: nat)
    requires Inv(s)
    ensures Inv(PurgeRowNext(s, i, row))
  {
    hide RowOk, SlotOk, TxnOk, ScanOk, ViewsOk, TxnsOk, SlotsOk, ParkingOk, SeenByAll, Settled, RemovedState, UnchainedState;
    if i < |s.passes| && s.parking.None? && row in s.rows {
      var p, m := s.passes[i], s.rows[row].meta;
      LeafHasHistory(s, row);
      if m.xmax != NO_XMAX && Settled(p, m.xmax) {
        RemoveKeeps(s, row);
      } else if m.undo != NO_UNDO && Settled(p, m.xmin) {
        UnchainKeeps(s, row);
      }
    }
  }

  lemma PurgeRowStep(s: State, i: nat, row: nat)
    requires Inv(s)
    ensures Refines(s, PurgeRow(i, row), (PurgeRowNext(s, i, row), Done))
  {
    hide Inv, Settled;
    Basics(s, 0);
    PurgeRowKeeps(s, i, row);
  }

  lemma PurgeSkipped(s: State, i: nat)
    requires Inv(s)
    ensures Steps(s.spec, PurgeOrphans(i), s.spec, Done)
  {
    hide Inv;
    Basics(s, 0);
  }

  lemma OrphanReady(s: State, j: nat)
    requires Inv(s) && j < |s.orphans|
    ensures s.orphans[j].slot < |s.arena| && s.arena[s.orphans[j].slot].Some?
    ensures Inv(OrphanFreed(s, j))
  {
    hide TxnsOk, ViewsOk, PassesOk, RowsOk, ParkingOk;
    assert SlotOk(s, s.orphans[j].slot);
    OrphanKeeps(s, j);
  }
}
